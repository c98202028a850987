/** The horizontal-swipe handling of `ArtPieceScreen` in MainActivity.kt: a
    one-shot latch, re-armed when a drag starts, that lets the first drag
    event whose own displacement passes the threshold fire one navigation
    request and silences the rest of the gesture. */
module Swipe {
  import opened Gallery

  /** Distance a single drag event must exceed to count as a swipe. */
  const Threshold: real := 100.0

  /** What one drag event asks the gallery to do. */
  datatype Action = NoAction | FireNext | FireBack

  /** The action fired by one drag event and the latch left behind. */
  datatype Outcome = Outcome(fired: Action, latched: bool)

  /** A displacement far enough left or right to be a swipe. */
  predicate Crosses(amount: real)
  {
    amount < -Threshold || amount > Threshold
  }

  /** The request a crossing displacement stands for: leftward is next,
      rightward is back. */
  function Direction(amount: real): Action
  {
    if amount < -Threshold then FireNext
    else if amount > Threshold then FireBack
    else NoAction
  }

  /** One `onHorizontalDrag` callback. A set latch silences the event; an
      unset one fires next for a displacement below -100 and back for one
      above 100, and sets the latch exactly when something fires. */
  function DragStep(latched: bool, amount: real): (o: Outcome)
    ensures o.fired == FireNext <==> !latched && amount < -Threshold
    ensures o.fired == FireBack <==> !latched && amount > Threshold
    ensures o.latched <==> latched || o.fired != NoAction
  {
    if latched then Outcome(NoAction, true)
    else if amount < -Threshold then Outcome(FireNext, true)
    else if amount > Threshold then Outcome(FireBack, true)
    else Outcome(NoAction, false)
  }

  /** The actions fired by a run of drag events, one per event, starting
      from the given latch. */
  function Fired(latched: bool, amounts: seq<real>): (acts: seq<Action>)
    ensures |acts| == |amounts|
    decreases |amounts|
  {
    if amounts == [] then []
    else
      var o := DragStep(latched, amounts[0]);
      [o.fired] + Fired(o.latched, amounts[1..])
  }

  /** The latch left after a run of drag events. */
  function LatchAfter(latched: bool, amounts: seq<real>): bool
    decreases |amounts|
  {
    if amounts == [] then latched
    else LatchAfter(DragStep(latched, amounts[0]).latched, amounts[1..])
  }

  /** The actions fired by one whole gesture: `onDragStart` clears the latch,
      then every drag event is handled in turn. */
  function Gesture(amounts: seq<real>): seq<Action>
  {
    Fired(false, amounts)
  }

  /** How many navigation requests a run of actions makes. */
  function CountFired(acts: seq<Action>): nat
  {
    if acts == [] then 0
    else (if acts[0] == NoAction then 0 else 1) + CountFired(acts[1..])
  }

  /** The gallery position after a run of actions. */
  function ApplyAction(i: int, n: int, a: Action): int
  {
    match a
    case NoAction => i
    case FireNext => NextIndex(i, n)
    case FireBack => BackIndex(i, n)
  }

  function RunActions(i: int, n: int, acts: seq<Action>): int
    decreases |acts|
  {
    if acts == [] then i else RunActions(ApplyAction(i, n, acts[0]), n, acts[1..])
  }

  /** Once the latch is set, no drag event fires anything and the latch
      stays set. */
  lemma {:induction false} LatchedIsSilent(amounts: seq<real>)
    ensures forall k :: 0 <= k < |amounts| ==> Fired(true, amounts)[k] == NoAction
    ensures CountFired(Fired(true, amounts)) == 0
    ensures LatchAfter(true, amounts)
  {
    if amounts != [] {
      LatchedIsSilent(amounts[1..]);
    }
  }

  /** At most one navigation request fires between two drag starts, and
      none once the latch is set. */
  lemma {:induction false} AtMostOneAction(latched: bool, amounts: seq<real>)
    ensures CountFired(Fired(latched, amounts)) <= (if latched then 0 else 1)
  {
    if amounts != [] {
      var o := DragStep(latched, amounts[0]);
      if o.latched {
        LatchedIsSilent(amounts[1..]);
      } else {
        AtMostOneAction(false, amounts[1..]);
      }
    }
  }

  /** A gesture none of whose events passes the threshold fires nothing and
      leaves the latch unset. */
  lemma {:induction false} SilentWithoutCrossing(amounts: seq<real>)
    requires forall j :: 0 <= j < |amounts| ==> !Crosses(amounts[j])
    ensures forall j :: 0 <= j < |amounts| ==> Gesture(amounts)[j] == NoAction
    ensures !LatchAfter(false, amounts)
  {
    if amounts != [] {
      assert Gesture(amounts) == [NoAction] + Gesture(amounts[1..]);
      SilentWithoutCrossing(amounts[1..]);
    }
  }

  /** In a gesture, the first event that passes the threshold fires the
      request matching its direction, and every other event fires nothing. */
  lemma {:induction false} FiresAtFirstCrossing(amounts: seq<real>, k: nat)
    requires k < |amounts| && Crosses(amounts[k])
    requires forall j :: 0 <= j < k ==> !Crosses(amounts[j])
    ensures Gesture(amounts)[k] == Direction(amounts[k])
    ensures forall j :: 0 <= j < |amounts| && j != k ==> Gesture(amounts)[j] == NoAction
    ensures CountFired(Gesture(amounts)) == 1
    ensures LatchAfter(false, amounts)
  {
    if k == 0 {
      LatchedIsSilent(amounts[1..]);
    } else {
      FiresAtFirstCrossing(amounts[1..], k - 1);
    }
  }

  /** The drag trace 0, -50, -120, -200, -90 turns exactly one page forward,
      at the first crossing of -100. */
  lemma ExampleTrace()
    ensures Gesture([0.0, -50.0, -120.0, -200.0, -90.0])
         == [NoAction, NoAction, FireNext, NoAction, NoAction]
  {
  }

  /** Across one gesture the gallery position moves by at most one and stays
      inside the gallery; with the latch already set it does not move. */
  lemma {:induction false} GestureMovesAtMostOne(latched: bool, i: int, n: int, amounts: seq<real>)
    requires InBounds(i, n)
    ensures InBounds(RunActions(i, n, Fired(latched, amounts)), n)
    ensures latched ==> RunActions(i, n, Fired(latched, amounts)) == i
    ensures i - 1 <= RunActions(i, n, Fired(latched, amounts)) <= i + 1
    decreases |amounts|
  {
    if amounts != [] {
      var o := DragStep(latched, amounts[0]);
      var j := ApplyAction(i, n, o.fired);
      if o.latched {
        GestureMovesAtMostOne(true, j, n, amounts[1..]);
      } else {
        GestureMovesAtMostOne(false, i, n, amounts[1..]);
      }
    }
  }

  /** Partway through a gesture: the actions fired so far, followed by what
      the remaining events fire from the current latch, make up the whole
      gesture, and lead to the same latch and gallery position. */
  ghost predicate Replaying(amounts: seq<real>, i0: int, n: int, acts: seq<Action>,
                            rest: seq<real>, latched: bool, i: int)
  {
    && acts + Fired(latched, rest) == Gesture(amounts)
    && LatchAfter(latched, rest) == LatchAfter(false, amounts)
    && RunActions(i, n, Fired(latched, rest)) == RunActions(i0, n, Gesture(amounts))
  }

  /** Handling one more drag event keeps a replay in step. */
  lemma ReplayStep(amounts: seq<real>, i0: int, n: int, acts: seq<Action>,
                   rest: seq<real>, latched: bool, i: int)
    requires rest != [] && Replaying(amounts, i0, n, acts, rest, latched, i)
    ensures var o := DragStep(latched, rest[0]);
      Replaying(amounts, i0, n, acts + [o.fired], rest[1..], o.latched, ApplyAction(i, n, o.fired))
  {
  }

  /** The `hasSwiped` flag of `ArtPieceScreen`. */
  class SwipeLatch {
    var hasSwiped: bool

    /** `remember { mutableStateOf(false) }`. */
    constructor ()
      ensures !hasSwiped
    {
      hasSwiped := false;
    }

    /** `onDragStart`: re-arms the latch whatever its previous value. */
    method DragStart()
      modifies this
      ensures !hasSwiped
    {
      hasSwiped := false;
    }

    /** `onHorizontalDrag`: handles one drag event against the gallery it
        navigates, and reports which request, if any, it made. */
    method Drag(amount: real, gallery: GalleryScreen) returns (fired: Action)
      requires gallery.Valid()
      modifies this, gallery
      ensures gallery.Valid()
      ensures Outcome(fired, hasSwiped) == DragStep(old(hasSwiped), amount)
      ensures gallery.index == ApplyAction(old(gallery.index), |gallery.items|, fired)
    {
      fired := NoAction;
      if !hasSwiped {
        if amount < -Threshold {
          gallery.Next();
          hasSwiped := true;
          fired := FireNext;
        }
        if amount > Threshold {
          gallery.Back();
          hasSwiped := true;
          fired := FireBack;
        }
      }
    }

    /** One whole gesture as the toolkit delivers it: a drag start, then the
        drag events in order. The requests made are those of `Gesture`, and
        the position moves by at most one. */
    method PlayGesture(amounts: seq<real>, gallery: GalleryScreen) returns (acts: seq<Action>)
      requires gallery.Valid()
      modifies this, gallery
      ensures gallery.Valid()
      ensures acts == Gesture(amounts)
      ensures hasSwiped == LatchAfter(false, amounts)
      ensures gallery.index == RunActions(old(gallery.index), |gallery.items|, acts)
      ensures old(gallery.index) - 1 <= gallery.index <= old(gallery.index) + 1
    {
      ghost var n, i0 := |gallery.items|, gallery.index;
      DragStart();
      acts := [];
      var rest := amounts;
      while rest != []
        invariant gallery.Valid() && |gallery.items| == n
        invariant Replaying(amounts, i0, n, acts, rest, hasSwiped, gallery.index)
        decreases |rest|
      {
        ghost var latched, i := hasSwiped, gallery.index;
        var a := Drag(rest[0], gallery);
        ReplayStep(amounts, i0, n, acts, rest, latched, i);
        acts := acts + [a];
        rest := rest[1..];
      }
      GestureMovesAtMostOne(false, i0, n, amounts);
    }
  }
}
