/** The gallery screen of ArtSpace: a fixed, non-empty list of art pieces and
    one mutable position in it, moved by saturating `next` and `back` requests
    (`ArtGalleryScreen` in MainActivity.kt). */
module Gallery {

  /** One artwork as read from the bundled asset; a plain immutable value. */
  datatype ArtPiece = ArtPiece(title: string, author: string, imageUrl: string)

  /** The two navigation requests that a button press or a swipe can make. */
  datatype Command = Next | Back

  /** Outcome of indexing a list: the element, or the exception the runtime
      throws for an index outside the list. */
  datatype Lookup<T> = Found(value: T) | IndexOutOfBounds(index: int)

  /** `artPieces[i]` on a list: defined exactly for indices inside the list. */
  function At(items: seq<ArtPiece>, i: int): (r: Lookup<ArtPiece>)
    ensures r.Found? <==> 0 <= i < |items|
    ensures r.Found? ==> r.value == items[i] && r.value in items
    ensures r.IndexOutOfBounds? ==> r.index == i
  {
    if 0 <= i < |items| then Found(items[i]) else IndexOutOfBounds(i)
  }

  /** `i` is a position of a gallery of `n` pieces. */
  predicate InBounds(i: int, n: int)
  {
    0 <= i < n
  }

  /** The position after `onNext`: one further while a later piece exists,
      otherwise unchanged (it saturates at the last piece and never wraps). */
  function NextIndex(i: int, n: int): (r: int)
    ensures InBounds(i, n) ==> InBounds(r, n)
    ensures r == i || r == i + 1
    ensures r == i + 1 <==> i < n - 1
  {
    if i < n - 1 then i + 1 else i
  }

  /** The position after `onBack`: one earlier while an earlier piece exists,
      otherwise unchanged (it saturates at the first piece and never wraps). */
  function BackIndex(i: int, n: int): (r: int)
    ensures InBounds(i, n) ==> InBounds(r, n)
    ensures r == i || r == i - 1
    ensures r == i - 1 <==> i > 0
  {
    if i > 0 then i - 1 else i
  }

  function Step(i: int, n: int, c: Command): int
  {
    match c
    case Next => NextIndex(i, n)
    case Back => BackIndex(i, n)
  }

  /** The position reached from `i` after the requests `cmds`, in order.
      Every intermediate position stays inside the gallery, and each request
      moves the position by at most one. */
  function Run(i: int, n: int, cmds: seq<Command>): (r: int)
    ensures InBounds(i, n) ==> InBounds(r, n)
    ensures i - |cmds| <= r <= i + |cmds|
    decreases |cmds|
  {
    if cmds == [] then i else Run(Step(i, n, cmds[0]), n, cmds[1..])
  }

  /** `k` copies of the same request. */
  function Repeat(c: Command, k: nat): (r: seq<Command>)
    ensures |r| == k
    ensures forall j :: 0 <= j < k ==> r[j] == c
  {
    if k == 0 then [] else [c] + Repeat(c, k - 1)
  }

  function Min(a: int, b: int): int { if a <= b then a else b }

  function Max(a: int, b: int): int { if a >= b then a else b }

  /** Running two batches of requests is running their concatenation. */
  lemma {:induction false} RunAppend(i: int, n: int, a: seq<Command>, b: seq<Command>)
    ensures Run(i, n, a + b) == Run(Run(i, n, a), n, b)
    decreases |a|
  {
    if a != [] {
      assert (a + b)[0] == a[0];
      assert (a + b)[1..] == a[1..] + b;
      RunAppend(Step(i, n, a[0]), n, a[1..], b);
    } else {
      assert a + b == b;
    }
  }

  /** `k` presses of next from a valid position land on `min(i + k, n - 1)`. */
  lemma {:induction false} NextsSaturate(i: int, n: int, k: nat)
    requires InBounds(i, n)
    ensures Run(i, n, Repeat(Next, k)) == Min(i + k, n - 1)
    decreases k
  {
    if k > 0 {
      assert Repeat(Next, k)[1..] == Repeat(Next, k - 1);
      NextsSaturate(NextIndex(i, n), n, k - 1);
    }
  }

  /** `k` presses of back from a valid position land on `max(i - k, 0)`. */
  lemma {:induction false} BacksSaturate(i: int, n: int, k: nat)
    requires InBounds(i, n)
    ensures Run(i, n, Repeat(Back, k)) == Max(i - k, 0)
    decreases k
  {
    if k > 0 {
      assert Repeat(Back, k)[1..] == Repeat(Back, k - 1);
      BacksSaturate(BackIndex(i, n), n, k - 1);
    }
  }

  /** At the last piece, any number of next presses leaves the position alone. */
  lemma {:induction false} NextIdempotentAtLast(n: int, k: nat)
    requires n > 0
    ensures Run(n - 1, n, Repeat(Next, k)) == n - 1
  {
    NextsSaturate(n - 1, n, k);
  }

  /** At the first piece, any number of back presses leaves the position alone. */
  lemma {:induction false} BackIdempotentAtFirst(n: int, k: nat)
    requires n > 0
    ensures Run(0, n, Repeat(Back, k)) == 0
  {
    BacksSaturate(0, n, k);
  }

  /** One back undoes one next taken below the last piece, and one next
      undoes one back taken above the first piece. */
  lemma BackUndoesNext(i: int, n: int)
    requires InBounds(i, n)
    ensures i < n - 1 ==> BackIndex(NextIndex(i, n), n) == i
    ensures i > 0 ==> NextIndex(BackIndex(i, n), n) == i
  {
  }

  /** `k` nexts followed by `k` backs return to the start whenever the nexts
      did not reach past the last piece. */
  lemma {:induction false} NextsThenBacksRestore(i: int, n: int, k: nat)
    requires InBounds(i, n) && i + k <= n - 1
    ensures Run(i, n, Repeat(Next, k) + Repeat(Back, k)) == i
  {
    RunAppend(i, n, Repeat(Next, k), Repeat(Back, k));
    NextsSaturate(i, n, k);
    BacksSaturate(i + k, n, k);
  }

  /** `k` backs followed by `k` nexts return to the start whenever the backs
      did not reach past the first piece. */
  lemma {:induction false} BacksThenNextsRestore(i: int, n: int, k: nat)
    requires InBounds(i, n) && i - k >= 0
    ensures Run(i, n, Repeat(Back, k) + Repeat(Next, k)) == i
  {
    RunAppend(i, n, Repeat(Back, k), Repeat(Next, k));
    BacksSaturate(i, n, k);
    NextsSaturate(i - k, n, k);
  }

  /** The state held by `ArtGalleryScreen`: the pieces it was given and the
      current position, which only `Next` and `Back` change. */
  class GalleryScreen {
    const items: seq<ArtPiece>
    var index: int

    ghost predicate Valid()
      reads this
    {
      |items| > 0 && InBounds(index, |items|)
    }

    /** The caller supplies a non-empty list and a start position inside it;
        the start position is taken as given, not clamped. */
    constructor (artPieces: seq<ArtPiece>, startIndex: int)
      requires |artPieces| > 0 && 0 <= startIndex < |artPieces|
      ensures Valid()
      ensures items == artPieces && index == startIndex
    {
      items := artPieces;
      index := startIndex;
    }

    /** `onNext`. */
    method Next()
      requires Valid()
      modifies this
      ensures Valid()
      ensures index == NextIndex(old(index), |items|)
    {
      if index < |items| - 1 {
        index := index + 1;
      }
    }

    /** `onBack`. */
    method Back()
      requires Valid()
      modifies this
      ensures Valid()
      ensures index == BackIndex(old(index), |items|)
    {
      if index > 0 {
        index := index - 1;
      }
    }

    /** The piece on screen: the list lookup at the current position, which
        never fails while the screen is valid. */
    function Current(): (p: ArtPiece)
      reads this
      requires Valid()
      ensures At(items, index) == Found(p)
    {
      items[index]
    }
  }

  /** A walk through a three-piece gallery from the first piece: next, next,
      next (saturated at the last), back; the pieces shown after each press. */
  method ExampleTour(a: ArtPiece, b: ArtPiece, c: ArtPiece) returns (shown: seq<ArtPiece>)
    ensures shown == [b, c, c, b]
  {
    var screen := new GalleryScreen([a, b, c], 0);
    screen.Next();
    shown := [screen.Current()];
    screen.Next();
    shown := shown + [screen.Current()];
    screen.Next();
    shown := shown + [screen.Current()];
    screen.Back();
    shown := shown + [screen.Current()];
  }
}
