/**
 * Deck generation: the 4 x 4 x 4 card universe built by three nested loops,
 * doubled into 128 cards and shuffled in place by Fisher-Yates.  The random
 * index of each swap is an oracle input `picks[i]` with 0 <= picks[i] <= i.
 */
module Deck {
  import opened Cards

  const LocalShapes: seq<Shape> := [Triangle, Star, Cross, Circle]
  const LocalColors: seq<Color> := [Red, Green, Blue, Yellow]
  const Numbers: seq<int> := [1, 2, 3, 4]

  /** The cards the innermost loop pushes for one shape and color, one per number. */
  function NumberRow(sh: Shape, co: Color, ns: seq<int>): (r: seq<Card>)
    ensures |r| == |ns|
  {
    if ns == [] then []
    else NumberRow(sh, co, ns[..|ns| - 1]) + [Card(sh, co, ns[|ns| - 1])]
  }

  /** The cards the middle loop pushes for one shape. */
  function ColorRows(sh: Shape, cs: seq<Color>): (r: seq<Card>)
    ensures |r| == |cs| * |Numbers|
  {
    if cs == [] then []
    else ColorRows(sh, cs[..|cs| - 1]) + NumberRow(sh, cs[|cs| - 1], Numbers)
  }

  /** The cards the outer loop pushes for the shapes of `ss`. */
  function ShapeRows(ss: seq<Shape>): (r: seq<Card>)
    ensures |r| == |ss| * |LocalColors| * |Numbers|
  {
    if ss == [] then []
    else ShapeRows(ss[..|ss| - 1]) + ColorRows(ss[|ss| - 1], LocalColors)
  }

  /** The 64 distinct cards, in the order the nested loops produce them. */
  function Universe(): seq<Card> {
    ShapeRows(LocalShapes)
  }

  lemma {:induction false} NumberRowCount(sh: Shape, co: Color, ns: seq<int>, c: Card)
    ensures multiset(NumberRow(sh, co, ns))[c] ==
      if c.shape == sh && c.color == co then multiset(ns)[c.number] else 0
  {
    if ns != [] {
      var init, last := ns[..|ns| - 1], ns[|ns| - 1];
      assert ns == init + [last];
      NumberRowCount(sh, co, init, c);
    }
  }

  /** Each number 1 to 4 occurs once in the inner loop's list, and nothing else does. */
  lemma NumbersCount(n: int)
    ensures multiset(Numbers)[n] == if 1 <= n <= 4 then 1 else 0
  {
  }

  /** Each color occurs once in the middle loop's list. */
  lemma ColorsCount(co: Color)
    ensures multiset(LocalColors)[co] == 1
  {
  }

  /** Each shape occurs once in the outer loop's list. */
  lemma ShapesCount(sh: Shape)
    ensures multiset(LocalShapes)[sh] == 1
  {
  }

  lemma {:induction false} ColorRowsCount(sh: Shape, cs: seq<Color>, c: Card)
    ensures multiset(ColorRows(sh, cs))[c] ==
      if c.shape == sh && InUniverse(c) then multiset(cs)[c.color] else 0
  {
    if cs != [] {
      var init, last := cs[..|cs| - 1], cs[|cs| - 1];
      assert cs == init + [last];
      ColorRowsCount(sh, init, c);
      NumberRowCount(sh, last, Numbers, c);
      NumbersCount(c.number);
    }
  }

  lemma {:induction false} ShapeRowsCount(ss: seq<Shape>, c: Card)
    ensures multiset(ShapeRows(ss))[c] == if InUniverse(c) then multiset(ss)[c.shape] else 0
  {
    if ss != [] {
      var init, last := ss[..|ss| - 1], ss[|ss| - 1];
      assert ss == init + [last];
      ShapeRowsCount(init, c);
      ColorRowsCount(last, LocalColors, c);
      ColorsCount(c.color);
    }
  }

  /** The universe has 64 cards and holds each (shape, color, number) combination exactly once. */
  lemma UniverseCount(c: Card)
    ensures |Universe()| == 64
    ensures multiset(Universe())[c] == if InUniverse(c) then 1 else 0
  {
    ShapeRowsCount(LocalShapes, c);
    ShapesCount(c.shape);
  }

  /** The innermost loop: one card per number, for a fixed shape and color. */
  method PushNumberRow(cards: seq<Card>, shape: Shape, color: Color) returns (r: seq<Card>)
    ensures r == cards + NumberRow(shape, color, Numbers)
  {
    r := cards;
    var ni := 0;
    while ni < |Numbers|
      invariant 0 <= ni <= |Numbers|
      invariant r == cards + NumberRow(shape, color, Numbers[..ni])
    {
      assert Numbers[..ni + 1][..ni] == Numbers[..ni];
      r := r + [Card(shape, color, Numbers[ni])];
      ni := ni + 1;
    }
    assert Numbers[..ni] == Numbers;
  }

  /** The middle loop: the cards of every color, for a fixed shape. */
  method PushColorRows(cards: seq<Card>, shape: Shape) returns (r: seq<Card>)
    ensures r == cards + ColorRows(shape, LocalColors)
  {
    r := cards;
    var ci := 0;
    while ci < |LocalColors|
      invariant 0 <= ci <= |LocalColors|
      invariant r == cards + ColorRows(shape, LocalColors[..ci])
    {
      assert LocalColors[..ci + 1][..ci] == LocalColors[..ci];
      r := PushNumberRow(r, shape, LocalColors[ci]);
      ci := ci + 1;
    }
    assert LocalColors[..ci] == LocalColors;
  }

  /** The three nested loops of the generator, over shapes, colors, then numbers. */
  method BuildUniverse() returns (cards: seq<Card>)
    ensures cards == Universe()
  {
    cards := [];
    var si := 0;
    while si < |LocalShapes|
      invariant 0 <= si <= |LocalShapes|
      invariant cards == ShapeRows(LocalShapes[..si])
    {
      assert LocalShapes[..si + 1][..si] == LocalShapes[..si];
      cards := PushColorRows(cards, LocalShapes[si]);
      si := si + 1;
    }
    assert LocalShapes[..si] == LocalShapes;
  }

  /** The oracle answers `Math.floor(Math.random() * (i + 1))` for every swap position i > 0. */
  predicate ValidPicks(picks: seq<int>, n: int) {
    |picks| == n && forall i :: 0 < i < |picks| ==> 0 <= picks[i] <= i
  }

  /** Exchange of the elements at positions i and j. */
  function Swap(s: seq<Card>, i: nat, j: nat): (r: seq<Card>)
    requires i < |s| && j < |s|
    ensures |r| == |s|
    ensures r[i] == s[j] && r[j] == s[i]
    ensures forall k :: 0 <= k < |s| && k != i && k != j ==> r[k] == s[k]
  {
    s[i := s[j]][j := s[i]]
  }

  /**
   * What the Fisher-Yates loop leaves when it runs from position i down to 1
   * on `s`.
   */
  function Shuffled(s: seq<Card>, picks: seq<int>, i: int): (r: seq<Card>)
    requires ValidPicks(picks, |s|) && i < |s|
    ensures |r| == |s|
    decreases i
  {
    if i <= 0 then s
    else Shuffled(Swap(s, i, picks[i]), picks, i - 1)
  }

  /** A swap only exchanges two cards. */
  lemma SwapPermutes(s: seq<Card>, i: nat, j: nat)
    requires i < |s| && j < |s|
    ensures multiset(Swap(s, i, j)) == multiset(s)
  {
  }

  /** The shuffle is a permutation of its input, whatever the oracle picks. */
  lemma {:induction false} ShuffledPermutes(s: seq<Card>, picks: seq<int>, i: int)
    requires ValidPicks(picks, |s|) && i < |s|
    ensures multiset(Shuffled(s, picks, i)) == multiset(s)
    decreases i
  {
    if i > 0 {
      SwapPermutes(s, i, picks[i]);
      ShuffledPermutes(Swap(s, i, picks[i]), picks, i - 1);
    }
  }

  /** The destructuring swap `[deck[i], deck[j]] = [deck[j], deck[i]]`. */
  method SwapAt(a: array<Card>, i: nat, j: nat)
    requires i < a.Length && j < a.Length
    modifies a
    ensures a[..] == Swap(old(a[..]), i, j)
  {
    a[i], a[j] := a[j], a[i];
  }

  /** The in-place swap loop `for (i = length - 1; i > 0; i--) swap(deck[i], deck[j])`. */
  method ShuffleInPlace(a: array<Card>, picks: seq<int>)
    requires ValidPicks(picks, a.Length)
    modifies a
    ensures a[..] == Shuffled(old(a[..]), picks, a.Length - 1)
  {
    ghost var goal := Shuffled(a[..], picks, a.Length - 1);
    ghost var cur := a[..];
    var i := a.Length - 1;
    while i > 0
      invariant -1 <= i < a.Length
      invariant a.Length > 0 ==> 0 <= i
      invariant a[..] == cur && |cur| == a.Length
      invariant Shuffled(cur, picks, i) == goal
      decreases i
    {
      var j := picks[i];
      ShuffledStep(cur, picks, i);
      SwapAt(a, i, j);
      cur := Swap(cur, i, j);
      i := i - 1;
    }
  }

  /** One iteration of the Fisher-Yates loop. */
  lemma ShuffledStep(s: seq<Card>, picks: seq<int>, i: int)
    requires ValidPicks(picks, |s|) && 0 < i < |s|
    ensures Shuffled(s, picks, i) == Shuffled(Swap(s, i, picks[i]), picks, i - 1)
  {
  }

  /** Any permutation of the doubled universe holds each of the 64 combinations exactly twice. */
  lemma DoubledCount(deck: seq<Card>)
    requires multiset(deck) == multiset(Universe() + Universe())
    ensures forall c :: multiset(deck)[c] == if InUniverse(c) then 2 else 0
  {
    forall c ensures multiset(deck)[c] == if InUniverse(c) then 2 else 0 {
      UniverseCount(c);
    }
  }

  /**
   * The full stimulus deck: the universe twice, shuffled by the oracle's
   * picks.  It has 128 cards, each of the 64 combinations exactly twice and
   * no other card.
   */
  method GenerateStimulusCards(picks: seq<int>) returns (deck: seq<Card>)
    requires ValidPicks(picks, 128)
    ensures deck == Shuffled(Universe() + Universe(), picks, |picks| - 1)
    ensures |deck| == 128
    ensures forall c :: multiset(deck)[c] == if InUniverse(c) then 2 else 0
  {
    var cards := BuildUniverse();
    var doubled := cards + cards;
    deck := ShuffleCopy(doubled, picks);
    ShuffledPermutes(doubled, picks, |doubled| - 1);
    DoubledCount(deck);
  }

  /** `let deck = [...]` followed by the in-place shuffle of that fresh array. */
  method ShuffleCopy(s: seq<Card>, picks: seq<int>) returns (r: seq<Card>)
    requires ValidPicks(picks, |s|)
    ensures r == Shuffled(s, picks, |s| - 1)
  {
    var a := new Card[|s|](k requires 0 <= k < |s| => s[k]);
    assert a[..] == s;
    ShuffleInPlace(a, picks);
    r := a[..];
  }
}
