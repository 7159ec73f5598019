/** The rank table of the game (FRUITS) and the weighted selector that draws
    the next droppable rank from a prefix of it. */
module Fruits {

  /** One rank of the table: the fields the engine reads (names, sprites,
      colours and emoji labels are presentation only; the name of each rank
      is given beside its row). */
  datatype Fruit = Fruit(radius: int, score: int, weight: int)

  const FRUITS: seq<Fruit> := [
    Fruit(10, 2, 40),  // cherry
    Fruit(22, 4, 25),  // blueberry
    Fruit(26, 5, 20),  // strawberry
    Fruit(30, 6, 15),  // lemon
    Fruit(38, 8, 8),  // mango
    Fruit(46, 10, 6),  // orange
    Fruit(56, 12, 3),  // peach
    Fruit(92, 16, 1),  // pineapple
    Fruit(120, 20, 1)  // watermelon
  ]

  /** The default argument of the selector, FRUITS.length - 1. */
  const DefaultMaxIndex: int := 8

  /** The game-over line (y grows downwards, so "above" means a smaller y). */
  const DeadlineY: real := 150.0

  predicate IsRank(i: int) { 0 <= i < |FRUITS| }

  function Radius(i: int): real requires IsRank(i) { FRUITS[i].radius as real }

  /** Shape of the table: nine ranks, radii and scores strictly increasing,
      spawn weights positive and non-increasing. */
  lemma RankTableShape()
    ensures |FRUITS| == 9
    ensures forall i, j :: 0 <= i < j < |FRUITS| ==> FRUITS[i].radius < FRUITS[j].radius
    ensures forall i, j :: 0 <= i < j < |FRUITS| ==> FRUITS[i].score < FRUITS[j].score
    ensures forall i, j :: 0 <= i < j < |FRUITS| ==> 0 < FRUITS[j].weight <= FRUITS[i].weight
  {
    forall i, j | 0 <= i < j < |FRUITS|
      ensures FRUITS[i].radius < FRUITS[j].radius
      ensures FRUITS[i].score < FRUITS[j].score
      ensures 0 < FRUITS[j].weight <= FRUITS[i].weight
    {
      RankChain(i, j);
    }
  }

  lemma {:induction false} RankChain(i: int, j: int)
    requires 0 <= i < j < |FRUITS|
    ensures FRUITS[i].radius < FRUITS[j].radius
    ensures FRUITS[i].score < FRUITS[j].score
    ensures 0 < FRUITS[j].weight <= FRUITS[i].weight
    decreases j - i
  {
    AdjacentRanks(j - 1);
    if i < j - 1 { RankChain(i, j - 1); }
  }

  lemma AdjacentRanks(i: int)
    requires 0 <= i < |FRUITS| - 1
    ensures FRUITS[i].radius < FRUITS[i + 1].radius
    ensures FRUITS[i].score < FRUITS[i + 1].score
    ensures 0 < FRUITS[i + 1].weight <= FRUITS[i].weight
  {
  }

  /** The end index of `FRUITS.slice(0, maxIndex + 1)` under JavaScript's
      slice rules: a negative end counts from the back, a large one is cut
      to the table's length. */
  function SliceEnd(maxIndex: int): (n: nat)
    ensures n <= |FRUITS|
    ensures 0 <= maxIndex < |FRUITS| ==> n == maxIndex + 1
    ensures |FRUITS| <= maxIndex ==> n == |FRUITS|
  {
    var end := maxIndex + 1;
    if end < 0 then (if |FRUITS| + end < 0 then 0 else |FRUITS| + end)
    else if end > |FRUITS| then |FRUITS|
    else end
  }

  /** The spawn weights of ranks 0..maxIndex, as the selector sees them. */
  function Weights(maxIndex: int): (ws: seq<int>)
    ensures |ws| == SliceEnd(maxIndex)
    ensures forall i :: 0 <= i < |ws| ==> ws[i] == FRUITS[i].weight
  {
    seq(SliceEnd(maxIndex), i requires 0 <= i < SliceEnd(maxIndex) => FRUITS[i].weight)
  }

  /** The sum of the first i weights, accumulated left to right as the
      selector's reduce and its loop do. */
  function Prefix(ws: seq<int>, i: nat): int
    requires i <= |ws|
  {
    if i == 0 then 0 else Prefix(ws, i - 1) + ws[i - 1]
  }

  function Total(ws: seq<int>): int { Prefix(ws, |ws|) }

  predicate Positive(ws: seq<int>) { forall i :: 0 <= i < |ws| ==> ws[i] > 0 }

  /** The index the selection loop returns for the draw r, scanning from i:
      the first index whose running remainder goes negative, or the last
      index when none does. */
  function SelectFrom(ws: seq<int>, r: real, i: nat): (k: int)
    requires i <= |ws|
    ensures |ws| == 0 ==> k == -1
    ensures |ws| > 0 ==> i <= k < |ws| || k == |ws| - 1
    decreases |ws| - i
  {
    if i == |ws| then |ws| - 1
    else if r - Prefix(ws, i + 1) as real < 0.0 then i
    else SelectFrom(ws, r, i + 1)
  }

  /** The selector on a draw r already scaled to [0, Total(ws)). */
  function Selected(ws: seq<int>, r: real): (k: int)
    ensures |ws| == 0 ==> k == -1
    ensures |ws| > 0 ==> 0 <= k < |ws|
  {
    SelectFrom(ws, r, 0)
  }

  /** Math.random() scaled to the total weight. */
  function Draw(random: real, total: int): real { random * total as real }

  /** The rank pickWeightedIndex(maxIndex) returns when Math.random()
      returns `random`. */
  function Pick(maxIndex: int, random: real): int
  {
    var ws := Weights(maxIndex);
    Selected(ws, Draw(random, Total(ws)))
  }

  /** pickWeightedIndex(maxIndex), with Math.random() passed in as `random`:
      the draw random * total is run down the weights until it goes
      negative. */
  method PickWeightedIndex(maxIndex: int, random: real) returns (index: int)
    ensures index == Pick(maxIndex, random)
  {
    var weights := Weights(maxIndex);
    var total := 0;
    for i := 0 to |weights|
      invariant total == Prefix(weights, i)
    {
      total := total + weights[i];
    }
    assert total == Total(weights);
    var r := random * total as real;
    ghost var r0 := r;
    assert r0 == Draw(random, total);
    assert Pick(maxIndex, random) == Selected(weights, Draw(random, Total(weights)));
    assert Pick(maxIndex, random) == Selected(weights, r0);
    var i := 0;
    while i < |weights|
      invariant 0 <= i <= |weights|
      invariant r == r0 - Prefix(weights, i) as real
      invariant Pick(maxIndex, random) == SelectFrom(weights, r0, i)
    {
      r := r - weights[i] as real;
      assert r == r0 - Prefix(weights, i + 1) as real;
      if r < 0.0 {
        return i;
      }
      i := i + 1;
    }
    return |weights| - 1;
  }

  // ---------------------------------------------------------------------
  // Properties of the selector

  lemma {:induction false} PrefixMonotone(ws: seq<int>, i: nat, j: nat)
    requires Positive(ws) && i < j <= |ws|
    ensures Prefix(ws, i) < Prefix(ws, j)
    decreases j - i
  {
    if i + 1 < j {
      PrefixMonotone(ws, i, j - 1);
    }
  }

  lemma {:induction false} PrefixNonNegative(ws: seq<int>, i: nat)
    requires Positive(ws) && i <= |ws|
    ensures 0 <= Prefix(ws, i)
  {
    if i > 0 { PrefixNonNegative(ws, i - 1); }
  }

  /** Scanning from i returns k exactly when k is the first index at or after
      i whose prefix sum exceeds r; when r reaches the total, the scan falls
      back to the last index. */
  lemma {:induction false} SelectFromCrossing(ws: seq<int>, r: real, i: nat, k: int)
    requires i <= |ws| && Positive(ws)
    requires forall j :: 0 < j <= i ==> Prefix(ws, j) as real <= r
    requires 0 <= k < |ws| && r < Prefix(ws, k + 1) as real
    requires k == 0 || Prefix(ws, k) as real <= r
    ensures i <= k ==> SelectFrom(ws, r, i) == k
    decreases |ws| - i
  {
    if i < k {
      assert Prefix(ws, i + 1) <= Prefix(ws, k) by {
        if i + 1 < k { PrefixMonotone(ws, i + 1, k); }
      }
      SelectFromCrossing(ws, r, i + 1, k);
    }
  }

  /** For a draw 0 <= r < total over positive weights, the selector returns
      the unique index whose prefix interval [Prefix(i), Prefix(i+1)) holds
      r; in particular the fallback return is never taken. */
  lemma SelectedIsInterval(ws: seq<int>, r: real, i: int)
    requires Positive(ws) && 0.0 <= r < Total(ws) as real
    ensures 0 <= Selected(ws, r) < |ws|
    ensures 0 <= i < |ws| ==>
      (Selected(ws, r) == i <==> Prefix(ws, i) as real <= r < Prefix(ws, i + 1) as real)
  {
    var k := Crossing(ws, r);
    SelectFromCrossing(ws, r, 0, k);
    if 0 <= i < |ws| && i != k && Prefix(ws, i) as real <= r < Prefix(ws, i + 1) as real {
      if i < k {
        PrefixMonotone(ws, i + 1, k + 1);
        if i + 1 < k { PrefixMonotone(ws, i + 1, k); }
      } else {
        PrefixMonotone(ws, k + 1, i + 1);
        if k + 1 < i { PrefixMonotone(ws, k + 1, i); }
      }
    }
  }

  /** The index whose interval holds r, found by a descending search. */
  lemma {:induction false} Crossing(ws: seq<int>, r: real) returns (k: int)
    requires Positive(ws) && 0.0 <= r < Total(ws) as real
    ensures 0 <= k < |ws|
    ensures Prefix(ws, k) as real <= r < Prefix(ws, k + 1) as real
  {
    k := |ws| - 1;
    PrefixNonNegative(ws, 0);
    while r < Prefix(ws, k) as real
      invariant 0 <= k < |ws|
      invariant r < Prefix(ws, k + 1) as real
      decreases k
    {
      k := k - 1;
    }
  }

  /** A larger draw never yields a smaller rank. */
  lemma {:induction false} SelectFromMonotone(ws: seq<int>, r1: real, r2: real, i: nat)
    requires i <= |ws| && r1 <= r2
    ensures SelectFrom(ws, r1, i) <= SelectFrom(ws, r2, i)
    decreases |ws| - i
  {
    if i < |ws| && r2 - Prefix(ws, i + 1) as real >= 0.0 {
      if r1 - Prefix(ws, i + 1) as real >= 0.0 {
        SelectFromMonotone(ws, r1, r2, i + 1);
      }
    }
  }

  lemma SelectedMonotone(ws: seq<int>, r1: real, r2: real)
    requires r1 <= r2
    ensures Selected(ws, r1) <= Selected(ws, r2)
  {
    SelectFromMonotone(ws, r1, r2, 0);
  }

  /** With a draw in [0, 1) and 0 <= maxIndex, the picked rank lies in
      [0, min(maxIndex, 8)]. */
  lemma PickInRange(maxIndex: int, random: real)
    requires 0 <= maxIndex && 0.0 <= random < 1.0
    ensures 0 <= Pick(maxIndex, random) <= maxIndex && Pick(maxIndex, random) < |FRUITS|
  {
    var ws := Weights(maxIndex);
    assert ws[0] == 40;
  }

  /** The draws that yield rank i form an interval of length weight(i); for
      the opening bound maxIndex = 3 these are 40, 25, 20 and 15 out of 100. */
  lemma OpeningOdds(r: real)
    requires 0.0 <= r < 100.0
    ensures Total(Weights(3)) == 100
    ensures Selected(Weights(3), r) == 0 <==> 0.0 <= r < 40.0
    ensures Selected(Weights(3), r) == 1 <==> 40.0 <= r < 65.0
    ensures Selected(Weights(3), r) == 2 <==> 65.0 <= r < 85.0
    ensures Selected(Weights(3), r) == 3 <==> 85.0 <= r < 100.0
  {
    var ws := Weights(3);
    assert ws == [40, 25, 20, 15];
    assert Prefix(ws, 1) == 40 && Prefix(ws, 2) == 65 && Prefix(ws, 3) == 85 && Prefix(ws, 4) == 100;
    SelectedIsInterval(ws, r, 0);
    SelectedIsInterval(ws, r, 1);
    SelectedIsInterval(ws, r, 2);
    SelectedIsInterval(ws, r, 3);
  }

  /** Any bound of 8 or more selects over the whole table, like the default. */
  lemma LargeBoundIsDefault(maxIndex: int)
    requires maxIndex >= DefaultMaxIndex
    ensures Weights(maxIndex) == Weights(DefaultMaxIndex)
    ensures Total(Weights(maxIndex)) == 119
  {
    var ws := Weights(DefaultMaxIndex);
    assert ws == [40, 25, 20, 15, 8, 6, 3, 1, 1];
    assert Prefix(ws, 1) == 40 && Prefix(ws, 2) == 65 && Prefix(ws, 3) == 85;
    assert Prefix(ws, 4) == 100 && Prefix(ws, 5) == 108 && Prefix(ws, 6) == 114;
    assert Prefix(ws, 7) == 117 && Prefix(ws, 8) == 118;
  }

  /** A bound of -1 slices nothing, and the selector then returns -1, which
      is no rank at all; no caller passes a negative bound. */
  lemma NegativeBoundReturnsNoRank(random: real)
    ensures Pick(-1, random) == -1
  {
  }
}
