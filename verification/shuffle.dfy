/**
  The seeded Fisher–Yates shuffle. The pseudo-random generator itself is not
  modelled: `rand(n)` stands for the value in [0, 1) it yields when its
  counter is `n`. The counter starts at the seed and advances by one per draw.
 */
module Shuffle {
  import opened GameTypes

  /** A value in [0, 1), what each draw of the generator returns. */
  type UnitInterval = r: real | 0.0 <= r < 1.0

  /** `random() * (i + 1)`, which lies in [0, i + 1). */
  function Scale(r: UnitInterval, i: nat): (x: real)
    ensures 0.0 <= x < (i + 1) as real
  {
    ScaleBound(r, i);
    r * ((i + 1) as real)
  }

  lemma {:induction false} ScaleBound(r: UnitInterval, i: nat)
    ensures 0.0 <= r * ((i + 1) as real) < (i + 1) as real
  {
    if i > 0 {
      ScaleBound(r, i - 1);
      assert r * ((i + 1) as real) == r * (i as real) + r;
    }
  }

  /** `Math.floor(random() * (i + 1))`: the position swapped with position `i`. */
  function SwapIndex(r: UnitInterval, i: nat): (j: nat)
    ensures j <= i
    ensures j as real <= Scale(r, i) < (j + 1) as real
  {
    FloorAtMost(Scale(r, i), i)
  }

  /** The floor of `x`, for `0 <= x < bound + 1`. */
  function FloorAtMost(x: real, bound: nat): (j: nat)
    requires 0.0 <= x < (bound + 1) as real
    ensures j <= bound && j as real <= x < (j + 1) as real
  {
    if bound as real <= x then bound else FloorAtMost(x, bound - 1)
  }

  /** `[s[i], s[j]] = [s[j], s[i]]`. */
  function Swap(s: seq<Card>, i: nat, j: nat): (r: seq<Card>)
    requires i < |s| && j < |s|
    ensures |r| == |s| && r[i] == s[j] && r[j] == s[i]
    ensures forall k | 0 <= k < |s| && k != i && k != j :: r[k] == s[k]
  {
    s[i := s[j]][j := s[i]]
  }

  /**
    The remaining loop iterations from position `i` downwards, with the
    generator's counter at `counter`: each swaps position `i` with a position
    at or below it.
   */
  function ShuffleFrom(s: seq<Card>, rand: int -> UnitInterval, counter: int, i: nat): (r: seq<Card>)
    requires i < |s|
    ensures |r| == |s|
    decreases i
  {
    if i == 0 then s
    else ShuffleFrom(Swap(s, i, SwapIndex(rand(counter), i)), rand, counter + 1, i - 1)
  }

  /** The remaining iterations only rearrange the cards. */
  lemma {:induction false} ShuffleFromPermutes(s: seq<Card>, rand: int -> UnitInterval, counter: int, i: nat)
    requires i < |s|
    ensures multiset(ShuffleFrom(s, rand, counter, i)) == multiset(s)
    decreases i
  {
    if i > 0 {
      var swapped := Swap(s, i, SwapIndex(rand(counter), i));
      SwapPermutes(s, i, SwapIndex(rand(counter), i));
      ShuffleFromPermutes(swapped, rand, counter + 1, i - 1);
    }
  }

  /**
    One loop iteration: swapping position `i` with the drawn position and
    advancing the counter leaves the same outcome ahead.
   */
  lemma ShuffleStep(s: seq<Card>, rand: int -> UnitInterval, counter: int, i: nat, j: nat)
    requires 0 < i < |s| && j == SwapIndex(rand(counter), i)
    ensures ShuffleFrom(Swap(s, i, j), rand, counter + 1, i - 1) == ShuffleFrom(s, rand, counter, i)
  {
  }

  lemma ShuffleDone(s: seq<Card>, rand: int -> UnitInterval, counter: int)
    requires 0 < |s|
    ensures ShuffleFrom(s, rand, counter, 0) == s
  {
  }

  lemma SwapPermutes(s: seq<Card>, i: nat, j: nat)
    requires i < |s| && j < |s|
    ensures multiset(Swap(s, i, j)) == multiset(s)
  {
  }

  /** `seededShuffle(cards, seed)` as a function of the generator's values. */
  function Shuffled(cards: seq<Card>, seed: int, rand: int -> UnitInterval): (r: seq<Card>)
    ensures |r| == |cards| && multiset(r) == multiset(cards)
  {
    if |cards| == 0 then cards
    else
      ShuffleFromPermutes(cards, rand, seed, |cards| - 1);
      ShuffleFrom(cards, rand, seed, |cards| - 1)
  }

  /**
    `seededShuffle`: Fisher–Yates on a copy of `cards`, from the last position
    down to position 1. The result is a rearrangement of the input and is the
    same for the same seed and generator.
   */
  method SeededShuffle(cards: seq<Card>, seed: int, rand: int -> UnitInterval) returns (shuffled: seq<Card>)
    ensures |shuffled| == |cards|
    ensures multiset(shuffled) == multiset(cards)
    ensures shuffled == Shuffled(cards, seed, rand)
  {
    shuffled := cards;
    if |cards| == 0 {
      return;
    }
    ghost var target := Shuffled(cards, seed, rand);
    var currentSeed := seed;
    var i := |cards| - 1;
    while i > 0
      invariant 0 <= i < |shuffled| == |cards|
      invariant ShuffleFrom(shuffled, rand, currentSeed, i) == target
    {
      var j := SwapIndex(rand(currentSeed), i);
      ShuffleStep(shuffled, rand, currentSeed, i, j);
      shuffled := Swap(shuffled, i, j);
      currentSeed := currentSeed + 1;
      i := i - 1;
    }
    ShuffleDone(shuffled, rand, currentSeed);
  }
}
