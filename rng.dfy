/**
 * The seeded random generator shared by task generation and planning, as an
 * oracle: the k-th draw taken from it is `draws(k)` when an integer or a
 * choice is asked for and `coins(k)` when the "uniform() > 0.99" test is
 * asked for. Every call consumes one draw per value it returns, so the order
 * of calls decides what each caller sees, as with a single seeded generator.
 */
module Random {

  /** The integer in [lo, hi) that the draw at position `k` gives. */
  function Drawn(draws: nat -> nat, k: nat, lo: int, hi: int): (x: int)
    requires lo < hi
    ensures lo <= x < hi
  {
    lo + draws(k) % (hi - lo)
  }

  class Rng {
    const draws: nat -> nat
    const coins: nat -> bool
    var pos: nat

    constructor (draws: nat -> nat, coins: nat -> bool)
      ensures this.draws == draws && this.coins == coins && pos == 0
    {
      this.draws := draws;
      this.coins := coins;
      pos := 0;
    }

    /** An integer in [lo, hi); numpy refuses an empty range. */
    method Integers(lo: int, hi: int) returns (x: int)
      requires lo < hi
      modifies this
      ensures lo <= x < hi
      ensures x == Drawn(draws, old(pos), lo, hi)
      ensures pos == old(pos) + 1
    {
      x := Drawn(draws, pos, lo, hi);
      pos := pos + 1;
    }

    /** One element of a non-empty list. */
    method Choice<T>(xs: seq<T>) returns (x: T)
      requires |xs| > 0
      modifies this
      ensures x in xs
      ensures x == xs[draws(old(pos)) % |xs|]
      ensures pos == old(pos) + 1
    {
      x := xs[draws(pos) % |xs|];
      pos := pos + 1;
    }

    /** The outcome of `uniform() > 0.99`. */
    method Exceeds99() returns (b: bool)
      modifies this
      ensures b == coins(old(pos))
      ensures pos == old(pos) + 1
    {
      b := coins(pos);
      pos := pos + 1;
    }

    /**
     * `n` distinct elements of a list of distinct elements, chosen without
     * replacement: each round takes one of the elements not taken yet.
     */
    method ChooseDistinct<T>(xs: seq<T>, n: nat) returns (chosen: set<T>)
      requires n <= |xs|
      requires forall i, j :: 0 <= i < j < |xs| ==> xs[i] != xs[j]
      modifies this
      ensures forall x :: x in chosen ==> x in xs
      ensures |chosen| == n
      ensures pos == old(pos) + n
    {
      chosen := {};
      var rest := xs;
      for k := 0 to n
        invariant |rest| == |xs| - k && |chosen| == k
        invariant forall i, j :: 0 <= i < j < |rest| ==> rest[i] != rest[j]
        invariant forall x :: x in chosen ==> x in xs && x !in rest
        invariant forall x :: x in rest ==> x in xs
        invariant pos == old(pos) + k
      {
        var j := draws(pos) % |rest|;
        pos := pos + 1;
        var x := rest[j];
        chosen := chosen + {x};
        rest := rest[..j] + rest[j + 1..];
      }
    }
  }
}
