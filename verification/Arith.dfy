// Facts about remainders and powers of two that the ring proofs share.
module Arith {

  lemma MulStep(a: nat, b: nat, s: nat)
    ensures a < b ==> a * s + s <= b * s
  {
    if a < b {
      assert (a + 1) * s == a * s + s;
      assert b * s == (a + 1) * s + (b - a - 1) * s;
    }
  }

  // p lies in lap `lap` of a ring of s positions.
  lemma ModWithin(p: nat, s: nat, lap: nat)
    requires 0 < s && lap * s <= p < lap * s + s
    ensures p % s == p - lap * s && p / s == lap
  {
    var q := p / s;
    assert p == q * s + p % s;
    MulStep(q, lap, s);
    MulStep(lap, q, s);
  }

  // The index of position p in a ring of s places: p with whole laps taken off.
  function Wrap(p: nat, s: nat): (i: nat)
    requires 0 < s
    ensures i < s && i <= p
  {
    if p < s then p else Wrap(p - s, s)
  }

  lemma {:induction false} WrapIsMod(p: nat, s: nat)
    requires 0 < s
    ensures Wrap(p, s) == p % s
  {
    if p >= s {
      WrapIsMod(p - s, s);
      var q := (p - s) / s;
      assert p - s == q * s + (p - s) % s;
      assert (q + 1) * s == q * s + s;
      ModWithin(p, s, q + 1);
    } else {
      ModWithin(p, s, 0);
    }
  }

  lemma {:induction false} WrapAdd(p: nat, j: nat, s: nat)
    requires 0 < s && Wrap(p, s) + j < s
    ensures Wrap(p + j, s) == Wrap(p, s) + j
    decreases p
  {
    if p >= s {
      WrapAdd(p - s, j, s);
      assert p + j - s == p - s + j;
    }
  }

  // Two positions less than a lap apart never share an index.
  lemma {:induction false} WrapDistinct(p: nat, q: nat, s: nat)
    requires p < q < p + s
    ensures Wrap(p, s) != Wrap(q, s)
    decreases p
  {
    if p >= s {
      WrapDistinct(p - s, q - s, s);
    } else if q >= s {
      assert Wrap(q, s) == Wrap(q - s, s) == q - s;
    }
  }

  // Positions less than a lap apart lie in the same lap or in neighbouring ones.
  lemma {:induction false} WrapLaps(p: nat, q: nat, s: nat)
    requires 0 < s && p <= q < p + s
    ensures Wrap(p, s) <= Wrap(q, s) ==> q - Wrap(q, s) == p - Wrap(p, s)
    ensures Wrap(p, s) > Wrap(q, s) ==> q - Wrap(q, s) == p - Wrap(p, s) + s
    decreases p
  {
    if p >= s {
      WrapLaps(p - s, q - s, s);
    } else if q >= s {
      assert Wrap(q, s) == Wrap(q - s, s) == q - s;
    }
  }

  // The next position with index zero.
  lemma {:induction false} WrapLapEnd(p: nat, s: nat)
    requires 0 < s
    ensures Wrap(p + (s - Wrap(p, s)), s) == 0
    decreases p
  {
    if p >= s {
      WrapLapEnd(p - s, s);
    } else {
      assert Wrap(s, s) == Wrap(0, s);
    }
  }

  lemma {:induction false} WrapEight(p: nat, s: nat)
    requires 0 < s && s % 8 == 0 && p % 8 == 0
    ensures Wrap(p, s) % 8 == 0
    decreases p
  {
    if p >= s {
      WrapEight(p - s, s);
    }
  }

  function Pow2(k: nat): (r: nat)
    ensures 0 < r
  {
    if k == 0 then 1 else 2 * Pow2(k - 1)
  }

  ghost predicate IsPow2(n: nat) {
    exists k: nat :: n == Pow2(k)
  }

  lemma {:induction false} Pow2Monotone(j: nat, k: nat)
    requires j <= k
    ensures Pow2(j) <= Pow2(k)
    decreases k
  {
    if j < k {
      Pow2Monotone(j, k - 1);
    }
  }

  lemma {:induction false} Pow2Multiple(j: nat, k: nat)
    requires j <= k
    ensures Pow2(k) % Pow2(j) == 0
    decreases k
  {
    if j < k {
      Pow2Multiple(j, k - 1);
      var m := Pow2(k - 1) / Pow2(j);
      assert Pow2(k - 1) == Pow2(j) * m;
      assert Pow2(k) == Pow2(j) * (2 * m);
      assert (2 * m) * Pow2(j) == Pow2(k);
      ModWithin(Pow2(k), Pow2(j), 2 * m);
    } else {
      ModWithin(Pow2(k), Pow2(j), 1);
    }
  }
}
