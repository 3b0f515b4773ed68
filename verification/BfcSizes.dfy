/** Size arithmetic of the best-fit-with-coalescing allocator: rounding, powers of two, bin numbers. */
module BfcSizes {

  /** Every size and every chunk offset is a multiple of the minimum allocation size, 256 bytes. */
  predicate Aligned(n: int) { n % 256 == 0 }

  const NUM_BINS: nat := 21

  function Pow2(k: nat): (r: nat)
    ensures r >= 1
  {
    if k == 0 then 1 else 2 * Pow2(k - 1)
  }

  function RoundedBytes(bytes: nat): (r: nat)
    ensures Aligned(r)
    ensures bytes <= r < bytes + 256
  {
    256 * ((bytes + 256 - 1) / 256)
  }

  function Min(a: nat, b: nat): nat {
    if a < b then a else b
  }

  /** The size of the next region, doubled until it holds the request. */
  function GrownSize(current: nat, request: nat): (r: nat)
    requires current > 0
    ensures r >= request && r >= current && (r > current <==> request > current)
    ensures Aligned(current) ==> Aligned(r)
    decreases request - current
  {
    if request <= current then current else GrownSize(2 * current, request)
  }

  lemma PowerOfDouble(k: nat, current: nat)
    ensures Pow2(k + 1) * current == Pow2(k) * (2 * current)
    ensures Pow2(k) * current >= current
  {
    assert Pow2(k + 1) * current == (2 * Pow2(k)) * current;
    assert (Pow2(k) - 1) * current >= 0;
  }

  lemma {:induction false} GrownSizeIsDoubling(current: nat, request: nat) returns (k: nat)
    requires current > 0
    ensures GrownSize(current, request) == Pow2(k) * current
    decreases request - current
  {
    if request <= current {
      k := 0;
    } else {
      k := GrownSizeIsDoubling(2 * current, request);
      PowerOfDouble(k, current);
      k := k + 1;
    }
  }

  /** It is the least of the size's doublings that holds the request. */
  lemma {:induction false} GrownSizeLeast(current: nat, request: nat, k: nat)
    requires current > 0 && Pow2(k) * current >= request
    ensures GrownSize(current, request) <= Pow2(k) * current
    decreases request - current
  {
    PowerOfDouble(k, current);
    if request > current {
      if k == 0 {
        assert false;
      }
      PowerOfDouble(k - 1, current);
      GrownSizeLeast(2 * current, request, k - 1);
    }
  }

  function Log2Floor(n: nat): (r: nat)
    requires n > 0
    ensures Pow2(r) <= n < Pow2(r + 1)
  {
    if n == 1 then 0 else 1 + Log2Floor(n / 2)
  }

  lemma Pow2Monotone(i: nat, j: nat)
    requires i <= j
    ensures Pow2(i) <= Pow2(j)
  {
    if i < j {
      Pow2Monotone(i, j - 1);
    }
  }

  /** The exponent of the enclosing power-of-two interval is unique. */
  lemma Log2FloorUnique(n: nat, r: nat)
    requires n > 0
    requires Pow2(r) <= n < Pow2(r + 1)
    ensures Log2Floor(n) == r
  {
    var s := Log2Floor(n);
    if s < r {
      Pow2Monotone(s + 1, r);
    } else if r < s {
      Pow2Monotone(r + 1, s);
    }
  }

  /** The portable shift loop computes the same floor-log2 as the hardware instruction. */
  method Log2FloorNonZeroSlow(n: nat) returns (b: int)
    ensures n > 0 ==> b == Log2Floor(n)
    ensures n == 0 ==> b == -1
  {
    var r: nat, m: nat := 0, n;
    while m > 0
      invariant m == 0 ==> if n == 0 then r == 0 else r > 0 && r - 1 == Log2Floor(n)
      invariant m > 0 ==> Pow2(r) * m <= n < Pow2(r) * (m + 1)
      decreases m
    {
      ShiftStep(r, m, n);
      r := r + 1;
      m := m / 2;
    }
    b := r - 1;
  }

  lemma ShiftStep(r: nat, m: nat, n: nat)
    requires m > 0 && Pow2(r) * m <= n < Pow2(r) * (m + 1)
    ensures m / 2 == 0 ==> Log2Floor(n) == r
    ensures m / 2 > 0 ==> Pow2(r + 1) * (m / 2) <= n < Pow2(r + 1) * (m / 2 + 1)
  {
    var p, k := Pow2(r), m / 2;
    if k == 0 {
      assert m == 1;
      Log2FloorUnique(n, r);
    } else {
      assert m == 2 * k || m == 2 * k + 1;
      assert Pow2(r + 1) * k == p * (2 * k);
      assert Pow2(r + 1) * (k + 1) == p * (2 * k + 2);
      assert p * (2 * k) <= p * m;
      assert p * (m + 1) <= p * (2 * k + 2);
    }
  }

  function BinNumForSize(bytes: nat): (b: nat)
    ensures b < NUM_BINS
  {
    var v := (if bytes < 256 then 256 else bytes) / 256;
    var l := Log2Floor(v);
    if l < NUM_BINS - 1 then l else NUM_BINS - 1
  }

  function BinNumToSize(index: nat): nat {
    256 * Pow2(index)
  }

  lemma Log2FloorMonotone(m: nat, n: nat)
    requires 0 < m <= n
    ensures Log2Floor(m) <= Log2Floor(n)
  {
    var i, j := Log2Floor(m), Log2Floor(n);
    if j < i {
      Pow2Monotone(j + 1, i);
    }
  }

  /** Larger chunks never sit in a smaller bin: a chunk in a strictly higher bin is strictly larger. */
  lemma BinNumMonotone(s: nat, t: nat)
    requires s <= t
    ensures BinNumForSize(s) <= BinNumForSize(t)
  {
    var u := if s < 256 then 256 else s;
    var v := if t < 256 then 256 else t;
    assert 0 < u / 256 <= v / 256;
    Log2FloorMonotone(u / 256, v / 256);
  }

  /** Each bin below the last holds exactly the sizes in its power-of-two interval; the last is open. */
  lemma BinNumInterval(s: nat, b: nat)
    requires s >= 256 && b <= 20
    ensures BinNumForSize(s) == b <==> 256 * Pow2(b) <= s && (b < 20 ==> s < 256 * Pow2(b + 1))
    ensures BinNumToSize(b) == 256 * Pow2(b) && BinNumForSize(s) <= 20
  {
    var v := s / 256;
    var l := Log2Floor(v);
    WholeSlots(s, Pow2(b));
    WholeSlots(s, Pow2(b + 1));
    if b < l {
      Pow2Monotone(b + 1, l);
    } else if l < b {
      Pow2Monotone(l + 1, b);
    }
  }

  lemma WholeSlots(s: nat, n: nat)
    ensures 256 * n <= s <==> n <= s / 256
  {
  }
}
