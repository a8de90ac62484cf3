/** The choice of the resolution that M4 offers, and the index of the native resolution. */
module Resolution {
  import opened Machine
  import opened Wrappers
  import opened WfdText

  // ---------- bits ----------

  function Pow2(k: nat): (p: nat)
    ensures p > 0
  {
    if k == 0 then 1 else 2 * Pow2(k - 1)
  }

  predicate HasBit(n: nat, k: nat) {
    n / Pow2(k) % 2 == 1
  }

  /** An int of 32 bits shifted left, stored into 64 bits: bit 31 is the sign. */
  function Shifted(k: nat): nat
    requires k < 32
  {
    if k == 31 then 0xFFFF_FFFF_8000_0000 else Pow2(k)
  }

  lemma {:induction false} Pow2Adds(a: nat, b: nat)
    ensures Pow2(a) * Pow2(b) == Pow2(a + b)
  {
    if a > 0 {
      Pow2Adds(a - 1, b);
      Regroup(Pow2(a - 1), Pow2(b));
    }
  }

  lemma Regroup(x: nat, y: nat)
    ensures (2 * x) * y == 2 * (x * y)
  {
  }

  lemma Quotient(n: nat, d: nat, p: nat)
    requires d > 0 && p > 0
    ensures d * p > 0 && (n * p) / (d * p) == n / d
  {
    var q, r := n / d, n % d;
    MulOrder(q, d, p);
    MulOrder(r, 1, p);
    assert n * p == q * (d * p) + r * p by {
      assert n == q * d + r;
      Distribute(q * d, r, p);
    }
    assert r * p < d * p by { Increases(r, d, p); }
    DivUnique(n * p, d * p, q, r * p);
  }

  lemma MulOrder(q: nat, d: nat, p: nat)
    ensures q * d * p == q * (d * p)
  {
  }

  lemma Distribute(a: nat, b: nat, p: nat)
    ensures (a + b) * p == a * p + b * p
  {
  }

  lemma Increases(r: nat, d: nat, p: nat)
    requires r < d && p > 0
    ensures r * p < d * p
  {
  }

  lemma DivUnique(n: nat, d: nat, q: nat, r: nat)
    requires d > 0 && n == q * d + r && r < d
    ensures n / d == q
  {
    if n / d < q {
      Increases(n / d, q, d);
      var k := q - n / d;
      Distribute(n / d, k, d);
      assert k * d >= d by { if k > 1 { Increases(1, k, d); } }
    } else if q < n / d {
      var k := n / d - q;
      Distribute(q, k, d);
      assert k * d >= d by { if k > 1 { Increases(1, k, d); } }
    }
  }

  /** (n << i) & 0x80000000 tests bit 31 - i. */
  lemma ShiftTests(n: nat, i: nat)
    requires i < 32
    ensures (n * Pow2(i)) / Pow2(31) % 2 == 1 <==> HasBit(n, 31 - i)
  {
    Pow2Adds(31 - i, i);
    Quotient(n, Pow2(31 - i), Pow2(i));
  }

  // ---------- the choice ----------

  predicate Shared(src: nat, sink: nat, k: nat) {
    HasBit(src, k) && HasBit(sink, k)
  }

  /** k is the highest bit both masks have, of the lowest 32. */
  predicate HighestShared(src: nat, sink: nat, k: nat) {
    k < 32 && Shared(src, sink, k) && forall j :: k < j < 32 ==> !Shared(src, sink, j)
  }

  /** wfd_get_prefered_resolution: from the top bit down. */
  method GetPreferedResolution(src: nat, sink: nat) returns (resolution: nat)
    ensures resolution == 0 <==> forall k :: 0 <= k < 32 ==> !Shared(src, sink, k)
    ensures forall k :: HighestShared(src, sink, k) ==> resolution == Shifted(k)
  {
    resolution := 0;
    var i := 0;
    while i < 32
      invariant 0 <= i <= 32
      invariant resolution == 0
      invariant forall j :: 32 - i <= j < 32 ==> !Shared(src, sink, j)
    {
      ShiftTests(sink, i);
      ShiftTests(src, i);
      if (sink * Pow2(i)) / Pow2(31) % 2 == 1 && (src * Pow2(i)) / Pow2(31) % 2 == 1 {
        resolution := Shifted(31 - i);
        assert HighestShared(src, sink, 31 - i);
        return;
      }
      i := i + 1;
    }
  }

  lemma {:induction false} Pow2Grows(a: nat, b: nat)
    requires a < b
    ensures Pow2(a) < Pow2(b)
  {
    if a + 1 < b {
      Pow2Grows(a, b - 1);
    }
  }

  lemma PowerQuotient(k: nat, j: nat)
    ensures Pow2(k) / Pow2(j) == if j <= k then Pow2(k - j) else 0
  {
    if j <= k {
      Pow2Adds(k - j, j);
      DivUnique(Pow2(k), Pow2(j), Pow2(k - j), 0);
    } else {
      Pow2Grows(k, j);
      DivUnique(Pow2(k), Pow2(j), 0, Pow2(k));
    }
  }

  /** A power of two has one bit. */
  lemma BitsOfPow2(k: nat, j: nat)
    ensures HasBit(Pow2(k), j) <==> j == k
  {
    PowerQuotient(k, j);
    if j < k {
      assert Pow2(k - j) == 2 * Pow2(k - j - 1);
    }
  }

  lemma Values()
    ensures Pow2(31) == 0x8000_0000 && Pow2(32) == 0x1_0000_0000
  {
    assert Pow2(8) == 256;
    Pow2Adds(8, 8);
    Pow2Adds(16, 8);
    Pow2Adds(24, 7);
    assert Pow2(7) == 128;
  }

  /** What M4 offers is one resolution that both sides advertised, except when they share
      bit 31: then the offer has bits that need not be in either mask. */
  lemma OfferIsAdvertised(src: nat, sink: nat, k: nat)
    requires HighestShared(src, sink, k)
    ensures k < 31 <==> forall j :: 0 <= j < 64 && HasBit(Shifted(k), j) ==> j == k
    ensures k < 31 ==> HasBit(Shifted(k), k) && Shared(src, sink, k)
  {
    if k < 31 {
      forall j: nat ensures HasBit(Shifted(k), j) <==> j == k {
        BitsOfPow2(k, j);
      }
    } else {
      Values();
      assert HasBit(Shifted(31), 32);
    }
  }

  // ---------- the native resolution ----------

  function Bits(v: nat): nat {
    if v == 0 then 0 else 1 + Bits(v / 2)
  }

  lemma {:induction false} BitsBound(v: nat)
    requires v > 0
    ensures Bits(v) >= 1 && Pow2(Bits(v) - 1) <= v < Pow2(Bits(v))
  {
    if v > 1 {
      BitsBound(v / 2);
      assert Pow2(Bits(v) - 1) == 2 * Pow2(Bits(v / 2) - 1);
    }
  }

  /** The bit at the top. */
  function Highest(v: nat): nat
    requires v > 0
  {
    BitsBound(v);
    Pow2(Bits(v) - 1)
  }

  lemma HighestIsBit(v: nat)
    requires v > 0
    ensures HasBit(v, Bits(v) - 1) && Highest(v) <= v < 2 * Highest(v)
    ensures Highest(v) == v <==> exists k: nat :: v == Pow2(k)
  {
    BitsBound(v);
    var h := Pow2(Bits(v) - 1);
    DivUnique(v, h, 1, v - h);
    if k: nat :| v == Pow2(k) {
      if k < Bits(v) - 1 { Pow2Grows(k, Bits(v) - 1); }
      if k >= Bits(v) { if k > Bits(v) { Pow2Grows(Bits(v), k); } }
    }
  }

  method CountBits(v: nat) returns (n: nat)
    ensures n == Bits(v)
  {
    n := 0;
    var temp := v;
    while temp != 0
      invariant n + Bits(temp) == Bits(v)
    {
      n := n + 1;
      temp := temp / 2;
    }
  }

  /** The field for a native resolution of a table. */
  function NativeField(v: nat, table: nat, prefered: bool): U32
    requires table < 3
  {
    FieldFor(Bits(v), table, prefered)
  }

  function FieldFor(bits: nat, table: nat, prefered: bool): U32
    requires table < 3
  {
    var index := if bits > 0 then (bits - 1) % TWO32 else if prefered then 0 else TWO32 - 1;
    (index * 8) % TWO32 + table
  }

  method SetNative(v: nat, table: nat, prefered: bool) returns (native: U32)
    requires table < 3
    ensures native == NativeField(v, table, prefered)
  {
    var index := CountBits(v);
    native := 0;
    if index > 0 {
      native := (index - 1) % TWO32;
    } else if !prefered {
      native := TWO32 - 1;
    }
    native := (native * 8) % TWO32;
    native := native + table;
  }

  /** The table and the resolution; nothing where the shift of an int is not defined. */
  function GetNative(native: U32): (nat, Option<nat>) {
    (native % 8, if native / 8 < 32 then Some(Shifted(native / 8)) else None)
  }

  lemma BitsOf64(v: nat)
    requires 0 < v < TWO64
    ensures Bits(v) <= 64 && (Bits(v) <= 31 <==> v < Pow2(31))
  {
    BitsBound(v);
    Values();
    Pow2Adds(32, 32);
    if Bits(v) > 64 {
      if Bits(v) > 65 { Pow2Grows(64, Bits(v) - 1); }
    }
    if Bits(v) <= 31 {
      if Bits(v) < 31 { Pow2Grows(Bits(v), 31); }
    } else if Bits(v) > 32 {
      Pow2Grows(31, Bits(v) - 1);
    }
  }

  lemma SmallIndex(index: nat, table: nat)
    requires index < 64 && table < 3
    ensures ((index * 8) % TWO32 + table) % 8 == table && ((index * 8) % TWO32 + table) / 8 == index
  {
  }

  /** The field: the table in the lowest three bits, above them the index of the highest bit. */
  lemma NativeLayout(v: nat, table: nat, prefered: bool)
    requires 0 < v < TWO64 && table < 3
    ensures var native := NativeField(v, table, prefered);
            native % 8 == table && Pow2(native / 8) <= v < 2 * Pow2(native / 8)
  {
    BitsBound(v);
    BitsOf64(v);
    FieldOfIndex(Bits(v), table, prefered);
  }

  lemma FieldOfIndex(bits: nat, table: nat, prefered: bool)
    requires 0 < bits <= 64 && table < 3
    ensures FieldFor(bits, table, prefered) % 8 == table && FieldFor(bits, table, prefered) / 8 == bits - 1
  {
    SmallIndex(bits - 1, table);
  }

  /** Setting and getting gives the table and the highest bit exactly when the resolution is
      below 2^31; a single bit comes back as it is. */
  lemma NativeRoundTrip(v: nat, table: nat, prefered: bool)
    requires 0 < v < TWO64 && table < 3
    ensures GetNative(NativeField(v, table, prefered)).0 == table
    ensures GetNative(NativeField(v, table, prefered)).1 == Some(Highest(v)) <==> v < Pow2(31)
  {
    BitsBound(v);
    BitsOf64(v);
    var index := Bits(v) - 1;
    FieldOfIndex(Bits(v), table, prefered);
    if index >= 31 {
      Values();
      if index == 31 { assert Shifted(31) != Pow2(31); }
    }
  }

  /** Without a native resolution the preferred format claims the first one, and the
      supported format an index for which the shift is not defined. */
  lemma NoNativeResolution(table: nat)
    requires table < 3
    ensures GetNative(NativeField(0, table, true)) == (table, Some(1))
    ensures GetNative(NativeField(0, table, false)) == (table, None)
  {
  }
}
