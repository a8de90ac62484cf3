/** Network addresses as big-endian byte strings: the numeric value of an
    address, and the two byte loops that the address pool runs over it. */
module BigEndian {
  import opened Machine

  type Byte = x: int | 0 <= x < 256

  const U24 := 0x100_0000

  /** 256 to the power n. */
  function Pow256(n: nat): (p: nat)
    ensures p >= 1
  {
    if n == 0 then 1 else 256 * Pow256(n - 1)
  }

  /** The number that a big-endian byte string denotes. */
  function Val(s: seq<Byte>): nat {
    if s == [] then 0 else 256 * Val(s[..|s| - 1]) + s[|s| - 1]
  }

  lemma {:induction false} ValBound(s: seq<Byte>)
    ensures Val(s) < Pow256(|s|)
  {
    if s != [] {
      ValBound(s[..|s| - 1]);
    }
  }

  /** An address is determined by its length and its value. */
  lemma {:induction false} ValInjective(s: seq<Byte>, t: seq<Byte>)
    requires |s| == |t| && Val(s) == Val(t)
    ensures s == t
  {
    if s != [] {
      ValInjective(s[..|s| - 1], t[..|t| - 1]);
      assert s == s[..|s| - 1] + [s[|s| - 1]];
      assert t == t[..|t| - 1] + [t[|t| - 1]];
    }
  }

  /** memcmp over equally long buffers: negative, zero or positive. */
  function MemCmp(s: seq<Byte>, t: seq<Byte>): int
    requires |s| == |t|
  {
    if s == [] then 0
    else if s[0] != t[0] then s[0] - t[0]
    else MemCmp(s[1..], t[1..])
  }

  lemma {:induction false} ValFirst(s: seq<Byte>)
    requires s != []
    ensures Val(s) == s[0] * Pow256(|s| - 1) + Val(s[1..])
  {
    if |s| > 1 {
      var t := s[..|s| - 1];
      ValFirst(t);
      assert s[1..][..|s| - 2] == t[1..];
    }
  }

  /** The byte order that memcmp sees is the numeric order. */
  lemma {:induction false} MemCmpIsNumeric(s: seq<Byte>, t: seq<Byte>)
    requires |s| == |t|
    ensures MemCmp(s, t) < 0 <==> Val(s) < Val(t)
    ensures MemCmp(s, t) == 0 <==> Val(s) == Val(t)
  {
    if s != [] {
      ValFirst(s);
      ValFirst(t);
      ValBound(s[1..]);
      ValBound(t[1..]);
      if s[0] != t[0] {
        HeadDecides(s[0], Val(s[1..]), t[0], Val(t[1..]), Pow256(|s| - 1));
      } else {
        MemCmpIsNumeric(s[1..], t[1..]);
      }
    }
  }

  lemma HeadDecides(a: nat, x: nat, b: nat, y: nat, p: nat)
    requires a != b && x < p && y < p
    ensures a < b <==> a * p + x < b * p + y
    ensures a * p + x != b * p + y
  {
    if a < b {
      assert b * p == a * p + (b - a) * p;
      MulAtLeast(b - a, p);
    } else {
      assert a * p == b * p + (a - b) * p;
      MulAtLeast(a - b, p);
    }
  }

  lemma MulAtLeast(k: nat, p: nat)
    requires k >= 1
    ensures k * p >= p
  {
    assert k * p == (k - 1) * p + p;
  }

  /** What inc_address really computes: addition that wraps around the address space,
      except that the 32-bit carry loses 2^32 when the last byte overflows it. */
  function Inc(size: nat, v: nat, count: nat): (r: nat)
  {
    var y := v + count - (if count + v % 256 >= TWO32 then TWO32 else 0);
    if y >= Pow256(size) then y - Pow256(size) else y
  }

  /** What diff_address computes: the difference, unless the difference of a proper
      prefix already needs more than 24 bits, which is then returned instead. */
  function Diff(size: nat, a: nat, b: nat): (r: nat)
    ensures r < TWO32
  {
    if size == 0 then 0
    else
      var d := Diff(size - 1, a / 256, b / 256);
      if d >= U24 then d else (256 * d + a % 256 - b % 256) % TWO32
  }

  lemma {:induction false} PowOfFour(n: nat)
    requires n >= 4
    ensures Pow256(4) == TWO32 <= Pow256(n)
  {
    if n > 4 {
      PowOfFour(n - 1);
    } else {
      assert Pow256(2) == 65536;
      assert Pow256(3) == U24;
    }
  }

  /** One carry step of inc_address, seen numerically. */
  lemma CarryStep(size: nat, q: nat, last: Byte, carry: nat)
    requires size > 0 && q < Pow256(size - 1) && carry < TWO32 && carry <= Pow256(size)
    ensures var c := (carry + last) % TWO32;
            && c / 256 <= Pow256(size - 1)
            && Inc(size, 256 * q + last, carry) == 256 * Inc(size - 1, q, c / 256) + c % 256
  {
    assert (256 * q + last) % 256 == last;
    var sum := carry + last;
    if sum >= TWO32 {
      assert sum % TWO32 == sum - TWO32 < 256;
    } else {
      assert sum % TWO32 == sum;
      var k, d := sum / 256, sum % 256;
      assert k + q % 256 < TWO32;
      assert 256 * q + sum == 256 * (q + k) + d;
    }
  }

  /** The bytes left behind by a carry running from the last byte to the first. */
  function Carried(s: seq<Byte>, carry: nat): (r: seq<Byte>)
    requires carry < TWO32
    ensures |r| == |s|
  {
    if s == [] || carry == 0 then s
    else
      var sum := (carry + s[|s| - 1]) % TWO32;
      Carried(s[..|s| - 1], sum / 256) + [sum % 256]
  }

  lemma ValSnoc(s: seq<Byte>, b: Byte)
    ensures Val(s + [b]) == 256 * Val(s) + b
  {
    assert (s + [b])[..|s|] == s;
  }

  /** The byte loop of inc_address adds. */
  lemma {:induction false} CarriedIsInc(s: seq<Byte>, carry: nat)
    requires carry < TWO32 && carry <= Pow256(|s|)
    ensures Val(Carried(s, carry)) == Inc(|s|, Val(s), carry)
  {
    ValBound(s);
    if carry > 0 && s != [] {
      var front, last := s[..|s| - 1], s[|s| - 1];
      var sum := (carry + last) % TWO32;
      ValBound(front);
      CarryStep(|s|, Val(front), last, carry);
      CarriedIsInc(front, sum / 256);
      ValSnoc(Carried(front, sum / 256), sum % 256);
    }
  }

  lemma CarriedStep(s: seq<Byte>, i: nat, carry: nat, rest: seq<Byte>)
    requires i < |s| && 0 < carry < TWO32
    ensures var sum := (carry + s[i]) % TWO32;
            Carried(s[..i + 1], carry) + rest == Carried(s[..i], sum / 256) + ([sum % 256] + rest)
  {
    assert s[..i + 1][..i] == s[..i];
  }

  /** Adds count to the address in place. */
  method IncAddress(bytes: array<Byte>, count: nat)
    requires count < TWO32
    modifies bytes
    ensures bytes[..] == Carried(old(bytes[..]), count)
  {
    ghost var s := bytes[..];
    ghost var result := Carried(s, count);
    var carry := count;
    var i := bytes.Length - 1;
    assert s[..i + 1] == s && bytes[i + 1..] == [];
    while i >= 0 && carry > 0
      invariant -1 <= i < bytes.Length
      invariant 0 <= carry < TWO32
      invariant forall j :: 0 <= j <= i ==> bytes[j] == s[j]
      invariant result == Carried(s[..i + 1], carry) + bytes[i + 1..]
    {
      ghost var rest := bytes[i + 1..];
      CarriedStep(s, i, carry, rest);
      carry := (carry + bytes[i]) % TWO32;
      bytes[i] := carry % 256;
      assert bytes[i..] == [carry % 256] + rest;
      carry := carry / 256;
      i := i - 1;
    }
    assert s[..i + 1] == bytes[..i + 1];
    assert bytes[..] == bytes[..i + 1] + bytes[i + 1..];
  }

  /** The number of addresses between minAddr and maxAddr, as far as the 32-bit
      computation can tell; 0 for addresses of different families. */
  method DiffAddress(maxAddr: array<Byte>, minAddr: array<Byte>) returns (result: nat)
    ensures maxAddr.Length != minAddr.Length ==> result == 0
    ensures maxAddr.Length == minAddr.Length ==>
              result == Diff(maxAddr.Length, Val(maxAddr[..]), Val(minAddr[..]))
  {
    if minAddr.Length != maxAddr.Length {
      return 0;
    }
    result := 0;
    var i := 0;
    while i < minAddr.Length
      invariant 0 <= i <= minAddr.Length
      invariant result == Diff(i, Val(maxAddr[..i]), Val(minAddr[..i]))
    {
      DiffOfPrefixes(maxAddr[..], minAddr[..], i);
      if result >= U24 {
        DiffSaturates(maxAddr[..], minAddr[..], i);
        return;
      }
      result := (result * 256 + maxAddr[i] - minAddr[i]) % TWO32;
      i := i + 1;
    }
    assert maxAddr[..i] == maxAddr[..] && minAddr[..i] == minAddr[..];
  }

  lemma DiffOfPrefixes(s: seq<Byte>, t: seq<Byte>, i: nat)
    requires i < |s| == |t|
    ensures var d := Diff(i, Val(s[..i]), Val(t[..i]));
            Diff(i + 1, Val(s[..i + 1]), Val(t[..i + 1]))
            == if d >= U24 then d else (256 * d + s[i] - t[i]) % TWO32
  {
    ValOfPrefix(s, i);
    ValOfPrefix(t, i);
  }

  lemma ValOfPrefix(s: seq<Byte>, i: nat)
    requires i < |s|
    ensures Val(s[..i + 1]) / 256 == Val(s[..i]) && Val(s[..i + 1]) % 256 == s[i]
  {
    assert s[..i + 1][..i] == s[..i];
  }

  lemma {:induction false} DiffSaturates(s: seq<Byte>, t: seq<Byte>, i: nat)
    requires i <= |s| == |t|
    requires Diff(i, Val(s[..i]), Val(t[..i])) >= U24
    ensures Diff(|s|, Val(s), Val(t)) == Diff(i, Val(s[..i]), Val(t[..i]))
    decreases |s|
  {
    if i == |s| {
      assert s[..i] == s && t[..i] == t;
    } else {
      var n := |s| - 1;
      assert s[..n][..i] == s[..i] && t[..n][..i] == t[..i];
      DiffSaturates(s[..n], t[..n], i);
      assert s[..n + 1] == s && t[..n + 1] == t;
      DiffOfPrefixes(s, t, n);
    }
  }

  /** The 32-bit difference never exceeds the real one, and equals it exactly when
      the two addresses without their last byte are less than 2^24 apart. */
  lemma {:induction false} DiffExact(size: nat, a: nat, b: nat)
    requires b <= a < Pow256(size)
    ensures Diff(size, a, b) <= a - b
    ensures Diff(size, a, b) == a - b <==> a / 256 - b / 256 < U24
    ensures a - b >= U24 ==> Diff(size, a, b) >= U24
  {
    if size > 0 {
      DiffExact(size - 1, a / 256, b / 256);
    }
  }

  /** Stepping from the start of a range by the computed difference: lands on the
      requested address exactly when the difference was exact, and otherwise short of
      it, below the start of the range when the carry overflows. */
  lemma StepFromStart(size: nat, lo: nat, a: nat)
    requires lo <= a < Pow256(size)
    ensures var k := Diff(size, a, lo);
            && (Inc(size, lo, k) == a <==> a / 256 - lo / 256 < U24)
            && (k + lo % 256 < TWO32 ==> Inc(size, lo, k) == lo + k <= a)
            && (k + lo % 256 >= TWO32 ==> Inc(size, lo, k) == lo + k - TWO32 < lo)
  {
    DiffExact(size, a, lo);
  }

  /** IPv4 differences are always exact. */
  lemma FourBytesAlwaysExact(a: nat, b: nat)
    requires b <= a < Pow256(4)
    ensures a / 256 - b / 256 < U24
  {
    PowOfFour(4);
  }

  /** IPv6 differences are exact up to 2^32 - 256, whatever the addresses. */
  lemma SixteenBytesExactUpTo(a: nat, b: nat)
    requires b <= a < Pow256(16)
    requires a - b <= TWO32 - 256
    ensures Diff(16, a, b) == a - b && Inc(16, b, a - b) == a
  {
    DiffExact(16, a, b);
    StepFromStart(16, b, a);
  }

  /** Addition is exact modulo the address space for every IPv4 step, and for an IPv6
      step exactly when adding it to the last byte stays below 2^32. */
  lemma IncIsModular(size: nat, v: nat, count: nat)
    requires size in {4, 16} && v < Pow256(size) && count < TWO32
    ensures Inc(size, v, count) == (v + count) % Pow256(size)
            <==> size == 4 || count + v % 256 < TWO32
  {
    PowOfFour(size);
    WrapOnce(v + count, Pow256(size));
    if size == 16 {
      PowOfFour(15);
    }
  }

  lemma WrapOnce(x: nat, p: nat)
    requires p > 0 && x < 2 * p
    ensures x % p == if x >= p then x - p else x
  {
    var k, m := x / p, x % p;
    assert x == k * p + m;
    if k >= 2 {
      assert k * p == (k - 1) * p + p;
      MulAtLeast(k - 1, p);
    } else if k == 1 {
      assert k * p == p;
    }
  }
}
