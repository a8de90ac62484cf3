/** The lexical layer of Wi-Fi Display messages: words, numbers and the readers that move a
    cursor over the text of a value. A C string is the sequence of its characters before the
    terminator, so the end of the sequence stands for the terminator. */
module WfdText {
  import opened Machine

  const LIMIT := 8191 // characters that fit the buffers of one attribute

  type U32 = n: nat | n < TWO32

  /** g_ascii_isspace: no vertical tab. */
  predicate IsSpace(c: char) {
    c == ' ' || c == '\t' || c == '\n' || c == '\r' || c == '\U{0C}'
  }

  /** g_ascii_ispunct. */
  predicate IsPunct(c: char) {
    '!' <= c <= '/' || ':' <= c <= '@' || '[' <= c <= '`' || '{' <= c <= '~'
  }

  predicate NoSpace(s: string) {
    forall i :: 0 <= i < |s| ==> !IsSpace(s[i])
  }

  // ---------- words ----------

  /** Everything before the first space. */
  function Word(s: string): (w: string)
    ensures |w| <= |s| && w == s[..|w|] && NoSpace(w)
    ensures |w| < |s| ==> IsSpace(s[|w|])
  {
    if s == [] || IsSpace(s[0]) then [] else [s[0]] + Word(s[1..])
  }

  /** Everything before the first del. */
  function Before(s: string, del: char): (w: string)
    ensures |w| <= |s| && w == s[..|w|] && del !in w
    ensures |w| < |s| ==> s[|w|] == del
  {
    if s == [] || s[0] == del then [] else [s[0]] + Before(s[1..], del)
  }

  function Cut(s: string, limit: nat): (r: string)
    ensures |r| <= |s| && r == s[..|r|]
    ensures NoSpace(s) ==> NoSpace(r)
  {
    if |s| <= limit then s else s[..limit]
  }

  function SkipSpace(v: string): string {
    if v != [] && IsSpace(v[0]) then v[1..] else v
  }

  function SkipPunct(v: string): string {
    if v != [] && IsPunct(v[0]) then v[1..] else v
  }

  /** The next word of a value and the rest after it; one space is skipped before it. */
  function Next(v: string): (w: string)
    ensures NoSpace(w)
  {
    Cut(Word(SkipSpace(v)), LIMIT)
  }

  function After(v: string): string {
    SkipSpace(v)[|Next(v)|..]
  }

  lemma {:induction false} WordOf(w: string, rest: string)
    requires NoSpace(w) && (rest == [] || IsSpace(rest[0]))
    ensures Word(w + rest) == w
  {
    if w == [] {
      assert w + rest == rest;
    } else {
      assert (w + rest)[1..] == w[1..] + rest;
      WordOf(w[1..], rest);
    }
  }

  lemma {:induction false} BeforeOf(w: string, del: char, rest: string)
    requires del !in w && (rest == [] || rest[0] == del)
    ensures Before(w + rest, del) == w
  {
    if w == [] {
      assert w + rest == rest;
    } else {
      assert w[0] in w && (w + rest)[1..] == w[1..] + rest;
      BeforeOf(w[1..], del, rest);
    }
  }

  /** Words as they are printed: each behind one space. */
  function Spaced(ws: seq<string>): string {
    if ws == [] then [] else " " + ws[0] + Spaced(ws[1..])
  }

  predicate Readable(w: string) {
    NoSpace(w) && |w| <= LIMIT
  }

  lemma NextOf(w: string, rest: string)
    requires Readable(w) && (rest == [] || IsSpace(rest[0]))
    ensures Next(" " + w + rest) == w && After(" " + w + rest) == rest
  {
    var v := " " + w + rest;
    assert v[1..] == w + rest;
    WordOf(w, rest);
    assert (w + rest)[|w|..] == rest;
  }

  predicate AllReadable(ws: seq<string>) {
    forall k :: 0 <= k < |ws| ==> Readable(ws[k])
  }

  /** The readers get the printed words back one by one. */
  lemma SpacedNext(w: string, ws: seq<string>)
    requires Readable(w)
    ensures Next(Spaced([w] + ws)) == w && After(Spaced([w] + ws)) == Spaced(ws)
  {
    assert ([w] + ws)[1..] == ws;
    NextOf(w, Spaced(ws));
  }

  /** The cursor behind the first n words. */
  function Skip(v: string, n: nat): string {
    if n == 0 then v else After(Skip(v, n - 1))
  }

  function Field(v: string, i: nat): (w: string)
    ensures NoSpace(w)
  {
    Next(Skip(v, i))
  }

  function HexField(v: string, i: nat): U32 {
    StrToUl(Field(v, i), 16)
  }

  lemma {:induction false} SpacedSkip(ws: seq<string>, i: nat)
    requires i <= |ws| && AllReadable(ws)
    ensures Skip(Spaced(ws), i) == Spaced(ws[i..])
  {
    if i == 0 {
      assert ws[0..] == ws;
    } else {
      SpacedSkip(ws, i - 1);
      SpacedTail(ws, i - 1);
    }
  }

  lemma SpacedTail(ws: seq<string>, i: nat)
    requires i < |ws| && AllReadable(ws)
    ensures Next(Spaced(ws[i..])) == ws[i] && After(Spaced(ws[i..])) == Spaced(ws[i + 1..])
  {
    assert ws[i..] == [ws[i]] + ws[i + 1..];
    SpacedNext(ws[i], ws[i + 1..]);
  }

  lemma {:induction false} SkipNothing(v: string, i: nat, j: nat)
    requires i <= j && Skip(v, i) == []
    ensures Skip(v, j) == []
  {
    if i < j {
      SkipNothing(v, i, j - 1);
    }
  }

  /** Field i is the i-th printed word, and nothing behind the last. */
  lemma SpacedField(ws: seq<string>, i: nat)
    requires AllReadable(ws)
    ensures Field(Spaced(ws), i) == if i < |ws| then ws[i] else []
  {
    if i < |ws| {
      SpacedSkip(ws, i);
      SpacedTail(ws, i);
    } else {
      SpacedSkip(ws, |ws|);
      SkipNothing(Spaced(ws), |ws|, i);
    }
  }

  lemma {:induction false} SpacedConcat(a: seq<string>, b: seq<string>)
    ensures Spaced(a + b) == Spaced(a) + Spaced(b)
  {
    if a == [] {
      assert a + b == b;
    } else {
      assert (a + b)[1..] == a[1..] + b;
      SpacedConcat(a[1..], b);
    }
  }

  // ---------- numbers ----------

  /** The value of a character as a digit, 99 when it is none. */
  function DigitOf(c: char): nat {
    if '0' <= c <= '9' then c as int - '0' as int
    else if 'a' <= c <= 'f' then c as int - 'a' as int + 10
    else if 'A' <= c <= 'F' then c as int - 'A' as int + 10
    else 99
  }

  function DigitChar(d: nat): (c: char)
    requires d < 16
    ensures DigitOf(c) == d && !IsSpace(c)
  {
    if d < 10 then (d + 48) as char else (d + 87) as char
  }

  /** The longest prefix of digits. */
  function Leading(s: string, base: nat): (d: string)
    ensures |d| <= |s|
  {
    if s == [] || DigitOf(s[0]) >= base then [] else [s[0]] + Leading(s[1..], base)
  }

  predicate AllDigits(s: string, base: nat) {
    forall i :: 0 <= i < |s| ==> DigitOf(s[i]) < base
  }

  function ValueOf(s: string, base: nat): nat {
    if s == [] then 0 else Times(ValueOf(s[..|s| - 1], base), base) + DigitOf(s[|s| - 1])
  }

  function Times(v: nat, base: nat): nat {
    if base == 10 then 10 * v else 16 * v
  }

  predicate Blank(c: char) {
    IsSpace(c) || c == '\U{0B}'
  }

  function SkipBlanks(s: string): string {
    if s != [] && Blank(s[0]) then SkipBlanks(s[1..]) else s
  }

  predicate HasHexPrefix(s: string) {
    |s| >= 3 && s[0] == '0' && (s[1] == 'x' || s[1] == 'X') && DigitOf(s[2]) < 16
  }

  /** The magnitude strtoul reads, before it is limited to 64 bits. */
  function Magnitude(s: string, base: nat): nat {
    ValueOf(Leading(if base == 16 && HasHexPrefix(s) then s[2..] else s, base), base)
  }

  /** strtoul, stored into a 32-bit field. */
  function StrToUl(s: string, base: nat): U32
  {
    var t := SkipBlanks(s);
    if t != [] && t[0] == '-' then
      var v := Magnitude(t[1..], base);
      if v >= TWO64 then TWO32 - 1 else (TWO64 - v) % TWO32
    else
      var v := Magnitude(if t != [] && t[0] == '+' then t[1..] else t, base);
      if v >= TWO64 then TWO32 - 1 else v % TWO32
  }

  /** The digits of a number. */
  function Digits(n: nat, base: nat): (s: string)
    requires base == 10 || base == 16
    ensures s != [] && AllDigits(s, base) && NoSpace(s)
    ensures ValueOf(s, base) == n
    decreases n
  {
    if n < base then [DigitChar(n)]
    else
      DivideByBase(n, base);
      Digits(n / base, base) + [DigitChar(n % base)]
  }

  lemma DivideByBase(n: nat, base: nat)
    requires (base == 10 || base == 16) && n >= base
    ensures n / base < n && n == Times(n / base, base) + n % base && n % base < base
  {
  }

  function Zeros(k: nat): (z: string)
    ensures |z| == k && forall i :: 0 <= i < k ==> z[i] == '0'
  {
    seq(k, _ => '0')
  }

  /** At least width digits, filled up with zeros. */
  function Padded(n: nat, base: nat, width: nat): (s: string)
    requires base == 10 || base == 16
    ensures s != [] && AllDigits(s, base) && NoSpace(s) && |s| >= width
  {
    var d := Digits(n, base);
    if |d| >= width then d else Zeros(width - |d|) + d
  }

  /** printf with %0<width>x. */
  function Hex(n: nat, width: nat): (s: string)
    ensures s != [] && AllDigits(s, 16) && NoSpace(s)
  {
    Padded(n, 16, width)
  }

  /** printf with %d of an unsigned 32-bit field. */
  function Signed(n: U32): (s: string)
    ensures NoSpace(s)
  {
    if n < 0x8000_0000 then Digits(n, 10) else "-" + Digits(TWO32 - n, 10)
  }

  lemma {:induction false} ZerosAddNothing(z: string, s: string, base: nat)
    requires forall i :: 0 <= i < |z| ==> z[i] == '0'
    ensures ValueOf(z + s, base) == ValueOf(s, base)
    decreases |z| + |s|
  {
    var t := z + s;
    if s != [] {
      assert t[..|t| - 1] == z + s[..|s| - 1];
      ZerosAddNothing(z, s[..|s| - 1], base);
    } else if z != [] {
      assert t[..|t| - 1] == z[..|z| - 1] + s;
      ZerosAddNothing(z[..|z| - 1], s, base);
    }
  }

  lemma {:induction false} LeadingOf(d: string, tail: string, base: nat)
    requires AllDigits(d, base) && (tail == [] || DigitOf(tail[0]) >= base)
    ensures Leading(d + tail, base) == d
  {
    if d == [] {
      assert d + tail == tail;
    } else {
      assert (d + tail)[1..] == d[1..] + tail;
      LeadingOf(d[1..], tail, base);
    }
  }

  /** Digits are below ten hexadecimal digits when the number has 32 bits. */
  lemma {:induction false} DigitsFit(n: nat, base: nat, k: nat)
    requires base == 10 || base == 16
    requires k >= 1 && n < Power10(k)
    ensures |Digits(n, base)| <= k
    decreases k
  {
    if n >= base {
      DivideByBase(n, base);
      assert n >= 10 && k > 1;
      assert n / base <= n / 10 < Power10(k - 1);
      DigitsFit(n / base, base, k - 1);
    }
  }

  function Power10(k: nat): nat {
    if k == 0 then 1 else 10 * Power10(k - 1)
  }

  lemma U32Fits(n: nat, base: nat)
    requires (base == 10 || base == 16) && n <= TWO32
    ensures |Digits(n, base)| <= 10
  {
    assert Power10(10) == 10_000_000_000;
    DigitsFit(n, base, 10);
  }

  lemma NoHexPrefix(d: string, base: nat, tail: string)
    requires (base == 10 || base == 16) && (tail == [] || tail == ",") && AllDigits(d, base)
    ensures !HasHexPrefix(d + tail)
  {
    var s := d + tail;
    if |s| >= 3 {
      assert |d| >= 2;
      assert s[1] == d[1] && DigitOf(d[1]) < base;
    }
  }

  lemma MagnitudeOf(d: string, base: nat, tail: string)
    requires (base == 10 || base == 16) && (tail == [] || tail == ",") && AllDigits(d, base)
    ensures Magnitude(d + tail, base) == ValueOf(d, base)
  {
    NoHexPrefix(d, base, tail);
    LeadingOf(d, tail, base);
  }

  lemma PlainStrToUl(s: string, base: nat)
    requires s != [] && !Blank(s[0]) && s[0] != '-' && s[0] != '+' && Magnitude(s, base) < TWO32
    ensures StrToUl(s, base) == Magnitude(s, base)
  {
    assert SkipBlanks(s) == s;
  }

  lemma DigitStarts(d: string, base: nat, tail: string)
    requires (base == 10 || base == 16) && d != [] && AllDigits(d, base)
    ensures var c := (d + tail)[0]; !Blank(c) && c != '-' && c != '+'
  {
    assert DigitOf(d[0]) < base;
  }

  /** strtoul of digits, with a comma behind them or not. */
  lemma DigitsRead(d: string, base: nat, tail: string)
    requires (base == 10 || base == 16) && (tail == [] || tail == ",")
    requires d != [] && AllDigits(d, base) && ValueOf(d, base) < TWO32
    ensures StrToUl(d + tail, base) == ValueOf(d, base)
  {
    MagnitudeOf(d, base, tail);
    DigitStarts(d, base, tail);
    PlainStrToUl(d + tail, base);
  }

  lemma PaddedValue(n: nat, base: nat, width: nat)
    requires base == 10 || base == 16
    ensures ValueOf(Padded(n, base, width), base) == n
  {
    var d := Digits(n, base);
    if |d| < width {
      var z := Zeros(width - |d|);
      ZerosAddNothing(z, d, base);
      assert Padded(n, base, width) == z + d;
    }
  }

  /** What printf printed of a 32-bit number strtoul reads. */
  lemma HexReads(n: U32, width: nat, tail: string)
    requires tail == [] || tail == ","
    ensures StrToUl(Hex(n, width) + tail, 16) == n
  {
    PaddedValue(n, 16, width);
    DigitsRead(Hex(n, width), 16, tail);
  }

  lemma HexReadable(n: U32, width: nat)
    requires width <= 8
    ensures Readable(Hex(n, width)) && |Hex(n, width)| <= 10
  {
    U32Fits(n, 16);
  }

  /** A port of 2^31 or more is printed as a negative number, and read back nevertheless. */
  lemma SignedReads(n: U32)
    ensures StrToUl(Signed(n), 10) == n && Readable(Signed(n))
  {
    if n < 0x8000_0000 {
      var d := Digits(n, 10);
      U32Fits(n, 10);
      DigitsRead(d, 10, []);
      assert d + [] == d;
    } else {
      NegativeReads(TWO32 - n);
    }
  }

  lemma NegativeStrToUl(s: string, k: nat)
    requires s != [] && s[0] == '-' && Magnitude(s[1..], 10) == k && 0 < k < TWO32
    ensures StrToUl(s, 10) == TWO32 - k
  {
    assert SkipBlanks(s) == s;
    assert TWO64 - k == TWO32 * (TWO32 - 1) + (TWO32 - k);
  }

  lemma NegativeReads(k: nat)
    requires 0 < k < TWO32
    ensures var s := "-" + Digits(k, 10); StrToUl(s, 10) == TWO32 - k && Readable(s)
  {
    var d := Digits(k, 10);
    U32Fits(k, 10);
    MagnitudeOf(d, 10, []);
    assert d + [] == d && ("-" + d)[1..] == d;
    NegativeStrToUl("-" + d, k);
  }

  // ---------- the readers ----------

  /** What stands behind the first del; nothing when there is none. */
  function Behind(s: string, del: char): string {
    var w := Before(s, del);
    if |w| < |s| then s[|w| + 1..] else []
  }

  lemma CutStep(s: string, i: nat, limit: nat)
    requires i < |s|
    ensures Cut(s[..i + 1], limit) == if i < limit then Cut(s[..i], limit) + [s[i]] else Cut(s[..i], limit)
  {
  }

  method ReadSpaceEnded(src: string, size: nat) returns (dest: string)
    requires size > 0
    ensures dest == Cut(Word(src), size - 1)
    ensures |dest| < size && dest == src[..|dest|] && forall c :: c in dest ==> c !in " \t\n\r\U{0C}"
    ensures |dest| < size - 1 && |dest| < |src| ==> src[|dest|] in " \t\n\r\U{0C}"
  {
    dest := [];
    var i := 0;
    while i < |src| && !IsSpace(src[i])
      invariant 0 <= i <= |src| && NoSpace(src[..i])
      invariant dest == Cut(src[..i], size - 1)
    {
      CutStep(src, i, size - 1);
      if |dest| < size - 1 {
        dest := dest + [src[i]];
      }
      i := i + 1;
    }
    WordOf(src[..i], src[i..]);
    assert src == src[..i] + src[i..];
  }

  method ReadCharEnded(src: string, size: nat, del: char) returns (dest: string)
    requires size > 0
    ensures dest == Cut(Before(src, del), size - 1)
  {
    dest := [];
    var i := 0;
    while i < |src| && src[i] != del
      invariant 0 <= i <= |src| && del !in src[..i]
      invariant dest == Cut(src[..i], size - 1)
    {
      CutStep(src, i, size - 1);
      if |dest| < size - 1 {
        dest := dest + [src[i]];
      }
      i := i + 1;
    }
    BeforeOf(src[..i], del, src[i..]);
    assert src == src[..i] + src[i..];
  }

  /** Copies what is left of src from i on. */
  method ReadRest(src: string, i: nat, size: nat) returns (dest: string)
    requires size > 0 && i <= |src|
    ensures dest == Cut(src[i..], size - 1)
  {
    dest := [];
    ghost var rest := src[i..];
    var j := 0;
    while i + j < |src|
      invariant 0 <= j <= |rest|
      invariant dest == Cut(rest[..j], size - 1)
    {
      CutStep(rest, j, size - 1);
      if |dest| < size - 1 {
        dest := dest + [src[i + j]];
      }
      j := j + 1;
    }
    assert rest[..j] == rest;
  }

  /** The two loops of the source: up to the first del, and everything behind it. */
  method ReadAttrAndValue(src: string, tsize: nat, vsize: nat, del: char) returns (attr: string, value: string)
    requires tsize > 0 && vsize > 0
    ensures attr == Cut(Before(src, del), tsize - 1)
    ensures value == Cut(Behind(src, del), vsize - 1)
  {
    attr := ReadCharEnded(src, tsize, del);
    var i := 0;
    while i < |src| && src[i] != del
      invariant 0 <= i <= |Before(src, del)|
    {
      i := i + 1;
    }
    value := [];
    if i < |src| {
      value := ReadRest(src, i + 1, vsize);
    }
  }

  /** Skips a space, reads a word and moves the cursor behind it. */
  method ReadString(v: string) returns (field: string, rest: string)
    ensures field == Next(v) && rest == After(v)
  {
    rest := SkipSpace(v);
    field := ReadSpaceEnded(rest, LIMIT + 1);
    rest := rest[|field|..];
  }

  /** The same for a number. */
  method ReadUInt32(v: string, base: nat) returns (field: U32, rest: string)
    requires base == 10 || base == 16
    ensures field == StrToUl(Next(v), base) && rest == After(v)
  {
    var temp;
    temp, rest := ReadString(v);
    field := StrToUl(temp, base);
  }
}
