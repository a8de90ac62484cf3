/** The names in the capability of the user input back channel: masks of them, printed and
    parsed back. A bit mask is the set of the positions of its bits. */
module UibcNames {
  import opened Wrappers
  import opened WfdText

  // ---------- searching ----------

  /** strstr: the text from the first occurrence of w on. */
  function StrStr(s: string, w: string): Option<string> {
    if |w| <= |s| && s[..|w|] == w then Some(s)
    else if s == [] then None
    else StrStr(s[1..], w)
  }

  predicate Contains(s: string, w: string) {
    StrStr(s, w).Some?
  }

  lemma {:induction false} FoundChars(s: string, w: string, c: char)
    requires Contains(s, w) && c in w
    ensures c in s
  {
    if |w| <= |s| && s[..|w|] == w {
      assert c in s[..|w|];
    } else {
      FoundChars(s[1..], w, c);
    }
  }

  lemma {:induction false} FoundBehind(p: string, w: string)
    ensures Contains(p + w, w)
  {
    if p == [] {
      assert p + w == w && w[..|w|] == w;
    } else if !(|w| <= |p + w| && (p + w)[..|w|] == w) {
      assert (p + w)[1..] == p[1..] + w;
      FoundBehind(p[1..], w);
    }
  }

  /** A text that starts with characters the word does not start with. */
  lemma {:induction false} FoundAfter(p: string, w: string, rest: string)
    requires w != [] && w[0] !in p
    ensures StrStr(p + (w + rest), w) == Some(w + rest)
  {
    if p == [] {
      assert p + (w + rest) == w + rest;
    } else {
      var s := p + (w + rest);
      assert s[0] == p[0] && s[0] in p;
      assert s[..|w|][0] == s[0];
      assert s[1..] == p[1..] + (w + rest);
      FoundAfter(p[1..], w, rest);
    }
  }

  // ---------- names of bits ----------

  datatype Table = Categories | Types | Paths

  function Size(t: Table): nat {
    match t
    case Categories => 2
    case Types => 8
    case Paths => 6
  }

  function NameIn(t: Table, k: nat): string
    requires k < Size(t)
  {
    match t
    case Categories => if k == 0 then "GENERIC" else "HIDC"
    case Types =>
      if k == 0 then "Keyboard" else if k == 1 then "Mouse" else if k == 2 then "SingleTouch"
      else if k == 3 then "MultiTouch" else if k == 4 then "Joystick" else if k == 5 then "Camera"
      else if k == 6 then "Gesture" else "RemoteControl"
    case Paths =>
      if k == 0 then "Infrared" else if k == 1 then "USB" else if k == 2 then "BT"
      else if k == 3 then "Zigbee" else if k == 4 then "Wi-Fi" else "No-SP"
  }

  /** The bit of the first name found in a token, from the k-th on; the size if none is. */
  function Lookup(t: Table, token: string, k: nat): (r: nat)
    requires k <= Size(t)
    ensures k <= r <= Size(t)
    decreases Size(t) - k
  {
    if k == Size(t) then k else if Contains(token, NameIn(t, k)) then k else Lookup(t, token, k + 1)
  }

  /** A character of the j-th name that the k-th does not have. */
  function Mark(t: Table, j: nat, k: nat): char
    requires j < k < Size(t)
  {
    if t.Types? && j == 1 && k == 3 then 's'
    else if t.Types? && j == 5 then 'a'
    else NameIn(t, j)[0]
  }

  /** Letters and hyphens: none of the separators. */
  predicate Plain(s: string) {
    forall i :: 0 <= i < |s| ==> 'A' <= s[i] <= 'z' || s[i] == '-'
  }

  lemma FirstTypesArePlain(k: nat)
    requires k < 4
    ensures Plain(NameIn(Types, k))
  {
  }

  lemma LastTypesArePlain(k: nat)
    requires 4 <= k < 8
    ensures Plain(NameIn(Types, k))
  {
  }

  lemma NameIsPlain(t: Table, k: nat)
    requires k < Size(t)
    ensures Plain(NameIn(t, k))
  {
    if t.Types? {
      if k < 4 { FirstTypesArePlain(k); } else { LastTypesArePlain(k); }
    }
  }

  lemma NameStarts(t: Table, k: nat)
    requires k < Size(t)
    ensures NameIn(t, k) != [] && 'A' <= NameIn(t, k)[0] <= 'Z'
  {
  }

  lemma TypeMark(j: nat, k: nat)
    requires j < k < 8
    ensures Mark(Types, j, k) in NameIn(Types, j) && Mark(Types, j, k) !in NameIn(Types, k)
  {
    assert NameIn(Types, j)[0] in NameIn(Types, j);
    if j == 1 && k == 3 { assert NameIn(Types, 1)[3] == 's'; }
    if j == 5 { assert NameIn(Types, 5)[1] == 'a'; }
  }

  lemma MarkTellsApart(t: Table, j: nat, k: nat)
    requires j < k < Size(t)
    ensures Mark(t, j, k) in NameIn(t, j) && Mark(t, j, k) !in NameIn(t, k)
  {
    if t.Types? {
      TypeMark(j, k);
    } else {
      assert NameIn(t, j)[0] in NameIn(t, j);
    }
  }

  predicate Lead(p: string) {
    p == "" || p == " " || p == "="
  }

  lemma {:induction false} LookupFrom(t: Table, p: string, k: nat, i: nat)
    requires k < Size(t) && Lead(p) && i <= k
    ensures Lookup(t, p + NameIn(t, k), i) == k
    decreases k - i
  {
    var token := p + NameIn(t, k);
    if i == k {
      FoundBehind(p, NameIn(t, k));
    } else {
      MarkTellsApart(t, i, k);
      NameStarts(t, i);
      if Contains(token, NameIn(t, i)) {
        FoundChars(token, NameIn(t, i), Mark(t, i, k));
        assert false;
      }
      LookupFrom(t, p, k, i + 1);
    }
  }

  /** A text without capital letters names no bit. */
  lemma {:induction false} LookupNone(t: Table, token: string, i: nat)
    requires i <= Size(t) && forall n :: 0 <= n < |token| ==> !('A' <= token[n] <= 'Z')
    ensures Lookup(t, token, i) == Size(t)
    decreases Size(t) - i
  {
    if i < Size(t) {
      NameStarts(t, i);
      if Contains(token, NameIn(t, i)) {
        FoundChars(token, NameIn(t, i), NameIn(t, i)[0]);
        assert false;
      }
      LookupNone(t, token, i + 1);
    }
  }

  // ---------- lists of tokens ----------

  /** The tokens of a list as the do-loops cut them; there is always one. */
  function Tokens(s: string): (ts: seq<string>)
    ensures ts != []
    decreases |s|
  {
    var t := Before(s, ',');
    [t] + if |t| + 1 < |s| then Tokens(s[|t| + 1..]) else []
  }

  /** Words with a comma and a space between them. */
  function Sep(ws: seq<string>): string {
    if ws == [] then "" else if |ws| == 1 then ws[0] else ws[0] + ", " + Sep(ws[1..])
  }

  /** The same words as tokens: a space leads each but the first. */
  function Led(p: string, ws: seq<string>): seq<string>
    decreases |ws|
  {
    if ws == [] then [] else [p + ws[0]] + Led(" ", ws[1..])
  }

  lemma OneToken(p: string, w: string)
    requires ',' !in p && ',' !in w
    ensures Tokens(p + w) == [p + w]
  {
    BeforeOf(p + w, ',', []);
    assert (p + w) + [] == p + w;
  }

  lemma TokenThenRest(s: string, t: string, rest: string)
    requires ',' !in t && rest != [] && s == t + ("," + rest)
    ensures Tokens(s) == [t] + Tokens(rest)
  {
    BeforeOf(t, ',', "," + rest);
    assert s[|t| + 1..] == rest;
  }

  lemma FirstToken(p: string, w: string, rest: string)
    requires ',' !in p && ',' !in w
    ensures Tokens(p + (w + ", " + rest)) == [p + w] + Tokens(" " + rest)
  {
    var s := p + (w + ", " + rest);
    assert s == (p + w) + ("," + (" " + rest));
    TokenThenRest(s, p + w, " " + rest);
  }

  predicate NoCommas(ws: seq<string>) {
    forall i :: 0 <= i < |ws| ==> ',' !in ws[i]
  }

  /** The tokens of a printed list are its words. */
  lemma {:induction false} TokensOfSep(p: string, ws: seq<string>)
    requires Lead(p) && ws != [] && NoCommas(ws)
    ensures Tokens(p + Sep(ws)) == Led(p, ws)
    decreases |ws|
  {
    if |ws| == 1 {
      OneToken(p, ws[0]);
    } else {
      TokensOfSep(" ", ws[1..]);
      var rest := Sep(ws[1..]);
      FirstToken(p, ws[0], rest);
    }
  }

  // ---------- masks ----------

  type Mask = set<nat>

  function Below(n: nat): (m: Mask)
    ensures forall i: nat :: i in m <==> i < n
  {
    if n == 0 then {} else Below(n - 1) + {n - 1}
  }

  function Named(t: Table): Mask {
    Below(Size(t))
  }

  /** The bits of the names found in the tokens. */
  function MaskOf(t: Table, ts: seq<string>): Mask {
    if ts == [] then {}
    else
      var k := Lookup(t, ts[0], 0);
      (if k < Size(t) then {k} else {}) + MaskOf(t, ts[1..])
  }

  /** The names of the bits from the k-th on; a comma is put wherever what has been printed
      is not yet the whole mask. */
  function BitsText(t: Table, mask: Mask, k: nat, printed: Mask): string
    requires k <= Size(t)
    decreases Size(t) - k
  {
    if k == Size(t) then ""
    else if k in mask then
      NameIn(t, k) + (if mask != printed + {k} then ", " else "") + BitsText(t, mask, k + 1, printed + {k})
    else BitsText(t, mask, k + 1, printed)
  }

  function MaskText(t: Table, mask: Mask): string {
    if mask == {} then "none" else BitsText(t, mask, 0, {})
  }

  function From(mask: Mask, k: nat): Mask {
    set i | i in mask && i >= k
  }

  /** The words that are printed: the names, and an empty one when bits without a name are
      left over. */
  function BitWords(t: Table, mask: Mask, k: nat): seq<string>
    requires k <= Size(t)
    decreases Size(t) - k
  {
    if k == Size(t) then (if From(mask, k) == {} then [] else [""])
    else if k in mask then [NameIn(t, k)] + BitWords(t, mask, k + 1)
    else BitWords(t, mask, k + 1)
  }

  lemma {:induction false} NoWordsNoBits(t: Table, mask: Mask, k: nat)
    requires k <= Size(t)
    ensures BitWords(t, mask, k) == [] <==> From(mask, k) == {}
    decreases Size(t) - k
  {
    if k < Size(t) {
      NoWordsNoBits(t, mask, k + 1);
      assert k in mask ==> k in From(mask, k);
      assert k !in mask ==> From(mask, k) == From(mask, k + 1);
    }
  }

  /** A comma follows a name exactly when more is to come. */
  lemma {:induction false} BitsAreSep(t: Table, mask: Mask, k: nat, printed: Mask)
    requires k <= Size(t) && printed == mask - From(mask, k)
    ensures BitsText(t, mask, k, printed) == Sep(BitWords(t, mask, k))
    decreases Size(t) - k
  {
    if k < Size(t) {
      var next := if k in mask then printed + {k} else printed;
      assert next == mask - From(mask, k + 1);
      BitsAreSep(t, mask, k + 1, next);
      if k in mask {
        NoWordsNoBits(t, mask, k + 1);
        assert mask == next <==> From(mask, k + 1) == {};
        var ws := BitWords(t, mask, k + 1);
        assert ([NameIn(t, k)] + ws)[1..] == ws;
        assert Sep([]) == "";
        assert NameIn(t, k) + "" + "" == NameIn(t, k);
      }
    }
  }

  lemma FromSteps(t: Table, mask: Mask, k: nat)
    requires k < Size(t)
    ensures From(mask, k) * Named(t) == (if k in mask then {k} else {}) + From(mask, k + 1) * Named(t)
  {
  }

  lemma FromEnds(t: Table, mask: Mask)
    ensures From(mask, Size(t)) * Named(t) == {}
  {
  }

  lemma MaskOfLed(t: Table, p: string, w: string, ws: seq<string>)
    ensures MaskOf(t, Led(p, [w] + ws))
            == (var k := Lookup(t, p + w, 0); if k < Size(t) then {k} else {}) + MaskOf(t, Led(" ", ws))
  {
    assert ([w] + ws)[1..] == ws;
    assert Led(p, [w] + ws)[1..] == Led(" ", ws);
  }

  lemma NameHasNoComma(t: Table, k: nat)
    requires k < Size(t)
    ensures ',' !in NameIn(t, k)
  {
    NameIsPlain(t, k);
  }

  lemma MaskOfName(t: Table, p: string, k: nat, ws: seq<string>)
    requires k < Size(t) && Lead(p)
    ensures MaskOf(t, Led(p, [NameIn(t, k)] + ws)) == {k} + MaskOf(t, Led(" ", ws))
  {
    LookupFrom(t, p, k, 0);
    MaskOfLed(t, p, NameIn(t, k), ws);
  }

  lemma MaskOfNothing(t: Table, p: string)
    requires Lead(p)
    ensures MaskOf(t, Led(p, [""])) == {} && MaskOf(t, Led(p, [])) == {}
  {
    LookupNone(t, p + "", 0);
    MaskOfLed(t, p, "", []);
    assert [""] + [] == [""];
  }

  lemma MaskOfBit(t: Table, mask: Mask, k: nat, p: string)
    requires k < Size(t) && Lead(p) && k in mask
    ensures MaskOf(t, Led(p, BitWords(t, mask, k))) == {k} + MaskOf(t, Led(" ", BitWords(t, mask, k + 1)))
  {
    MaskOfName(t, p, k, BitWords(t, mask, k + 1));
  }

  lemma {:induction false} WordsGiveBits(t: Table, mask: Mask, k: nat, p: string)
    requires k <= Size(t) && Lead(p)
    ensures MaskOf(t, Led(p, BitWords(t, mask, k))) == From(mask, k) * Named(t)
    decreases Size(t) - k
  {
    if k == Size(t) {
      FromEnds(t, mask);
      MaskOfNothing(t, p);
    } else {
      FromSteps(t, mask, k);
      if k in mask {
        WordsGiveBits(t, mask, k + 1, " ");
        MaskOfBit(t, mask, k, p);
      } else {
        WordsGiveBits(t, mask, k + 1, p);
      }
    }
  }

  lemma {:induction false} WordsHaveNoCommas(t: Table, mask: Mask, k: nat)
    requires k <= Size(t)
    ensures NoCommas(BitWords(t, mask, k))
    decreases Size(t) - k
  {
    if k < Size(t) {
      WordsHaveNoCommas(t, mask, k + 1);
      NameHasNoComma(t, k);
    }
  }

  /** Parsing a printed mask gives its bits that have a name. */
  lemma MaskReads(t: Table, mask: Mask)
    ensures MaskOf(t, Tokens("=" + MaskText(t, mask))) == mask * Named(t)
  {
    if mask == {} {
      OneToken("=", "none");
      LookupNone(t, "=" + "none", 0);
      assert ["=" + "none"][1..] == [];
    } else {
      assert From(mask, 0) == mask;
      BitsAreSep(t, mask, 0, {});
      WordsGiveBits(t, mask, 0, "=");
      WordsHaveNoCommas(t, mask, 0);
      NoWordsNoBits(t, mask, 0);
      TokensOfSep("=", BitWords(t, mask, 0));
    }
  }
}
