/** The capability of the user input back channel: printed, parsed, and exactly when the
    parsed value is the printed one. */
module UibcCapability {
  import opened Wrappers
  import opened WfdText
  import opened UibcNames

  /** A type and a path of the HIDC list; nothing stands for the unknown one. */
  datatype Cap = Cap(kind: Option<nat>, path: Option<nat>)

  datatype Capability = Capability(supported: bool, categories: Mask, types: Mask,
                                   count: nat, caps: seq<Cap>, port: U32)

  predicate Known(c: Cap) {
    (c.kind.Some? ==> c.kind.value < Size(Types)) && (c.path.Some? ==> c.path.value < Size(Paths))
  }

  predicate AllKnown(caps: seq<Cap>) {
    forall i :: 0 <= i < |caps| ==> Known(caps[i])
  }

  // ---------- the list of types and paths ----------

  function OptionName(t: Table, k: Option<nat>): string
    requires k.Some? ==> k.value < Size(t)
  {
    if k.Some? then NameIn(t, k.value) else ""
  }

  function CapText(c: Cap): string
    requires Known(c)
  {
    OptionName(Types, c.kind) + "/" + OptionName(Paths, c.path)
  }

  function CapWords(caps: seq<Cap>): (ws: seq<string>)
    requires AllKnown(caps)
    ensures |ws| == |caps|
  {
    if caps == [] then [] else [CapText(caps[0])] + CapWords(caps[1..])
  }

  function OptionLookup(t: Table, token: string): (k: Option<nat>)
    ensures k.Some? ==> k.value < Size(t)
  {
    var k := Lookup(t, token, 0);
    if k < Size(t) then Some(k) else None
  }

  function CapOf(token: string): (c: Cap)
    ensures Known(c)
  {
    Cap(OptionLookup(Types, Before(token, '/')), OptionLookup(Paths, Behind(token, '/')))
  }

  function CapsOf(ts: seq<string>): (caps: seq<Cap>)
    ensures |caps| == |ts|
  {
    if ts == [] then [] else [CapOf(ts[0])] + CapsOf(ts[1..])
  }

  lemma NameRead(t: Table, p: string, k: Option<nat>)
    requires Lead(p) && (k.Some? ==> k.value < Size(t))
    ensures OptionLookup(t, p + OptionName(t, k)) == k
  {
    if k.Some? {
      LookupFrom(t, p, k.value, 0);
    } else {
      LookupNone(t, p + "", 0);
    }
  }

  lemma NameSeparates(t: Table, k: Option<nat>)
    requires k.Some? ==> k.value < Size(t)
    ensures Plain(OptionName(t, k))
  {
    if k.Some? {
      NameIsPlain(t, k.value);
    }
  }

  lemma SlashParts(a: string, b: string, token: string)
    requires '/' !in a && token == a + ("/" + b)
    ensures Before(token, '/') == a && Behind(token, '/') == b
  {
    BeforeOf(a, '/', "/" + b);
    assert token[|a| + 1..] == b;
  }

  lemma CapParts(p: string, a: string, b: string, token: string)
    requires Lead(p) && Plain(a) && token == p + (a + "/" + b)
    ensures Before(token, '/') == p + a && Behind(token, '/') == b
  {
    assert token == (p + a) + ("/" + b);
    SlashParts(p + a, b, token);
  }

  lemma CapReads(p: string, c: Cap)
    requires Known(c) && Lead(p)
    ensures CapOf(p + CapText(c)) == c
  {
    var b := OptionName(Paths, c.path);
    NameSeparates(Types, c.kind);
    CapParts(p, OptionName(Types, c.kind), b, p + CapText(c));
    NameRead(Types, p, c.kind);
    NameRead(Paths, "", c.path);
    assert "" + b == b;
  }

  lemma {:induction false} CapsRead(p: string, caps: seq<Cap>)
    requires AllKnown(caps) && Lead(p)
    ensures CapsOf(Led(p, CapWords(caps))) == caps
    decreases |caps|
  {
    if caps != [] {
      CapReads(p, caps[0]);
      var ws := CapWords(caps);
      assert ws[1..] == CapWords(caps[1..]);
      assert Led(p, ws)[1..] == Led(" ", ws[1..]);
      CapsRead(" ", caps[1..]);
    }
  }

  lemma CapTextShape(c: Cap)
    requires Known(c)
    ensures ',' !in CapText(c) && ';' !in CapText(c)
  {
    NameSeparates(Types, c.kind);
    NameSeparates(Paths, c.path);
  }

  lemma {:induction false} CapWordsShape(caps: seq<Cap>)
    requires AllKnown(caps)
    ensures NoCommas(CapWords(caps)) && ';' !in Sep(CapWords(caps))
  {
    if caps != [] {
      CapTextShape(caps[0]);
      CapWordsShape(caps[1..]);
      assert CapWords(caps)[1..] == CapWords(caps[1..]);
    }
  }

  // ---------- the whole value ----------

  function Key(i: nat): string {
    if i == 0 then "input_category_list" else if i == 1 then "generic_cap_list"
    else if i == 2 then "hidc_cap_list" else "port"
  }

  function HidcText(c: Capability): string
    requires AllKnown(c.caps)
  {
    if c.count == 0 then "none" else Sep(CapWords(c.caps))
  }

  function PortText(port: U32): string {
    if port == 0 then "none" else Digits(port, 10)
  }

  /** A key, its list and what follows. */
  function Section(key: string, list: string, rest: string): string {
    key + ("=" + (list + (";" + rest)))
  }

  function Text(c: Capability): string
    requires AllKnown(c.caps)
  {
    if !c.supported then " none"
    else
      " " + Section(Key(0), MaskText(Categories, c.categories),
      " " + Section(Key(1), MaskText(Types, c.types),
      " " + Section(Key(2), HidcText(c), Key(3) + ("=" + PortText(c.port)))))
  }

  function SkipEqual(v: string): string {
    if v != [] && v[0] == '=' then v[1..] else v
  }

  function Drop(v: string, n: nat): string {
    if n <= |v| then v[n..] else []
  }

  function ParsePort(v: string): U32 {
    match StrStr(v, Key(3))
    case None => 0
    case Some(v1) =>
      var t := Before(v1, '=');
      var digits := Before(SkipEqual(Drop(v1, |t|)), ';');
      if t != Key(3) || Contains(digits, "none") then 0 else StrToUl(digits, 10)
  }

  /** The list and the port; nothing when the search runs into a null pointer. */
  function ParseHidc(v: string): Option<(seq<Cap>, U32)> {
    match StrStr(v, Key(2))
    case None => None
    case Some(v1) =>
      var v2 := SkipSpace(v1);
      var t := Before(v2, '=');
      var v3 := Drop(v2, |t|);
      if t != Key(2) then Some(([], ParsePort(v3)))
      else
        var list := Before(v3, ';');
        Some((CapsOf(Tokens(list)), ParsePort(Drop(v3, |list|))))
  }

  function ParseGeneric(v: string): Option<(Mask, seq<Cap>, U32)> {
    match StrStr(v, Key(1))
    case None => None
    case Some(v1) =>
      var t := Before(v1, '=');
      var v2 := Drop(v1, |t|);
      var list := if t == Key(1) then Before(SkipSpace(v2), ';') else "";
      var types := if t == Key(1) then MaskOf(Types, Tokens(list)) else {};
      match ParseHidc(if t == Key(1) then Drop(SkipSpace(v2), |list|) else v2)
      case None => None
      case Some(r) => Some((types, r.0, r.1))
  }

  const UNSUPPORTED := Capability(false, {}, {}, 0, [], 0)

  function Parse(value: string): Option<Capability> {
    var v := Cut(value, LIMIT);
    if !Contains(v, Key(0)) then Some(UNSUPPORTED)
    else
      var v1 := SkipSpace(v);
      var t := Before(v1, '=');
      var v2 := Drop(v1, |t|);
      if t != Key(0) then Some(UNSUPPORTED.(supported := true))
      else
        var list := Before(v2, ';');
        match ParseGeneric(Drop(v2, |list|))
        case None => None
        case Some(r) => Some(Capability(true, MaskOf(Categories, Tokens(list)), r.0, |r.1|, r.1, r.2))
  }

  // ---------- what comes back ----------

  lemma KeyShape(i: nat)
    ensures '=' !in Key(i) && ';' !in Key(i) && Key(i) != [] && 'a' <= Key(i)[0] <= 'z'
    ensures |Key(0)| == 19
  {
  }

  /** Finding a section behind characters that start no key. */
  lemma SectionFound(p: string, key: string, list: string, rest: string)
    requires key != [] && key[0] !in p && '=' !in key && !IsSpace(key[0])
    ensures StrStr(p + Section(key, list, rest), key) == Some(Section(key, list, rest))
    ensures SkipSpace(Section(key, list, rest)) == Section(key, list, rest)
    ensures Before(Section(key, list, rest), '=') == key
  {
    var tail := "=" + (list + (";" + rest));
    FoundAfter(p, key, tail);
    BeforeOf(key, '=', tail);
  }

  /** Taking it apart. */
  lemma SectionParts(key: string, list: string, rest: string)
    requires ';' !in list
    ensures
      var v := Drop(Section(key, list, rest), |key|);
      SkipSpace(v) == v && Before(v, ';') == "=" + list && Drop(v, |"=" + list|) == ";" + rest
  {
    var l := "=" + list;
    var v := l + (";" + rest);
    assert Section(key, list, rest) == key + v;
    assert Drop(key + v, |key|) == v;
    BeforeOf(l, ';', ";" + rest);
  }

  lemma PortReads(port: U32)
    ensures ParsePort(";" + (Key(3) + ("=" + PortText(port)))) == port
  {
    var d := PortText(port);
    KeyShape(3);
    FoundAfter(";", Key(3), "=" + d);
    BeforeOf(Key(3), '=', "=" + d);
    assert Drop(Key(3) + ("=" + d), 4) == "=" + d;
    assert ("=" + d)[1..] == d;
    PortDigits(port);
    BeforeOf(d, ';', []);
    assert d + [] == d;
  }

  lemma PortDigits(port: U32)
    ensures var d := PortText(port);
            ';' !in d && (Contains(d, "none") <==> port == 0) && (port != 0 ==> StrToUl(d, 10) == port)
  {
    var d := PortText(port);
    if port == 0 {
      FoundBehind("", "none");
    } else {
      DigitsRead(d, 10, []);
      assert d + [] == d;
      assert forall i :: 0 <= i < |d| ==> DigitOf(d[i]) < 10;
      if Contains(d, "none") {
        assert "none"[0] == 'n';
        FoundChars(d, "none", 'n');
        assert false;
      }
    }
  }

  lemma {:induction false} BitWordsShape(t: Table, mask: Mask, k: nat)
    requires k <= Size(t)
    ensures ';' !in Sep(BitWords(t, mask, k))
    decreases Size(t) - k
  {
    if k < Size(t) {
      BitWordsShape(t, mask, k + 1);
      NameIsPlain(t, k);
      var ws := BitWords(t, mask, k + 1);
      assert ([NameIn(t, k)] + ws)[1..] == ws;
    }
  }

  lemma MaskTextShape(t: Table, mask: Mask)
    ensures ';' !in MaskText(t, mask)
  {
    if mask != {} {
      assert From(mask, 0) == mask;
      BitsAreSep(t, mask, 0, {});
      BitWordsShape(t, mask, 0);
    }
  }

  /** The list that comes back: never an empty one. */
  function RereadCaps(c: Capability): seq<Cap> {
    if c.count == 0 || c.caps == [] then [Cap(None, None)] else c.caps
  }

  lemma HidcReadsBack(c: Capability)
    requires AllKnown(c.caps)
    ensures ';' !in HidcText(c) && CapsOf(Tokens("=" + HidcText(c))) == RereadCaps(c)
  {
    if c.count == 0 {
      OneToken("=", "none");
      UnknownCap("=" + "none");
    } else if c.caps == [] {
      OneToken("=", "");
      UnknownCap("=" + "");
    } else {
      CapWordsShape(c.caps);
      TokensOfSep("=", CapWords(c.caps));
      CapsRead("=", c.caps);
    }
  }

  lemma UnknownCap(token: string)
    requires token == "=none" || token == "="
    ensures CapsOf([token]) == [Cap(None, None)]
  {
    BeforeOf(token, '/', []);
    assert token + [] == token;
    LookupNone(Types, token, 0);
    LookupNone(Paths, "", 0);
    assert [token][1..] == [];
  }

  /** A section behind the one before it, found and taken apart. */
  lemma LaterSection(key: string, list: string, rest: string, v: string)
    requires key != [] && 'a' <= key[0] <= 'z' && '=' !in key && ';' !in list
    requires v == ";" + (" " + Section(key, list, rest))
    ensures StrStr(v, key) == Some(Section(key, list, rest))
    ensures SkipSpace(Section(key, list, rest)) == Section(key, list, rest)
    ensures Before(Section(key, list, rest), '=') == key
    ensures
      var v2 := Drop(Section(key, list, rest), |key|);
      SkipSpace(v2) == v2 && Before(v2, ';') == "=" + list && Drop(v2, |"=" + list|) == ";" + rest
  {
    assert v == "; " + Section(key, list, rest);
    SectionFound("; ", key, list, rest);
    SectionParts(key, list, rest);
  }

  lemma HidcSectionReads(c: Capability, v: string)
    requires AllKnown(c.caps)
    requires v == ";" + (" " + Section(Key(2), HidcText(c), Key(3) + ("=" + PortText(c.port))))
    ensures ParseHidc(v) == Some((RereadCaps(c), c.port))
  {
    KeyShape(2);
    HidcReadsBack(c);
    LaterSection(Key(2), HidcText(c), Key(3) + ("=" + PortText(c.port)), v);
    PortReads(c.port);
  }

  lemma GenericSteps(v: string, v1: string, list: string, rest: string)
    requires StrStr(v, Key(1)) == Some(v1) && Before(v1, '=') == Key(1)
    requires var v2 := Drop(v1, |Key(1)|); SkipSpace(v2) == v2 && Before(v2, ';') == list && Drop(v2, |list|) == rest
    ensures ParseGeneric(v) == match ParseHidc(rest)
                               case None => None
                               case Some(r) => Some((MaskOf(Types, Tokens(list)), r.0, r.1))
  {
  }

  lemma GenericSectionReads(types: Mask, rest: string, v: string)
    requires v == ";" + (" " + Section(Key(1), MaskText(Types, types), rest))
    ensures ParseGeneric(v) == match ParseHidc(";" + rest)
                               case None => None
                               case Some(r) => Some((types * Named(Types), r.0, r.1))
  {
    var list := MaskText(Types, types);
    KeyShape(1);
    MaskTextShape(Types, types);
    MaskReads(Types, types);
    LaterSection(Key(1), list, rest, v);
    GenericSteps(v, Section(Key(1), list, rest), "=" + list, ";" + rest);
  }

  lemma CategorySectionReads(categories: Mask, rest: string, v: string)
    requires v == " " + Section(Key(0), MaskText(Categories, categories), rest) && |v| <= LIMIT
    ensures Parse(v) == match ParseGeneric(";" + rest)
                        case None => None
                        case Some(r) => Some(Capability(true, categories * Named(Categories), r.0, |r.1|, r.1, r.2))
  {
    var list := MaskText(Categories, categories);
    KeyShape(0);
    MaskTextShape(Categories, categories);
    MaskReads(Categories, categories);
    SectionFound(" ", Key(0), list, rest);
    SectionParts(Key(0), list, rest);
    assert v[1..] == Section(Key(0), list, rest);
  }

  lemma {:induction false} TooShort(s: string, w: string)
    requires |s| < |w|
    ensures !Contains(s, w)
  {
    if s != [] {
      TooShort(s[1..], w);
    }
  }

  /** What the parser makes of a printed capability. */
  function Reread(c: Capability): Capability {
    if !c.supported then UNSUPPORTED
    else Capability(true, c.categories * Named(Categories), c.types * Named(Types), |RereadCaps(c)|, RereadCaps(c), c.port)
  }

  lemma ParsedTextIsReread(c: Capability)
    requires AllKnown(c.caps) && |Text(c)| <= LIMIT
    ensures Parse(Text(c)) == Some(Reread(c))
  {
    if !c.supported {
      KeyShape(0);
      TooShort(" none", Key(0));
    } else {
      var rest2 := " " + Section(Key(2), HidcText(c), Key(3) + ("=" + PortText(c.port)));
      var rest1 := " " + Section(Key(1), MaskText(Types, c.types), rest2);
      CategorySectionReads(c.categories, rest1, Text(c));
      GenericSectionReads(c.types, rest2, ";" + rest1);
      HidcSectionReads(c, ";" + rest2);
    }
  }

  /** Nothing but named bits, and a list that is not empty and is counted right; or nothing
      at all when the channel is not supported. */
  predicate Faithful(c: Capability) {
    if c.supported then
      && c.categories <= Named(Categories) && c.types <= Named(Types)
      && c.caps != [] && c.count == |c.caps|
    else c == UNSUPPORTED
  }

  lemma RereadSame(c: Capability)
    ensures Reread(c) == c <==> Faithful(c)
  {
    assert c.categories * Named(Categories) == c.categories <==> c.categories <= Named(Categories);
    assert c.types * Named(Types) == c.types <==> c.types <= Named(Types);
  }

  /** The round trip, exactly. */
  lemma RoundTripIff(c: Capability)
    requires AllKnown(c.caps) && |Text(c)| <= LIMIT
    ensures Parse(Text(c)) == Some(c) <==> Faithful(c)
  {
    ParsedTextIsReread(c);
    RereadSame(c);
  }
}
