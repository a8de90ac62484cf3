/** The loops that read and print the capability of the user input back channel. */
module UibcReader {
  import opened Sequences
  import opened Wrappers
  import opened WfdText
  import opened UibcNames
  import opened UibcCapability

  /** One token of a list, and where the next one starts. */
  method ReadToken(list: string, read: nat) returns (token: string, next: nat)
    requires read <= |list| <= LIMIT
    ensures token == Before(list[read..], ',') && next == read + |token| + 1
    ensures Tokens(list[read..]) == [token] + if next < |list| then Tokens(list[next..]) else []
  {
    token := ReadCharEnded(list[read..], LIMIT + 1, ',');
    next := read + |token| + 1;
    assert next < |list| ==> list[read..][|token| + 1..] == list[next..];
  }

  lemma MaskStep(t: Table, token: string, ts: seq<string>)
    ensures MaskOf(t, [token] + ts) == MaskOf(t, [token]) + MaskOf(t, ts)
    ensures MaskOf(t, [token]) == var k := Lookup(t, token, 0); if k < Size(t) then {k} else {}
  {
    assert ([token] + ts)[1..] == ts && [token][1..] == [];
  }

  /** Tries the names in their order. */
  method ReadName(t: Table, token: string) returns (k: nat)
    ensures k == Lookup(t, token, 0)
  {
    k := 0;
    while k < Size(t) && !Contains(token, NameIn(t, k))
      invariant k <= Size(t) && Lookup(t, token, k) == Lookup(t, token, 0)
    {
      k := k + 1;
    }
  }

  method ReadMask(t: Table, list: string) returns (mask: Mask)
    requires |list| <= LIMIT
    ensures mask == MaskOf(t, Tokens(list))
  {
    mask := {};
    var read, more := 0, true;
    assert list[0..] == list;
    while more
      invariant more ==> read <= |list| && mask + MaskOf(t, Tokens(list[read..])) == MaskOf(t, Tokens(list))
      invariant !more ==> mask == MaskOf(t, Tokens(list))
      decreases more, |list| - read
    {
      var token, next := ReadToken(list, read);
      MaskStep(t, token, if next < |list| then Tokens(list[next..]) else []);
      var k := ReadName(t, token);
      if k < Size(t) {
        mask := mask + {k};
      }
      read := next;
      more := read < |list|;
    }
  }

  lemma CapsStep(caps: seq<Cap>, token: string, ts: seq<string>)
    ensures caps + CapsOf([token] + ts) == (caps + [CapOf(token)]) + CapsOf(ts)
  {
    assert ([token] + ts)[1..] == ts;
  }

  method ReadCap(token: string) returns (cap: Cap)
    requires |token| <= LIMIT
    ensures cap == CapOf(token)
  {
    var kind, path := ReadAttrAndValue(token, LIMIT + 1, LIMIT + 1, '/');
    var k := ReadName(Types, kind);
    var p := ReadName(Paths, path);
    cap := Cap(if k < Size(Types) then Some(k) else None, if p < Size(Paths) then Some(p) else None);
  }

  /** Appends a node for every token. */
  method ReadCaps(list: string) returns (caps: seq<Cap>)
    requires |list| <= LIMIT
    ensures caps == CapsOf(Tokens(list))
  {
    caps := [];
    var read, more := 0, true;
    assert list[0..] == list;
    while more
      invariant more ==> read <= |list| && caps + CapsOf(Tokens(list[read..])) == CapsOf(Tokens(list))
      invariant !more ==> caps == CapsOf(Tokens(list))
      decreases more, |list| - read
    {
      var token, next := ReadToken(list, read);
      CapsStep(caps, token, if next < |list| then Tokens(list[next..]) else []);
      var cap := ReadCap(token);
      caps := caps + [cap];
      read := next;
      more := read < |list|;
    }
  }

  /** Reads up to a delimiter and moves the cursor there. */
  method ReadUpTo(v: string, del: char) returns (text: string, rest: string)
    requires |v| <= LIMIT
    ensures text == Before(v, del) && rest == Drop(v, |text|)
  {
    text := ReadCharEnded(v, LIMIT + 1, del);
    rest := v[|text|..];
  }

  lemma {:induction false} FoundIsShorter(s: string, w: string)
    ensures StrStr(s, w).Some? ==> |StrStr(s, w).value| <= |s|
  {
    if !(|w| <= |s| && s[..|w|] == w) && s != [] {
      FoundIsShorter(s[1..], w);
    }
  }

  method ReadPort(v: string) returns (port: U32)
    requires |v| <= LIMIT
    ensures port == ParsePort(v)
  {
    port := 0;
    FoundIsShorter(v, Key(3));
    var found := StrStr(v, Key(3));
    if found.Some? {
      var t, v1 := ReadUpTo(found.value, '=');
      if t == Key(3) {
        var digits, rest := ReadUpTo(SkipEqual(v1), ';');
        if !Contains(digits, "none") {
          port := StrToUl(digits, 10);
        }
      }
    }
  }

  method ReadHidc(v: string) returns (r: Option<(seq<Cap>, U32)>)
    requires |v| <= LIMIT
    ensures r == ParseHidc(v)
  {
    FoundIsShorter(v, Key(2));
    var found := StrStr(v, Key(2));
    if found.None? {
      return None;
    }
    var t, v1 := ReadUpTo(SkipSpace(found.value), '=');
    var caps := [];
    if t == Key(2) {
      var list;
      list, v1 := ReadUpTo(v1, ';');
      caps := ReadCaps(list);
    }
    var port := ReadPort(v1);
    r := Some((caps, port));
  }

  method ReadGeneric(v: string) returns (r: Option<(Mask, seq<Cap>, U32)>)
    requires |v| <= LIMIT
    ensures r == ParseGeneric(v)
  {
    FoundIsShorter(v, Key(1));
    var found := StrStr(v, Key(1));
    if found.None? {
      return None;
    }
    var t, v1 := ReadUpTo(found.value, '=');
    var types: Mask := {};
    if t == Key(1) {
      var list;
      list, v1 := ReadUpTo(SkipSpace(v1), ';');
      types := ReadMask(Types, list);
    }
    var hidc := ReadHidc(v1);
    r := if hidc.Some? then Some((types, hidc.value.0, hidc.value.1)) else None;
  }

  /** Reads the value of the attribute; nothing stands for the null pointer that is
      dereferenced when a list is missing. */
  method ReadCapability(value: string) returns (r: Option<Capability>)
    ensures r == Parse(value)
  {
    var v := Cut(value, LIMIT);
    if !Contains(v, Key(0)) {
      return Some(UNSUPPORTED);
    }
    var t, v1 := ReadUpTo(SkipSpace(v), '=');
    if t != Key(0) {
      return Some(UNSUPPORTED.(supported := true));
    }
    var list, rest := ReadUpTo(v1, ';');
    var categories := ReadMask(Categories, list);
    var generic := ReadGeneric(rest);
    r := if generic.Some?
      then Some(Capability(true, categories, generic.value.0, |generic.value.1|, generic.value.1, generic.value.2))
      else None;
  }

  // ---------- printing ----------

  method PrintMask(t: Table, mask: Mask) returns (text: string)
    ensures text == MaskText(t, mask)
  {
    if mask == {} {
      return "none";
    }
    text := "";
    var k, printed: Mask := 0, {};
    while k < Size(t)
      invariant k <= Size(t)
      invariant text + BitsText(t, mask, k, printed) == MaskText(t, mask)
    {
      if k in mask {
        var word := NameIn(t, k) + if mask != printed + {k} then ", " else "";
        Assoc(text, word, BitsText(t, mask, k + 1, printed + {k}));
        printed := printed + {k};
        text := text + word;
      }
      k := k + 1;
    }
    assert text + "" == text;
  }

  method PrintCaps(caps: seq<Cap>) returns (text: string)
    requires AllKnown(caps)
    ensures text == Sep(CapWords(caps))
  {
    text := "";
    var i := 0;
    assert caps[0..] == caps;
    while i < |caps|
      invariant 0 <= i <= |caps|
      invariant text + Sep(CapWords(caps[i..])) == Sep(CapWords(caps))
    {
      var word := CapText(caps[i]) + if i + 1 < |caps| then ", " else "";
      CapWordsFrom(caps, i);
      Assoc(text, word, Sep(CapWords(caps[i + 1..])));
      text := text + word;
      i := i + 1;
    }
    assert text + "" == text;
  }

  lemma CapWordsFrom(caps: seq<Cap>, i: nat)
    requires AllKnown(caps) && i < |caps|
    ensures Sep(CapWords(caps[i..]))
            == (CapText(caps[i]) + if i + 1 < |caps| then ", " else "") + Sep(CapWords(caps[i + 1..]))
  {
    var rest := caps[i + 1..];
    assert caps[i..][1..] == rest;
    var ws := CapWords(caps[i..]);
    assert ws == [CapText(caps[i])] + CapWords(rest);
    assert ws[1..] == CapWords(rest);
    if rest == [] {
      assert CapText(caps[i]) + "" + "" == CapText(caps[i]);
    }
  }

  method PrintCapability(c: Capability) returns (text: string)
    requires AllKnown(c.caps)
    ensures text == Text(c)
  {
    if !c.supported {
      return " none";
    }
    var categories := PrintMask(Categories, c.categories);
    var types := PrintMask(Types, c.types);
    var hidc := "none";
    if c.count != 0 {
      hidc := PrintCaps(c.caps);
    }
    text := Key(3) + ("=" + PortText(c.port));
    text := " " + Section(Key(2), hidc, text);
    text := " " + Section(Key(1), types, text);
    text := " " + Section(Key(0), categories, text);
  }
}
