/** Messages with the capability of the input back channel among their lines. */
module WfdWhole {
  import opened Wrappers
  import opened WfdText
  import opened WfdLines
  import opened WfdMessage
  import Trip = WfdRoundTrip
  import Names = UibcNames
  import Uibc = UibcCapability

  datatype Whole = Whole(msg: Msg, uibc: Option<Uibc.Capability>)

  const UIBC := "wfd_uibc_capability"
  const UIBC_AT := 7 // it is printed between the route and the setting of the channel

  // ---------- parsing and printing ----------

  function AttributeOf(line: string): string {
    Cut(Before(Cut(line, LINE_LIMIT), ':'), LIMIT)
  }

  function ValueOf(line: string): string {
    Cut(Behind(Cut(line, LINE_LIMIT), ':'), LIMIT)
  }

  function ParseUibc(w: Whole, v: string): Option<Whole> {
    match Uibc.Parse(v)
    case None => None
    case Some(c) => Some(w.(uibc := Some(c)))
  }

  /** One line; nothing from where the parser follows a null pointer. */
  function ParseWholeLine(o: Option<Whole>, line: string): Option<Whole> {
    match o
    case None => None
    case Some(w) =>
      if AttributeOf(line) == UIBC then ParseUibc(w, ValueOf(line))
      else Some(w.(msg := ParseLine(w.msg, line)))
  }

  function ParseWhole(data: string): Option<Whole> {
    ForLines(data, Some(Whole(EMPTY, None)), ParseWholeLine)
  }

  predicate KnownCaps(w: Whole) {
    w.uibc.Some? ==> Uibc.AllKnown(w.uibc.value.caps)
  }

  function UibcLine(c: Uibc.Capability): string
    requires Uibc.AllKnown(c.caps)
  {
    UIBC + (":" + Uibc.Text(c))
  }

  function UibcLines(w: Whole): seq<string>
    requires KnownCaps(w)
  {
    if w.uibc.Some? then [UibcLine(w.uibc.value)] else []
  }

  /** The lines in the order in which they are printed. */
  function WholeLinesAt(w: Whole): nat -> seq<string>
    requires KnownCaps(w)
  {
    (i: nat) =>
      if i == UIBC_AT then UibcLines(w)
      else LinesFor(w.msg, NameAt(if i < UIBC_AT then i else i - 1))
  }

  const ALL := NAMES + 1

  function WholeText(w: Whole): string
    requires KnownCaps(w)
  {
    Joined(Gather(WholeLinesAt(w), 0, ALL))
  }

  // ---------- the line of the capability ----------

  predicate UibcFits(w: Whole)
    requires KnownCaps(w)
  {
    w.uibc.Some? ==> |UibcLine(w.uibc.value)| <= LINE_LIMIT
  }

  lemma PlainEndsNoLine(s: string)
    requires Names.Plain(s)
    ensures EndsNoLine(s)
  {
  }

  lemma {:induction false} SepEndsNoLine(ws: seq<string>)
    requires AllLines(ws)
    ensures EndsNoLine(Names.Sep(ws))
  {
    if |ws| > 1 {
      SepEndsNoLine(ws[1..]);
    }
  }

  lemma {:induction false} BitWordsEndNoLine(t: Names.Table, mask: Names.Mask, k: nat)
    requires k <= Names.Size(t)
    ensures AllLines(Names.BitWords(t, mask, k))
    decreases Names.Size(t) - k
  {
    if k < Names.Size(t) {
      BitWordsEndNoLine(t, mask, k + 1);
      Names.NameIsPlain(t, k);
      PlainEndsNoLine(Names.NameIn(t, k));
    }
  }

  lemma MaskEndsNoLine(t: Names.Table, mask: Names.Mask)
    ensures EndsNoLine(Names.MaskText(t, mask))
  {
    if mask != {} {
      assert Names.From(mask, 0) == mask;
      Names.BitsAreSep(t, mask, 0, {});
      BitWordsEndNoLine(t, mask, 0);
      SepEndsNoLine(Names.BitWords(t, mask, 0));
    }
  }

  lemma CapEndsNoLine(c: Uibc.Cap)
    requires Uibc.Known(c)
    ensures EndsNoLine(Uibc.CapText(c))
  {
    Uibc.NameSeparates(Names.Types, c.kind);
    Uibc.NameSeparates(Names.Paths, c.path);
    PlainEndsNoLine(Uibc.OptionName(Names.Types, c.kind));
    PlainEndsNoLine(Uibc.OptionName(Names.Paths, c.path));
  }

  lemma {:induction false} CapWordsEndNoLine(caps: seq<Uibc.Cap>)
    requires Uibc.AllKnown(caps)
    ensures AllLines(Uibc.CapWords(caps))
  {
    if caps != [] {
      CapEndsNoLine(caps[0]);
      CapWordsEndNoLine(caps[1..]);
    }
  }

  lemma EndsNoLineConcat(a: string, b: string)
    requires EndsNoLine(a) && EndsNoLine(b)
    ensures EndsNoLine(a + b)
  {
  }

  lemma SectionEndsNoLine(i: nat, list: string, rest: string)
    requires EndsNoLine(list) && EndsNoLine(rest)
    ensures EndsNoLine(" " + Uibc.Section(Uibc.Key(i), list, rest))
  {
    assert EndsNoLine(";");
    EndsNoLineConcat(";", rest);
    EndsNoLineConcat(list, ";" + rest);
    assert EndsNoLine("=");
    EndsNoLineConcat("=", list + (";" + rest));
    assert EndsNoLine(Uibc.Key(i));
    EndsNoLineConcat(Uibc.Key(i), "=" + (list + (";" + rest)));
    assert EndsNoLine(" ");
    EndsNoLineConcat(" ", Uibc.Section(Uibc.Key(i), list, rest));
  }

  lemma PortEndsNoLine(port: U32)
    ensures EndsNoLine(Uibc.Key(3) + ("=" + Uibc.PortText(port)))
  {
    assert EndsNoLine(Uibc.Key(3)) && EndsNoLine("=") && EndsNoLine(Uibc.PortText(port));
    EndsNoLineConcat("=", Uibc.PortText(port));
    EndsNoLineConcat(Uibc.Key(3), "=" + Uibc.PortText(port));
  }

  lemma HidcEndsNoLine(c: Uibc.Capability)
    requires Uibc.AllKnown(c.caps)
    ensures EndsNoLine(Uibc.HidcText(c))
  {
    CapWordsEndNoLine(c.caps);
    SepEndsNoLine(Uibc.CapWords(c.caps));
  }

  lemma UibcTextEndsNoLine(c: Uibc.Capability)
    requires Uibc.AllKnown(c.caps)
    ensures EndsNoLine(Uibc.Text(c))
  {
    if c.supported {
      var port := Uibc.Key(3) + ("=" + Uibc.PortText(c.port));
      PortEndsNoLine(c.port);
      HidcEndsNoLine(c);
      SectionEndsNoLine(2, Uibc.HidcText(c), port);
      var hidc := " " + Uibc.Section(Uibc.Key(2), Uibc.HidcText(c), port);
      MaskEndsNoLine(Names.Types, c.types);
      SectionEndsNoLine(1, Names.MaskText(Names.Types, c.types), hidc);
      var generic := " " + Uibc.Section(Uibc.Key(1), Names.MaskText(Names.Types, c.types), hidc);
      MaskEndsNoLine(Names.Categories, c.categories);
      SectionEndsNoLine(0, Names.MaskText(Names.Categories, c.categories), generic);
    }
  }

  lemma UibcEndsNoLine(c: Uibc.Capability)
    requires Uibc.AllKnown(c.caps)
    ensures EndsNoLine(UibcLine(c))
  {
    UibcTextEndsNoLine(c);
    assert EndsNoLine(UIBC) && EndsNoLine(":");
    EndsNoLineConcat(":", Uibc.Text(c));
    EndsNoLineConcat(UIBC, ":" + Uibc.Text(c));
  }

  /** Behind its label the parser finds the printed capability. */
  lemma UibcLineReads(w: Whole, c: Uibc.Capability)
    requires Uibc.AllKnown(c.caps) && |UibcLine(c)| <= LINE_LIMIT
    ensures ParseWholeLine(Some(w), UibcLine(c)) == Some(w.(uibc := Some(Uibc.Reread(c))))
  {
    var line := UibcLine(c);
    UibcLineParts(line, Uibc.Text(c));
    Uibc.ParsedTextIsReread(c);
    LineWithUibc(w, line, Uibc.Text(c));
  }

  lemma UibcLineParts(line: string, text: string)
    requires line == UIBC + (":" + text)
    ensures Before(line, ':') == UIBC && Behind(line, ':') == text
  {
    BeforeOf(UIBC, ':', ":" + text);
    assert line[|UIBC| + 1..] == text;
  }

  lemma ShortLine(line: string)
    requires |line| <= LINE_LIMIT
    ensures AttributeOf(line) == Before(line, ':') && ValueOf(line) == Behind(line, ':')
  {
  }

  lemma LineWithUibc(w: Whole, line: string, text: string)
    requires |line| <= LINE_LIMIT && Before(line, ':') == UIBC && Behind(line, ':') == text
    ensures ParseWholeLine(Some(w), line) == ParseUibc(w, text)
  {
    ShortLine(line);
  }

  /** The twelve other labels are not the one of the capability. */
  lemma LabelIsNotUibc(i: nat)
    requires i < NAMES
    ensures Label(NameAt(i)) != UIBC
  {
    LabelHasMark(NameAt(i));
    assert |UIBC| == 19;
  }

  lemma LineWithoutUibc(w: Whole, line: string)
    requires |line| <= LINE_LIMIT && Before(line, ':') != UIBC
    ensures ParseWholeLine(Some(w), line) == Some(w.(msg := ParseLine(w.msg, line)))
  {
    ShortLine(line);
  }

  /** The label of the capability, as it is read. */
  lemma UibcOnTheWire(w: Whole, v: string)
    requires |"wfd_uibc_capability"| + 1 + |v| <= 254
    ensures ParseWholeLine(Some(w), "wfd_uibc_capability" + ":" + v) == ParseUibc(w, v)
    ensures ParseUibc(w, v) == match Uibc.Parse(v)
                               case None => None
                               case Some(r) => Some(Whole(w.msg, Some(r)))
  {
    var line := "wfd_uibc_capability" + ":" + v;
    UibcColon(v);
    UibcLineParts(line, v);
    LineWithUibc(w, line, v);
  }

  lemma UibcColon(v: string)
    ensures "wfd_uibc_capability" + ":" + v == UIBC + (":" + v)
  {
  }

  /** It stands between the route and the setting of the channel. */
  lemma UibcStands(w: Whole)
    requires KnownCaps(w)
    ensures WholeLinesAt(w)(6) == LinesFor(w.msg, Route)
    ensures WholeLinesAt(w)(7) == UibcLines(w)
    ensures WholeLinesAt(w)(8) == LinesFor(w.msg, UibcSetting)
  {
    assert NameAt(6) == Route && NameAt(7) == UibcSetting;
  }

  /** And as it is printed. */
  lemma UibcPrinted(w: Whole, c: Uibc.Capability)
    requires w.uibc == Some(c) && Uibc.AllKnown(c.caps)
    ensures UibcLines(w) == ["wfd_uibc_capability" + ":" + Uibc.Text(c)]
  {
    UibcColon(Uibc.Text(c));
  }

  lemma OtherLineReads(w: Whole, i: nat, ws: seq<string>)
    requires i < NAMES && |Line(NameAt(i), ws)| <= LINE_LIMIT
    ensures ParseWholeLine(Some(w), Line(NameAt(i), ws)) == Some(w.(msg := ParseLine(w.msg, Line(NameAt(i), ws))))
  {
    LabelShape(i);
    LabelIsNotUibc(i);
    Trip.LineParts(Label(NameAt(i)), ws);
    LineWithoutUibc(w, Line(NameAt(i), ws));
  }

  // ---------- what comes back ----------

  predicate Fits(w: Whole)
    requires KnownCaps(w)
  {
    Trip.Printable(w.msg) && Trip.LinesFit(w.msg) && UibcFits(w)
  }

  function RereadUibc(u: Option<Uibc.Capability>): Option<Uibc.Capability> {
    if u.Some? then Some(Uibc.Reread(u.value)) else None
  }

  /** What has been read of r and u after i of the thirteen attributes. */
  function State(r: Msg, u: Option<Uibc.Capability>): nat -> Option<Whole> {
    (i: nat) => Some(if i <= UIBC_AT then Whole(Trip.Upto(r, i), None) else Whole(Trip.Upto(r, i - 1), u))
  }

  lemma OtherStep(w: Whole, i: nat, u: Option<Uibc.Capability>)
    requires KnownCaps(w) && Fits(w) && Trip.Clean(w.msg) && i < NAMES
    ensures var r := Trip.Reread(w.msg);
            Fold(LinesFor(w.msg, NameAt(i)), Some(Whole(Trip.Upto(r, i), u)), ParseWholeLine)
            == Some(Whole(Trip.Upto(r, i + 1), u))
  {
    var name := NameAt(i);
    var x := Trip.Upto(Trip.Reread(w.msg), i);
    Trip.AttributeStep(w.msg, i);
    assert Trip.FitsLine(w.msg, name);
    if WordsOf(w.msg, name).Some? {
      var line := Line(name, WordsOf(w.msg, name).value);
      assert line in LinesFor(w.msg, name);
      FoldOne(line, x, ParseLine);
      FoldOne(line, Some(Whole(x, u)), ParseWholeLine);
      OtherLineReads(Whole(x, u), i, WordsOf(w.msg, name).value);
    }
  }

  lemma UibcStep(w: Whole, x: Msg)
    requires KnownCaps(w) && UibcFits(w)
    ensures Fold(UibcLines(w), Some(Whole(x, None)), ParseWholeLine) == Some(Whole(x, RereadUibc(w.uibc)))
  {
    if w.uibc.Some? {
      FoldOne(UibcLine(w.uibc.value), Some(Whole(x, None)), ParseWholeLine);
      UibcLineReads(Whole(x, None), w.uibc.value);
    }
  }

  lemma WholeStep(w: Whole, i: nat)
    requires KnownCaps(w) && Fits(w) && Trip.Clean(w.msg) && i < ALL
    ensures var s := State(Trip.Reread(w.msg), RereadUibc(w.uibc));
            Fold(WholeLinesAt(w)(i), s(i), ParseWholeLine) == s(i + 1)
  {
    if i < UIBC_AT {
      OtherStep(w, i, None);
    } else if i == UIBC_AT {
      UibcStep(w, Trip.Upto(Trip.Reread(w.msg), i));
    } else {
      OtherStep(w, i - 1, RereadUibc(w.uibc));
    }
  }

  lemma UibcLinesEndNoLine(w: Whole)
    requires KnownCaps(w)
    ensures AllLines(UibcLines(w))
  {
    if w.uibc.Some? {
      UibcEndsNoLine(w.uibc.value);
    }
  }

  lemma WholeLinesEndNoLine(w: Whole, i: nat)
    requires KnownCaps(w) && Trip.Clean(w.msg) && i < ALL
    ensures AllLines(WholeLinesAt(w)(i))
  {
    if i == UIBC_AT {
      UibcLinesEndNoLine(w);
      assert WholeLinesAt(w)(i) == UibcLines(w);
    } else {
      Trip.LineEndsNoLine(w.msg, if i < UIBC_AT then i else i - 1);
    }
  }

  lemma WholeTextParsesAsLines(w: Whole)
    requires KnownCaps(w) && Trip.Clean(w.msg)
    ensures ParseWhole(WholeText(w)) == Fold(Gather(WholeLinesAt(w), 0, ALL), Some(Whole(EMPTY, None)), ParseWholeLine)
  {
    forall k: nat | k < ALL ensures AllLines(WholeLinesAt(w)(k)) {
      WholeLinesEndNoLine(w, k);
    }
    GatheredLines(WholeLinesAt(w), 0, ALL);
    JoinedParses(Gather(WholeLinesAt(w), 0, ALL), Some(Whole(EMPTY, None)), ParseWholeLine);
  }

  lemma ParsedWholeIsReread(w: Whole)
    requires KnownCaps(w) && Fits(w) && Trip.Clean(w.msg)
    ensures ParseWhole(WholeText(w)) == Some(Whole(Trip.Reread(w.msg), RereadUibc(w.uibc)))
  {
    var r := Trip.Reread(w.msg);
    var s := State(r, RereadUibc(w.uibc));
    WholeTextParsesAsLines(w);
    forall k: nat | k < ALL
      ensures Fold(WholeLinesAt(w)(k), s(k), ParseWholeLine) == s(k + 1)
    {
      WholeStep(w, k);
    }
    GatheredFold(WholeLinesAt(w), 0, ALL, s, ParseWholeLine);
    Trip.UptoAll(r);
  }

  // ---------- exactly when it is the message that was printed ----------

  predicate CleanWhole(o: Option<Whole>) {
    o.Some? ==> Trip.Clean(o.value.msg)
  }

  /** No string of the message that is read has a space in it, whatever the text is. */
  lemma ParsedWholeIsClean(data: string)
    ensures CleanWhole(ParseWhole(data))
  {
    forall o, l | CleanWhole(o) ensures CleanWhole(ParseWholeLine(o, l)) {
      if o.Some? {
        Trip.LineKeepsClean(o.value.msg, l);
      }
    }
    LinesKeep(data, Some(Whole(EMPTY, None)), ParseWholeLine, CleanWhole);
  }

  /** The round trip of the thirteen attributes together, exactly. */
  lemma WholeRoundTripIff(w: Whole)
    requires KnownCaps(w) && Fits(w)
    ensures ParseWhole(WholeText(w)) == Some(w) <==>
              && Trip.Clean(w.msg) && Trip.Faithful(w.msg)
              && (w.uibc.Some? ==> Uibc.Faithful(w.uibc.value))
  {
    ParsedWholeIsClean(WholeText(w));
    if Trip.Clean(w.msg) {
      ParsedWholeIsReread(w);
      Trip.RereadSame(w.msg);
      if w.uibc.Some? {
        Uibc.RereadSame(w.uibc.value);
      }
    }
  }
}
