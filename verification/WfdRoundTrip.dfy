/** Printing a Wi-Fi Display message and parsing the text: what comes back, and exactly when
    it is the message that was printed. */
module WfdRoundTrip {
  import opened Wrappers
  import opened WfdText
  import opened WfdLines
  import opened WfdMessage

  // ---------- which messages ----------

  /** The printed text has a value wherever the parser reads one. */
  predicate Printable(m: Msg) {
    && (m.audio.Some? ==> m.audio.value != [])
    && (m.video.Some? ==> m.video.value.Some?)
    && (m.ports.Some? ==> m.ports.value.profile.Some?)
  }

  predicate LinesFit(m: Msg) {
    forall i :: 0 <= i < NAMES ==> FitsLine(m, NameAt(i))
  }

  predicate FitsLine(m: Msg, name: Name) {
    forall l :: l in LinesFor(m, name) ==> |l| <= LINE_LIMIT
  }

  predicate CleanString(s: Option<string>) {
    s.Some? ==> NoSpace(s.value)
  }

  predicate CleanFormats(list: seq<AudioCodec>) {
    list == [] || (CleanString(list[0].format) && CleanFormats(list[1..]))
  }

  lemma {:induction false} CleanAt(list: seq<AudioCodec>, i: nat)
    requires CleanFormats(list) && i < |list|
    ensures CleanString(list[i].format)
  {
    if i > 0 {
      CleanAt(list[1..], i - 1);
    }
  }

  predicate CleanCoupled(c: Option<CoupledSink>) {
    c.Some? ==> CleanString(c.value.address)
  }

  predicate CleanUrls(u: Urls) {
    CleanString(u.url0) && CleanString(u.url1)
  }

  predicate CleanPorts(p: RtpPorts) {
    CleanString(p.profile) && CleanString(p.mode)
  }

  /** No string of the message contains a space, a tab or a line end. */
  predicate Clean(m: Msg) {
    && (m.audio.Some? ==> CleanFormats(m.audio.value))
    && (m.coupled.Some? ==> CleanCoupled(m.coupled.value))
    && (m.trigger.Some? ==> CleanString(m.trigger.value))
    && (m.urls.Some? ==> CleanUrls(m.urls.value))
    && (m.ports.Some? ==> CleanPorts(m.ports.value))
    && (m.route.Some? ==> CleanString(m.route.value))
  }

  // ---------- what comes back ----------

  /** A codec with its format as it is printed. */
  function Named(c: AudioCodec): AudioCodec {
    c.(format := Some(FormatText(c)))
  }

  /** The first n codecs, filled up with empty ones. */
  function Resized(list: seq<AudioCodec>, n: nat): (r: seq<AudioCodec>)
    ensures |r| == n
    ensures forall i :: 0 <= i < n ==> r[i] == if i < |list| then Named(list[i]) else AudioCodec(Some(""), 0, 0)
  {
    if n == 0 then []
    else if list == [] then [AudioCodec(Some(""), 0, 0)] + Resized([], n - 1)
    else [Named(list[0])] + Resized(list[1..], n - 1)
  }

  function AudioCount(list: seq<AudioCodec>): nat {
    |Spaced(AudioWords(list))| / 16
  }

  function RereadVideo(c: VideoCodec): VideoCodec {
    if c.preferred == 1 then c else c.(maxHres := 0, maxVres := 0)
  }

  function RereadCoupled(c: Option<CoupledSink>): CoupledSink {
    match c
    case None => CoupledSink(0, Some(""))
    case Some(k) => CoupledSink(k.status, Some(Or(k.address, "none")))
  }

  /** What the parser makes of the printed text. */
  function Reread(m: Msg): Msg
    requires Printable(m)
  {
    Msg(if m.audio.Some? then Some(Resized(m.audio.value, AudioCount(m.audio.value))) else None,
        if m.video.Some? then Some(Some(RereadVideo(m.video.value.value))) else None,
        if m.coupled.Some? then Some(Some(RereadCoupled(m.coupled.value))) else None,
        if m.trigger.Some? then Some(Some(Or(m.trigger.value, NULL_TEXT))) else None,
        if m.urls.Some? then Some(Urls(Some(Or(m.urls.value.url0, "none")), Some(Or(m.urls.value.url1, "none")))) else None,
        if m.ports.Some? then Some(m.ports.value.(mode := Some(Or(m.ports.value.mode, NULL_TEXT)))) else None,
        if m.route.Some? then Some(Some(Or(m.route.value, NULL_TEXT))) else None,
        m.uibcSetting,
        m.standbyResume,
        if m.standby.Some? then Some(true) else None,
        if m.connector.Some? then Some(m.connector.value.(supported := true)) else None,
        if m.idr.Some? then Some(true) else None)
  }

  // ---------- one attribute ----------

  lemma {:induction false} WordFits(ws: seq<string>, i: nat)
    requires i < |ws|
    ensures |ws[i]| < |Spaced(ws)|
  {
    if i > 0 {
      WordFits(ws[1..], i - 1);
    }
  }

  lemma NoneIsZero()
    ensures StrToUl("none", 16) == 0 && StrToUl("", 16) == 0
  {
    assert DigitOf('n') == 99;
    assert SkipBlanks("none") == "none";
    assert Leading("none", 16) == [];
  }

  lemma HexOrNoneReads(n: U32)
    ensures StrToUl(HexOrNone(n), 16) == n
  {
    NoneIsZero();
    HexReads(n, 4, []);
    assert Hex(n, 4) + [] == Hex(n, 4);
  }

  lemma HexAlone(n: U32, width: nat)
    ensures StrToUl(Hex(n, width), 16) == n
  {
    HexReads(n, width, []);
    assert Hex(n, width) + [] == Hex(n, width);
  }

  lemma AudioStep(fmt: string, a: string, b: string, ws: seq<string>)
    requires Readable(fmt) && Readable(a) && Readable(b)
    ensures var v := Spaced([fmt, a, b] + ws);
            && Next(v) == fmt && Next(After(v)) == a && Next(After(After(v))) == b
            && SkipPunct(After(After(After(v)))) == Spaced(ws)
  {
    assert [fmt, a, b] + ws == [fmt] + ([a] + ([b] + ws));
    SpacedNext(fmt, [a] + ([b] + ws));
    SpacedNext(a, [b] + ws);
    SpacedNext(b, ws);
    SpacesOrNothing(ws);
  }

  lemma SpacesOrNothing(ws: seq<string>)
    ensures SkipPunct(Spaced(ws)) == Spaced(ws)
  {
  }

  predicate ReadableCodecs(list: seq<AudioCodec>) {
    forall i :: 0 <= i < |list| ==> Readable(FormatText(list[i]))
  }

  lemma AudioWordsReadable(c: AudioCodec, tail: string)
    requires tail == "" || tail == ","
    ensures Readable(Hex(c.modes, 8)) && Readable(Hex(c.latency, 2) + tail)
    ensures StrToUl(Hex(c.modes, 8), 16) == c.modes && StrToUl(Hex(c.latency, 2) + tail, 16) == c.latency
  {
    HexReadable(c.modes, 8);
    HexReadable(c.latency, 2);
    HexAlone(c.modes, 8);
    HexReads(c.latency, 2, tail);
  }

  lemma AudioListOfNothing(n: nat)
    ensures AudioList([], n) == Resized([], n)
  {
    NoneIsZero();
    if n > 0 {
      assert After([]) == [];
      AudioListOfNothing(n - 1);
    }
  }

  /** Whatever number of codecs the parser reads, it gets the printed ones right and makes
      up empty ones behind them. */
  lemma {:induction false} AudioReads(list: seq<AudioCodec>, n: nat)
    requires ReadableCodecs(list)
    ensures AudioList(Spaced(AudioWords(list)), n) == Resized(list, n)
    decreases n
  {
    if list == [] {
      AudioListOfNothing(n);
    } else if n > 0 {
      var tail := if |list| > 1 then "," else "";
      AudioWordsReadable(list[0], tail);
      AudioStep(FormatText(list[0]), Hex(list[0].modes, 8), Hex(list[0].latency, 2) + tail, AudioWords(list[1..]));
      AudioReads(list[1..], n - 1);
    }
  }

  lemma HexOrNoneReadable(n: U32)
    ensures Readable(HexOrNone(n))
  {
    HexReadable(n, 4);
  }

  lemma VideoWordsReadable(c: VideoCodec)
    ensures AllReadable(VideoWords(c))
  {
    HexReadable(c.native, 2);
    HexReadable(c.preferred, 2);
    HexReadable(c.profile, 2);
    HexReadable(c.level, 2);
    HexReadable(c.cea, 8);
    HexReadable(c.vesa, 8);
    HexReadable(c.hh, 8);
    HexReadable(c.latency, 2);
    HexReadable(c.minSlice, 4);
    HexReadable(c.sliceEnc, 4);
    HexReadable(c.frameRate, 2);
    HexOrNoneReadable(c.maxHres);
    HexOrNoneReadable(c.maxVres);
  }

  lemma VideoFieldReads(c: VideoCodec, i: nat, n: U32, width: nat)
    requires i < 13 && (VideoWords(c)[i] == Hex(n, width) || VideoWords(c)[i] == HexOrNone(n))
    ensures HexField(Spaced(VideoWords(c)), i) == n
  {
    VideoWordsReadable(c);
    SpacedField(VideoWords(c), i);
    HexAlone(n, width);
    HexOrNoneReads(n);
  }

  lemma VideoHeadReads(c: VideoCodec, v: string)
    requires v == Spaced(VideoWords(c))
    ensures HexField(v, 0) == c.native && HexField(v, 1) == c.preferred
    ensures HexField(v, 2) == c.profile && HexField(v, 3) == c.level
  {
    VideoFieldReads(c, 0, c.native, 2);
    VideoFieldReads(c, 1, c.preferred, 2);
    VideoFieldReads(c, 2, c.profile, 2);
    VideoFieldReads(c, 3, c.level, 2);
  }

  lemma VideoMiddleReads(c: VideoCodec, v: string)
    requires v == Spaced(VideoWords(c))
    ensures HexField(v, 4) == c.cea && HexField(v, 5) == c.vesa
    ensures HexField(v, 6) == c.hh && HexField(v, 7) == c.latency
  {
    VideoFieldReads(c, 4, c.cea, 8);
    VideoFieldReads(c, 5, c.vesa, 8);
    VideoFieldReads(c, 6, c.hh, 8);
    VideoFieldReads(c, 7, c.latency, 2);
  }

  lemma VideoTailReads(c: VideoCodec, v: string)
    requires v == Spaced(VideoWords(c))
    ensures HexField(v, 8) == c.minSlice && HexField(v, 9) == c.sliceEnc && HexField(v, 10) == c.frameRate
    ensures HexField(v, 11) == c.maxHres && HexField(v, 12) == c.maxVres
  {
    VideoFieldReads(c, 8, c.minSlice, 4);
    VideoFieldReads(c, 9, c.sliceEnc, 4);
    VideoFieldReads(c, 10, c.frameRate, 2);
    VideoFieldReads(c, 11, c.maxHres, 4);
    VideoFieldReads(c, 12, c.maxVres, 4);
  }

  lemma VideoReads(c: VideoCodec)
    ensures VideoOf(Spaced(VideoWords(c))) == Some(RereadVideo(c))
  {
    var v := Spaced(VideoWords(c));
    VideoHeadReads(c, v);
    VideoMiddleReads(c, v);
    VideoTailReads(c, v);
  }

  /** The preferred format, as M4 sends it with the flag at 0, loses its size on the way. */
  lemma PreferredFormatLosesItsSize(c: VideoCodec)
    requires c.preferred == 0
    ensures VideoOf(Spaced(VideoWords(c))) == Some(c) <==> c.maxHres == 0 && c.maxVres == 0
  {
    VideoReads(c);
  }

  lemma CoupledReads(c: Option<CoupledSink>)
    requires AllReadable(CoupledWords(c))
    ensures CoupledOf(Spaced(CoupledWords(c))) == Some(RereadCoupled(c))
  {
    var ws := CoupledWords(c);
    SpacedField(ws, 0);
    SpacedField(ws, 1);
    match c
    case None => NoneIsZero();
    case Some(k) => HexAlone(k.status, 2);
  }

  lemma PortsRead(p: RtpPorts)
    requires p.profile.Some?
    requires AllReadable(PortWords(p))
    ensures PortsOf(Spaced(PortWords(p))) == p.(mode := Some(Or(p.mode, NULL_TEXT)))
  {
    var ws := PortWords(p);
    SpacedField(ws, 0);
    SpacedField(ws, 1);
    SpacedField(ws, 2);
    SpacedField(ws, 3);
    SignedReads(p.port0);
    SignedReads(p.port1);
  }

  lemma ConnectorReads(c: Connector)
    requires Readable(ConnectorWords(c)[0])
    ensures ConnectorOf(Spaced(ConnectorWords(c))) == c.(supported := true)
  {
    SpacedField(ConnectorWords(c), 0);
    NoneIsZero();
    HexAlone(c.kind, 2);
  }

  lemma OneWordStands(w: string)
    ensures Spaced([w]) == " " + w
  {
    assert [w][1..] == [];
    assert " " + w + [] == " " + w;
  }

  lemma OneWordReads(w: string)
    requires Readable(w)
    ensures Spaced([w]) == " " + w && SkipSpace(Spaced([w])) == w && Field(Spaced([w]), 0) == w
  {
    OneWordStands(w);
    assert Spaced([w])[1..] == w;
    SpacedField([w], 0);
  }

  lemma UrlsRead(u: Urls)
    requires AllReadable(UrlWords(u))
    ensures UrlsOf(Spaced(UrlWords(u))) == Urls(Some(Or(u.url0, "none")), Some(Or(u.url1, "none")))
  {
    SpacedField(UrlWords(u), 0);
    SpacedField(UrlWords(u), 1);
  }

  // ---------- one line ----------

  lemma LineReads(x: Msg, i: nat, ws: seq<string>)
    requires i < NAMES && |Line(NameAt(i), ws)| <= LINE_LIMIT
    ensures ParseLine(x, Line(NameAt(i), ws)) == WithValue(x, NameAt(i), Spaced(ws))
  {
    LabelIsKnown(i);
    LabelShape(i);
    LineParts(Label(NameAt(i)), ws);
  }

  lemma LineParts(head: string, ws: seq<string>)
    requires ':' !in head
    ensures var line := head + AfterLabel(ws);
            Before(line, ':') == head && Behind(line, ':') == Spaced(ws)
  {
    if ws == [] {
      BeforeOf(head, ':', []);
      assert head + [] == head;
    } else {
      var line := head + (":" + Spaced(ws));
      BeforeOf(head, ':', ":" + Spaced(ws));
      assert line[|head| + 1..] == Spaced(ws);
    }
  }

  /** x with one attribute taken from r. */
  function SetField(x: Msg, name: Name, r: Msg): Msg {
    match name
    case Audio => x.(audio := r.audio)
    case Video => x.(video := r.video)
    case Coupled => x.(coupled := r.coupled)
    case Trigger => x.(trigger := r.trigger)
    case PresentationUrl => x.(urls := r.urls)
    case ClientPorts => x.(ports := r.ports)
    case Route => x.(route := r.route)
    case UibcSetting => x.(uibcSetting := r.uibcSetting)
    case StandbyResume => x.(standbyResume := r.standbyResume)
    case Standby => x.(standby := r.standby)
    case ConnectorType => x.(connector := r.connector)
    case Idr => x.(idr := r.idr)
    case Other => x
  }

  lemma {:induction false} FormatFits(list: seq<AudioCodec>, i: nat)
    requires i < |list|
    ensures |FormatText(list[i])| <= |Spaced(AudioWords(list))|
  {
    var tail := if |list| > 1 then "," else "";
    var first := [FormatText(list[0]), Hex(list[0].modes, 8), Hex(list[0].latency, 2) + tail];
    SpacedConcat(first, AudioWords(list[1..]));
    if i == 0 {
      WordFits(first, 0);
    } else {
      FormatFits(list[1..], i - 1);
    }
  }

  predicate AllNoSpace(ws: seq<string>) {
    forall k :: 0 <= k < |ws| ==> NoSpace(ws[k])
  }

  lemma {:induction false} AudioWordsNoSpace(list: seq<AudioCodec>)
    requires CleanFormats(list)
    ensures AllNoSpace(AudioWords(list))
  {
    if list != [] {
      AudioWordsNoSpace(list[1..]);
    }
  }

  lemma VideoWordsNoSpace(c: VideoCodec)
    ensures AllNoSpace(VideoWords(c))
  {
    VideoWordsReadable(c);
  }

  lemma CoupledWordsNoSpace(c: Option<CoupledSink>)
    requires CleanCoupled(c)
    ensures AllNoSpace(CoupledWords(c))
  {
  }

  lemma PortWordsNoSpace(p: RtpPorts)
    requires CleanPorts(p)
    ensures AllNoSpace(PortWords(p))
  {
  }

  /** The words of a clean message have no space in them. */
  lemma WordsNoSpace(m: Msg, name: Name)
    requires Clean(m) && WordsOf(m, name).Some?
    ensures AllNoSpace(WordsOf(m, name).value)
  {
    match name
    case Audio => AudioWordsNoSpace(m.audio.value);
    case Video => if m.video.value.Some? { VideoWordsNoSpace(m.video.value.value); }
    case Coupled => CoupledWordsNoSpace(m.coupled.value);
    case ClientPorts => PortWordsNoSpace(m.ports.value);
    case _ =>
  }

  lemma WordsReadable(m: Msg, name: Name)
    requires Clean(m) && FitsLine(m, name) && WordsOf(m, name).Some?
    ensures AllReadable(WordsOf(m, name).value)
  {
    var ws := WordsOf(m, name).value;
    WordsNoSpace(m, name);
    assert Line(name, ws) in LinesFor(m, name);
    forall k | 0 <= k < |ws| ensures |ws[k]| <= LIMIT {
      WordFits(ws, k);
    }
  }

  lemma CodecReadable(list: seq<AudioCodec>, i: nat)
    requires i < |list| && CleanFormats(list) && |Spaced(AudioWords(list))| <= LIMIT
    ensures Readable(FormatText(list[i]))
  {
    CleanAt(list, i);
    FormatFits(list, i);
  }

  lemma CodecsReadable(m: Msg)
    requires Clean(m) && FitsLine(m, Audio) && m.audio.Some?
    ensures ReadableCodecs(m.audio.value)
  {
    var list := m.audio.value;
    assert Line(Audio, AudioWords(list)) in LinesFor(m, Audio);
    assert |Spaced(AudioWords(list))| <= LIMIT;
    forall i | 0 <= i < |list| ensures Readable(FormatText(list[i])) {
      CodecReadable(list, i);
    }
  }

  lemma AudioAttribute(m: Msg, x: Msg)
    requires Printable(m) && Clean(m) && FitsLine(m, Audio) && m.audio.Some?
    ensures WithValue(x, Audio, Spaced(AudioWords(m.audio.value))) == SetField(x, Audio, Reread(m))
  {
    CodecsReadable(m);
    AudioReads(m.audio.value, AudioCount(m.audio.value));
  }

  lemma VideoAttribute(m: Msg, x: Msg)
    requires Printable(m) && m.video.Some?
    ensures WithValue(x, Video, Spaced(VideoWords(m.video.value.value))) == SetField(x, Video, Reread(m))
  {
    VideoReads(m.video.value.value);
  }

  lemma PairAttributes(m: Msg, name: Name, x: Msg)
    requires name == Coupled || name == PresentationUrl || name == ClientPorts || name == ConnectorType
    requires Printable(m) && WordsOf(m, name).Some? && AllReadable(WordsOf(m, name).value)
    ensures WithValue(x, name, Spaced(WordsOf(m, name).value)) == SetField(x, name, Reread(m))
  {
    match name
    case Coupled => CoupledReads(m.coupled.value);
    case PresentationUrl => UrlsRead(m.urls.value);
    case ClientPorts => PortsRead(m.ports.value);
    case ConnectorType => ConnectorReads(m.connector.value);
  }

  lemma WordAttributes(m: Msg, name: Name, x: Msg)
    requires name == Trigger || name == Route || name == UibcSetting || name == StandbyResume || name == Standby || name == Idr
    requires Printable(m) && WordsOf(m, name).Some? && AllReadable(WordsOf(m, name).value)
    ensures WithValue(x, name, Spaced(WordsOf(m, name).value)) == SetField(x, name, Reread(m))
  {
    var ws := WordsOf(m, name).value;
    if name != Standby && name != Idr {
      OneWordReads(ws[0]);
      assert ws == [ws[0]];
    }
  }

  /** Parsing the value of one printed attribute. */
  lemma AttributeReads(m: Msg, name: Name, x: Msg)
    requires Printable(m) && Clean(m) && FitsLine(m, name) && WordsOf(m, name).Some?
    ensures WithValue(x, name, Spaced(WordsOf(m, name).value)) == SetField(x, name, Reread(m))
  {
    WordsReadable(m, name);
    match name
    case Audio => AudioAttribute(m, x);
    case Video => VideoAttribute(m, x);
    case Coupled => PairAttributes(m, name, x);
    case PresentationUrl => PairAttributes(m, name, x);
    case ClientPorts => PairAttributes(m, name, x);
    case ConnectorType => PairAttributes(m, name, x);
    case _ => WordAttributes(m, name, x);
  }

  // ---------- the whole message ----------

  /** The first i attributes of r, and no others. */
  function Upto(r: Msg, i: nat): Msg {
    Msg(if i > 0 then r.audio else None,
        if i > 1 then r.video else None,
        if i > 2 then r.coupled else None,
        if i > 3 then r.trigger else None,
        if i > 4 then r.urls else None,
        if i > 5 then r.ports else None,
        if i > 6 then r.route else None,
        if i > 7 then r.uibcSetting else None,
        if i > 8 then r.standbyResume else None,
        if i > 9 then r.standby else None,
        if i > 10 then r.connector else None,
        if i > 11 then r.idr else None)
  }

  lemma AttributeStep(m: Msg, i: nat)
    requires Printable(m) && Clean(m) && LinesFit(m) && i < NAMES
    ensures Fold(LinesFor(m, NameAt(i)), Upto(Reread(m), i), ParseLine) == Upto(Reread(m), i + 1)
  {
    var name := NameAt(i);
    var x := Upto(Reread(m), i);
    assert FitsLine(m, name);
    UptoNext(m, i);
    if WordsOf(m, name).Some? {
      var ws := WordsOf(m, name).value;
      assert Line(name, ws) in LinesFor(m, name);
      FoldOne(Line(name, ws), x, ParseLine);
      LineReads(x, i, ws);
      AttributeReads(m, name, x);
    }
  }

  lemma UptoNext(m: Msg, i: nat)
    requires Printable(m) && i < NAMES
    ensures SetField(Upto(Reread(m), i), NameAt(i), Reread(m)) == Upto(Reread(m), i + 1)
    ensures WordsOf(m, NameAt(i)).None? ==> Upto(Reread(m), i) == Upto(Reread(m), i + 1)
  {
    SetNext(Reread(m), i);
    if WordsOf(m, NameAt(i)).None? {
      SameNext(m, Reread(m), i);
    }
  }

  lemma SetNext(r: Msg, i: nat)
    requires i < NAMES
    ensures SetField(Upto(r, i), NameAt(i), r) == Upto(r, i + 1)
  {
  }

  lemma SameNext(m: Msg, r: Msg, i: nat)
    requires Printable(m) && r == Reread(m) && i < NAMES && WordsOf(m, NameAt(i)).None?
    ensures Upto(r, i) == Upto(r, i + 1)
  {
  }

  lemma {:induction false} SpacedEndsNoLine(ws: seq<string>)
    requires AllNoSpace(ws)
    ensures EndsNoLine(Spaced(ws))
  {
    if ws != [] {
      SpacedEndsNoLine(ws[1..]);
    }
  }

  lemma LineEndsNoLine(m: Msg, i: nat)
    requires Clean(m) && i < NAMES
    ensures AllLines(LinesFor(m, NameAt(i)))
  {
    var name := NameAt(i);
    if WordsOf(m, name).Some? {
      WordsNoSpace(m, name);
      SpacedEndsNoLine(WordsOf(m, name).value);
      LabelShape(i);
    }
  }

  lemma TextParsesAsLines(m: Msg)
    requires Clean(m)
    ensures ParseBuffer(Text(m), EMPTY) == Fold(Gather(LinesAt(m), 0, NAMES), EMPTY, ParseLine)
  {
    forall k: nat | k < NAMES ensures AllLines(LinesAt(m)(k)) {
      LineEndsNoLine(m, k);
    }
    GatheredLines(LinesAt(m), 0, NAMES);
    JoinedParses(Gather(LinesAt(m), 0, NAMES), EMPTY, ParseLine);
  }

  function State(r: Msg): nat -> Msg {
    (i: nat) => Upto(r, i)
  }

  /** What the parser makes of the text of a message without spaces in its strings. */
  lemma ParsedTextIsReread(m: Msg)
    requires Printable(m) && LinesFit(m) && Clean(m)
    ensures ParseBuffer(Text(m), EMPTY) == Reread(m)
  {
    var r := Reread(m);
    TextParsesAsLines(m);
    forall k: nat | k < NAMES
      ensures Fold(LinesAt(m)(k), State(r)(k), ParseLine) == State(r)(k + 1)
    {
      AttributeStep(m, k);
    }
    GatheredFold(LinesAt(m), 0, NAMES, State(r), ParseLine);
    UptoAll(r);
  }

  lemma UptoAll(r: Msg)
    ensures Upto(r, 0) == EMPTY && Upto(r, NAMES) == r
  {
  }

  // ---------- exactly when the message comes back ----------

  /** What a caller has to check besides the strings. */
  predicate Faithful(m: Msg) {
    && (m.audio.Some? ==> AudioCount(m.audio.value) == |m.audio.value| && HasFormats(m.audio.value))
    && (m.video.Some? && m.video.value.Some? ==>
          var c := m.video.value.value; c.preferred == 1 || c.maxHres == c.maxVres == 0)
    && (m.coupled.Some? ==> m.coupled.value.Some? && m.coupled.value.value.address.Some?)
    && (m.trigger.Some? ==> m.trigger.value.Some?)
    && (m.urls.Some? ==> m.urls.value.url0.Some? && m.urls.value.url1.Some?)
    && (m.ports.Some? ==> m.ports.value.mode.Some?)
    && (m.route.Some? ==> m.route.value.Some?)
    && (m.standby.Some? ==> m.standby.value)
    && (m.connector.Some? ==> m.connector.value.supported)
    && (m.idr.Some? ==> m.idr.value)
  }

  predicate HasFormats(list: seq<AudioCodec>) {
    forall i :: 0 <= i < |list| ==> list[i].format.Some?
  }

  lemma ResizedSame(list: seq<AudioCodec>, n: nat)
    ensures Resized(list, n) == list <==> n == |list| && HasFormats(list)
  {
    var r := Resized(list, n);
    if n == |list| {
      if HasFormats(list) {
        assert r == list;
      } else {
        var i :| 0 <= i < |list| && list[i].format.None?;
        assert r[i] != list[i];
      }
    }
  }

  lemma RereadSame(m: Msg)
    requires Printable(m)
    ensures Reread(m) == m <==> Faithful(m)
  {
    if m.audio.Some? {
      ResizedSame(m.audio.value, AudioCount(m.audio.value));
    }
  }

  lemma CleanCons(c: AudioCodec, rest: seq<AudioCodec>)
    requires CleanString(c.format) && CleanFormats(rest)
    ensures CleanFormats([c] + rest)
  {
    assert ([c] + rest)[1..] == rest;
  }

  lemma {:induction false} AudioListIsClean(v: string, n: nat)
    ensures CleanFormats(AudioList(v, n))
    decreases n
  {
    if n > 0 {
      AudioListIsClean(BehindCodec(v), n - 1);
      CleanCons(CodecAt(v), AudioList(BehindCodec(v), n - 1));
    }
  }

  lemma ListsAreClean(v: string)
    ensures CleanFormats(AudioOf(v)) && CleanUrls(UrlsOf(v))
  {
    AudioListIsClean(v, |v| / 16);
  }

  lemma StringsAreClean(v: string)
    ensures CleanCoupled(CoupledOf(v)) && CleanString(StringOf(v)) && CleanPorts(PortsOf(v))
  {
  }

  lemma ValueKeepsClean(x: Msg, name: Name, v: string)
    requires Clean(x)
    ensures Clean(WithValue(x, name, v))
  {
    match name
    case Audio => ListsAreClean(v);
    case Coupled => StringsAreClean(v);
    case Trigger => StringsAreClean(v);
    case PresentationUrl => ListsAreClean(v);
    case ClientPorts => StringsAreClean(v);
    case Route => StringsAreClean(v);
    case _ =>
  }

  lemma LineKeepsClean(x: Msg, line: string)
    requires Clean(x)
    ensures Clean(ParseLine(x, line))
  {
    var l := Cut(line, LINE_LIMIT);
    ValueKeepsClean(x, NameOf(Cut(Before(l, ':'), LIMIT)), Cut(Behind(l, ':'), LIMIT));
  }

  /** No string the parser stores contains a space, whatever the text is. */
  lemma ParsedIsClean(data: string)
    ensures Clean(ParseBuffer(data, EMPTY))
  {
    forall y, l | Clean(y) ensures Clean(ParseLine(y, l)) {
      LineKeepsClean(y, l);
    }
    LinesKeep(data, EMPTY, ParseLine, Clean);
  }

  /** The round trip, exactly: the parsed text is the message again if and only if no string
      has a space in it and the message is faithful. */
  lemma RoundTripIff(m: Msg)
    requires Printable(m) && LinesFit(m)
    ensures ParseBuffer(Text(m), EMPTY) == m <==> Clean(m) && Faithful(m)
  {
    ParsedIsClean(Text(m));
    if Clean(m) {
      ParsedTextIsReread(m);
      RereadSame(m);
    }
  }
}
