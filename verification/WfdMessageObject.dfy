/** The message as an object whose fields the parser fills in and the printer reads. */
module WfdMessageObject {
  import opened Sequences
  import opened Wrappers
  import opened WfdText
  import opened WfdLines
  import M = WfdMessage
  import opened WfdMessage

  // ---------- the values ----------

  method ReadCodec(value: string) returns (codec: AudioCodec, v: string)
    ensures codec == CodecAt(value) && v == BehindCodec(value)
  {
    var format, modes, latency;
    format, v := ReadString(value);
    modes, v := ReadUInt32(v, 16);
    latency, v := ReadUInt32(v, 16);
    v := SkipPunct(v);
    codec := AudioCodec(Some(format), modes, latency);
  }

  lemma AudioListStep(list: seq<AudioCodec>, v: string, n: nat)
    requires n > 0
    ensures list + AudioList(v, n) == (list + [CodecAt(v)]) + AudioList(BehindCodec(v), n - 1)
  {
    assert AudioList(v, n) == [CodecAt(v)] + AudioList(BehindCodec(v), n - 1);
  }

  method ReadAudio(value: string) returns (list: seq<AudioCodec>)
    ensures list == AudioOf(value)
  {
    list := [];
    var v := value;
    var i, count := 0, |value| / 16;
    while i < count
      invariant 0 <= i <= count
      invariant list + AudioList(v, count - i) == AudioOf(value)
    {
      AudioListStep(list, v, count - i);
      var codec;
      codec, v := ReadCodec(v);
      list := list + [codec];
      i := i + 1;
    }
  }

  /** One more number, at a known place. */
  method ReadHexAt(ghost value: string, ghost i: nat, v: string) returns (field: U32, rest: string)
    requires v == Skip(value, i)
    ensures field == HexField(value, i) && rest == Skip(value, i + 1)
  {
    field, rest := ReadUInt32(v, 16);
  }

  method ReadVideo(value: string) returns (codec: Option<VideoCodec>)
    ensures codec == VideoOf(value)
  {
    if value == [] {
      return None;
    }
    var v := value;
    var native, preferred, profile, level, cea, vesa, hh, latency, minSlice, sliceEnc, frameRate;
    native, v := ReadHexAt(value, 0, v);
    preferred, v := ReadHexAt(value, 1, v);
    profile, v := ReadHexAt(value, 2, v);
    level, v := ReadHexAt(value, 3, v);
    cea, v := ReadHexAt(value, 4, v);
    vesa, v := ReadHexAt(value, 5, v);
    hh, v := ReadHexAt(value, 6, v);
    latency, v := ReadHexAt(value, 7, v);
    minSlice, v := ReadHexAt(value, 8, v);
    sliceEnc, v := ReadHexAt(value, 9, v);
    frameRate, v := ReadHexAt(value, 10, v);
    var maxHres: U32, maxVres: U32 := 0, 0;
    if preferred == 1 {
      maxHres, v := ReadHexAt(value, 11, v);
      maxVres, v := ReadHexAt(value, 12, v);
    }
    codec := Some(VideoCodec(native, preferred, profile, level, cea, vesa, hh, latency, minSlice,
                             sliceEnc, frameRate, maxHres, maxVres));
  }

  method ReadCoupled(value: string) returns (sink: Option<CoupledSink>)
    ensures sink == CoupledOf(value)
  {
    if value == [] {
      return None;
    }
    var status, address;
    var v := value;
    status, v := ReadUInt32(v, 16);
    address, v := ReadString(v);
    assert Skip(value, 1) == After(value);
    sink := Some(CoupledSink(status, Some(address)));
  }

  method ReadUrls(value: string) returns (urls: Urls)
    ensures urls == UrlsOf(value)
  {
    if value == [] {
      return Urls(None, None);
    }
    var url0, url1;
    var v := value;
    url0, v := ReadString(v);
    url1, v := ReadString(v);
    assert Skip(value, 1) == After(value);
    urls := Urls(Some(url0), Some(url1));
  }

  method ReadPorts(value: string) returns (ports: RtpPorts)
    ensures ports == PortsOf(value)
  {
    if value == [] {
      return RtpPorts(None, 0, 0, None);
    }
    var profile, port0, port1, mode;
    var v := value;
    profile, v := ReadString(v);
    assert v == Skip(value, 1);
    port0, v := ReadUInt32(v, 10);
    assert v == Skip(value, 2);
    port1, v := ReadUInt32(v, 10);
    assert v == Skip(value, 3);
    mode, v := ReadString(v);
    ports := RtpPorts(Some(profile), port0, port1, Some(mode));
  }

  // ---------- the text ----------

  /** Appends every word behind a space. */
  method AppendWords(lines: string, ws: seq<string>) returns (r: string)
    ensures r == lines + Spaced(ws)
  {
    r := lines;
    var i := 0;
    while i < |ws|
      invariant 0 <= i <= |ws|
      invariant r + Spaced(ws[i..]) == lines + Spaced(ws)
    {
      ghost var before := r;
      r := r + " " + ws[i];
      assert ws[i..][1..] == ws[i + 1..];
      assert r + Spaced(ws[i + 1..]) == before + Spaced(ws[i..]);
      i := i + 1;
    }
    assert r + [] == r;
  }

  lemma AudioWordsStep(list: seq<AudioCodec>, i: nat)
    requires i < |list|
    ensures
      var words := [FormatText(list[i]), Hex(list[i].modes, 8), Hex(list[i].latency, 2) + if i + 1 < |list| then "," else ""];
      Spaced(AudioWords(list[i..])) == Spaced(words) + Spaced(AudioWords(list[i + 1..]))
  {
    var words := [FormatText(list[i]), Hex(list[i].modes, 8), Hex(list[i].latency, 2) + if i + 1 < |list| then "," else ""];
    assert list[i..][1..] == list[i + 1..];
    SpacedConcat(words, AudioWords(list[i + 1..]));
  }

  method AppendAudio(lines: string, list: seq<AudioCodec>) returns (r: string)
    ensures r == lines + Spaced(AudioWords(list))
  {
    r := lines;
    var i := 0;
    while i < |list|
      invariant 0 <= i <= |list|
      invariant r + Spaced(AudioWords(list[i..])) == lines + Spaced(AudioWords(list))
    {
      AudioWordsStep(list, i);
      var words := [FormatText(list[i]), Hex(list[i].modes, 8), Hex(list[i].latency, 2) + if i + 1 < |list| then "," else ""];
      Assoc(r, Spaced(words), Spaced(AudioWords(list[i + 1..])));
      r := AppendWords(r, words);
      i := i + 1;
    }
    assert r + [] == r;
  }

  /** Appends one more word of a list behind a space. */
  method AppendWord(ghost ws: seq<string>, ghost i: nat, text: string, word: string) returns (r: string)
    requires i < |ws| && ws[i] == word && text == Spaced(ws[..i])
    ensures r == Spaced(ws[..i + 1])
  {
    r := text + " " + word;
    assert ws[..i + 1] == ws[..i] + [word];
    SpacedConcat(ws[..i], [word]);
    assert [word][1..] == [];
    assert Spaced([word]) == " " + word;
  }

  ghost predicate CodecWords(c: VideoCodec, ws: seq<string>) {
    && |ws| == 13 && ws[0] == Hex(c.native, 2) && ws[1] == Hex(c.preferred, 2)
    && ws[2] == Hex(c.profile, 2) && ws[3] == Hex(c.level, 2)
  }

  ghost predicate SupportWords(c: VideoCodec, ws: seq<string>) {
    && |ws| == 13 && ws[4] == Hex(c.cea, 8) && ws[5] == Hex(c.vesa, 8)
    && ws[6] == Hex(c.hh, 8) && ws[7] == Hex(c.latency, 2)
  }

  ghost predicate SizeWords(c: VideoCodec, ws: seq<string>) {
    && |ws| == 13 && ws[8] == Hex(c.minSlice, 4) && ws[9] == Hex(c.sliceEnc, 4)
    && ws[10] == Hex(c.frameRate, 2) && ws[11] == HexOrNone(c.maxHres) && ws[12] == HexOrNone(c.maxVres)
  }

  lemma CodecWordsPrinted(c: VideoCodec, ws: seq<string>)
    requires ws == VideoWords(c)
    ensures CodecWords(c, ws)
  {
  }

  lemma SupportWordsPrinted(c: VideoCodec, ws: seq<string>)
    requires ws == VideoWords(c)
    ensures SupportWords(c, ws)
  {
  }

  lemma SizeWordsPrinted(c: VideoCodec, ws: seq<string>)
    requires ws == VideoWords(c)
    ensures SizeWords(c, ws)
  {
  }

  method CodecText(c: VideoCodec, ghost ws: seq<string>) returns (text: string)
    requires CodecWords(c, ws)
    ensures text == Spaced(ws[..4])
  {
    text := AppendWord(ws, 0, "", Hex(c.native, 2));
    text := AppendWord(ws, 1, text, Hex(c.preferred, 2));
    text := AppendWord(ws, 2, text, Hex(c.profile, 2));
    text := AppendWord(ws, 3, text, Hex(c.level, 2));
  }

  method SupportText(c: VideoCodec, ghost ws: seq<string>, start: string) returns (text: string)
    requires SupportWords(c, ws) && start == Spaced(ws[..4])
    ensures text == Spaced(ws[..8])
  {
    text := AppendWord(ws, 4, start, Hex(c.cea, 8));
    text := AppendWord(ws, 5, text, Hex(c.vesa, 8));
    text := AppendWord(ws, 6, text, Hex(c.hh, 8));
    text := AppendWord(ws, 7, text, Hex(c.latency, 2));
  }

  method SizeText(c: VideoCodec, ghost ws: seq<string>, start: string) returns (text: string)
    requires SizeWords(c, ws) && start == Spaced(ws[..8])
    ensures text == Spaced(ws)
  {
    text := AppendWord(ws, 8, start, Hex(c.minSlice, 4));
    text := AppendWord(ws, 9, text, Hex(c.sliceEnc, 4));
    text := AppendWord(ws, 10, text, Hex(c.frameRate, 2));
    var width, height := "none", "none";
    if c.maxHres != 0 {
      width := Hex(c.maxHres, 4);
    }
    if c.maxVres != 0 {
      height := Hex(c.maxVres, 4);
    }
    text := AppendWord(ws, 11, text, width);
    text := AppendWord(ws, 12, text, height);
    assert ws[..13] == ws;
  }

  method VideoText(c: VideoCodec) returns (text: string)
    ensures text == Spaced(VideoWords(c))
  {
    ghost var ws := VideoWords(c);
    CodecWordsPrinted(c, ws);
    SupportWordsPrinted(c, ws);
    SizeWordsPrinted(c, ws);
    text := CodecText(c, ws);
    text := SupportText(c, ws, text);
    text := SizeText(c, ws, text);
  }

  method OneWordText(word: string) returns (text: string)
    ensures text == Spaced([word])
  {
    text := " " + word;
    assert [word][1..] == [];
    assert Spaced([word]) == " " + word;
  }

  method TwoWordText(first: string, second: string) returns (text: string)
    ensures text == Spaced([first, second])
  {
    ghost var ws := [first, second];
    text := AppendWord(ws, 0, "", first);
    text := AppendWord(ws, 1, text, second);
    assert ws[..2] == ws;
  }

  method CoupledText(sink: Option<CoupledSink>) returns (text: string)
    ensures text == Spaced(CoupledWords(sink))
  {
    if sink.None? {
      text := OneWordText("none");
    } else {
      text := TwoWordText(Hex(sink.value.status, 2), Or(sink.value.address, "none"));
    }
  }

  method PortsText(p: RtpPorts) returns (text: string)
    ensures text == Spaced(PortWords(p))
  {
    ghost var ws := PortWords(p);
    text := AppendWord(ws, 0, "", Or(p.profile, NULL_TEXT));
    text := AppendWord(ws, 1, text, Signed(p.port0));
    text := AppendWord(ws, 2, text, Signed(p.port1));
    text := AppendWord(ws, 3, text, Or(p.mode, NULL_TEXT));
    assert ws[..4] == ws;
  }

  /** What one attribute adds to the text. */
  lemma GatherStep(f: nat -> seq<string>, i: nat, lines: string)
    requires i < NAMES
    ensures (lines + Joined(f(i))) + Joined(Gather(f, i + 1, NAMES)) == lines + Joined(Gather(f, i, NAMES))
  {
    JoinedConcat(f(i), Gather(f, i + 1, NAMES));
  }

  lemma JoinedOne(l: string)
    ensures Joined([l]) == l + "\r\n"
  {
    assert [l][1..] == [];
    assert l + "\r\n" + [] == l + "\r\n";
  }

  /** Reads a line; what does not fit the buffer is lost. */
  method ReadLine(data: string, p: nat) returns (buffer: string, q: nat)
    requires p <= |data|
    ensures q == p + |FirstLine(data[p..])|
    ensures buffer == Cut(FirstLine(data[p..]), LINE_LIMIT)
  {
    ghost var rest := data[p..];
    buffer, q := [], p;
    while q < |data| && !EndsLine(data[q])
      invariant p <= q <= |data| && EndsNoLine(rest[..q - p])
      invariant buffer == Cut(rest[..q - p], LINE_LIMIT)
    {
      CutStep(rest, q - p, LINE_LIMIT);
      if |buffer| < LINE_LIMIT {
        buffer := buffer + [data[q]];
      }
      q := q + 1;
    }
    FirstLineIs(rest, q - p);
  }

  /** f does to a message what parsing a line does. */
  ghost predicate Parses(f: (Msg, string) -> Msg) {
    forall m, l {:trigger ParseLine(m, l)} :: f(m, l) == ParseLine(m, l)
  }

  // ---------- the object ----------

  class Message {
    var audio: Option<seq<AudioCodec>>
    var video: Option<Option<VideoCodec>>
    var coupled: Option<Option<CoupledSink>>
    var trigger: Option<Option<string>>
    var urls: Option<Urls>
    var ports: Option<RtpPorts>
    var route: Option<Option<string>>
    var uibcSetting: Option<bool>
    var standbyResume: Option<bool>
    var standby: Option<bool>
    var connector: Option<Connector>
    var idr: Option<bool>

    function View(): Msg
      reads this
    {
      Msg(audio, video, coupled, trigger, urls, ports, route, uibcSetting, standbyResume, standby, connector, idr)
    }

    constructor ()
      ensures View() == EMPTY
    {
      audio, video, coupled, trigger, urls, ports := None, None, None, None, None, None;
      route, uibcSetting, standbyResume, standby, connector, idr := None, None, None, None, None, None;
    }

    method StoreList(name: Name, v: string)
      requires name == Audio || name == Video || name == Coupled || name == PresentationUrl || name == ClientPorts
      modifies this
      ensures View() == WithValue(old(View()), name, v)
    {
      match name
      case Audio =>
        var list := ReadAudio(v);
        audio := Some(list);
      case Video =>
        var codec := ReadVideo(v);
        video := Some(codec);
      case Coupled =>
        var sink := ReadCoupled(v);
        coupled := Some(sink);
      case PresentationUrl =>
        var u := ReadUrls(v);
        urls := Some(u);
      case ClientPorts =>
        var p := ReadPorts(v);
        ports := Some(p);
    }

    method StoreWord(name: Name, v: string)
      requires name == Trigger || name == Route || name == UibcSetting || name == StandbyResume || name == ConnectorType
      modifies this
      ensures View() == WithValue(old(View()), name, v)
    {
      var field, rest := ReadString(v);
      match name
      case Trigger => trigger := Some(if v == [] then None else Some(field));
      case Route => route := Some(if v == [] then None else Some(field));
      case UibcSetting => uibcSetting := Some(SkipSpace(v) == "enable");
      case StandbyResume => standbyResume := Some(SkipSpace(v) == "supported");
      case ConnectorType =>
        connector := Some(if v == [] then Connector(false, 0) else Connector(true, StrToUl(field, 16)));
    }

    method ParseAttribute(buffer: string)
      modifies this
      ensures View() == WithLine(old(View()), buffer)
    {
      var attr, v := ReadAttrAndValue(buffer, LIMIT + 1, LIMIT + 1, ':');
      var name := NameOf(attr);
      match name
      case Other =>
      case Standby => standby := Some(true);
      case Idr => idr := Some(true);
      case Audio => StoreList(name, v);
      case Video => StoreList(name, v);
      case Coupled => StoreList(name, v);
      case PresentationUrl => StoreList(name, v);
      case ClientPorts => StoreList(name, v);
      case _ => StoreWord(name, v);
    }

    method ParseFirstLine(data: string, p: nat, ghost f: (Msg, string) -> Msg) returns (q: nat)
      requires p < |data| && Parses(f)
      modifies this
      ensures q == p + |FirstLine(data[p..])| + 2
      ensures View() == f(old(View()), FirstLine(data[p..]))
    {
      var buffer;
      buffer, q := ReadLine(data, p);
      ParseAttribute(buffer);
      assert View() == ParseLine(old(View()), FirstLine(data[p..]));
      q := q + 2;
    }

    method ParseLines(data: string, ghost f: (Msg, string) -> Msg)
      requires Parses(f)
      modifies this
      ensures View() == ForLines(data, old(View()), f)
    {
      var p := 0;
      ghost var m := View();
      ghost var all := ForLines(data, m, f);
      assert data[0..] == data;
      while p < |data|
        invariant View() == m
        invariant Remaining(data, p, m, f) == all
        decreases |data| - p
      {
        RemainingStep(data, p, m, f);
        p := ParseFirstLine(data, p, f);
        m := View();
      }
    }

    /** Parses a buffer; an empty one is refused. */
    method ParseBuffer(data: string) returns (ok: bool)
      modifies this
      ensures View() == M.ParseBuffer(data, old(View()))
      ensures ok <==> data != []
    {
      ParseLines(data, ParseLine);
      ok := data != [];
    }

    /** The value of the audio list, if it is present. */
    method AudioText() returns (text: Option<string>)
      ensures WordsOf(View(), Audio) == if audio.Some? then Some(AudioWords(audio.value)) else None
      ensures text == if audio.Some? then Some(AfterLabel(AudioWords(audio.value))) else None
    {
      text := None;
      if audio.Some? {
        var value := AppendAudio("", audio.value);
        assert "" + Spaced(AudioWords(audio.value)) == Spaced(AudioWords(audio.value));
        text := Some(if audio.value == [] then "" else ":" + value);
      }
    }

    /** The value of the video list, if it is present. */
    method VideoListText() returns (text: Option<string>)
      ensures text.Some? <==> WordsOf(View(), Video).Some?
      ensures text.Some? ==> text.value == AfterLabel(WordsOf(View(), Video).value)
    {
      text := None;
      if video.Some? {
        text := Some("");
        if video.value.Some? {
          var value := VideoText(video.value.value);
          text := Some(":" + value);
        }
      }
    }

    /** The value of an attribute that has several words, if it is present. */
    method ListText(name: Name) returns (text: Option<string>)
      requires name == Coupled || name == PresentationUrl || name == ClientPorts
      ensures text.Some? <==> WordsOf(View(), name).Some?
      ensures text.Some? ==> text.value == AfterLabel(WordsOf(View(), name).value)
    {
      text := None;
      var value;
      match name
      case Coupled =>
        if coupled.Some? {
          value := CoupledText(coupled.value);
          text := Some(":" + value);
        }
      case PresentationUrl =>
        if urls.Some? {
          value := TwoWordText(Or(urls.value.url0, "none"), Or(urls.value.url1, "none"));
          text := Some(":" + value);
        }
      case ClientPorts =>
        if ports.Some? {
          value := PortsText(ports.value);
          text := Some(":" + value);
        }
    }

    /** The word of an attribute that has one, if it is present. */
    method WordText(name: Name) returns (word: Option<string>)
      requires name == Trigger || name == Route || name == UibcSetting || name == StandbyResume || name == ConnectorType
      ensures WordsOf(View(), name) == if word.Some? then Some([word.value]) else None
    {
      word := None;
      match name
      case Trigger => if trigger.Some? { word := Some(Or(trigger.value, NULL_TEXT)); }
      case Route => if route.Some? { word := Some(Or(route.value, NULL_TEXT)); }
      case UibcSetting =>
        if uibcSetting.Some? { word := Some(if uibcSetting.value then "enable" else "disable"); }
      case StandbyResume =>
        if standbyResume.Some? { word := Some(if standbyResume.value then "supported" else "none"); }
      case ConnectorType =>
        if connector.Some? {
          word := Some(if connector.value.kind != 0 then Hex(connector.value.kind, 2) else "none");
        }
    }

    /** The text of an attribute behind its label, if it is present. */
    method ValueText(name: Name) returns (text: Option<string>)
      ensures text.Some? <==> WordsOf(View(), name).Some?
      ensures text.Some? ==> text.value == AfterLabel(WordsOf(View(), name).value)
    {
      text := None;
      if name == Standby {
        if standby.Some? { text := Some(""); }
      } else if name == Idr {
        if idr.Some? { text := Some(""); }
      } else if name == Trigger || name == Route || name == UibcSetting || name == StandbyResume || name == ConnectorType {
        var word := WordText(name);
        if word.Some? {
          var value := OneWordText(word.value);
          text := Some(":" + value);
        }
      } else if name == Audio {
        text := AudioText();
      } else if name == Video {
        text := VideoListText();
      } else if name != Other {
        text := ListText(name);
      }
    }

    method AppendAttribute(lines: string, name: Name) returns (r: string)
      ensures r == lines + Joined(LinesFor(View(), name))
    {
      var text := ValueText(name);
      r := lines;
      if text.Some? {
        r := lines + (Label(name) + text.value + "\r\n");
        JoinedOne(Line(name, WordsOf(View(), name).value));
      }
    }

    /** The blocks of the printer, one for each attribute. */
    method AsText() returns (lines: string)
      ensures lines == Text(View())
    {
      lines := "";
      var i := 0;
      while i < NAMES
        invariant 0 <= i <= NAMES
        invariant lines + Joined(Gather(LinesAt(View()), i, NAMES)) == Text(View())
      {
        GatherStep(LinesAt(View()), i, lines);
        lines := AppendAttribute(lines, NameAt(i));
        i := i + 1;
      }
      assert lines + [] == lines;
    }
  }
}
