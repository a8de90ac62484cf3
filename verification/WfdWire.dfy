/** The wire format of the messages, in the words of the standard: which label and which
    position carry which field, when a message is parsed and when it is printed. */
module WfdWire {
  import opened Machine
  import opened Wrappers
  import opened WfdText
  import opened WfdLines
  import opened WfdMessage
  import Trip = WfdRoundTrip

  // ---------- labels ----------

  lemma LabelledLine(m: Msg, i: nat, name: Name, head: string, v: string)
    requires i < NAMES && name == NameAt(i) && head == Label(name) && |head| + 1 + |v| <= LINE_LIMIT
    ensures ParseLine(m, head + ":" + v) == WithValue(m, name, v)
  {
    LabelIsKnown(i);
    LabelShape(i);
    ColonParts(head, v);
    PartsParsed(m, head + ":" + v, head, v);
  }

  lemma ColonParts(head: string, v: string)
    requires ':' !in head
    ensures Before(head + ":" + v, ':') == head && Behind(head + ":" + v, ':') == v
  {
    var line := head + ":" + v;
    assert line == head + (":" + v) && line[|head| + 1..] == v;
    BeforeOf(head, ':', ":" + v);
  }

  lemma PartsParsed(m: Msg, line: string, head: string, v: string)
    requires |line| <= LINE_LIMIT && Before(line, ':') == head && Behind(line, ':') == v
    ensures ParseLine(m, line) == WithValue(m, NameOf(head), v)
  {
  }

  lemma BareLine(m: Msg, i: nat, name: Name, head: string)
    requires i < NAMES && name == NameAt(i) && head == Label(name)
    ensures ParseLine(m, head) == WithValue(m, name, "")
  {
    LabelShape(i);
    Trip.LineReads(m, i, []);
    assert Line(name, []) == head + "" == head;
  }

  /** A line that fits 254 characters sets the field of its label, and no other. */
  lemma AudioLine(m: Msg, v: string)
    requires |"wfd_audio_codecs"| + 1 + |v| <= 254
    ensures ParseLine(m, "wfd_audio_codecs" + ":" + v) == m.(audio := Some(AudioOf(v)))
  {
    LabelledLine(m, 0, Audio, "wfd_audio_codecs", v);
  }

  lemma VideoLine(m: Msg, v: string)
    requires |"wfd_video_formats"| + 1 + |v| <= 254
    ensures ParseLine(m, "wfd_video_formats" + ":" + v) == m.(video := Some(VideoOf(v)))
  {
    LabelledLine(m, 1, Video, "wfd_video_formats", v);
  }

  lemma CoupledLine(m: Msg, v: string)
    requires |"wfd_coupled_sink"| + 1 + |v| <= 254
    ensures ParseLine(m, "wfd_coupled_sink" + ":" + v) == m.(coupled := Some(CoupledOf(v)))
  {
    LabelledLine(m, 2, Coupled, "wfd_coupled_sink", v);
  }

  lemma TriggerLine(m: Msg, v: string)
    requires |"wfd_trigger_method"| + 1 + |v| <= 254
    ensures ParseLine(m, "wfd_trigger_method" + ":" + v) == m.(trigger := Some(StringOf(v)))
  {
    LabelledLine(m, 3, Trigger, "wfd_trigger_method", v);
  }

  lemma UrlLine(m: Msg, v: string)
    requires |"wfd_presentation_URL"| + 1 + |v| <= 254
    ensures ParseLine(m, "wfd_presentation_URL" + ":" + v) == m.(urls := Some(UrlsOf(v)))
  {
    LabelledLine(m, 4, PresentationUrl, "wfd_presentation_URL", v);
  }

  lemma PortsLine(m: Msg, v: string)
    requires |"wfd_client_rtp_ports"| + 1 + |v| <= 254
    ensures ParseLine(m, "wfd_client_rtp_ports" + ":" + v) == m.(ports := Some(PortsOf(v)))
  {
    LabelledLine(m, 5, ClientPorts, "wfd_client_rtp_ports", v);
  }

  lemma RouteLine(m: Msg, v: string)
    requires |"wfd_route"| + 1 + |v| <= 254
    ensures ParseLine(m, "wfd_route" + ":" + v) == m.(route := Some(StringOf(v)))
  {
    LabelledLine(m, 6, Route, "wfd_route", v);
  }

  lemma OneSpaceSkipped(v: string, w: string)
    requires w != "" && w[0] !in " \t\n\r\U{0C}"
    ensures SkipSpace(v) == w <==> v == w || (v != "" && v[0] in " \t\n\r\U{0C}" && v[1..] == w)
  {
  }

  /** Enabled by this one word, perhaps behind a space, and disabled by any other value. */
  lemma UibcSettingLine(m: Msg, v: string)
    requires |"wfd_uibc_setting"| + 1 + |v| <= 254
    ensures ParseLine(m, "wfd_uibc_setting" + ":" + v)
            == m.(uibcSetting := Some(v == "enable" || (v != "" && v[0] in " \t\n\r\U{0C}" && v[1..] == "enable")))
  {
    OneSpaceSkipped(v, "enable");
    LabelledLine(m, 7, UibcSetting, "wfd_uibc_setting", v);
  }

  lemma StandbyResumeLine(m: Msg, v: string)
    requires |"wfd_standby_resume_capability"| + 1 + |v| <= 254
    ensures ParseLine(m, "wfd_standby_resume_capability" + ":" + v)
            == m.(standbyResume := Some(v == "supported" || (v != "" && v[0] in " \t\n\r\U{0C}" && v[1..] == "supported")))
  {
    OneSpaceSkipped(v, "supported");
    LabelledLine(m, 8, StandbyResume, "wfd_standby_resume_capability", v);
  }

  lemma StandbyLine(m: Msg)
    ensures ParseLine(m, "wfd_standby") == m.(standby := Some(true))
  {
    BareLine(m, 9, Standby, "wfd_standby");
  }

  lemma ConnectorLine(m: Msg, v: string)
    requires |"wfd_connector_type"| + 1 + |v| <= 254
    ensures ParseLine(m, "wfd_connector_type" + ":" + v) == m.(connector := Some(ConnectorOf(v)))
  {
    LabelledLine(m, 10, ConnectorType, "wfd_connector_type", v);
  }

  lemma IdrLine(m: Msg)
    ensures ParseLine(m, "wfd_idr_request") == m.(idr := Some(true))
  {
    BareLine(m, 11, Idr, "wfd_idr_request");
  }

  /** A line of the buffer is cut behind 254 characters. */
  lemma LongLineIsCut(m: Msg, line: string)
    requires |line| > 254
    ensures ParseLine(m, line) == ParseLine(m, line[..254])
  {
    assert Cut(line, LINE_LIMIT) == line[..254] == Cut(line[..254], LINE_LIMIT);
  }

  // ---------- positions ----------

  /** Each codec is a name, its modes and its latency, both hexadecimal. */
  lemma AudioPositions(format: string, modes: string, latency: string, rest: seq<string>, n: nat)
    requires Readable(format) && Readable(modes) && Readable(latency)
    ensures AudioList(Spaced([format, modes, latency] + rest), n + 1)
            == [AudioCodec(format := Some(format), modes := StrToUl(modes, 16), latency := StrToUl(latency, 16))]
               + AudioList(Spaced(rest), n)
  {
    Trip.AudioStep(format, modes, latency, rest);
  }

  /** The i-th word of a value is its i-th field. */
  lemma FieldIs(ws: seq<string>, i: nat)
    requires AllReadable(ws) && i < |ws|
    ensures Field(Spaced(ws), i) == ws[i] && HexField(Spaced(ws), i) == StrToUl(ws[i], 16)
  {
    SpacedField(ws, i);
  }

  /** The thirteen hexadecimal numbers of the video formats; the size counts when the second
      is 1. */
  lemma VideoPositions(ws: seq<string>)
    requires |ws| == 13 && AllReadable(ws)
    ensures VideoOf(Spaced(ws)).Some?
    ensures
      var c := VideoOf(Spaced(ws)).value;
      && c.native == StrToUl(ws[0], 16) && c.preferred == StrToUl(ws[1], 16)
      && c.profile == StrToUl(ws[2], 16) && c.level == StrToUl(ws[3], 16)
      && c.cea == StrToUl(ws[4], 16) && c.vesa == StrToUl(ws[5], 16) && c.hh == StrToUl(ws[6], 16)
      && c.latency == StrToUl(ws[7], 16) && c.minSlice == StrToUl(ws[8], 16)
      && c.sliceEnc == StrToUl(ws[9], 16) && c.frameRate == StrToUl(ws[10], 16)
      && c.maxHres == (if StrToUl(ws[1], 16) == 1 then StrToUl(ws[11], 16) else 0)
      && c.maxVres == (if StrToUl(ws[1], 16) == 1 then StrToUl(ws[12], 16) else 0)
  {
    forall i: nat | i < 13 ensures HexField(Spaced(ws), i) == StrToUl(ws[i], 16) {
      FieldIs(ws, i);
    }
  }

  lemma PairPositions(first: string, second: string)
    requires Readable(first) && Readable(second)
    ensures var v := Spaced([first, second]);
            && CoupledOf(v) == Some(CoupledSink(status := StrToUl(first, 16), address := Some(second)))
            && UrlsOf(v) == Urls(url0 := Some(first), url1 := Some(second))
  {
    FieldIs([first, second], 0);
    FieldIs([first, second], 1);
  }

  lemma PortsPositions(profile: string, port0: string, port1: string, mode: string)
    requires Readable(profile) && Readable(port0) && Readable(port1) && Readable(mode)
    ensures PortsOf(Spaced([profile, port0, port1, mode]))
            == RtpPorts(profile := Some(profile), port0 := StrToUl(port0, 10), port1 := StrToUl(port1, 10), mode := Some(mode))
  {
    var ws := [profile, port0, port1, mode];
    FieldIs(ws, 0);
    FieldIs(ws, 1);
    FieldIs(ws, 2);
    FieldIs(ws, 3);
  }

  lemma WordPositions(word: string)
    requires Readable(word)
    ensures StringOf(Spaced([word])) == Some(word)
    ensures ConnectorOf(Spaced([word])) == Connector(supported := true, kind := StrToUl(word, 16))
  {
    FieldIs([word], 0);
  }

  // ---------- what is printed ----------

  function NoneOr(s: Option<string>): string {
    if s.Some? then s.value else "none"
  }

  /** A null pointer in the place of a string. */
  function NullOr(s: Option<string>): string {
    if s.Some? then s.value else "(null)"
  }

  /** The order of the lines. */
  const ORDER := [Audio, Video, Coupled, Trigger, PresentationUrl, ClientPorts,
                  Route, UibcSetting, StandbyResume, Standby, ConnectorType, Idr]

  function LinesOf(m: Msg, names: seq<Name>): seq<string> {
    if names == [] then [] else LinesFor(m, names[0]) + LinesOf(m, names[1..])
  }

  lemma OrderIs(i: nat)
    requires i < NAMES
    ensures |ORDER| == NAMES && ORDER[i] == NameAt(i)
  {
  }

  lemma {:induction false} GatheredInOrder(m: Msg, names: seq<Name>, i: nat)
    requires i + |names| == NAMES && forall k :: 0 <= k < |names| ==> names[k] == NameAt(i + k)
    ensures Gather(LinesAt(m), i, NAMES) == LinesOf(m, names)
    decreases |names|
  {
    if names != [] {
      GatheredInOrder(m, names[1..], i + 1);
    }
  }

  lemma PrintedOrder(m: Msg)
    ensures Text(m) == Joined(LinesOf(m, ORDER))
  {
    forall k: nat | k < NAMES ensures |ORDER| == NAMES && ORDER[k] == NameAt(k) {
      OrderIs(k);
    }
    assert |ORDER| == NAMES by { OrderIs(0); }
    GatheredInOrder(m, ORDER, 0);
  }

  /** Each line ends with a carriage return and a line feed. */
  lemma LinesEnd(l: string, rest: seq<string>)
    ensures Joined([l] + rest) == l + "\r\n" + Joined(rest)
  {
    assert ([l] + rest)[1..] == rest;
  }

  /** A word stands behind a single space. */
  lemma WordsStand(w: string, ws: seq<string>)
    ensures Spaced([w] + ws) == " " + w + Spaced(ws) && Spaced([w]) == " " + w
  {
    assert ([w] + ws)[1..] == ws;
    Trip.OneWordStands(w);
  }

  lemma TwoWordsStand(a: string, b: string)
    ensures Spaced([a, b]) == " " + a + " " + b
  {
    assert [a, b] == [a] + [b];
    WordsStand(a, [b]);
    WordsStand(b, []);
    assert " " + a + (" " + b) == " " + a + " " + b;
  }

  /** The printed value of a codec; a comma follows unless it is the last. */
  lemma PrintedAudio(m: Msg, c: AudioCodec, rest: seq<AudioCodec>)
    requires m.audio == Some([c] + rest)
    ensures LinesFor(m, Audio) == ["wfd_audio_codecs" + ":" + Spaced(AudioWords([c] + rest))]
    ensures AudioWords([c] + rest)
            == [NullOr(c.format), Hex(c.modes, 8), Hex(c.latency, 2) + if rest != [] then "," else ""] + AudioWords(rest)
  {
    assert ([c] + rest)[1..] == rest;
    PrintedLine(m, Audio, "wfd_audio_codecs", AudioWords([c] + rest));
  }

  lemma PrintedLine(m: Msg, name: Name, head: string, ws: seq<string>)
    requires head == Label(name) && WordsOf(m, name) == Some(ws) && ws != []
    ensures LinesFor(m, name) == [head + ":" + Spaced(ws)]
  {
    ColonStands(head, Spaced(ws));
  }

  lemma ColonStands(head: string, v: string)
    ensures head + (":" + v) == head + ":" + v
  {
  }

  lemma PrintedVideo(m: Msg, c: VideoCodec)
    requires m.video == Some(Some(c))
    ensures LinesFor(m, Video) == ["wfd_video_formats" + ":" + Spaced(
              [Hex(c.native, 2), Hex(c.preferred, 2), Hex(c.profile, 2), Hex(c.level, 2),
               Hex(c.cea, 8), Hex(c.vesa, 8), Hex(c.hh, 8), Hex(c.latency, 2), Hex(c.minSlice, 4),
               Hex(c.sliceEnc, 4), Hex(c.frameRate, 2),
               if c.maxHres != 0 then Hex(c.maxHres, 4) else "none",
               if c.maxVres != 0 then Hex(c.maxVres, 4) else "none"])]
  {
    PrintedLine(m, Video, "wfd_video_formats", VideoWords(c));
  }

  lemma PrintedCoupled(m: Msg, k: CoupledSink)
    requires m.coupled == Some(Some(k))
    ensures LinesFor(m, Coupled) == ["wfd_coupled_sink" + ":" + (" " + Hex(k.status, 2) + " " + NoneOr(k.address))]
  {
    PrintedLine(m, Coupled, "wfd_coupled_sink", [Hex(k.status, 2), NoneOr(k.address)]);
    TwoWordsStand(Hex(k.status, 2), NoneOr(k.address));
  }

  lemma PrintedUncoupled(m: Msg)
    requires m.coupled == Some(None)
    ensures LinesFor(m, Coupled) == ["wfd_coupled_sink" + ":" + (" " + "none")]
  {
    PrintedLine(m, Coupled, "wfd_coupled_sink", ["none"]);
    WordsStand("none", []);
  }

  lemma PrintedTrigger(m: Msg, word: Option<string>)
    requires m.trigger == Some(word)
    ensures LinesFor(m, Trigger) == ["wfd_trigger_method" + ":" + (" " + NullOr(word))]
  {
    PrintedLine(m, Trigger, "wfd_trigger_method", [NullOr(word)]);
    WordsStand(NullOr(word), []);
  }

  lemma PrintedUrls(m: Msg, u: Urls)
    requires m.urls == Some(u)
    ensures LinesFor(m, PresentationUrl)
            == ["wfd_presentation_URL" + ":" + (" " + NoneOr(u.url0) + " " + NoneOr(u.url1))]
  {
    PrintedLine(m, PresentationUrl, "wfd_presentation_URL", [NoneOr(u.url0), NoneOr(u.url1)]);
    TwoWordsStand(NoneOr(u.url0), NoneOr(u.url1));
  }

  lemma PrintedPorts(m: Msg, p: RtpPorts)
    requires m.ports == Some(p)
    ensures LinesFor(m, ClientPorts) == ["wfd_client_rtp_ports" + ":" +
              Spaced([NullOr(p.profile), Signed(p.port0), Signed(p.port1), NullOr(p.mode)])]
  {
    PrintedLine(m, ClientPorts, "wfd_client_rtp_ports", PortWords(p));
  }

  lemma PrintedRoute(m: Msg, word: Option<string>)
    requires m.route == Some(word)
    ensures LinesFor(m, Route) == ["wfd_route" + ":" + (" " + NullOr(word))]
  {
    PrintedLine(m, Route, "wfd_route", [NullOr(word)]);
    WordsStand(NullOr(word), []);
  }

  lemma PrintedUibcSetting(m: Msg, on: bool)
    requires m.uibcSetting == Some(on)
    ensures LinesFor(m, UibcSetting) == ["wfd_uibc_setting" + ":" + (" " + if on then "enable" else "disable")]
  {
    var word := if on then "enable" else "disable";
    PrintedLine(m, UibcSetting, "wfd_uibc_setting", [word]);
    WordsStand(word, []);
  }

  lemma PrintedStandbyResume(m: Msg, on: bool)
    requires m.standbyResume == Some(on)
    ensures LinesFor(m, StandbyResume)
            == ["wfd_standby_resume_capability" + ":" + (" " + if on then "supported" else "none")]
  {
    var word := if on then "supported" else "none";
    PrintedLine(m, StandbyResume, "wfd_standby_resume_capability", [word]);
    WordsStand(word, []);
  }

  lemma PrintedBare(m: Msg)
    requires m.standby.Some? && m.idr.Some?
    ensures LinesFor(m, Standby) == ["wfd_standby"] && LinesFor(m, Idr) == ["wfd_idr_request"]
  {
    assert "wfd_standby" + "" == "wfd_standby" && "wfd_idr_request" + "" == "wfd_idr_request";
  }

  lemma PrintedConnector(m: Msg, c: Connector)
    requires m.connector == Some(c)
    ensures LinesFor(m, ConnectorType)
            == ["wfd_connector_type" + ":" + (" " + if c.kind != 0 then Hex(c.kind, 2) else "none")]
  {
    var word := ConnectorWords(c)[0];
    PrintedLine(m, ConnectorType, "wfd_connector_type", [word]);
    WordsStand(word, []);
  }

  /** What is absent is not printed. */
  lemma AbsentIsSilent(m: Msg, name: Name)
    ensures LinesFor(m, name) == [] <==>
      match name
      case Audio => m.audio.None?
      case Video => m.video.None?
      case Coupled => m.coupled.None?
      case Trigger => m.trigger.None?
      case PresentationUrl => m.urls.None?
      case ClientPorts => m.ports.None?
      case Route => m.route.None?
      case UibcSetting => m.uibcSetting.None?
      case StandbyResume => m.standbyResume.None?
      case Standby => m.standby.None?
      case ConnectorType => m.connector.None?
      case Idr => m.idr.None?
      case Other => true
  {
  }

  // ---------- a whole message ----------

  lemma {:induction false} OnlyThatLine(m: Msg, names: seq<Name>, name: Name)
    requires forall i, j :: 0 <= i < j < |names| ==> names[i] != names[j]
    requires forall x :: x in names && x != name ==> LinesFor(m, x) == []
    ensures LinesOf(m, names) == if name in names then LinesFor(m, name) else []
  {
    if names != [] {
      assert names == [names[0]] + names[1..];
      OnlyThatLine(m, names[1..], name);
    }
  }

  lemma OrderIsDistinct()
    ensures forall i, j :: 0 <= i < j < |ORDER| ==> ORDER[i] != ORDER[j]
    ensures Trigger in ORDER
  {
    assert ORDER[3] == Trigger;
  }

  lemma TriggerAlone(m: Msg, word: string)
    requires m == EMPTY.(trigger := Some(Some(word)))
    ensures LinesOf(m, ORDER) == ["wfd_trigger_method" + ":" + (" " + word)]
  {
    PrintedTrigger(m, Some(word));
    forall x | x != Trigger ensures LinesFor(m, x) == [] {
      AbsentIsSilent(m, x);
    }
    OrderIsDistinct();
    OnlyThatLine(m, ORDER, Trigger);
  }

  /** A message with a trigger alone is printed as its line. */
  lemma TriggerMessage(word: string)
    ensures Text(EMPTY.(trigger := Some(Some(word)))) == "wfd_trigger_method" + ":" + (" " + word) + "\r\n"
  {
    var m := EMPTY.(trigger := Some(Some(word)));
    var line := "wfd_trigger_method" + ":" + (" " + word);
    PrintedOrder(m);
    TriggerAlone(m, word);
    assert [line] + [] == [line];
    LinesEnd(line, []);
    assert line + "\r\n" + [] == line + "\r\n";
  }
}
