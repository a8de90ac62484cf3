/** Wi-Fi Display messages: what is printed, what is parsed, and when both agree. */
module WfdMessage {
  import opened Wrappers
  import opened WfdText
  import opened WfdLines

  // ---------- the data ----------

  datatype AudioCodec = AudioCodec(format: Option<string>, modes: U32, latency: U32)

  datatype VideoCodec = VideoCodec(native: U32, preferred: U32, profile: U32, level: U32,
                                   cea: U32, vesa: U32, hh: U32, latency: U32, minSlice: U32,
                                   sliceEnc: U32, frameRate: U32, maxHres: U32, maxVres: U32)

  datatype CoupledSink = CoupledSink(status: U32, address: Option<string>)

  datatype Urls = Urls(url0: Option<string>, url1: Option<string>)

  datatype RtpPorts = RtpPorts(profile: Option<string>, port0: U32, port1: U32, mode: Option<string>)

  /** The kind is a signed 32-bit field; here the word that represents it. */
  datatype Connector = Connector(supported: bool, kind: U32)

  /** An absent value is a null pointer of the message or of one of its parts. */
  datatype Msg = Msg(audio: Option<seq<AudioCodec>>,
                     video: Option<Option<VideoCodec>>,
                     coupled: Option<Option<CoupledSink>>,
                     trigger: Option<Option<string>>,
                     urls: Option<Urls>,
                     ports: Option<RtpPorts>,
                     route: Option<Option<string>>,
                     uibcSetting: Option<bool>,
                     standbyResume: Option<bool>,
                     standby: Option<bool>,
                     connector: Option<Connector>,
                     idr: Option<bool>)

  const EMPTY := Msg(None, None, None, None, None, None, None, None, None, None, None, None)

  datatype Name =
    | Audio | Video | Coupled | Trigger | PresentationUrl | ClientPorts
    | Route | UibcSetting | StandbyResume | Standby | ConnectorType | Idr
    | Other

  // ---------- parsing ----------

  /** The attributes in the order in which they are printed. */
  function NameAt(i: nat): Name {
    if i == 0 then Audio else if i == 1 then Video else if i == 2 then Coupled
    else if i == 3 then Trigger else if i == 4 then PresentationUrl else if i == 5 then ClientPorts
    else if i == 6 then Route else if i == 7 then UibcSetting else if i == 8 then StandbyResume
    else if i == 9 then Standby else if i == 10 then ConnectorType else if i == 11 then Idr
    else Other
  }

  const NAMES := 12

  function Label(name: Name): string {
    match name
    case Audio => "wfd_audio_codecs"
    case Video => "wfd_video_formats"
    case Coupled => "wfd_coupled_sink"
    case Trigger => "wfd_trigger_method"
    case PresentationUrl => "wfd_presentation_URL"
    case ClientPorts => "wfd_client_rtp_ports"
    case Route => "wfd_route"
    case UibcSetting => "wfd_uibc_setting"
    case StandbyResume => "wfd_standby_resume_capability"
    case Standby => "wfd_standby"
    case ConnectorType => "wfd_connector_type"
    case Idr => "wfd_idr_request"
    case Other => ""
  }

  /** The attribute with this label, looked for from the i-th on. */
  function NameFrom(attr: string, i: nat): Name
    decreases NAMES - i
  {
    if i >= NAMES then Other else if attr == Label(NameAt(i)) then NameAt(i) else NameFrom(attr, i + 1)
  }

  function NameOf(attr: string): Name {
    NameFrom(attr, 0)
  }

  /** The codec that starts here, and the rest behind it. */
  function CodecAt(v: string): (c: AudioCodec)
    ensures c.format.Some? && NoSpace(c.format.value)
  {
    AudioCodec(Some(Next(v)), StrToUl(Next(After(v)), 16), StrToUl(Next(After(After(v))), 16))
  }

  function BehindCodec(v: string): string {
    SkipPunct(After(After(After(v))))
  }

  /** Reads n codecs, whether the text has them or not. */
  function AudioList(v: string, n: nat): (list: seq<AudioCodec>)
    ensures |list| == n
    decreases n
  {
    if n == 0 then [] else [CodecAt(v)] + AudioList(BehindCodec(v), n - 1)
  }

  /** The number of codecs is guessed from the length of the value. */
  function AudioOf(v: string): seq<AudioCodec> {
    AudioList(v, |v| / 16)
  }

  function VideoOf(v: string): Option<VideoCodec> {
    if v == [] then None else
      Some(VideoCodec(HexField(v, 0), HexField(v, 1), HexField(v, 2), HexField(v, 3), HexField(v, 4),
                      HexField(v, 5), HexField(v, 6), HexField(v, 7), HexField(v, 8), HexField(v, 9),
                      HexField(v, 10),
                      if HexField(v, 1) == 1 then HexField(v, 11) else 0,
                      if HexField(v, 1) == 1 then HexField(v, 12) else 0))
  }

  function CoupledOf(v: string): Option<CoupledSink> {
    if v == [] then None else Some(CoupledSink(HexField(v, 0), Some(Field(v, 1))))
  }

  function StringOf(v: string): Option<string> {
    if v == [] then None else Some(Field(v, 0))
  }

  function UrlsOf(v: string): Urls {
    if v == [] then Urls(None, None) else Urls(Some(Field(v, 0)), Some(Field(v, 1)))
  }

  function PortsOf(v: string): RtpPorts {
    if v == [] then RtpPorts(None, 0, 0, None)
    else RtpPorts(Some(Field(v, 0)), StrToUl(Field(v, 1), 10), StrToUl(Field(v, 2), 10), Some(Field(v, 3)))
  }

  function ConnectorOf(v: string): Connector {
    if v == [] then Connector(false, 0) else Connector(true, HexField(v, 0))
  }

  /** What one attribute does to the message. */
  function WithValue(m: Msg, name: Name, v: string): Msg {
    match name
    case Audio => m.(audio := Some(AudioOf(v)))
    case Video => m.(video := Some(VideoOf(v)))
    case Coupled => m.(coupled := Some(CoupledOf(v)))
    case Trigger => m.(trigger := Some(StringOf(v)))
    case PresentationUrl => m.(urls := Some(UrlsOf(v)))
    case ClientPorts => m.(ports := Some(PortsOf(v)))
    case Route => m.(route := Some(StringOf(v)))
    case UibcSetting => m.(uibcSetting := Some(SkipSpace(v) == "enable"))
    case StandbyResume => m.(standbyResume := Some(SkipSpace(v) == "supported"))
    case Standby => m.(standby := Some(true))
    case ConnectorType => m.(connector := Some(ConnectorOf(v)))
    case Idr => m.(idr := Some(true))
    case Other => m
  }

  function WithLine(m: Msg, line: string): Msg {
    WithValue(m, NameOf(Cut(Before(line, ':'), LIMIT)), Cut(Behind(line, ':'), LIMIT))
  }

  const LINE_LIMIT := 254 // characters that fit the buffer of one line

  function ParseLine(m: Msg, line: string): Msg {
    WithLine(m, Cut(line, LINE_LIMIT))
  }

  function ParseBuffer(data: string, m: Msg): Msg {
    ForLines(data, m, ParseLine)
  }

  // ---------- printing ----------

  function FormatText(c: AudioCodec): string {
    Or(c.format, NULL_TEXT)
  }

  function AudioWords(list: seq<AudioCodec>): seq<string> {
    if list == [] then []
    else
      [FormatText(list[0]), Hex(list[0].modes, 8), Hex(list[0].latency, 2) + if |list| > 1 then "," else ""]
      + AudioWords(list[1..])
  }

  function HexOrNone(n: U32): string {
    if n != 0 then Hex(n, 4) else "none"
  }

  function VideoWords(c: VideoCodec): seq<string> {
    [Hex(c.native, 2), Hex(c.preferred, 2), Hex(c.profile, 2), Hex(c.level, 2),
     Hex(c.cea, 8), Hex(c.vesa, 8), Hex(c.hh, 8), Hex(c.latency, 2), Hex(c.minSlice, 4),
     Hex(c.sliceEnc, 4), Hex(c.frameRate, 2), HexOrNone(c.maxHres), HexOrNone(c.maxVres)]
  }

  function Or(s: Option<string>, absent: string): string {
    if s.Some? then s.value else absent
  }

  const NULL_TEXT := "(null)" // what printf makes of a null pointer

  function CoupledWords(c: Option<CoupledSink>): seq<string> {
    match c
    case None => ["none"]
    case Some(k) => [Hex(k.status, 2), Or(k.address, "none")]
  }

  function UrlWords(u: Urls): seq<string> {
    [Or(u.url0, "none"), Or(u.url1, "none")]
  }

  function PortWords(p: RtpPorts): seq<string> {
    [Or(p.profile, NULL_TEXT), Signed(p.port0), Signed(p.port1), Or(p.mode, NULL_TEXT)]
  }

  function ConnectorWords(c: Connector): seq<string> {
    [if c.kind != 0 then Hex(c.kind, 2) else "none"]
  }

  /** The words printed for an attribute, if the message has it. */
  function WordsOf(m: Msg, name: Name): Option<seq<string>> {
    match name
    case Audio => if m.audio.Some? then Some(AudioWords(m.audio.value)) else None
    case Video => if m.video.Some? then Some(if m.video.value.Some? then VideoWords(m.video.value.value) else []) else None
    case Coupled => if m.coupled.Some? then Some(CoupledWords(m.coupled.value)) else None
    case Trigger => if m.trigger.Some? then Some([Or(m.trigger.value, NULL_TEXT)]) else None
    case PresentationUrl => if m.urls.Some? then Some(UrlWords(m.urls.value)) else None
    case ClientPorts => if m.ports.Some? then Some(PortWords(m.ports.value)) else None
    case Route => if m.route.Some? then Some([Or(m.route.value, NULL_TEXT)]) else None
    case UibcSetting => if m.uibcSetting.Some? then Some([if m.uibcSetting.value then "enable" else "disable"]) else None
    case StandbyResume => if m.standbyResume.Some? then Some([if m.standbyResume.value then "supported" else "none"]) else None
    case Standby => if m.standby.Some? then Some([]) else None
    case ConnectorType => if m.connector.Some? then Some(ConnectorWords(m.connector.value)) else None
    case Idr => if m.idr.Some? then Some([]) else None
    case Other => None
  }

  /** The value behind a colon, when there is one to print. */
  function AfterLabel(ws: seq<string>): string {
    if ws == [] then "" else ":" + Spaced(ws)
  }

  function Line(name: Name, ws: seq<string>): string {
    Label(name) + AfterLabel(ws)
  }

  function LinesFor(m: Msg, name: Name): seq<string> {
    match WordsOf(m, name)
    case None => []
    case Some(ws) => [Line(name, ws)]
  }

  /** The lines of the i-th attribute. */
  function LinesAt(m: Msg): nat -> seq<string> {
    (i: nat) => LinesFor(m, NameAt(i))
  }

  function Text(m: Msg): string {
    Joined(Gather(LinesAt(m), 0, NAMES))
  }

  // ---------- names ----------

  predicate Letters(s: string) {
    forall k :: 0 <= k < |s| ==> 'A' <= s[k] <= 'z'
  }

  lemma LettersOfFirst(i: nat)
    requires i < 6
    ensures Letters(Label(NameAt(i)))
  {
    match NameAt(i)
    case Audio => assert Letters("wfd_audio_codecs");
    case Video => assert Letters("wfd_video_formats");
    case Coupled => assert Letters("wfd_coupled_sink");
    case Trigger => assert Letters("wfd_trigger_method");
    case PresentationUrl => assert Letters("wfd_presentation_URL");
    case ClientPorts => assert Letters("wfd_client_rtp_ports");
  }

  lemma LettersOfLast(i: nat)
    requires 6 <= i < NAMES
    ensures Letters(Label(NameAt(i)))
  {
    match NameAt(i)
    case Route => assert Letters("wfd_route");
    case UibcSetting => assert Letters("wfd_uibc_setting");
    case StandbyResume => assert Letters("wfd_standby_resume_capability");
    case Standby => assert Letters("wfd_standby");
    case ConnectorType => assert Letters("wfd_connector_type");
    case Idr => assert Letters("wfd_idr_request");
  }

  lemma LettersArePlain(s: string)
    requires Letters(s)
    ensures ':' !in s && NoSpace(s)
  {
  }

  lemma LabelShape(i: nat)
    requires i < NAMES
    ensures var s := Label(NameAt(i)); ':' !in s && NoSpace(s) && |s| <= 40
  {
    if i < 6 { LettersOfFirst(i); } else { LettersOfLast(i); }
    LettersArePlain(Label(NameAt(i)));
    LabelHasMark(NameAt(i));
  }

  /** A character and the length tell the labels apart. */
  function Mark(name: Name): (nat, char) {
    match name
    case Audio => (16, 'a')
    case Video => (17, 'v')
    case Coupled => (16, 'c')
    case Trigger => (18, 't')
    case PresentationUrl => (20, 'p')
    case ClientPorts => (20, 'c')
    case Route => (9, 'r')
    case UibcSetting => (16, 'u')
    case StandbyResume => (29, 's')
    case Standby => (11, 's')
    case ConnectorType => (18, 'c')
    case Idr => (15, 'i')
    case Other => (0, ' ')
  }

  lemma LabelHasMark(name: Name)
    requires name != Other
    ensures |Label(name)| == Mark(name).0 >= 5 && Label(name)[4] == Mark(name).1
  {
  }

  lemma {:induction false} LabelIsFound(i: nat, k: nat)
    requires k <= i < NAMES
    ensures NameFrom(Label(NameAt(i)), k) == NameAt(i)
    decreases i - k
  {
    if k < i {
      LabelHasMark(NameAt(i));
      LabelHasMark(NameAt(k));
      assert Mark(NameAt(i)) != Mark(NameAt(k));
      LabelIsFound(i, k + 1);
    }
  }

  /** Every label is recognised. */
  lemma LabelIsKnown(i: nat)
    requires i < NAMES
    ensures NameOf(Label(NameAt(i))) == NameAt(i)
  {
    LabelIsFound(i, 0);
  }
}
