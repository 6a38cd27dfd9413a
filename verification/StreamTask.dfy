/** The task record and the text forms of its enumerations. */
module StreamTasks {
  import opened Text

  datatype StreamType = Publisher | Player
  datatype StreamState = Initializing | Active | Inactive | Error | Closed
  datatype StreamProtocol = RTMP | HTTP_FLV | HLS | RTSP | WebRTC | SRT | HTTP_TS | HTTP_FMP4 | Unknown

  const INT_MIN: int := -0x8000_0000
  const INT_MAX: int := 0x7fff_ffff

  /** A 32-bit `int`. */
  type Int32 = n: int | INT_MIN <= n <= INT_MAX

  /** Times are nanoseconds since the epoch; the two counters are shared atomics in the program
      and only ever travel inside the process that made them. */
  datatype StreamTask = StreamTask(
    taskId: nat,
    stream: string,
    client: string,
    kind: StreamType,
    state: StreamState,
    protocol: StreamProtocol,
    serverIp: string,
    serverPort: Int32,
    startTime: int,
    lastActive: int,
    userId: string,
    authToken: string,
    region: Option<string>,
    bandwidth: Option<nat>,
    playerCount: Option<nat>,
    needTranscode: bool,
    needRecord: bool,
    profile: string)

  const NS_PER_MS: int := 1_000_000

  /** `duration_cast<milliseconds>`: truncation toward zero. */
  function ToMs(ns: int): int {
    if ns >= 0 then ns / NS_PER_MS else -((-ns) / NS_PER_MS)
  }

  function FromMs(ms: int): int {
    ms * NS_PER_MS
  }

  lemma MsRoundTrip(ms: int)
    ensures ToMs(FromMs(ms)) == ms
  {
  }

  function TypeText(t: StreamType): string {
    if t == Publisher then "publisher" else "player"
  }

  function ParseType(s: string): StreamType {
    if s == "publisher" then Publisher else Player
  }

  function StateText(s: StreamState): string {
    match s
    case Initializing => "initializing"
    case Active => "active"
    case Inactive => "inactive"
    case Error => "error"
    case Closed => "closed"
  }

  function ParseState(s: string): StreamState {
    if s == "initializing" then Initializing
    else if s == "active" then Active
    else if s == "inactive" then Inactive
    else if s == "error" then Error
    else if s == "closed" then Closed
    else Initializing
  }

  function ProtocolText(p: StreamProtocol): string {
    match p
    case RTMP => "rtmp"
    case RTSP => "rtsp"
    case HLS => "hls"
    case HTTP_FLV => "http-flv"
    case HTTP_TS => "http-ts"
    case HTTP_FMP4 => "http-fmp4"
    case WebRTC => "webrtc"
    case SRT => "srt"
    case Unknown => "unknown"
  }

  predicate IsUpper(c: char) {
    'A' <= c <= 'Z'
  }

  function LowerChar(c: char): char {
    if IsUpper(c) then (c as int + 32) as char else c
  }

  function ToLower(s: string): (r: string)
    ensures |r| == |s|
    ensures forall i :: 0 <= i < |s| ==> r[i] == LowerChar(s[i])
  {
    seq(|s|, i requires 0 <= i < |s| => LowerChar(s[i]))
  }

  function ParseProtocol(text: string): StreamProtocol {
    var s := ToLower(text);
    if s == "rtmp" then RTMP
    else if s == "rtsp" then RTSP
    else if s == "hls" then HLS
    else if s == "http-flv" then HTTP_FLV
    else if s == "http-ts" then HTTP_TS
    else if s == "http-fmp4" then HTTP_FMP4
    else if s == "webrtc" then WebRTC
    else if s == "srt" then SRT
    else Unknown
  }

  lemma LowerFixed(s: string)
    requires forall i :: 0 <= i < |s| ==> !IsUpper(s[i])
    ensures ToLower(s) == s
  {
  }

  /** Each text form is read back as the value it came from, in any letter case for protocols. */
  lemma EnumTexts(t: StreamType, s: StreamState, p: StreamProtocol, spelled: string)
    requires ToLower(spelled) == ProtocolText(p)
    ensures ParseType(TypeText(t)) == t
    ensures ParseState(StateText(s)) == s
    ensures ParseProtocol(ProtocolText(p)) == p && ParseProtocol(spelled) == p
  {
    LowerFixed(ProtocolText(p));
  }

  /** Any other text is read as the default. */
  lemma OtherTexts(text: string)
    ensures (forall s: StreamState :: text != StateText(s)) ==> ParseState(text) == Initializing
    ensures (forall p: StreamProtocol :: ToLower(text) != ProtocolText(p)) ==> ParseProtocol(text) == Unknown
    ensures text != TypeText(Publisher) ==> ParseType(text) == Player
  {
    if forall s: StreamState :: text != StateText(s) {
      assert text != StateText(Active) && text != StateText(Inactive) && text != StateText(Error) && text != StateText(Closed);
    }
    if forall p: StreamProtocol :: ToLower(text) != ProtocolText(p) {
      var s := ToLower(text);
      assert s != ProtocolText(RTMP) && s != ProtocolText(RTSP) && s != ProtocolText(HLS) && s != ProtocolText(HTTP_FLV);
      assert s != ProtocolText(HTTP_TS) && s != ProtocolText(HTTP_FMP4) && s != ProtocolText(WebRTC) && s != ProtocolText(SRT);
    }
  }

  /** The millisecond count is the time cut toward zero. */
  lemma MsTruncates(ns: int)
    ensures ns >= 0 ==> FromMs(ToMs(ns)) <= ns < FromMs(ToMs(ns) + 1)
    ensures ns < 0 ==> FromMs(ToMs(ns) - 1) < ns <= FromMs(ToMs(ns))
  {
  }
}
