/** The Redis hash of a task: field text, reading it back, and the view of a hash that the
    registry model works on. */
module TaskCodec {
  import opened Text
  import opened StreamTasks

  /** The sixteen field names of a task hash; any other field is ignored by the reader. */
  datatype Field =
    | StreamName | ClientId | ActiveFlag | TypeName | StateName | ProtocolName
    | ServerIp | ServerPort | StartTimeMs | LastActiveTimeMs
    | UserId | AuthToken | Region | NeedTranscode | NeedRecord | TranscodingProfile

  type Fields = map<Field, string>

  // 2020-01-01 and 2038-01-01 UTC, in milliseconds.
  const MIN_REASONABLE_MS: int := 1577836800000
  const MAX_REASONABLE_MS: int := 2145916800000

  const INT64_MIN: int := -0x8000_0000_0000_0000
  const INT64_MAX: int := 0x7fff_ffff_ffff_ffff

  predicate Reasonable(ms: int) {
    MIN_REASONABLE_MS <= ms <= MAX_REASONABLE_MS
  }

  function StartMs(t: StreamTask): int {
    ToMs(t.startTime)
  }

  function LastMs(t: StreamTask): int {
    ToMs(t.lastActive)
  }

  /** The task's two times survive the range check of the reader. */
  predicate InRange(t: StreamTask) {
    Reasonable(StartMs(t)) && Reasonable(LastMs(t))
  }

  function Flag(b: bool): string {
    if b then "1" else "0"
  }

  function FieldText(t: StreamTask, f: Field): string {
    match f
    case StreamName => t.stream
    case ClientId => t.client
    case ActiveFlag => "1"
    case TypeName => TypeText(t.kind)
    case StateName => StateText(t.state)
    case ProtocolName => ProtocolText(t.protocol)
    case ServerIp => t.serverIp
    case ServerPort => Decimal(t.serverPort)
    case StartTimeMs => Decimal(StartMs(t))
    case LastActiveTimeMs => Decimal(LastMs(t))
    case UserId => t.userId
    case AuthToken => t.authToken
    case Region => (match t.region case Some(r) => r case None => "")
    case NeedTranscode => Flag(t.needTranscode)
    case NeedRecord => Flag(t.needRecord)
    case TranscodingProfile => t.profile
  }

  function Serialize(t: StreamTask): Fields {
    map f: Field | true :: FieldText(t, f)
  }

  function Get(f: Fields, key: Field, default: string): string {
    if key in f then f[key] else default
  }

  function Number(f: Fields, key: Field, lo: int, hi: int): (r: Option<int>)
    ensures r.Some? ==> lo <= r.value <= hi
  {
    if key in f then ParseInt(f[key], lo, hi) else None
  }

  function Port(f: Fields): Int32 {
    match Number(f, ServerPort, INT_MIN, INT_MAX)
    case Some(n) => n
    case None => 0
  }

  function Time(f: Fields, key: Field): Option<int> {
    Number(f, key, INT64_MIN, INT64_MAX)
  }

  /** The task made of the plain text fields and the already parsed ones. */
  function Assemble(f: Fields, kind: StreamType, state: StreamState, protocol: StreamProtocol,
                    port: Int32, start: Option<int>, last: Option<int>): Option<StreamTask>
  {
    if start.None? || last.None? || !Reasonable(start.value) || !Reasonable(last.value) then None
    else
      Some(StreamTask(
        0,
        Get(f, StreamName, ""),
        Get(f, ClientId, ""),
        kind,
        state,
        protocol,
        Get(f, ServerIp, ""),
        port,
        FromMs(start.value),
        FromMs(last.value),
        Get(f, UserId, ""),
        Get(f, AuthToken, ""),
        if Get(f, Region, "") != "" then Some(Get(f, Region, "")) else None,
        None,
        None,
        Get(f, NeedTranscode, "") == "1",
        Get(f, NeedRecord, "") == "1",
        Get(f, TranscodingProfile, "")))
  }

  predicate HasRequired(f: Fields) {
    && StreamName in f && ClientId in f && TypeName in f
    && StartTimeMs in f && LastActiveTimeMs in f
    && (f[TypeName] == "publisher" || f[TypeName] == "player")
  }

  function Deserialize(f: Fields): Option<StreamTask> {
    if !HasRequired(f) then None
    else
      Assemble(f,
               ParseType(f[TypeName]),
               if StateName in f then ParseState(f[StateName]) else Initializing,
               if ProtocolName in f then ParseProtocol(f[ProtocolName]) else Unknown,
               Port(f), Time(f, StartTimeMs), Time(f, LastActiveTimeMs))
  }

  /** What survives storage: no task id, no shared counters, millisecond times, and an empty
      region is no region. */
  function Stripped(t: StreamTask): (r: StreamTask)
    ensures StartMs(r) == StartMs(t) && LastMs(r) == LastMs(t)
    ensures r.stream == t.stream && r.client == t.client && r.kind == t.kind
  {
    MsRoundTrip(StartMs(t));
    MsRoundTrip(LastMs(t));
    t.(taskId := 0,
       startTime := FromMs(StartMs(t)),
       lastActive := FromMs(LastMs(t)),
       region := if t.region == Some("") then None else t.region,
       bandwidth := None,
       playerCount := None)
  }

  lemma EnumFields(t: StreamTask)
    ensures var f := Serialize(t);
            && HasRequired(f)
            && ParseType(f[TypeName]) == t.kind
            && ParseState(f[StateName]) == t.state
            && ParseProtocol(f[ProtocolName]) == t.protocol
  {
    LowerFixed(ProtocolText(t.protocol));
    EnumTexts(t.kind, t.state, t.protocol, ProtocolText(t.protocol));
  }

  function Fitting(n: int): Option<int> {
    if INT64_MIN <= n <= INT64_MAX then Some(n) else None
  }

  lemma NumberFields(t: StreamTask)
    ensures var f := Serialize(t);
            && Port(f) == t.serverPort
            && Time(f, StartTimeMs) == Fitting(StartMs(t))
            && Time(f, LastActiveTimeMs) == Fitting(LastMs(t))
  {
    ParsePrinted(t.serverPort, INT_MIN, INT_MAX);
    ParsePrinted(StartMs(t), INT64_MIN, INT64_MAX);
    ParsePrinted(LastMs(t), INT64_MIN, INT64_MAX);
  }

  lemma PlainFields(t: StreamTask)
    ensures var f := Serialize(t);
            && Get(f, StreamName, "") == t.stream && Get(f, ClientId, "") == t.client
            && Get(f, ServerIp, "") == t.serverIp && Get(f, UserId, "") == t.userId
            && Get(f, AuthToken, "") == t.authToken && Get(f, TranscodingProfile, "") == t.profile
  {
  }

  lemma FlagFields(t: StreamTask)
    ensures var f := Serialize(t);
            && (Get(f, NeedTranscode, "") == "1") == t.needTranscode
            && (Get(f, NeedRecord, "") == "1") == t.needRecord
            && (Get(f, Region, "") != "" ==> t.region == Some(Get(f, Region, "")))
            && (Get(f, Region, "") == "" ==> t.region.None? || t.region == Some(""))
  {
  }

  lemma TextFields(t: StreamTask, f: Fields)
    requires f == Serialize(t) && InRange(t)
    ensures Assemble(f, t.kind, t.state, t.protocol, t.serverPort, Some(StartMs(t)), Some(LastMs(t)))
         == Some(Stripped(t))
  {
    PlainFields(t);
    FlagFields(t);
  }

  /** A stored task is read back stripped, exactly when both its times are in range. */
  lemma RoundTrip(t: StreamTask)
    ensures Deserialize(Serialize(t)) == if InRange(t) then Some(Stripped(t)) else None
  {
    EnumFields(t);
    NumberFields(t);
    if InRange(t) {
      TextFields(t, Serialize(t));
    }
  }

  /** The name under which a field is stored. */
  function FieldName(f: Field): string {
    match f
    case StreamName => "stream_name"
    case ClientId => "client_id"
    case ActiveFlag => "active"
    case TypeName => "type"
    case StateName => "state"
    case ProtocolName => "protocol"
    case ServerIp => "server_ip"
    case ServerPort => "server_port"
    case StartTimeMs => "start_time_ms"
    case LastActiveTimeMs => "last_active_time_ms"
    case UserId => "user_id"
    case AuthToken => "auth_token"
    case Region => "region"
    case NeedTranscode => "need_transcode"
    case NeedRecord => "need_record"
    case TranscodingProfile => "transcoding_profile"
  }

  lemma NamesAreDistinct(f: Field, f': Field)
    requires FieldName(f) == FieldName(f')
    ensures f == f'
  {
  }

  /** What is stored under the names of the plain fields. */
  lemma StoredTexts(t: StreamTask)
    ensures FieldText(t, StreamName) == t.stream && FieldText(t, ClientId) == t.client
    ensures FieldText(t, UserId) == t.userId && FieldText(t, AuthToken) == t.authToken
    ensures FieldText(t, ServerIp) == t.serverIp && FieldText(t, TranscodingProfile) == t.profile
    ensures t.region.Some? ==> FieldText(t, Region) == t.region.value
  {
  }

  /** And of the numbers and flags. */
  lemma StoredNumbers(t: StreamTask)
    ensures FieldText(t, StartTimeMs) == Decimal(ToMs(t.startTime)) && FieldText(t, LastActiveTimeMs) == Decimal(ToMs(t.lastActive))
    ensures FieldText(t, ServerPort) == Decimal(t.serverPort)
    ensures (FieldText(t, NeedTranscode) == "1" <==> t.needTranscode) && (FieldText(t, NeedRecord) == "1" <==> t.needRecord)
  {
  }

  /** The time under a field, if it is there and a number in the accepted range. */
  predicate HasTime(f: Fields, key: Field) {
    key in f && ParseInt(f[key], INT64_MIN, INT64_MAX).Some? && Reasonable(ParseInt(f[key], INT64_MIN, INT64_MAX).value)
  }

  /** Whatever text a hash holds: it is read if and only if the five required fields are there, the type is
      one of the two, and both times are numbers in range. */
  lemma ReadsExactly(f: Fields)
    ensures Deserialize(f).Some? <==>
            && StreamName in f && ClientId in f
            && TypeName in f && (f[TypeName] == "publisher" || f[TypeName] == "player")
            && HasTime(f, StartTimeMs) && HasTime(f, LastActiveTimeMs)
  {
  }

  /** And then a field that is missing, or a port that is no number, has its default. */
  lemma ReadsDefaults(f: Fields)
    requires Deserialize(f).Some?
    ensures var t := Deserialize(f).value;
            && t.stream == f[StreamName] && t.client == f[ClientId]
            && (t.kind == Publisher <==> f[TypeName] == "publisher")
            && StartMs(t) == ParseInt(f[StartTimeMs], INT64_MIN, INT64_MAX).value
            && LastMs(t) == ParseInt(f[LastActiveTimeMs], INT64_MIN, INT64_MAX).value
            && (StateName !in f ==> t.state == Initializing) && (ProtocolName !in f ==> t.protocol == Unknown)
            && (ServerPort !in f || ParseInt(f[ServerPort], INT_MIN, INT_MAX).None? ==> t.serverPort == 0)
            && (ServerIp !in f ==> t.serverIp == "") && (UserId !in f ==> t.userId == "")
            && (AuthToken !in f ==> t.authToken == "") && (TranscodingProfile !in f ==> t.profile == "")
            && (Region !in f || f[Region] == "" ==> t.region.None?)
            && (t.needTranscode <==> NeedTranscode in f && f[NeedTranscode] == "1")
            && (t.needRecord <==> NeedRecord in f && f[NeedRecord] == "1")
  {
    MsRoundTrip(Time(f, StartTimeMs).value);
    MsRoundTrip(Time(f, LastActiveTimeMs).value);
  }

  /** Stripping loses nothing that is stored. */
  lemma StrippedSameFields(t: StreamTask)
    ensures Serialize(Stripped(t)) == Serialize(t)
  {
    assert Stripped(t).region.None? ==> t.region.None? || t.region == Some("");
  }

  /** Whatever text a hash holds, what is read from it is a fixed point of storing and reading. */
  lemma ReadIsStable(f: Fields)
    requires Deserialize(f).Some?
    ensures InRange(Deserialize(f).value)
    ensures Deserialize(Serialize(Deserialize(f).value)) == Deserialize(f)
  {
    var t := Deserialize(f).value;
    MsRoundTrip(Time(f, StartTimeMs).value);
    MsRoundTrip(Time(f, LastActiveTimeMs).value);
    RoundTrip(t);
    assert Stripped(t) == t;
  }

  // ----- The two shapes a task hash can have -----

  /** Every hash under a task key is either a whole task or the single field that a heartbeat
      writes to a key that does not exist. */
  datatype TaskHash = Orphan(lastMs: int) | Stored(task: StreamTask)

  /** The field text that a hash stands for. */
  function FieldsOf(h: TaskHash): Fields {
    match h
    case Orphan(ms) => map[LastActiveTimeMs := Decimal(ms)]
    case Stored(t) => Serialize(t)
  }

  /** `HGETALL` followed by `deserializeTask`. */
  function ReadHash(h: TaskHash): (r: Option<StreamTask>)
    ensures r.Some? ==> h.Stored? && InRange(h.task) && r.value == Stripped(h.task)
  {
    if h.Stored? && InRange(h.task) then Some(Stripped(h.task)) else None
  }

  /** `HSET key last_active_time_ms now` on a present or absent hash. */
  function TouchHash(h: Option<TaskHash>, now: int): TaskHash {
    match h
    case Some(Stored(t)) => Stored(t.(lastActive := FromMs(now)))
    case _ => Orphan(now)
  }

  // The view is exact: reading, touching and overwriting a hash do to its field text what the
  // Redis commands do.

  lemma ViewReads(h: TaskHash)
    ensures ReadHash(h) == Deserialize(FieldsOf(h))
  {
    match h
    case Orphan(ms) => assert !HasRequired(FieldsOf(h));
    case Stored(t) => RoundTrip(t);
  }

  lemma ViewTouches(h: TaskHash, now: int)
    ensures FieldsOf(TouchHash(Some(h), now)) == FieldsOf(h)[LastActiveTimeMs := Decimal(now)]
    ensures FieldsOf(TouchHash(None, now)) == map[LastActiveTimeMs := Decimal(now)]
  {
    if h.Stored? {
      var t' := h.task.(lastActive := FromMs(now));
      MsRoundTrip(now);
      forall f: Field
        ensures FieldText(t', f) == if f == LastActiveTimeMs then Decimal(now) else FieldText(h.task, f)
      {
        if f == LastActiveTimeMs {
          assert LastMs(t') == now;
        }
      }
    }
  }

  lemma ViewOverwrites(h: TaskHash, t: StreamTask)
    ensures FieldsOf(h) + Serialize(t) == FieldsOf(Stored(t))
  {
    forall f: Field
      ensures f in Serialize(t)
    {
    }
    assert Serialize(t).Keys >= FieldsOf(h).Keys;
  }
}
