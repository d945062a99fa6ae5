/**
  What one response does to a call: header fields, the end of header blocks, DATA,
  resets and local events, the status they resolve to and whether the attempt may be
  repeated.  Every claim is about all event sequences.
 */
module Response {
  import opened Bytes
  import opened Framing
  import opened Decimal

  // --------------------------------------------------------------- constants

  const OK := 0
  const CANCELLED := 1
  const UNKNOWN := 2
  const DEADLINE_EXCEEDED := 4
  const PERMISSION_DENIED := 7
  const RESOURCE_EXHAUSTED := 8
  const UNIMPLEMENTED := 12
  const INTERNAL := 13
  const UNAVAILABLE := 14
  const UNAUTHENTICATED := 16

  const H2_NO_ERROR := 0
  const H2_REFUSED_STREAM := 7
  const H2_CANCEL := 8
  const H2_ENHANCE_YOUR_CALM := 11
  const H2_INADEQUATE_SECURITY := 12
  const H2_HTTP_1_1_REQUIRED := 13

  const MAX_METADATA_ENTRIES := 128

  // ------------------------------------------------------------ field values

  /** The value of a grpc-status field: a numeral from 0 to 16 without leading zero, else -1. */
  function StatusValue(value: string): (r: int)
    ensures -1 <= r <= 16
  {
    if |value| == 0 || |value| > 2 || (|value| > 1 && value[0] == '0') || !AllDigits(value) then -1
    else if NumeralValue(value) <= 16 then NumeralValue(value) else -1
  }

  method ParseStatusValue(value: string) returns (status: int)
    ensures status == StatusValue(value)
  {
    if |value| == 0 || |value| > 2 || (|value| > 1 && value[0] == '0') {
      return -1;
    }
    status := 0;
    for i := 0 to |value|
      invariant AllDigits(value[..i])
      invariant status == NumeralValue(value[..i])
    {
      if value[i] < '0' || value[i] > '9' {
        return -1;
      }
      status := status * 10 + (value[i] as int - '0' as int);
      assert value[..i + 1][..i] == value[..i];
    }
    assert value[..|value|] == value;
    return if status <= 16 then status else -1;
  }

  /** A status is read exactly from its own numeral. */
  lemma StatusValueExact(value: string, n: nat)
    ensures StatusValue(value) == n <==> (n <= 16 && value == Numeral(n))
  {
    if StatusValue(value) == n {
      ValueRoundTrip(value);
    }
    if n <= 16 && value == Numeral(n) {
      NumeralRoundTrip(n);
      NoLeadingZero(n);
      NumeralLength(n, 2);
      assert PowerOfTen(2) == 100;
    }
  }

  function Lower(c: char): char {
    if 'A' <= c <= 'Z' then (c as int + 32) as char else c
  }

  predicate StartsWithIgnoringCase(value: string, prefix: string) {
    |value| >= |prefix| && forall i :: 0 <= i < |prefix| ==> Lower(value[i]) == prefix[i]
  }

  predicate ValidContentType(value: string) {
    var n := |"application/grpc"|;
    && StartsWithIgnoringCase(value, "application/grpc")
    && (|value| == n || (value[n] == '+' && |value| > n + 1) || value[n] == ';')
  }

  /** Which content types are gRPC. */
  lemma ContentTypeExamples()
    ensures ValidContentType("application/grpc") && ValidContentType("Application/GRPC+proto")
    ensures ValidContentType("application/grpc;charset=utf-8")
    ensures !ValidContentType("") && !ValidContentType("text/html") && !ValidContentType("application/grpc+")
    ensures !ValidContentType("application/grpcweb")
  {
  }

  predicate IdentityEncoding(value: string) {
    |value| == |"identity"| && StartsWithIgnoringCase(value, "identity")
  }

  /** `atoi` on the first fifteen characters. */
  function HttpCode(value: string): int {
    Atoi(value[..Min(|value|, 15)])
  }

  function Atoi(s: string): int {
    if s != [] && (s[0] == ' ' || '\t' <= s[0] <= '\r') then Atoi(s[1..])
    else if s != [] && s[0] == '-' then 0 - LeadingNumber(s[1..]) as int
    else if s != [] && s[0] == '+' then LeadingNumber(s[1..])
    else LeadingNumber(s)
  }

  function LeadingNumber(s: string): nat {
    NumeralValue(LeadingDigits(s))
  }

  function LeadingDigits(s: string): (d: string)
    ensures AllDigits(d)
  {
    if s == [] || !IsDigit(s[0]) then [] else [s[0]] + LeadingDigits(s[1..])
  }

  // ---------------------------------------------------------------- metadata

  datatype Entry = Entry(key: string, value: string, trailing: bool)

  datatype Metadata = Metadata(entries: seq<Entry>, count: nat, bytes: nat, tooLarge: bool)

  const NO_METADATA: Metadata := Metadata([], 0, 0, false)

  function EntryBytes(es: seq<Entry>): nat {
    if es == [] then 0 else EntryBytes(es[..|es| - 1]) + |es[|es| - 1].key| + |es[|es| - 1].value|
  }

  /** The field names the header callback tells apart.  `Unnamed` stands for an empty name
      and for every pseudo-header other than :status; neither reaches the metadata. */
  datatype Kind = GrpcStatus | GrpcMessage | GrpcDetails | HttpStatus | ContentType | GrpcEncoding | Unnamed | Custom
  {
    predicate Stored() {
      this != HttpStatus && this != Unnamed
    }

    /** The three fields that may only stand in the last header block. */
    predicate StatusLike() {
      this == GrpcStatus || this == GrpcMessage || this == GrpcDetails
    }
  }

  function KindOf(name: string): Kind {
    if name == "grpc-status" then GrpcStatus
    else if name == "grpc-message" then GrpcMessage
    else if name == "grpc-status-details-bin" then GrpcDetails
    else if name == ":status" then HttpStatus
    else if name == "content-type" then ContentType
    else if name == "grpc-encoding" then GrpcEncoding
    else if name == "" || name[0] == ':' then Unnamed
    else Custom
  }

  /** Appends an entry, or raises the overflow for good. */
  function AddEntry(m: Metadata, max: nat, name: string, value: string, trailing: bool): Metadata {
    var n := |name| + |value|;
    if m.tooLarge || m.count >= MAX_METADATA_ENTRIES || n > max || m.bytes > max - n then m.(tooLarge := true)
    else Metadata(m.entries + [Entry(name, value, trailing)], m.count + 1, m.bytes + n, false)
  }

  function AllTrailing(es: seq<Entry>): (r: seq<Entry>)
    ensures |r| == |es|
    ensures forall i :: 0 <= i < |es| ==> r[i] == es[i].(trailing := true)
  {
    if es == [] then [] else AllTrailing(es[..|es| - 1]) + [es[|es| - 1].(trailing := true)]
  }

  /** The entries one of the two metadata maps is built from, in arrival order. */
  function Selected(es: seq<Entry>, trailing: bool): seq<Entry> {
    if es == [] then []
    else
      var init, last := Selected(es[..|es| - 1], trailing), es[|es| - 1];
      if last.trailing == trailing then init + [last] else init
  }

  // ------------------------------------------------------------- call record

  datatype StatusPart = StatusPart(code: int, seen: bool, invalid: bool, initialSeen: bool, hasMessage: bool)

  datatype HeadPart = HeadPart(
    http: int, contentTypeSeen: bool, invalidContentType: bool, endStream: bool, trailersSeen: bool,
    encoding: Option<string>)

  datatype StreamPart = StreamPart(
    resetSeen: bool, errorCode: nat, refused: bool, closed: bool, timedOut: bool, broken: bool, localReset: bool)

  datatype Record = Record(status: StatusPart, head: HeadPart, meta: Metadata, stream: StreamPart, dec: Decoder)

  const NEW_CALL: Record := Record(
    StatusPart(-1, false, false, false, false), HeadPart(-1, false, false, false, false, None),
    NO_METADATA, StreamPart(false, 0, false, false, false, false, false), FRESH)

  datatype Config = Config(lim: Limits, maxMetadataBytes: nat)

  /** `Initial` is the response HEADERS of a stream, `Later` every other header block. */
  datatype Category = Initial | Later

  datatype Event =
    | HeaderField(cat: Category, kind: Kind, name: string, value: string)
    | HeadersEnd(cat: Category, endStream: bool)
    | Data(chunk: seq<byte>, foreignReader: bool, resetFatal: bool)
    | RstStream(code: nat)
    | PushPromise
    | RefusedByGoaway
    | StreamClosed(code: nat)
    | DeadlinePassed
    | ConnectionBroke
    | LocalReset
    | Delivered
    | UserCancel

  /** A field as it comes off the wire. */
  function FieldEvent(cat: Category, name: string, value: string): Event {
    HeaderField(cat, KindOf(name), name, value)
  }

  function Discarding(r: Record): Record {
    r.(dec := r.dec.(discard := true))
  }

  function OnStatusField(r: Record, cat: Category, value: string): Record {
    var code := StatusValue(value);
    r.(status := r.status.(code := code, seen := true,
                           invalid := r.status.invalid || r.status.seen || code < 0,
                           initialSeen := r.status.initialSeen || cat == Initial),
       meta := if cat == Initial then r.meta.(entries := AllTrailing(r.meta.entries)) else r.meta)
  }

  function OnMessageField(r: Record, cat: Category): Record {
    r.(status := r.status.(hasMessage := true, initialSeen := r.status.initialSeen || cat == Initial))
  }

  function Store(cfg: Config, r: Record, name: string, value: string, trailing: bool): Record {
    var meta := AddEntry(r.meta, cfg.maxMetadataBytes, name, value, trailing);
    r.(meta := meta, dec := r.dec.(discard := r.dec.discard || meta.tooLarge))
  }

  /** The mark a field leaves before it is stored as metadata. */
  function NoteField(r: Record, cat: Category, kind: Kind, value: string): Record {
    match kind
    case GrpcDetails => r.(status := r.status.(initialSeen := r.status.initialSeen || cat == Initial))
    case HttpStatus => r.(head := r.head.(http := HttpCode(value)))
    case ContentType =>
      var valid := ValidContentType(value);
      r.(head := r.head.(contentTypeSeen := true, invalidContentType := r.head.invalidContentType || !valid),
         dec := r.dec.(discard := r.dec.discard || !valid))
    case GrpcEncoding => r.(head := r.head.(encoding := Some(value)))
    case _ => r
  }

  function OnField(cfg: Config, r: Record, cat: Category, kind: Kind, name: string, value: string): Record {
    if kind == GrpcStatus then OnStatusField(r, cat, value)
    else if kind == GrpcMessage then OnMessageField(r, cat)
    else
      var noted := NoteField(r, cat, kind, value);
      if !kind.Stored() then noted
      else Store(cfg, noted, name, value, cat != Initial || r.status.code >= 0 || kind == GrpcDetails)
  }

  function OnHeadersEnd(r: Record, cat: Category, endStream: bool): Record {
    if cat == Later then
      if endStream then r.(head := r.head.(trailersSeen := true)) else r
    else
      var ended := r.(head := r.head.(endStream := endStream));
      var typed :=
        if !r.head.contentTypeSeen && !(r.status.seen && endStream)
        then Discarding(ended.(head := ended.head.(invalidContentType := true)))
        else ended;
      if r.status.initialSeen && !endStream
      then Discarding(typed.(status := typed.status.(invalid := true)))
      else typed
  }

  function ForeignEncoding(r: Record): bool {
    r.head.encoding.Some? && !IdentityEncoding(r.head.encoding.value)
  }

  function OnDataEvent(cfg: Config, r: Record, chunk: seq<byte>, foreignReader: bool, resetFatal: bool): Record
    requires r.dec.WellFormed()
  {
    if chunk == [] then r
    else if r.status.seen then Discarding(r.(status := r.status.(invalid := true)))
    else r.(dec := OnData(cfg.lim, Env(foreignReader, resetFatal, ForeignEncoding(r)), r.dec, chunk))
  }

  /** The end of a stream inside a message, unless a reset or a broken connection explains it. */
  predicate TruncatedBody(r: Record, unary: bool) {
    && (if unary then r.stream.closed else !r.stream.broken)
    && !r.dec.flags.tooLarge && !r.dec.flags.compressed
    && !r.stream.resetSeen && !r.stream.localReset
    && r.dec.MidMessage()
  }

  /** What the end of the call adds before its status is resolved. */
  function Ended(r: Record, unary: bool): Record {
    if TruncatedBody(r, unary) then r.(dec := r.dec.(flags := r.dec.flags.(malformed := true))) else r
  }

  function Apply(cfg: Config, r: Record, e: Event): Record
    requires r.dec.WellFormed()
  {
    match e
    case HeaderField(cat, kind, name, value) => OnField(cfg, r, cat, kind, name, value)
    case HeadersEnd(cat, endStream) => OnHeadersEnd(r, cat, endStream)
    case Data(chunk, foreignReader, resetFatal) => OnDataEvent(cfg, r, chunk, foreignReader, resetFatal)
    case RstStream(code) => r.(stream := r.stream.(resetSeen := true, errorCode := code))
    case PushPromise => Discarding(r.(dec := r.dec.(flags := r.dec.flags.(malformed := true))))
    case RefusedByGoaway =>
      r.(stream := r.stream.(errorCode := H2_REFUSED_STREAM, refused := true, closed := true))
    case StreamClosed(code) => r.(stream := r.stream.(closed := true, errorCode := code))
    case DeadlinePassed => r.(stream := r.stream.(timedOut := true))
    case ConnectionBroke => if r.stream.timedOut then r else r.(stream := r.stream.(broken := true))
    case LocalReset => r.(stream := r.stream.(localReset := true))
    case Delivered => if r.dec.queue == [] then r else r.(dec := r.dec.(queue := r.dec.queue[1..]))
    case UserCancel => r.(status := r.status.(code := CANCELLED), dec := r.dec.(queue := []))
  }

  predicate Healthy(r: Record) {
    r.dec.WellFormed() && Fits(r.dec.queue) && -1 <= r.status.code <= 16
  }

  lemma ApplyHealthy(cfg: Config, r: Record, e: Event)
    requires Healthy(r)
    ensures Healthy(Apply(cfg, r, e))
  {
    if e.Data? {
      var env := Env(e.foreignReader, e.resetFatal, ForeignEncoding(r));
      OnDataWellFormed(cfg.lim, env, r.dec, e.chunk);
      FeedFits(cfg.lim, env, r.dec, e.chunk);
    }
  }

  /** The record after a whole history of events. */
  function Run(cfg: Config, t: seq<Event>): (r: Record)
    ensures Healthy(r)
  {
    if t == [] then NEW_CALL
    else
      var before := Run(cfg, t[..|t| - 1]);
      ApplyHealthy(cfg, before, t[|t| - 1]);
      Apply(cfg, before, t[|t| - 1])
  }

  // ------------------------------------------------------------------ status

  function StatusFromHttp(code: int): int {
    match code
    case 400 => INTERNAL
    case 401 => UNAUTHENTICATED
    case 403 => PERMISSION_DENIED
    case 404 => UNIMPLEMENTED
    case 429 => UNAVAILABLE
    case 502 => UNAVAILABLE
    case 503 => UNAVAILABLE
    case 504 => UNAVAILABLE
    case _ => if code < 0 then UNAVAILABLE else UNKNOWN
  }

  function ResetStatus(code: nat): int {
    if code == H2_CANCEL then CANCELLED
    else if code == H2_REFUSED_STREAM then UNAVAILABLE
    else if code == H2_ENHANCE_YOUR_CALM then RESOURCE_EXHAUSTED
    else if code == H2_INADEQUATE_SECURITY then PERMISSION_DENIED
    else if code <= H2_HTTP_1_1_REQUIRED then INTERNAL
    else UNKNOWN
  }

  /** The status a call resolves to; the first applicable reason wins. */
  function Status(r: Record, cancelled: bool): int {
    if r.stream.timedOut then DEADLINE_EXCEEDED
    else if cancelled then CANCELLED
    else if r.status.invalid then UNKNOWN
    else if r.status.code < 0 && r.head.http != 200 then StatusFromHttp(r.head.http)
    else if r.head.invalidContentType then UNKNOWN
    else if r.dec.flags.tooLarge || r.meta.tooLarge || r.dec.flags.queueLimit then RESOURCE_EXHAUSTED
    else if r.dec.flags.malformed then INTERNAL
    else if r.dec.flags.compressed || r.dec.flags.unsupportedEncoding then INTERNAL
    else if r.status.code >= 0 then r.status.code
    else if r.stream.refused then UNAVAILABLE
    else if r.stream.resetSeen then ResetStatus(r.stream.errorCode)
    else if r.stream.broken then UNAVAILABLE
    else if r.stream.closed && r.stream.errorCode == H2_NO_ERROR && r.head.http == 200
            && !r.head.endStream && !r.head.trailersSeen then INTERNAL
    else UNKNOWN
  }

  /** Some local or remote failure that no wire status can mend. */
  predicate Spoiled(r: Record) {
    r.stream.timedOut || r.head.invalidContentType || r.meta.tooLarge || r.dec.flags.Any()
  }

  lemma StatusInRange(cfg: Config, t: seq<Event>, unary: bool, cancelled: bool)
    ensures OK <= Status(Ended(Run(cfg, t), unary), cancelled) <= UNAUTHENTICATED
  {
  }

  // ------------------------------- reference notions, read off the history alone

  function StatusValues(t: seq<Event>): seq<string> {
    if t == [] then []
    else
      var init, e := StatusValues(t[..|t| - 1]), t[|t| - 1];
      if e.HeaderField? && e.kind == GrpcStatus then init + [e.value] else init
  }

  predicate BodyAfterStatus(t: seq<Event>) {
    t != [] && (BodyAfterStatus(t[..|t| - 1])
                || (t[|t| - 1].Data? && t[|t| - 1].chunk != [] && StatusValues(t[..|t| - 1]) != []))
  }

  predicate InitialStatus(t: seq<Event>) {
    t != [] && (InitialStatus(t[..|t| - 1])
                || (t[|t| - 1].HeaderField? && t[|t| - 1].cat == Initial && t[|t| - 1].kind.StatusLike()))
  }

  /** A status in initial headers that did not end the stream. */
  predicate UnfinishedInitialStatus(t: seq<Event>) {
    t != [] && (UnfinishedInitialStatus(t[..|t| - 1])
                || (t[|t| - 1] == HeadersEnd(Initial, false) && InitialStatus(t[..|t| - 1])))
  }

  predicate Readable(values: seq<string>) {
    forall i :: 0 <= i < |values| ==> StatusValue(values[i]) >= 0
  }

  /** What has been seen of a status, in terms of the history. */
  lemma {:induction false} SeenTracksHistory(cfg: Config, t: seq<Event>)
    requires UserCancel !in t
    ensures var s, vs := Run(cfg, t).status, StatusValues(t);
            && (s.seen <==> vs != [])
            && s.code == (if vs == [] then -1 else StatusValue(vs[|vs| - 1]))
            && (s.initialSeen <==> InitialStatus(t))
  {
    if t != [] {
      var init, e := t[..|t| - 1], t[|t| - 1];
      assert UserCancel !in init;
      SeenTracksHistory(cfg, init);
      StatusStep(cfg, Run(cfg, init), e);
      StatusValuesStep(t);
    }
  }

  /** The history notions, one event at a time. */
  lemma StatusValuesStep(t: seq<Event>)
    requires t != []
    ensures var init, e := t[..|t| - 1], t[|t| - 1];
            && StatusValues(t) == StatusValues(init) + (if e.HeaderField? && e.kind == GrpcStatus then [e.value] else [])
            && (InitialStatus(t) <==> InitialStatus(init) || (e.HeaderField? && e.cat == Initial && e.kind.StatusLike()))
  {
  }

  /** When the status counts as invalid, in terms of the history. */
  lemma {:induction false} InvalidTracksHistory(cfg: Config, t: seq<Event>)
    requires UserCancel !in t
    ensures var vs := StatusValues(t);
            Run(cfg, t).status.invalid
            <==> |vs| > 1 || !Readable(vs) || BodyAfterStatus(t) || UnfinishedInitialStatus(t)
  {
    if t != [] {
      var init, e := t[..|t| - 1], t[|t| - 1];
      assert UserCancel !in init;
      SeenTracksHistory(cfg, init);
      InvalidTracksHistory(cfg, init);
      StatusStep(cfg, Run(cfg, init), e);
      ReadableGrows(StatusValues(init), if e.HeaderField? then e.value else "");
    }
  }

  lemma ReadableGrows(vs: seq<string>, v: string)
    ensures Readable(vs + [v]) <==> Readable(vs) && StatusValue(v) >= 0
  {
    if Readable(vs + [v]) {
      assert forall i :: 0 <= i < |vs| ==> vs[i] == (vs + [v])[i];
      assert (vs + [v])[|vs|] == v;
    }
  }

  /** What a single event does to the status part. */
  lemma StatusStep(cfg: Config, r: Record, e: Event)
    requires Healthy(r) && e != UserCancel
    ensures var s, s' := r.status, Apply(cfg, r, e).status;
            var field := e.HeaderField? && e.kind == GrpcStatus;
            && s'.seen == (s.seen || field)
            && s'.code == (if field then StatusValue(e.value) else s.code)
            && s'.initialSeen == (s.initialSeen || (e.HeaderField? && e.cat == Initial && e.kind.StatusLike()))
            && s'.invalid == (s.invalid || (field && (s.seen || StatusValue(e.value) < 0))
                              || (e.Data? && e.chunk != [] && s.seen)
                              || (e == HeadersEnd(Initial, false) && s.initialSeen))
  {
  }

  // --------------------------------------------------------------- OK, exactly

  /** Cancelling ends a call: its stream is given up and nothing more is reported on it. */
  predicate CancelIsLast(t: seq<Event>) {
    forall i :: 0 <= i < |t| - 1 ==> t[i] != UserCancel
  }

  /** OK is reported exactly when one grpc-status field was received in the stream's whole
      life, it read "0", no body octet followed it, it did not stand in initial headers that
      left the stream open, nothing was cancelled, and no failure flag is up. */
  lemma OkExactly(cfg: Config, t: seq<Event>, unary: bool, cancelled: bool)
    requires CancelIsLast(t)
    ensures var r := Ended(Run(cfg, t), unary);
            Status(r, cancelled) == OK <==>
             && StatusValues(t) == ["0"] && !BodyAfterStatus(t) && !UnfinishedInitialStatus(t)
             && UserCancel !in t && !cancelled && !Spoiled(r)
  {
    OkRecord(Ended(Run(cfg, t), unary), cancelled);
    if UserCancel in t {
      var i :| 0 <= i < |t| && t[i] == UserCancel;
      assert i == |t| - 1;
    } else {
      SeenTracksHistory(cfg, t);
      InvalidTracksHistory(cfg, t);
      ZeroAlone(StatusValues(t));
    }
  }

  lemma OkRecord(r: Record, cancelled: bool)
    ensures Status(r, cancelled) == OK <==> r.status.code == OK && !r.status.invalid && !cancelled && !Spoiled(r)
  {
  }

  lemma ZeroAlone(vs: seq<string>)
    ensures vs == ["0"] <==> |vs| == 1 && Readable(vs) && StatusValue(vs[0]) == 0
  {
    assert Numeral(0) == "0";
    if vs != [] {
      StatusValueExact(vs[0], 0);
    }
    if |vs| == 1 {
      assert vs == [vs[0]];
    }
  }

  /** Every field carries the kind its name has on the wire. */
  predicate Named(t: seq<Event>) {
    forall i :: 0 <= i < |t| && t[i].HeaderField? ==> t[i] == FieldEvent(t[i].cat, t[i].name, t[i].value)
  }

  /** The values of the fields of one name, in the order received. */
  function ValuesNamed(t: seq<Event>, name: string): seq<string> {
    if t == [] then []
    else
      var init, e := ValuesNamed(t[..|t| - 1], name), t[|t| - 1];
      if e.HeaderField? && e.name == name then init + [e.value] else init
  }

  lemma KindNames(name: string)
    ensures KindOf(name) == GrpcStatus <==> name == "grpc-status"
    ensures KindOf(name) == HttpStatus <==> name == ":status"
    ensures KindOf(name) == Unnamed <==> name == "" || (name[0] == ':' && name != ":status")
  {
    assert "grpc-status"[0] == 'g' && "grpc-message"[0] == 'g' && "grpc-status-details-bin"[0] == 'g';
    assert ":status"[0] == ':' && "content-type"[0] == 'c' && "grpc-encoding"[0] == 'g';
    assert |":status"| == 7;
  }

  lemma {:induction false} StatusValuesByName(t: seq<Event>)
    requires Named(t)
    ensures StatusValues(t) == ValuesNamed(t, "grpc-status")
  {
    if t != [] {
      var init, e := t[..|t| - 1], t[|t| - 1];
      assert forall i :: 0 <= i < |init| ==> init[i] == t[i];
      StatusValuesByName(init);
      if e.HeaderField? {
        KindNames(e.name);
      }
    }
  }

  /** In the names on the wire: a call that ends OK received one field called grpc-status, reading "0". */
  lemma OkByName(cfg: Config, t: seq<Event>, unary: bool, cancelled: bool)
    requires CancelIsLast(t) && Named(t)
    ensures Status(Ended(Run(cfg, t), unary), cancelled) == OK ==>
              ValuesNamed(t, "grpc-status") == ["0"] && !BodyAfterStatus(t) && UserCancel !in t && !cancelled
  {
    OkExactly(cfg, t, unary, cancelled);
    StatusValuesByName(t);
  }

  /** No flag is ever taken back. */
  predicate OnlyWorse(r: Record, later: Record) {
    && (r.stream.timedOut ==> later.stream.timedOut)
    && (r.status.invalid ==> later.status.invalid)
    && (r.head.invalidContentType ==> later.head.invalidContentType)
    && (r.meta.tooLarge ==> later.meta.tooLarge)
    && (r.dec.flags.tooLarge ==> later.dec.flags.tooLarge)
    && (r.dec.flags.malformed ==> later.dec.flags.malformed)
    && (r.dec.flags.compressed ==> later.dec.flags.compressed)
    && (r.dec.flags.unsupportedEncoding ==> later.dec.flags.unsupportedEncoding)
    && (r.dec.flags.queueLimit ==> later.dec.flags.queueLimit)
  }

  predicate StillUp(f: Flags, later: Flags) {
    && (f.tooLarge ==> later.tooLarge) && (f.malformed ==> later.malformed) && (f.compressed ==> later.compressed)
    && (f.unsupportedEncoding ==> later.unsupportedEncoding) && (f.queueLimit ==> later.queueLimit)
  }

  lemma StepFlagsStay(lim: Limits, env: Env, d: Decoder, b: byte)
    requires d.WellFormed()
    ensures StillUp(d.flags, Step(lim, env, d, b).0.flags)
  {
  }

  lemma {:induction false} FlagsStay(lim: Limits, env: Env, d: Decoder, bytes: seq<byte>)
    requires d.WellFormed()
    ensures StillUp(d.flags, Feed(lim, env, d, bytes).flags)
    decreases |bytes|
  {
    if bytes != [] {
      StepWellFormed(lim, env, d, bytes[0]);
      StepFlagsStay(lim, env, d, bytes[0]);
      var (next, stop) := Step(lim, env, d, bytes[0]);
      if !stop {
        FlagsStay(lim, env, next, bytes[1..]);
      }
    }
  }

  lemma ApplyOnlyWorse(cfg: Config, r: Record, e: Event)
    requires Healthy(r)
    ensures OnlyWorse(r, Apply(cfg, r, e))
  {
    if e.Data? {
      FlagsStay(cfg.lim, Env(e.foreignReader, e.resetFatal, ForeignEncoding(r)), r.dec, e.chunk);
    }
  }

  lemma {:induction false} RunOnlyWorse(cfg: Config, t: seq<Event>, k: nat)
    requires k <= |t|
    ensures OnlyWorse(Run(cfg, t[..k]), Run(cfg, t))
    decreases |t|
  {
    if k == |t| {
      assert t[..k] == t;
    } else {
      var init := t[..|t| - 1];
      assert init[..k] == t[..k];
      RunOnlyWorse(cfg, init, k);
      ApplyOnlyWorse(cfg, Run(cfg, init), t[|t| - 1]);
    }
  }

  /** If the call ends OK, no failure was up at any moment of its life. */
  lemma OkMeansNeverSpoiled(cfg: Config, t: seq<Event>, unary: bool, cancelled: bool, k: nat)
    requires Status(Ended(Run(cfg, t), unary), cancelled) == OK && k <= |t|
    ensures !Spoiled(Run(cfg, t[..k])) && !Run(cfg, t[..k]).status.invalid
  {
    OkIsClean(Ended(Run(cfg, t), unary), cancelled);
    EndedOnlyWorse(Run(cfg, t), unary);
    RunOnlyWorse(cfg, t, k);
  }

  lemma OkIsClean(r: Record, cancelled: bool)
    requires Status(r, cancelled) == OK
    ensures !Spoiled(r) && !r.status.invalid
  {
  }

  lemma EndedOnlyWorse(r: Record, unary: bool)
    ensures OnlyWorse(r, Ended(r, unary))
  {
  }

  // ------------------------------------------------- has the server answered?

  /** Something of a response was seen on the stream. */
  predicate Started(r: Record) {
    || r.head.http >= 0 || r.meta.count > 0 || r.status.seen || r.status.initialSeen || r.status.code >= 0
    || r.meta.tooLarge || r.head.contentTypeSeen || r.head.invalidContentType
    || r.dec.flags.unsupportedEncoding || r.status.invalid
    || r.dec.flags.queueLimit || r.status.hasMessage
    || r.dec.count > 0 || r.dec.queue != []
    || r.dec.header != [] || r.dec.payload != []
  }

  /** The evidence the header callback leaves. */
  predicate HeadersSeen(r: Record) {
    || r.head.http >= 0 || r.meta.count > 0 || r.status.seen || r.status.hasMessage
    || r.meta.tooLarge || r.head.contentTypeSeen
  }

  /** Fields HTTP/2 lets through: no empty name, no pseudo-header but a non-negative :status. */
  predicate Lawful(e: Event) {
    e.HeaderField? ==> e.kind != Unnamed && (e.kind == HttpStatus ==> HttpCode(e.value) >= 0)
  }

  /** A single field proves an answer exactly if it is lawful, on a call that has none yet. */
  lemma FieldStartsResponse(cfg: Config, r: Record, e: Event)
    requires Healthy(r) && e.HeaderField? && !HeadersSeen(r)
    ensures HeadersSeen(Apply(cfg, r, e)) <==> Lawful(e)
  {
  }

  /** A field that leaves a mark nothing takes away: any but a pseudo-header or an empty name. */
  predicate Lasting(e: Event) {
    e.HeaderField? && e.kind != HttpStatus && e.kind != Unnamed
  }

  predicate AnyLasting(t: seq<Event>) {
    exists i :: 0 <= i < |t| && Lasting(t[i])
  }

  /** The number the last :status field reads as, -1 without one. */
  function LastHttp(t: seq<Event>): int {
    if t == [] then -1
    else
      var e := t[|t| - 1];
      if e.HeaderField? && e.kind == HttpStatus then HttpCode(e.value) else LastHttp(t[..|t| - 1])
  }

  /** What a lasting field leaves behind. */
  predicate Marked(r: Record) {
    r.meta.count > 0 || r.status.seen || r.status.hasMessage || r.meta.tooLarge || r.head.contentTypeSeen
  }

  lemma EvidenceStep(cfg: Config, r: Record, e: Event)
    requires Healthy(r)
    ensures Marked(Apply(cfg, r, e)) <==> Marked(r) || Lasting(e)
    ensures Apply(cfg, r, e).head.http ==
            if e.HeaderField? && e.kind == HttpStatus then HttpCode(e.value) else r.head.http
  {
  }

  lemma AnyLastingStep(t: seq<Event>)
    requires t != []
    ensures AnyLasting(t) <==> AnyLasting(t[..|t| - 1]) || Lasting(t[|t| - 1])
  {
    var init := t[..|t| - 1];
    if i :| 0 <= i < |init| && Lasting(init[i]) {
      assert Lasting(t[i]);
    }
    if i :| 0 <= i < |t| && Lasting(t[i]) && i < |t| - 1 {
      assert Lasting(init[i]);
    }
  }

  lemma {:induction false} EvidenceTracksHistory(cfg: Config, t: seq<Event>)
    ensures Marked(Run(cfg, t)) <==> AnyLasting(t)
    ensures Run(cfg, t).head.http == LastHttp(t)
  {
    if t != [] {
      EvidenceTracksHistory(cfg, t[..|t| - 1]);
      EvidenceStep(cfg, Run(cfg, t[..|t| - 1]), t[|t| - 1]);
      AnyLastingStep(t);
    }
  }

  /** After every history whatsoever, the headers of a response are in evidence if and only if
      some lasting field was received or the last :status reads as a number that is not negative. */
  lemma HeadersSeenExactly(cfg: Config, t: seq<Event>)
    ensures HeadersSeen(Run(cfg, t)) <==> AnyLasting(t) || LastHttp(t) >= 0
  {
    EvidenceTracksHistory(cfg, t);
  }

  /** HTTP/2 lets no DATA through before the response HEADERS are complete. */
  predicate BlockFirst(t: seq<Event>) {
    forall i :: 0 <= i < |t| && t[i].Data? && t[i].chunk != [] ==> InitialEnded(t[..i])
  }

  /** The response HEADERS were received to their end. */
  predicate InitialEnded(t: seq<Event>) {
    exists i :: 0 <= i < |t| && t[i].HeadersEnd? && t[i].cat == Initial
  }

  /** Without lasting fields, DATA and complete HEADERS there is no other trace of a response. */
  predicate Bare(r: Record) {
    && r.dec.header == [] && r.dec.payload == [] && r.dec.queue == [] && r.dec.count == 0
    && !r.dec.flags.unsupportedEncoding && !r.dec.flags.queueLimit
    && !r.status.invalid && !r.status.initialSeen && !r.head.invalidContentType && r.status.code < 0
  }

  predicate Faint(e: Event) {
    !Lasting(e) && (e.Data? ==> e.chunk == []) && !(e.HeadersEnd? && e.cat == Initial) && e != UserCancel
  }

  lemma BareStep(cfg: Config, r: Record, e: Event)
    requires Healthy(r) && Bare(r) && Faint(e)
    ensures Bare(Apply(cfg, r, e))
  {
  }

  lemma {:induction false} BareWhileFaint(cfg: Config, t: seq<Event>)
    requires forall i :: 0 <= i < |t| ==> Faint(t[i])
    ensures Bare(Run(cfg, t))
  {
    if t != [] {
      BareWhileFaint(cfg, t[..|t| - 1]);
      BareStep(cfg, Run(cfg, t[..|t| - 1]), t[|t| - 1]);
    }
  }

  /** The end of the HEADERS and a cancel leave marks of their own. */
  predicate Pinned(r: Record) {
    Marked(r) || r.head.invalidContentType || r.status.code >= 0
  }

  lemma PinnedStep(cfg: Config, r: Record, e: Event)
    requires Healthy(r)
    ensures Pinned(r) || e == UserCancel || (e.HeadersEnd? && e.cat == Initial) ==> Pinned(Apply(cfg, r, e))
  {
  }

  lemma {:induction false} PinnedStays(cfg: Config, t: seq<Event>, k: nat)
    requires k < |t| && (t[k] == UserCancel || (t[k].HeadersEnd? && t[k].cat == Initial))
    ensures Pinned(Run(cfg, t))
    decreases |t|
  {
    if k < |t| - 1 {
      PinnedStays(cfg, t[..|t| - 1], k);
    }
    PinnedStep(cfg, Run(cfg, t[..|t| - 1]), t[|t| - 1]);
  }

  /** What a history must hold for a response to count as started. */
  predicate Evident(t: seq<Event>) {
    AnyLasting(t) || InitialEnded(t) || UserCancel in t || LastHttp(t) >= 0
  }

  /** On every history HTTP/2 allows, a response counts as started if and only if a lasting field
      was received, the HEADERS were complete, the call was cancelled, or the last :status reads
      as a number that is not negative. */
  lemma StartedExactly(cfg: Config, t: seq<Event>)
    requires BlockFirst(t)
    ensures Started(Run(cfg, t)) <==> Evident(t)
  {
    EvidenceTracksHistory(cfg, t);
    if InitialEnded(t) || UserCancel in t {
      var k :| 0 <= k < |t| && (t[k] == UserCancel || (t[k].HeadersEnd? && t[k].cat == Initial));
      PinnedStays(cfg, t, k);
    } else if !Evident(t) {
      forall i | 0 <= i < |t|
        ensures Faint(t[i])
      {
        assert !InitialEnded(t[..i]) by {
          assert forall j :: 0 <= j < i ==> t[..i][j] == t[j];
        }
      }
      BareWhileFaint(cfg, t);
    }
  }

  lemma EvidentPrefix(t: seq<Event>, k: nat)
    requires k <= |t|
    ensures AnyLasting(t[..k]) ==> AnyLasting(t)
    ensures InitialEnded(t[..k]) ==> InitialEnded(t)
    ensures UserCancel in t[..k] ==> UserCancel in t
    ensures BlockFirst(t) ==> BlockFirst(t[..k])
  {
    assert forall i :: 0 <= i < k ==> t[..k][i] == t[i];
    if i :| 0 <= i < k && Lasting(t[..k][i]) {
      assert Lasting(t[i]);
    }
    if i :| 0 <= i < k && t[..k][i].HeadersEnd? && t[..k][i].cat == Initial {
      assert t[i].HeadersEnd?;
    }
    assert forall i :: 0 <= i < k ==> t[..k][..i] == t[..i];
  }

  /** Exactly when a response that has started no longer counts as started: only a :status was
      received, in HEADERS that are not complete, and a later one reads as negative. */
  lemma StartedStays(cfg: Config, t: seq<Event>, k: nat)
    requires k <= |t| && BlockFirst(t) && Started(Run(cfg, t[..k]))
    ensures !Started(Run(cfg, t)) <==>
            && LastHttp(t) < 0 <= LastHttp(t[..k])
            && !AnyLasting(t) && !InitialEnded(t) && UserCancel !in t
  {
    EvidentPrefix(t, k);
    StartedExactly(cfg, t[..k]);
    StartedExactly(cfg, t);
  }

  /** The :status field HTTP/2 lets through has three digits, and those never read as negative. */
  lemma ThreeDigitsAreLawful(value: string)
    requires |value| == 3 && AllDigits(value)
    ensures HttpCode(value) >= 0
  {
  }

  lemma {:induction false} LawfulHttp(t: seq<Event>, k: nat)
    requires forall i :: 0 <= i < |t| ==> Lawful(t[i])
    requires k < |t| && t[k].HeaderField? && t[k].kind == HttpStatus
    ensures LastHttp(t) >= 0
    decreases |t|
  {
    if k < |t| - 1 {
      LawfulHttp(t[..|t| - 1], k);
    }
  }

  /** On histories HTTP/2 allows, a field received at any time is still evidence at the end, so
      the response stays started. */
  lemma ReceivedFieldIsRemembered(cfg: Config, t: seq<Event>, k: nat)
    requires k < |t| && t[k].HeaderField?
    requires Lasting(t[k]) || forall i :: 0 <= i < |t| ==> Lawful(t[i])
    ensures HeadersSeen(Run(cfg, t)) && Started(Run(cfg, t))
  {
    HeadersSeenExactly(cfg, t);
    if !Lasting(t[k]) {
      LawfulHttp(t, k);
    }
  }

  /** A :status that reads as negative, straight after the first one, undoes its evidence. */
  lemma NegativeStatusUndoes(cfg: Config)
    ensures var first := FieldEvent(Initial, ":status", "200");
            var second := FieldEvent(Initial, ":status", "-1");
            && BlockFirst([first, second]) && [first, second][..1] == [first]
            && Started(Run(cfg, [first])) && !Started(Run(cfg, [first, second]))
  {
    var first := FieldEvent(Initial, ":status", "200");
    var second := FieldEvent(Initial, ":status", "-1");
    var t := [first, second];
    assert t[..1] == [first] && [first][..0] == [];
    ThreeDigitsAreLawful("200");
    ReadsMinusOne();
    StartedExactly(cfg, [first]);
    StartedExactly(cfg, t);
    assert LastHttp([first]) == HttpCode("200") && LastHttp(t) == -1;
  }

  lemma ReadsMinusOne()
    ensures HttpCode("-1") == -1
  {
    assert "-1"[..2] == "-1" && "-1"[1..] == "1" && "1"[1..] == "" && "1"[..0] == "";
    assert LeadingDigits("1") == "1";
  }

  // ------------------------------------------------------- attempt outcome

  datatype Refusal = NotRefused | ByGoaway | ByRstStream

  datatype Outcome = Outcome(retryable: bool, refusal: Refusal, started: bool)

  function RefusalOf(r: Record): Refusal {
    if r.stream.refused then ByGoaway
    else if r.stream.resetSeen && r.stream.errorCode == H2_REFUSED_STREAM then ByRstStream
    else NotRefused
  }

  function OutcomeOf(r: Record, attempt: nat, observed: bool): Outcome {
    var started, refusal := Started(r), RefusalOf(r);
    Outcome(refusal != NotRefused && attempt == 0 && !started && !observed, refusal, started)
  }

  /** The error code the stream reported last. */
  function LastCode(t: seq<Event>): nat {
    if t == [] then H2_NO_ERROR
    else match t[|t| - 1]
      case RstStream(code) => code
      case StreamClosed(code) => code
      case RefusedByGoaway => H2_REFUSED_STREAM
      case _ => LastCode(t[..|t| - 1])
  }

  lemma {:induction false} RefusalTracksHistory(cfg: Config, t: seq<Event>)
    ensures var s := Run(cfg, t).stream;
            && (s.refused <==> RefusedByGoaway in t)
            && (s.resetSeen <==> exists i :: 0 <= i < |t| && t[i].RstStream?)
            && s.errorCode == LastCode(t)
  {
    if t != [] {
      var init, e := t[..|t| - 1], t[|t| - 1];
      RefusalTracksHistory(cfg, init);
      RefusalStep(cfg, Run(cfg, init), e);
      assert t == init + [e];
      assert forall i :: 0 <= i < |init| ==> init[i] == t[i];
    }
  }

  lemma RefusalStep(cfg: Config, r: Record, e: Event)
    requires Healthy(r)
    ensures var s, s' := r.stream, Apply(cfg, r, e).stream;
            && s'.refused == (s.refused || e == RefusedByGoaway)
            && s'.resetSeen == (s.resetSeen || e.RstStream?)
            && s'.errorCode == match e
               case RstStream(code) => code
               case StreamClosed(code) => code
               case RefusedByGoaway => H2_REFUSED_STREAM
               case _ => s.errorCode
  {
    if e.HeaderField? || e.HeadersEnd? || e.Data? {
      StreamPartKept(cfg, r, e);
    }
  }

  lemma StreamPartKept(cfg: Config, r: Record, e: Event)
    requires Healthy(r) && (e.HeaderField? || e.HeadersEnd? || e.Data?)
    ensures Apply(cfg, r, e).stream == r.stream
  {
  }

  /** The peer said it would not process the stream. */
  predicate Refused(t: seq<Event>) {
    RefusedByGoaway in t || ((exists i :: 0 <= i < |t| && t[i].RstStream?) && LastCode(t) == H2_REFUSED_STREAM)
  }

  /** On every history HTTP/2 allows, an attempt is repeated if and only if it was the first, the
      peer refused the stream, there is no evidence of a response and nothing was handed over. */
  lemma RetryExactly(cfg: Config, t: seq<Event>, attempt: nat, observed: bool)
    requires BlockFirst(t)
    ensures OutcomeOf(Run(cfg, t), attempt, observed).retryable <==>
            attempt == 0 && !observed && Refused(t) && !Evident(t)
  {
    RefusalTracksHistory(cfg, t);
    StartedExactly(cfg, t);
  }

  /** An attempt is repeated only if it was the first, the peer refused the stream, no header
      field was ever received on it and nothing was handed to the caller. */
  lemma RetryOnlyIfUnprocessed(cfg: Config, t: seq<Event>, attempt: nat, observed: bool)
    requires forall i :: 0 <= i < |t| ==> Lawful(t[i])
    requires OutcomeOf(Run(cfg, t), attempt, observed).retryable
    ensures attempt == 0 && !observed && Refused(t)
    ensures forall i :: 0 <= i < |t| ==> !t[i].HeaderField?
  {
    RefusalTracksHistory(cfg, t);
    forall i | 0 <= i < |t|
      ensures !t[i].HeaderField?
    {
      if t[i].HeaderField? {
        ReceivedFieldIsRemembered(cfg, t, i);
      }
    }
  }

  // -------------------------------------------------------- metadata accounting

  /** The counters describe the stored entries, and both limits hold. */
  predicate MetadataExact(cfg: Config, m: Metadata) {
    && m.count == |m.entries| <= MAX_METADATA_ENTRIES
    && m.bytes == EntryBytes(m.entries) <= cfg.maxMetadataBytes
  }

  lemma {:induction false} TrailingKeepsBytes(es: seq<Entry>)
    ensures EntryBytes(AllTrailing(es)) == EntryBytes(es)
  {
    if es != [] {
      TrailingKeepsBytes(es[..|es| - 1]);
      var r := AllTrailing(es);
      assert r[..|r| - 1] == AllTrailing(es[..|es| - 1]);
    }
  }

  lemma AddEntryExact(cfg: Config, m: Metadata, name: string, value: string, trailing: bool)
    requires MetadataExact(cfg, m)
    ensures MetadataExact(cfg, AddEntry(m, cfg.maxMetadataBytes, name, value, trailing))
  {
    var es := m.entries + [Entry(name, value, trailing)];
    assert es[..|es| - 1] == m.entries;
  }

  /** An event leaves the metadata alone, flips entries to trailing, or adds one. */
  lemma MetadataStep(cfg: Config, r: Record, e: Event)
    requires Healthy(r)
    ensures var m, m' := r.meta, Apply(cfg, r, e).meta;
            || m' == m
            || m' == m.(entries := AllTrailing(m.entries))
            || (e.HeaderField? && exists trailing :: m' == AddEntry(m, cfg.maxMetadataBytes, e.name, e.value, trailing))
  {
    if e.HeaderField? && e.kind.Stored() && e.kind != GrpcStatus && e.kind != GrpcMessage {
      var trailing := e.cat != Initial || r.status.code >= 0 || e.kind == GrpcDetails;
      assert Apply(cfg, r, e).meta == AddEntry(r.meta, cfg.maxMetadataBytes, e.name, e.value, trailing);
    }
  }

  lemma {:induction false} MetadataAlwaysExact(cfg: Config, t: seq<Event>)
    ensures MetadataExact(cfg, Run(cfg, t).meta)
  {
    if t != [] {
      var r, e := Run(cfg, t[..|t| - 1]), t[|t| - 1];
      MetadataAlwaysExact(cfg, t[..|t| - 1]);
      MetadataStep(cfg, r, e);
      TrailingKeepsBytes(r.meta.entries);
      if e.HeaderField? {
        AddEntryExact(cfg, r.meta, e.name, e.value, true);
        AddEntryExact(cfg, r.meta, e.name, e.value, false);
      }
    }
  }

  /** Stored entries stay, in place and in order; a trailing mark is never taken back. */
  predicate Extends(es: seq<Entry>, later: seq<Entry>) {
    && |es| <= |later|
    && forall i :: 0 <= i < |es| ==>
         later[i].key == es[i].key && later[i].value == es[i].value && (es[i].trailing ==> later[i].trailing)
  }

  lemma {:induction false} EntriesOnlyGrow(cfg: Config, t: seq<Event>, k: nat)
    requires k <= |t|
    ensures Extends(Run(cfg, t[..k]).meta.entries, Run(cfg, t).meta.entries)
    decreases |t|
  {
    if k == |t| {
      assert t[..k] == t;
    } else {
      var init := t[..|t| - 1];
      assert init[..k] == t[..k];
      EntriesOnlyGrow(cfg, init, k);
      MetadataStep(cfg, Run(cfg, init), t[|t| - 1]);
      assert Extends(Run(cfg, init).meta.entries, Run(cfg, t).meta.entries);
    }
  }

  method MarkTrailing(es: seq<Entry>) returns (r: seq<Entry>)
    ensures r == AllTrailing(es)
  {
    r := es;
    for i := 0 to |es|
      invariant |r| == |es|
      invariant forall j :: 0 <= j < i ==> r[j] == es[j].(trailing := true)
      invariant forall j :: i <= j < |es| ==> r[j] == es[j]
    {
      r := r[i := r[i].(trailing := true)];
    }
  }

  /** Gathers the entries of one metadata map. */
  method SelectEntries(es: seq<Entry>, trailing: bool) returns (r: seq<Entry>)
    ensures r == Selected(es, trailing)
  {
    r := [];
    for i := 0 to |es|
      invariant r == Selected(es[..i], trailing)
    {
      assert es[..i + 1][..i] == es[..i];
      if es[i].trailing == trailing {
        r := r + [es[i]];
      }
    }
    assert es[..|es|] == es;
  }

  /** The initial and the trailing map share out the stored entries. */
  lemma {:induction false} MapsPartitionEntries(es: seq<Entry>)
    ensures multiset(Selected(es, false)) + multiset(Selected(es, true)) == multiset(es)
    ensures forall trailing, i :: 0 <= i < |Selected(es, trailing)| ==> Selected(es, trailing)[i].trailing == trailing
  {
    if es != [] {
      MapsPartitionEntries(es[..|es| - 1]);
      assert es == es[..|es| - 1] + [es[|es| - 1]];
    }
  }

  predicate InitialBlock(t: seq<Event>) {
    forall i :: 0 <= i < |t| ==> t[i].HeaderField? && t[i].cat == Initial
  }

  /** In initial headers that carry one readable grpc-status, every entry ends up
      trailing, wherever in the block that field stands. */
  lemma {:induction false} HeadersOnlyResponseIsTrailing(cfg: Config, t: seq<Event>)
    requires InitialBlock(t) && |StatusValues(t)| == 1 && StatusValue(StatusValues(t)[0]) >= 0
    ensures var es := Run(cfg, t).meta.entries;
            forall i :: 0 <= i < |es| ==> es[i].trailing
  {
    var init, e := t[..|t| - 1], t[|t| - 1];
    assert InitialBlock(init);
    if e.kind != GrpcStatus {
      assert UserCancel !in init;
      HeadersOnlyResponseIsTrailing(cfg, init);
      SeenTracksHistory(cfg, init);
    }
    TrailingStep(cfg, Run(cfg, init), e);
  }

  lemma TrailingStep(cfg: Config, r: Record, e: Event)
    requires Healthy(r) && e.HeaderField? && e.cat == Initial
    requires e.kind == GrpcStatus || (r.status.code >= 0 && forall i :: 0 <= i < |r.meta.entries| ==> r.meta.entries[i].trailing)
    ensures var es := Apply(cfg, r, e).meta.entries;
            forall i :: 0 <= i < |es| ==> es[i].trailing
  {
  }
}
