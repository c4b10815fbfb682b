/** The record stream on stdin: bounded line framing and the classification of each record. */
module StreamReader {
  import opened Wrappers
  import opened Manifests

  type Byte = b: int | 0 <= b < 256
  type Bytes = seq<Byte>

  const NEWLINE: Byte := 10

  /** The longest accepted line, its newline included. */
  const MAX_LINE_BYTES: nat := 16 * 1024 * 1024

  // ----- Parsed JSON records

  datatype Num = PosInt(u: U64) | NegInt(i: int) | Fraction(f: Float)

  datatype Value =
    | Null
    | Bool(b: bool)
    | Number(num: Num)
    | String(s: string)
    | Array(items: seq<Value>)
    | Object(members: map<string, Value>)

  /** JSON text and UTF-8 belong to other libraries: `parse` reads one trimmed line. */
  datatype Codec = Codec(
    isUtf8: Bytes -> bool,
    parse: Bytes -> Option<Value>,
    render: Value -> Bytes,
    toFloat: int -> Float)

  function Field(v: Value, name: string): Value {
    if v.Object? && name in v.members then v.members[name] else Null
  }

  function StrOr(v: Value, default: string): string {
    if v.String? then v.s else default
  }

  function U64Of(v: Value): Option<U64> {
    if v.Number? && v.num.PosInt? then Some(v.num.u) else None
  }

  function I64Of(v: Value): Option<int> {
    if v.Number? && v.num.PosInt? && v.num.u < 0x8000_0000_0000_0000 then Some(v.num.u)
    else if v.Number? && v.num.NegInt? then Some(v.num.i)
    else None
  }

  function F64Or(c: Codec, v: Value, default: Float): Float {
    if !v.Number? then default
    else match v.num
      case PosInt(u) => c.toFloat(u)
      case NegInt(i) => c.toFloat(i)
      case Fraction(f) => f
  }

  function Or<T>(o: Option<T>, default: T): T {
    if o.Some? then o.value else default
  }

  /** `as u32`, `as u16` and `as i32` keep the low bits. */
  function AsU32(n: nat): U32 {
    n % 0x1_0000_0000
  }

  function AsU16(n: nat): nat {
    n % 0x1_0000
  }

  function AsI32(n: int): I32 {
    (n + 0x8000_0000) % 0x1_0000_0000 - 0x8000_0000
  }

  // ----- Events

  datatype HeaderInfo = HeaderInfo(
    sessionId: string,
    user: string,
    host: string,
    bootId: string,
    part: U32,
    started: Float,
    epitroposVersion: string,
    epitroposCommit: string,
    auditSessionId: Option<U32>,
    raw: Value)

  datatype Event =
    | Header(info: HeaderInfo)
    | Out(t: Float)
    | In(t: Float)
    | Resize(t: Float, cols: nat, rows: nat)
    | ChunkEvent(chunk: Chunk)
    | End(t: Float, reason: string, exitCode: I32)
    | Unknown(kind: string)

  datatype StreamError = ReadFailed | LineTooLong | ParseFailed | MissingKind | SecondHeader | NoHeader | SynthHeader

  const ZERO: Float := Finite("0.0")

  function HeaderOf(c: Codec, v: Value): HeaderInfo {
    var audit := U64Of(Field(v, "audit_session_id"));
    HeaderInfo(
      StrOr(Field(v, "session_id"), ""),
      StrOr(Field(v, "user"), ""),
      StrOr(Field(v, "host"), ""),
      StrOr(Field(v, "boot_id"), ""),
      AsU32(Or(U64Of(Field(v, "part")), 0)),
      F64Or(c, Field(v, "started"), ZERO),
      StrOr(Field(v, "epitropos_version"), ""),
      StrOr(Field(v, "epitropos_commit"), ""),
      if audit.Some? then Some(AsU32(audit.value)) else None,
      v)
  }

  function ChunkOf(c: Codec, v: Value): Chunk {
    Chunk(
      Or(U64Of(Field(v, "seq")), 0),
      Or(U64Of(Field(v, "bytes")), 0),
      Or(U64Of(Field(v, "messages")), 0),
      F64Or(c, Field(v, "elapsed"), ZERO),
      StrOr(Field(v, "sha256"), ""))
  }

  function EndOf(c: Codec, v: Value): Event {
    End(F64Or(c, Field(v, "t"), ZERO), StrOr(Field(v, "reason"), "eof"), AsI32(Or(I64Of(Field(v, "exit_code")), 0)))
  }

  /** A record of a kind this build does not know is an event, not an error. */
  function Classify(c: Codec, v: Value): Result<Event, StreamError> {
    var kind := Field(v, "kind");
    var t := F64Or(c, Field(v, "t"), ZERO);
    if !kind.String? then Err(MissingKind)
    else if kind.s == "header" then Ok(Header(HeaderOf(c, v)))
    else if kind.s == "out" then Ok(Out(t))
    else if kind.s == "in" then Ok(In(t))
    else if kind.s == "resize" then
      Ok(Resize(t, AsU16(Or(U64Of(Field(v, "cols")), 80)), AsU16(Or(U64Of(Field(v, "rows")), 24))))
    else if kind.s == "chunk" then Ok(ChunkEvent(ChunkOf(c, v)))
    else if kind.s == "end" then Ok(EndOf(c, v))
    else Ok(Unknown(kind.s))
  }

  /** A chunk as the proxy writes it. */
  function ChunkRecord(k: Chunk): Value {
    Object(map["kind" := String("chunk"), "seq" := Number(PosInt(k.seqNo)), "bytes" := Number(PosInt(k.bytes)),
               "messages" := Number(PosInt(k.messages)), "elapsed" := Number(Fraction(k.elapsed)),
               "sha256" := String(k.sha256)])
  }

  function IntNumber(n: int): Num {
    if 0 <= n < 0x1_0000_0000_0000_0000 then PosInt(n) else NegInt(n)
  }

  /** The end of a session as the proxy writes it. */
  function EndRecord(t: Float, reason: string, exitCode: I32): Value {
    Object(map["kind" := String("end"), "t" := Number(Fraction(t)), "reason" := String(reason),
               "exit_code" := Number(IntNumber(exitCode))])
  }

  lemma LowBitsKeep(n: I32, u: U32)
    ensures AsI32(n) == n && AsU32(u) == u
  {}

  lemma KindDecides(c: Codec, v: Value)
    ensures Field(v, "kind") == String("chunk") ==> Classify(c, v) == Ok(ChunkEvent(ChunkOf(c, v)))
    ensures Field(v, "kind") == String("end") ==> Classify(c, v) == Ok(EndOf(c, v))
  {}

  lemma ChunkFieldsRead(k: Chunk)
    ensures var v := ChunkRecord(k);
      && Field(v, "kind") == String("chunk") && Field(v, "seq") == Number(PosInt(k.seqNo))
      && Field(v, "bytes") == Number(PosInt(k.bytes)) && Field(v, "messages") == Number(PosInt(k.messages))
      && Field(v, "elapsed") == Number(Fraction(k.elapsed)) && Field(v, "sha256") == String(k.sha256)
  {}

  lemma ChunkOfFields(c: Codec, v: Value, k: Chunk)
    requires Field(v, "seq") == Number(PosInt(k.seqNo)) && Field(v, "bytes") == Number(PosInt(k.bytes))
    requires Field(v, "messages") == Number(PosInt(k.messages)) && Field(v, "sha256") == String(k.sha256)
    requires Field(v, "elapsed") == Number(Fraction(k.elapsed))
    ensures ChunkOf(c, v) == k
  {}

  /** A chunk record is read back as the chunk it reports. */
  lemma ChunkReadsBack(c: Codec, k: Chunk)
    ensures Classify(c, ChunkRecord(k)) == Ok(ChunkEvent(k))
  {
    var v := ChunkRecord(k);
    ChunkFieldsRead(k);
    ChunkOfFields(c, v, k);
    KindDecides(c, v);
  }

  /** An end record is read back with its reason and exit code. */
  lemma EndReadsBack(c: Codec, t: Float, reason: string, exitCode: I32)
    ensures Classify(c, EndRecord(t, reason, exitCode)) == Ok(End(t, reason, exitCode))
  {
    var v := EndRecord(t, reason, exitCode);
    KindDecides(c, v);
    assert Field(v, "reason") == String(reason) && Field(v, "exit_code") == Number(IntNumber(exitCode));
    LowBitsKeep(exitCode, 0);
  }

  // ----- Every kind of record, member by member

  predicate Has(v: Value, name: string, w: Value) {
    v.Object? && name in v.members && v.members[name] == w
  }

  /** `v` has all the members of this record, and maybe others. */
  predicate Extends(v: Value, record: Value) {
    record.Object? && forall name :: name in record.members ==> Has(v, name, record.members[name])
  }

  /** A header as the proxy writes it. */
  function HeaderRecord(h: HeaderInfo): Value {
    Object(map["kind" := String("header"), "session_id" := String(h.sessionId), "user" := String(h.user),
               "host" := String(h.host), "boot_id" := String(h.bootId), "part" := Number(PosInt(h.part)),
               "started" := Number(Fraction(h.started)), "epitropos_version" := String(h.epitroposVersion),
               "epitropos_commit" := String(h.epitroposCommit),
               "audit_session_id" := if h.auditSessionId.Some? then Number(PosInt(h.auditSessionId.value)) else Null])
  }

  /** Output or input at a time. */
  function TimedRecord(kind: string, t: Float): Value {
    Object(map["kind" := String(kind), "t" := Number(Fraction(t))])
  }

  function ResizeRecord(t: Float, cols: U64, rows: U64): Value {
    Object(map["kind" := String("resize"), "t" := Number(Fraction(t)), "cols" := Number(PosInt(cols)),
               "rows" := Number(PosInt(rows))])
  }

  function BareRecord(kind: string): Value {
    Object(map["kind" := String(kind)])
  }

  lemma HasField(v: Value, name: string, w: Value)
    requires Has(v, name, w)
    ensures Field(v, name) == w
  {}

  /** A header record gives its nine fields, each from the member of that name, and keeps the record itself. */
  lemma HeaderReadsBack(c: Codec, v: Value, h: HeaderInfo)
    requires Extends(v, HeaderRecord(h))
    ensures Classify(c, v) == Ok(Header(h.(raw := v)))
  {
    HeaderMembers(v, h);
    HeaderTexts(c, v, h);
    HeaderNumbers(c, v, h);
  }

  lemma HeaderMembers(v: Value, h: HeaderInfo)
    requires Extends(v, HeaderRecord(h))
    ensures Field(v, "kind") == String("header") && Field(v, "session_id") == String(h.sessionId)
    ensures Field(v, "user") == String(h.user) && Field(v, "host") == String(h.host)
    ensures Field(v, "boot_id") == String(h.bootId) && Field(v, "part") == Number(PosInt(h.part))
    ensures Field(v, "started") == Number(Fraction(h.started))
    ensures Field(v, "epitropos_version") == String(h.epitroposVersion)
    ensures Field(v, "epitropos_commit") == String(h.epitroposCommit)
    ensures Field(v, "audit_session_id")
      == if h.auditSessionId.Some? then Number(PosInt(h.auditSessionId.value)) else Null
  {
    var m := HeaderRecord(h).members;
    assert "kind" in m && "session_id" in m && "user" in m && "host" in m && "boot_id" in m && "part" in m;
    assert "started" in m && "epitropos_version" in m && "epitropos_commit" in m && "audit_session_id" in m;
  }

  lemma HeaderTexts(c: Codec, v: Value, h: HeaderInfo)
    requires Field(v, "session_id") == String(h.sessionId) && Field(v, "user") == String(h.user)
    requires Field(v, "host") == String(h.host) && Field(v, "boot_id") == String(h.bootId)
    requires Field(v, "epitropos_version") == String(h.epitroposVersion)
    requires Field(v, "epitropos_commit") == String(h.epitroposCommit)
    ensures var g := HeaderOf(c, v);
      && g.sessionId == h.sessionId && g.user == h.user && g.host == h.host && g.bootId == h.bootId
      && g.epitroposVersion == h.epitroposVersion && g.epitroposCommit == h.epitroposCommit && g.raw == v
  {}

  lemma HeaderNumbers(c: Codec, v: Value, h: HeaderInfo)
    requires Field(v, "part") == Number(PosInt(h.part)) && Field(v, "started") == Number(Fraction(h.started))
    requires Field(v, "audit_session_id")
      == if h.auditSessionId.Some? then Number(PosInt(h.auditSessionId.value)) else Null
    ensures var g := HeaderOf(c, v);
      g.part == h.part && g.started == h.started && g.auditSessionId == h.auditSessionId
  {
    LowBitsKeep(0, h.part);
    if h.auditSessionId.Some? {
      LowBitsKeep(0, h.auditSessionId.value);
    }
  }

  lemma TimedKinds(c: Codec, v: Value, t: Float)
    requires Field(v, "t") == Number(Fraction(t))
    ensures Field(v, "kind") == String("out") ==> Classify(c, v) == Ok(Out(t))
    ensures Field(v, "kind") == String("in") ==> Classify(c, v) == Ok(In(t))
  {}

  lemma ResizeKind(c: Codec, v: Value, t: Float, cols: U64, rows: U64)
    requires Field(v, "kind") == String("resize") && Field(v, "t") == Number(Fraction(t))
    requires Field(v, "cols") == Number(PosInt(cols)) && Field(v, "rows") == Number(PosInt(rows))
    ensures Classify(c, v) == Ok(Resize(t, cols % 65536, rows % 65536))
  {}

  /** An output or input record gives its time. */
  lemma TimedReadsBack(c: Codec, v: Value, t: Float)
    ensures Extends(v, TimedRecord("out", t)) ==> Classify(c, v) == Ok(Out(t))
    ensures Extends(v, TimedRecord("in", t)) ==> Classify(c, v) == Ok(In(t))
  {
    var outs, ins := TimedRecord("out", t).members, TimedRecord("in", t).members;
    assert "kind" in outs && "t" in outs && "kind" in ins && "t" in ins;
    if Extends(v, TimedRecord("out", t)) || Extends(v, TimedRecord("in", t)) {
      TimedKinds(c, v, t);
    }
  }

  /** A resize record gives its time, columns and rows, of which 16 bits are kept. */
  lemma ResizeReadsBack(c: Codec, v: Value, t: Float, cols: U64, rows: U64)
    requires Extends(v, ResizeRecord(t, cols, rows))
    ensures Classify(c, v) == Ok(Resize(t, cols % 65536, rows % 65536))
  {
    var m := ResizeRecord(t, cols, rows).members;
    assert "kind" in m && "t" in m && "cols" in m && "rows" in m;
    ResizeKind(c, v, t, cols, rows);
  }

  /** A record of a kind this build does not know is an event, and never an error. */
  lemma UnknownKinds(c: Codec, v: Value, kind: string)
    requires Has(v, "kind", String(kind)) && kind !in {"header", "out", "in", "resize", "chunk", "end"}
    ensures Classify(c, v) == Ok(Unknown(kind))
  {
    HasField(v, "kind", String(kind));
  }

  predicate HasKind(v: Value) {
    v.Object? && "kind" in v.members && v.members["kind"].String?
  }

  /** Only a kind that is missing, or is no text, is an error. */
  lemma OnlyKindMatters(c: Codec, v: Value)
    ensures Classify(c, v).Err? <==> !HasKind(v)
    ensures Classify(c, v).Err? ==> Classify(c, v) == Err(MissingKind)
  {}

  lemma BareFields(kind: string, name: string)
    ensures Field(BareRecord(kind), name) == if name == "kind" then String(kind) else Null
  {}

  lemma HeaderDefaults(c: Codec, v: Value)
    requires Field(v, "kind") == String("header")
    requires forall name {:trigger Field(v, name)} :: name != "kind" ==> Field(v, name) == Null
    ensures Classify(c, v) == Ok(Header(HeaderInfo("", "", "", "", 0, Finite("0.0"), "", "", None, v)))
  {}

  lemma TimeDefaults(c: Codec, v: Value)
    requires forall name {:trigger Field(v, name)} :: name != "kind" ==> Field(v, name) == Null
    ensures Field(v, "kind") == String("out") ==> Classify(c, v) == Ok(Out(Finite("0.0")))
    ensures Field(v, "kind") == String("in") ==> Classify(c, v) == Ok(In(Finite("0.0")))
    ensures Field(v, "kind") == String("resize") ==> Classify(c, v) == Ok(Resize(Finite("0.0"), 80, 24))
  {}

  lemma LastDefaults(c: Codec, v: Value)
    requires forall name {:trigger Field(v, name)} :: name != "kind" ==> Field(v, name) == Null
    ensures Field(v, "kind") == String("chunk") ==> Classify(c, v) == Ok(ChunkEvent(Chunk(0, 0, 0, Finite("0.0"), "")))
    ensures Field(v, "kind") == String("end") ==> Classify(c, v) == Ok(End(Finite("0.0"), "eof", 0))
  {
    KindDecides(c, v);
  }

  /** Members that are missing read as empty, zero, 80 columns, 24 rows, `eof`. */
  lemma MissingMembers(c: Codec, kind: string)
    ensures var v := BareRecord(kind);
      && (kind == "header" ==>
           Classify(c, v) == Ok(Header(HeaderInfo("", "", "", "", 0, Finite("0.0"), "", "", None, v))))
      && (kind == "out" ==> Classify(c, v) == Ok(Out(Finite("0.0"))))
      && (kind == "in" ==> Classify(c, v) == Ok(In(Finite("0.0"))))
      && (kind == "resize" ==> Classify(c, v) == Ok(Resize(Finite("0.0"), 80, 24)))
      && (kind == "chunk" ==> Classify(c, v) == Ok(ChunkEvent(Chunk(0, 0, 0, Finite("0.0"), ""))))
      && (kind == "end" ==> Classify(c, v) == Ok(End(Finite("0.0"), "eof", 0)))
  {
    var v := BareRecord(kind);
    forall name ensures Field(v, name) == if name == "kind" then String(kind) else Null {
      BareFields(kind, name);
    }
    if kind == "header" {
      HeaderDefaults(c, v);
    }
    TimeDefaults(c, v);
    LastDefaults(c, v);
  }

  /** What the `as` casts keep: the number itself, up to a multiple of the type's range. */
  lemma CastsKeepLowBits(n: int, u: nat)
    ensures -0x8000_0000 <= AsI32(n) < 0x8000_0000 && (n - AsI32(n)) % 0x1_0000_0000 == 0
    ensures 0 <= AsU32(u) < 0x1_0000_0000 && (u - AsU32(u)) % 0x1_0000_0000 == 0
  {}

  /** A member of another type than its field's reads like a missing one; integers also read as floats. */
  lemma WrongTypes(c: Codec, v: Value, default: string, zero: Float)
    ensures !v.String? ==> StrOr(v, default) == default
    ensures U64Of(v).Some? <==> v.Number? && v.num.PosInt?
    ensures I64Of(v).Some? <==> v.Number? && (v.num.NegInt? || (v.num.PosInt? && v.num.u < 0x8000_0000_0000_0000))
    ensures !v.Number? ==> F64Or(c, v, zero) == zero
    ensures v.Number? && v.num.PosInt? ==> F64Or(c, v, zero) == c.toFloat(v.num.u)
    ensures v.Number? && v.num.NegInt? ==> F64Or(c, v, zero) == c.toFloat(v.num.i)
  {}

  /** Why a line fails to give an event: not UTF-8, not JSON, or without a kind. */
  lemma LineErrors(c: Codec, raw: Bytes)
    ensures var r := ReadRecord(c, raw);
      && (r == Err(ReadFailed) <==> !c.isUtf8(raw))
      && (r == Err(ParseFailed) <==> c.isUtf8(raw) && c.parse(raw).None?)
      && (r == Err(MissingKind) <==> c.isUtf8(raw) && c.parse(raw).Some? && !HasKind(c.parse(raw).value))
      && (r.Err? ==> r.error in {ReadFailed, ParseFailed, MissingKind})
  {
    if c.isUtf8(raw) && c.parse(raw).Some? {
      OnlyKindMatters(c, c.parse(raw).value);
    }
  }

  // ----- One record at a time

  function NewlineAt(s: Bytes): (k: nat)
    ensures k <= |s| && NEWLINE !in s[..k] && (k < |s| ==> s[k] == NEWLINE)
  {
    if s == [] || s[0] == NEWLINE then 0
    else
      var k := 1 + NewlineAt(s[1..]);
      assert s[..k] == [s[0]] + s[1..][..k - 1];
      k
  }

  /** How much one bounded `read_line` takes: up to a newline, never more than one byte over the cap. */
  function Taken(input: Bytes): (n: nat)
    ensures n <= |input| && n <= MAX_LINE_BYTES + 1
  {
    var k := NewlineAt(input);
    var whole := if k < |input| then k + 1 else k;
    if whole <= MAX_LINE_BYTES + 1 then whole else MAX_LINE_BYTES + 1
  }

  /** One line as an event: its UTF-8, its JSON, then its kind. */
  function ReadRecord(c: Codec, raw: Bytes): Result<Event, StreamError> {
    if !c.isUtf8(raw) then Err(ReadFailed)
    else match c.parse(raw)
      case None => Err(ParseFailed)
      case Some(v) => Classify(c, v)
  }

  /** How a line becomes an event. The framing holds for every such function, `ReadRecord` of a codec among them. */
  type LineReader = Bytes -> Result<Event, StreamError>

  function CodecReader(c: Codec): LineReader {
    (raw: Bytes) => ReadRecord(c, raw)
  }

  datatype Next = EndOfInput | Failed(error: StreamError) | Got(event: Event, raw: Bytes, rest: Bytes)

  function NextRecord(read: LineReader, input: Bytes): Next {
    var n := Taken(input);
    if n == 0 then EndOfInput
    else if n > MAX_LINE_BYTES then Failed(LineTooLong)
    else match read(input[..n])
      case Err(e) => Failed(e)
      case Ok(event) => Got(event, input[..n], input[n..])
  }

  /** `raw` is one whole line of the input, within the cap. */
  predicate WholeLine(raw: Bytes, rest: Bytes) {
    && 0 < |raw| <= MAX_LINE_BYTES
    && NEWLINE !in raw[..|raw| - 1]
    && (raw[|raw| - 1] == NEWLINE || rest == [])
  }

  /** A record is cut from the front of the input, at a line boundary, and nothing is dropped. */
  lemma RecordIsWholeLine(read: LineReader, input: Bytes)
    requires NextRecord(read, input).Got?
    ensures var got := NextRecord(read, input);
      input == got.raw + got.rest && WholeLine(got.raw, got.rest) && |got.rest| < |input|
  {
    var k, n := NewlineAt(input), Taken(input);
    assert input[..n][..n - 1] == input[..n - 1];
    assert n - 1 <= k;
    assert forall i :: 0 <= i < n - 1 ==> input[i] == input[..k][i];
  }

  /** A whole line of up to 16 MiB, its newline included, is read, if it gives an event; a longer one never. */
  lemma LinesAreRead(read: LineReader, raw: Bytes, rest: Bytes)
    requires raw != [] && NEWLINE !in raw[..|raw| - 1] && (raw[|raw| - 1] == NEWLINE || rest == [])
    ensures |raw| <= 16777216 && read(raw).Ok? ==> NextRecord(read, raw + rest) == Got(read(raw).value, raw, rest)
    ensures |raw| <= 16777216 && read(raw).Err? ==> NextRecord(read, raw + rest) == Failed(read(raw).error)
    ensures |raw| > 16777216 ==> NextRecord(read, raw + rest) == Failed(LineTooLong)
    ensures NextRecord(read, []) == EndOfInput
  {
    LineTaken(raw, rest);
    assert (raw + rest)[..|raw|] == raw && (raw + rest)[|raw|..] == rest;
  }

  lemma LineTaken(raw: Bytes, rest: Bytes)
    requires raw != [] && NEWLINE !in raw[..|raw| - 1] && (raw[|raw| - 1] == NEWLINE || rest == [])
    ensures Taken(raw + rest) == if |raw| <= MAX_LINE_BYTES then |raw| else MAX_LINE_BYTES + 1
  {
    var s, n := raw + rest, |raw| - 1;
    var k := NewlineAt(s);
    forall i | 0 <= i < n ensures s[i] != NEWLINE {
      assert s[i] == raw[..n][i];
    }
    forall i | 0 <= i < k ensures s[i] != NEWLINE {
      assert s[i] == s[..k][i];
    }
    assert s[n] == raw[n] && (raw[n] != NEWLINE ==> s == raw);
  }

  /** Everything that will be read from an input, up to its end or the first record that fails. */
  datatype Records = EndRecords | BadRecord(error: StreamError) | Record(event: Event, raw: Bytes, more: Records)

  function RecordsOf(read: LineReader, input: Bytes): Records
    decreases |input|
  {
    match NextRecord(read, input)
    case EndOfInput => EndRecords
    case Failed(e) => BadRecord(e)
    case Got(event, raw, rest) =>
      RecordIsWholeLine(read, input);
      Record(event, raw, RecordsOf(read, rest))
  }

  function Count(rs: Records): nat {
    if rs.Record? then 1 + Count(rs.more) else 0
  }

  /** The raw bytes of the first `k` records. */
  function RawPrefix(rs: Records, k: nat): Bytes {
    if k == 0 || !rs.Record? then [] else rs.raw + RawPrefix(rs.more, k - 1)
  }

  /** The chunk records among the first `k`. */
  function ChunkPrefix(rs: Records, k: nat): seq<Chunk> {
    if k == 0 || !rs.Record? then []
    else (if rs.event.ChunkEvent? then [rs.event.chunk] else []) + ChunkPrefix(rs.more, k - 1)
  }

  function Drop(rs: Records, k: nat): Records {
    if k == 0 || !rs.Record? then rs else Drop(rs.more, k - 1)
  }

  predicate WithinCap(rs: Records) {
    rs.Record? ==> 0 < |rs.raw| <= MAX_LINE_BYTES && WithinCap(rs.more)
  }

  /** The records of `input`, and where the second of them starts. */
  lemma FirstOfRecords(read: LineReader, input: Bytes, rs: Records) returns (rest: Bytes)
    requires rs == RecordsOf(read, input) && rs.Record?
    ensures input == rs.raw + rest && rs.more == RecordsOf(read, rest)
  {
    RecordIsWholeLine(read, input);
    rest := NextRecord(read, input).rest;
  }

  lemma OneMoreRecord(input: Bytes, rs: Records, k: nat, behind: Bytes, rest: Bytes)
    requires rs.Record? && k > 0 && input == rs.raw + behind && behind == RawPrefix(rs.more, k - 1) + rest
    ensures input == RawPrefix(rs, k) + rest && Drop(rs, k) == Drop(rs.more, k - 1)
  {}

  lemma {:induction false} RecordsSplit(read: LineReader, input: Bytes, rs: Records, k: nat) returns (rest: Bytes)
    requires rs == RecordsOf(read, input) && k <= Count(rs)
    ensures input == RawPrefix(rs, k) + rest && RecordsOf(read, rest) == Drop(rs, k)
    decreases k
  {
    if k == 0 {
      rest := input;
    } else {
      var behind := FirstOfRecords(read, input, rs);
      rest := RecordsSplit(read, behind, rs.more, k - 1);
      OneMoreRecord(input, rs, k, behind, rest);
    }
  }

  /** The records read so far are a prefix of the input, byte for byte, and the rest is still to be read. */
  lemma PrefixOfInput(read: LineReader, input: Bytes, k: nat)
    requires k <= Count(RecordsOf(read, input))
    ensures var rs := RecordsOf(read, input);
      && RawPrefix(rs, k) <= input
      && RecordsOf(read, input[|RawPrefix(rs, k)|..]) == Drop(rs, k)
  {
    var rest := RecordsSplit(read, input, RecordsOf(read, input), k);
    assert input[|RawPrefix(RecordsOf(read, input), k)|..] == rest;
  }

  lemma {:induction false} RecordsWithinCap(read: LineReader, input: Bytes)
    ensures WithinCap(RecordsOf(read, input))
    decreases |input|
  {
    if NextRecord(read, input).Got? {
      RecordIsWholeLine(read, input);
      RecordsWithinCap(read, NextRecord(read, input).rest);
    }
  }

  class Reader {
    const read: LineReader
    var inner: Bytes
    var lineBuf: Bytes
    var bytesRead: nat

    constructor (read: LineReader, input: Bytes)
      ensures this.read == read && inner == input && bytesRead == 0
    {
      this.read := read;
      inner, lineBuf, bytesRead := input, [], 0;
    }

    /** Everything this reader will still return. */
    ghost function Pending(): Records
      reads this
    {
      RecordsOf(read, inner)
    }

    /** The next event with its raw bytes, or nothing at the end of the input. */
    method NextEvent() returns (r: Result<Option<(Event, Bytes)>, StreamError>)
      modifies this
      ensures match old(Pending())
        case EndRecords => r == Ok(None) && Pending() == old(Pending())
        case BadRecord(e) => r == Err(e)
        case Record(event, raw, more) => r == Ok(Some((event, raw))) && Pending() == more
      ensures r.Ok? && r.value.Some? ==> var raw := r.value.value.1;
        old(inner) == raw + inner && WholeLine(raw, inner) && bytesRead == old(bytesRead) + |raw|
    {
      if NextRecord(read, inner).Got? {
        RecordIsWholeLine(read, inner);
      }
      lineBuf := [];
      var n := Taken(inner);
      lineBuf := inner[..n];
      inner := inner[n..];
      if n == 0 {
        return Ok(None);
      }
      if |lineBuf| > MAX_LINE_BYTES {
        return Err(LineTooLong);
      }
      bytesRead := bytesRead + n;
      var event := read(lineBuf);
      if event.Err? {
        return Err(event.error);
      }
      return Ok(Some((event.value, lineBuf)));
    }
  }
}
