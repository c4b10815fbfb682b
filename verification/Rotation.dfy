/** Splitting one session into parts: the per-record loop, the per-part loop and their limits. */
module Rotation {
  import opened Wrappers
  import opened Manifests
  import opened StreamReader

  const MAX_FILE_SIZE: nat := 512 * 1024 * 1024
  const MIN_PART_BYTES: nat := 1024 * 1024

  datatype PartNext = EndOfStream | Rotated | SessionSizeLimit

  datatype RunError = BadLimits | NameTaken(name: string) | Stream(e: StreamError)

  /**
   What one session runs with. `stop(n)` is the shutdown flag as read after the session's n-th record, and
   `manifest(n)` the hash of part n's manifest, if it was written.
   */
  datatype Env = Env(
    codec: Codec,
    stop: nat -> bool,
    manifest: nat -> Option<string>,
    maxFileBytes: U64,
    maxSessionBytes: U64,
    sessionId: string,
    suffix: string)

  /** The limit checks made before the first part. */
  predicate LimitsAccepted(env: Env) {
    MIN_PART_BYTES <= env.maxFileBytes <= MAX_FILE_SIZE && env.maxFileBytes <= env.maxSessionBytes
  }

  // ----- One part

  datatype LoopState = LoopState(
    written: Bytes,
    partBytes: nat,
    sessionBytes: nat,
    header: Option<HeaderInfo>,
    chunks: seq<Chunk>,
    endReason: string,
    exitCode: I32,
    next: PartNext,
    read: nat)

  /** Where a part's loop stopped, and what is still unread. */
  datatype Stopped = Stopped(state: LoopState, rest: Records)

  /** The state before the first record: a synthetic header, if any, has been written. */
  function Begin(env: Env, read: nat, sessionBytes: nat, synth: Option<Bytes>): Result<LoopState, RunError> {
    match synth
    case None => Ok(LoopState([], 0, sessionBytes, None, [], "eof", 0, EndOfStream, read))
    case Some(bytes) =>
      match if env.codec.isUtf8(bytes) then env.codec.parse(bytes) else None
      case None => Err(Stream(StreamError.SynthHeader))
      case Some(v) =>
        Ok(LoopState(bytes, |bytes|, sessionBytes + |bytes|, Some(HeaderOf(env.codec, v)), [], "eof", 0,
                     EndOfStream, read))
  }

  /** What one record does to the state, before any limit is looked at. */
  function Absorb(st: LoopState, event: Event, raw: Bytes): Result<LoopState, RunError> {
    if event.Header? && st.header.Some? then Err(Stream(SecondHeader))
    else Ok(LoopState(
      st.written + raw,
      st.partBytes + |raw|,
      st.sessionBytes + |raw|,
      if event.Header? then Some(event.info) else st.header,
      if event.ChunkEvent? then st.chunks + [event.chunk] else st.chunks,
      if event.End? then event.reason else st.endReason,
      if event.End? then event.exitCode else st.exitCode,
      st.next,
      st.read + 1))
  }

  /** Whether the loop stops after a record, and in which state. The flag is looked at before the limits. */
  function Halt(env: Env, now: LoopState, event: Event): Option<LoopState> {
    if event.End? then Some(now)
    else if env.stop(now.read) then Some(now.(endReason := "signal"))
    else if now.sessionBytes >= env.maxSessionBytes then
      Some(now.(endReason := "session_size_limit", next := SessionSizeLimit))
    else if now.partBytes >= env.maxFileBytes then Some(now.(endReason := "rotated", next := Rotated))
    else None
  }

  function Loop(env: Env, st: LoopState, rs: Records): Result<Stopped, RunError>
    decreases rs
  {
    match rs
    case EndRecords => Ok(Stopped(st, rs))
    case BadRecord(e) => Err(Stream(e))
    case Record(event, raw, more) =>
      match Absorb(st, event, raw)
      case Err(e) => Err(e)
      case Ok(now) =>
        match Halt(env, now, event)
        case Some(last) => Ok(Stopped(last, more))
        case None => Loop(env, now, more)
  }

  lemma LoopAbsorbs(env: Env, st: LoopState, rs: Records, absorbed: Result<LoopState, RunError>, now: LoopState)
    requires rs.Record? && absorbed == Absorb(st, rs.event, rs.raw) && absorbed.Ok?
    requires absorbed.value.written == now.written
    requires absorbed.value.partBytes == now.partBytes && absorbed.value.sessionBytes == now.sessionBytes
    requires absorbed.value.header == now.header
    requires absorbed.value.chunks == now.chunks
    requires absorbed.value.endReason == now.endReason
    requires absorbed.value.exitCode == now.exitCode
    requires absorbed.value.next == now.next && absorbed.value.read == now.read
    ensures var halt := Halt(env, now, rs.event);
      Loop(env, st, rs) == if halt.Some? then Ok(Stopped(halt.value, rs.more)) else Loop(env, now, rs.more)
  {
    assert absorbed.value == now;
  }

  /** The loop of `run_part_loop`, with the source's mutable state as local variables. */
  method RecordLoop(env: Env, reader: Reader, start: LoopState) returns (r: Result<LoopState, RunError>)
    requires start.next == EndOfStream
    modifies reader
    ensures Loop(env, start, old(reader.Pending()))
      == if r.Ok? then Ok(Stopped(r.value, reader.Pending())) else Err(r.error)
  {
    var written := start.written;
    var partBytes: nat, total: nat, count: nat := start.partBytes, start.sessionBytes, start.read;
    var header, chunks, endReason, exitCode, next :=
      start.header, start.chunks, start.endReason, start.exitCode, start.next;
    ghost var st, rs := start, reader.Pending();
    ghost var goal := Loop(env, start, rs);
    while true
      invariant st == LoopState(written, partBytes, total, header, chunks, endReason, exitCode, next, count)
      invariant Loop(env, st, rs) == goal && next == EndOfStream && rs == reader.Pending()
      decreases |reader.inner|
    {
      var got := reader.NextEvent();
      if got.Err? {
        return Err(Stream(got.error));
      }
      if got.value.None? {
        break;
      }
      var (event, raw) := got.value.value;
      assert rs.Record? && rs.event == event && rs.raw == raw;
      ghost var absorbed := Absorb(st, event, raw);
      count := count + 1;
      written := written + raw;
      partBytes := partBytes + |raw|;
      total := total + |raw|;
      match event {
        case Header(info) =>
          if header.Some? {
            return Err(Stream(SecondHeader));
          }
          header := Some(info);
        case ChunkEvent(chunk) =>
          chunks := chunks + [chunk];
        case End(_, reason, code) =>
          endReason, exitCode := reason, code;
        case _ =>
      }
      ghost var now := LoopState(written, partBytes, total, header, chunks, endReason, exitCode, next, count);
      LoopAbsorbs(env, st, rs, absorbed, now);
      st, rs := now, rs.more;
      if event.End? {
        break;
      }
      if env.stop(count) {
        endReason := "signal";
        break;
      }
      if total >= env.maxSessionBytes {
        endReason, next := "session_size_limit", SessionSizeLimit;
        break;
      }
      if partBytes >= env.maxFileBytes {
        endReason, next := "rotated", Rotated;
        break;
      }
    }
    return Ok(LoopState(written, partBytes, total, header, chunks, endReason, exitCode, next, count));
  }
}
