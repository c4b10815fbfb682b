/** One session as a run of parts: rotation, part headers, and what a whole run conserves. */
module Session {
  import opened Wrappers
  import opened Manifests
  import opened Text
  import opened StreamReader
  import opened Rotation

  datatype Part = Part(
    number: U32,
    name: string,
    synth: Option<Bytes>,
    plaintext: Bytes,
    header: HeaderInfo,
    chunks: seq<Chunk>,
    endReason: string,
    exitCode: I32,
    next: PartNext,
    link: Option<string>)

  /** What the per-part loop carries from one part to the next. */
  datatype Cursor = Cursor(
    number: U32,
    read: nat,
    sessionBytes: nat,
    first: Option<HeaderInfo>,
    link: Option<string>,
    taken: set<string>)

  /** One turn of the per-part loop: where it stood, its header, what was pending, how it ended, what stayed pending. */
  datatype Turn = Turn(c: Cursor, synth: Option<Bytes>, rs: Records, end: LoopState, rest: Records)

  function PartName(env: Env, n: nat): string {
    env.sessionId + ".part" + Text.Decimal(n) + env.suffix
  }

  lemma DecimalTells(a: nat, b: nat)
    ensures Text.Decimal(a) == Text.Decimal(b) ==> a == b
  {
    NumeralOfDecimal(a);
    NumeralOfDecimal(b);
  }

  lemma PartNamesTell(env: Env, a: nat, b: nat)
    ensures PartName(env, a) == PartName(env, b) ==> a == b
  {
    var s, t, before, behind := Text.Decimal(a), Text.Decimal(b), env.sessionId + ".part", env.suffix;
    if before + s + behind == before + t + behind {
      assert |s| == |t|;
      assert s == (before + s + behind)[|before|..|before| + |s|];
      assert t == (before + t + behind)[|before|..|before| + |t|];
      DecimalTells(a, b);
    }
  }

  /** The original header with only its part number and its link to the previous manifest replaced. */
  function WithLink(v: Value, n: U32, link: Option<string>): Value {
    if v.Object? then
      Object(v.members["part" := Number(PosInt(n))]
                      ["prev_manifest_hash_link" := if link.Some? then String(link.value) else Null])
    else v
  }

  lemma LinkedFields(v: Value, n: U32, link: Option<string>)
    requires v.Object?
    ensures forall name {:trigger Field(WithLink(v, n, link), name)} :: name !in {"part", "prev_manifest_hash_link"} ==>
      Field(WithLink(v, n, link), name) == Field(v, name)
    ensures Field(WithLink(v, n, link), "part") == Number(PosInt(n))
    ensures Field(WithLink(v, n, link), "prev_manifest_hash_link") == if link.Some? then String(link.value) else Null
  {}

  lemma SameHeader(c: Codec, v: Value, w: Value, n: U32)
    requires Field(w, "part") == Number(PosInt(n))
    requires forall name {:trigger Field(w, name)} :: name !in {"part", "prev_manifest_hash_link"} ==>
      Field(w, name) == Field(v, name)
    ensures HeaderOf(c, w) == HeaderOf(c, v).(part := n, raw := w)
  {
    LowBitsKeep(0, n);
  }

  /** Read back, such a header differs from the original in its part number and its raw form only. */
  lemma LinkedHeaderReads(c: Codec, v: Value, n: U32, link: Option<string>)
    requires v.Object?
    ensures HeaderOf(c, WithLink(v, n, link)) == HeaderOf(c, v).(part := n, raw := WithLink(v, n, link))
    ensures forall name {:trigger Field(WithLink(v, n, link), name)} :: name !in {"part", "prev_manifest_hash_link"} ==>
      Field(WithLink(v, n, link), name) == Field(v, name)
    ensures Field(WithLink(v, n, link), "prev_manifest_hash_link") == if link.Some? then String(link.value) else Null
  {
    LinkedFields(v, n, link);
    SameHeader(c, v, WithLink(v, n, link), n);
  }

  function SyntheticHeader(env: Env, c: Cursor): Option<Bytes> {
    if c.number == 0 || c.first.None? then None
    else Some(env.codec.render(WithLink(c.first.value.raw, c.number, c.link)) + [NEWLINE])
  }

  function Start(taken: set<string>): Cursor {
    Cursor(0, 0, 0, None, None, taken)
  }

  /** The cursor behind a part that ended by rotation. The part number saturates. */
  function Advance(env: Env, c: Cursor, end: LoopState): Cursor {
    Cursor(
      if c.number == 0xFFFF_FFFF then c.number else c.number + 1,
      end.read,
      end.sessionBytes,
      if c.number == 0 then end.header else c.first,
      env.manifest(c.number),
      c.taken + {PartName(env, c.number)})
  }

  /** One turn of the per-part loop: where it ended, and what is unread. */
  function OnePart(env: Env, c: Cursor, rs: Records): Result<Stopped, RunError> {
    if PartName(env, c.number) in c.taken then Err(NameTaken(PartName(env, c.number)))
    else
      var begun := Begin(env, c.read, c.sessionBytes, SyntheticHeader(env, c));
      if begun.Err? then Err(begun.error)
      else
        var stopped := Loop(env, begun.value, rs);
        if stopped.Ok? && stopped.value.state.header.None? then Err(Stream(NoHeader)) else stopped
  }

  /** The turns of the per-part loop, up to the one that does not rotate. */
  function Run(env: Env, c: Cursor, rs: Records): Result<seq<Turn>, RunError>
    decreases Count(rs)
  {
    var turn := OnePart(env, c, rs);
    if turn.Err? then Err(turn.error)
    else
      OnePartShape(env, c, rs);
      var Stopped(end, rest) := turn.value;
      if !end.next.Rotated? then Ok([Turn(c, SyntheticHeader(env, c), rs, end, rest)])
      else
        var more := Run(env, Advance(env, c, end), rest);
        if more.Err? then more else Ok([Turn(c, SyntheticHeader(env, c), rs, end, rest)] + more.value)
  }

  /** The part a turn has written. */
  function PartOf(env: Env, t: Turn): Part
    requires t.end.header.Some?
  {
    Part(t.c.number, PartName(env, t.c.number), t.synth, t.end.written, t.end.header.value,
         t.end.chunks, t.end.endReason, t.end.exitCode, t.end.next, env.manifest(t.c.number))
  }

  // ----- One turn of the loop

  /** The reason and exit code recorded are those of the last record read, an `end`. */
  predicate EndedBy(end: LoopState, last: Records) {
    last.Record? && last.event.End? && end.endReason == last.event.reason && end.exitCode == last.event.exitCode
  }

  /**
   Why a part may end as it does, and what its manifest says about it. A part that no `end` record closed
   has exit code 0.
   */
  predicate Justified(env: Env, end: LoopState, k: nat, rs: Records) {
    match end.next
    case Rotated =>
      && k > 0 && end.partBytes >= env.maxFileBytes && end.sessionBytes < env.maxSessionBytes
      && GoesOn(env, end.read, Drop(rs, k - 1)) && end.endReason == "rotated" && end.exitCode == 0
    case SessionSizeLimit =>
      && k > 0 && end.sessionBytes >= env.maxSessionBytes
      && GoesOn(env, end.read, Drop(rs, k - 1)) && end.endReason == "session_size_limit" && end.exitCode == 0
    case EndOfStream =>
      || (Drop(rs, k) == EndRecords && end.endReason == "eof" && end.exitCode == 0)
      || (k > 0 && EndedBy(end, Drop(rs, k - 1)))
      || (k > 0 && env.stop(end.read) && end.endReason == "signal" && end.exitCode == 0)
  }

  predicate GoesOn(env: Env, read: nat, record: Records) {
    !env.stop(read) && !(record.Record? && record.event.End?)
  }

  /** The flag was clear after every record but the last, and none of them was an `end`. */
  ghost predicate Undisturbed(env: Env, read: nat, k: nat, rs: Records) {
    forall i: nat {:trigger Drop(rs, i)} :: i + 1 < k ==> GoesOn(env, read + i + 1, Drop(rs, i))
  }

  lemma {:induction false} LoopReads(env: Env, st: LoopState, rs: Records)
    requires Loop(env, st, rs).Ok?
    ensures var Stopped(end, rest) := Loop(env, st, rs).value;
      && st.read <= end.read <= st.read + Count(rs)
      && rest == Drop(rs, end.read - st.read) && Count(rest) == Count(rs) - (end.read - st.read)
    decreases rs
  {
    if rs.Record? {
      var now := Absorb(st, rs.event, rs.raw).value;
      if Halt(env, now, rs.event).None? {
        LoopReads(env, now, rs.more);
      }
    }
  }

  /** A part stores its records verbatim, in order, and nothing else behind its header. */
  lemma {:induction false} LoopStores(env: Env, st: LoopState, rs: Records, k: nat)
    requires Loop(env, st, rs).Ok? && Loop(env, st, rs).value.state.read == st.read + k
    ensures var end := Loop(env, st, rs).value.state;
      && end.written == st.written + RawPrefix(rs, k)
      && end.partBytes == st.partBytes + |RawPrefix(rs, k)|
      && end.sessionBytes == st.sessionBytes + |RawPrefix(rs, k)|
      && end.chunks == st.chunks + ChunkPrefix(rs, k)
    decreases rs
  {
    if rs.Record? {
      var now := Absorb(st, rs.event, rs.raw).value;
      if Halt(env, now, rs.event).None? {
        LoopReads(env, now, rs.more);
        LoopStores(env, now, rs.more, k - 1);
        ConcatAssoc(st.written, rs.raw, RawPrefix(rs.more, k - 1));
        ConcatAssoc(st.chunks, FirstChunk(rs), ChunkPrefix(rs.more, k - 1));
      } else {
        FirstRecord(rs);
      }
    }
  }

  function FirstChunk(rs: Records): seq<Chunk> {
    if rs.Record? && rs.event.ChunkEvent? then [rs.event.chunk] else []
  }

  lemma FirstRecord(rs: Records)
    ensures rs.Record? ==> RawPrefix(rs, 1) == rs.raw && ChunkPrefix(rs, 1) == FirstChunk(rs)
  {}

  /** What a part's loop starts with, and keeps until it stops. */
  predicate Open(st: LoopState) {
    st.next.EndOfStream? && st.endReason == "eof" && st.exitCode == 0
  }

  lemma {:induction false} LoopJustified(env: Env, st: LoopState, rs: Records)
    requires Loop(env, st, rs).Ok? && Open(st)
    ensures var end := Loop(env, st, rs).value.state;
      st.read <= end.read && Justified(env, end, end.read - st.read, rs)
    decreases rs
  {
    if rs.Record? {
      var now := Absorb(st, rs.event, rs.raw).value;
      if Halt(env, now, rs.event).None? {
        LoopJustified(env, now, rs.more);
        var k := Loop(env, now, rs.more).value.state.read - now.read;
        assert Drop(rs, k + 1) == Drop(rs.more, k);
        assert k > 0 ==> Drop(rs, k) == Drop(rs.more, k - 1);
      }
    }
  }

  /** The loop stops at the first record that gives a reason to. */
  lemma {:induction false} LoopUndisturbed(env: Env, st: LoopState, rs: Records)
    requires Loop(env, st, rs).Ok?
    ensures var end := Loop(env, st, rs).value.state;
      st.read <= end.read && Undisturbed(env, st.read, end.read - st.read, rs)
    decreases rs
  {
    if rs.Record? {
      var now := Absorb(st, rs.event, rs.raw).value;
      if Halt(env, now, rs.event).None? {
        LoopUndisturbed(env, now, rs.more);
        var k := Loop(env, now, rs.more).value.state.read - now.read;
        forall i: nat | i + 1 < k + 1 ensures GoesOn(env, st.read + i + 1, Drop(rs, i)) {
          if i > 0 {
            assert Drop(rs, i) == Drop(rs.more, i - 1) && st.read + i + 1 == now.read + (i - 1) + 1;
          }
        }
      }
    }
  }

  function Max(a: int, b: int): int {
    if a > b then a else b
  }

  /** Limits are looked at after every record, so each can be overshot by one record at most. */
  lemma {:induction false} LoopBounded(env: Env, st: LoopState, rs: Records)
    requires Loop(env, st, rs).Ok? && st.next.EndOfStream? && WithinCap(rs)
    ensures var end := Loop(env, st, rs).value.state;
      && end.partBytes <= Max(st.partBytes, env.maxFileBytes - 1) + MAX_LINE_BYTES
      && end.sessionBytes <= Max(st.sessionBytes, env.maxSessionBytes - 1) + MAX_LINE_BYTES
      && WithinCap(Loop(env, st, rs).value.rest)
    decreases rs
  {
    if rs.Record? {
      var now := Absorb(st, rs.event, rs.raw).value;
      if Halt(env, now, rs.event).None? {
        LoopBounded(env, now, rs.more);
      }
    }
  }

  lemma OnePartShape(env: Env, c: Cursor, rs: Records)
    requires OnePart(env, c, rs).Ok?
    ensures var Stopped(end, rest) := OnePart(env, c, rs).value;
      end.header.Some? && Count(rest) <= Count(rs) && (!end.next.EndOfStream? ==> Count(rest) < Count(rs))
  {
    var st := Begin(env, c.read, c.sessionBytes, SyntheticHeader(env, c)).value;
    LoopReads(env, st, rs);
    LoopJustified(env, st, rs);
  }

  // ----- A run as the list of its turns

  function SynthBytes(t: Turn): Bytes {
    if t.synth.Some? then t.synth.value else []
  }

  /** What a turn does, without looking into the loop again. */
  ghost predicate SoundTurn(env: Env, t: Turn) {
    && t.end.header.Some?
    && t.c.read <= t.end.read <= t.c.read + Count(t.rs)
    && PartName(env, t.c.number) !in t.c.taken && t.synth == SyntheticHeader(env, t.c)
    && var k, synth := t.end.read - t.c.read, SynthBytes(t);
    && t.rest == Drop(t.rs, k)
    && t.end.written == synth + RawPrefix(t.rs, k)
    && t.end.chunks == ChunkPrefix(t.rs, k)
    && t.end.partBytes == |t.end.written| && t.end.sessionBytes == t.c.sessionBytes + |t.end.written|
    && Justified(env, t.end, k, t.rs) && Undisturbed(env, t.c.read, k, t.rs)
    && (WithinCap(t.rs) ==> Bounded(env, t.c.sessionBytes, |synth|, t.end))
  }

  /** Each limit can be overshot by one header or one record. */
  predicate Bounded(env: Env, sessionBefore: nat, synth: nat, end: LoopState) {
    && end.partBytes <= Max(synth, env.maxFileBytes - 1) + MAX_LINE_BYTES
    && end.sessionBytes <= Max(sessionBefore + synth, env.maxSessionBytes - 1) + MAX_LINE_BYTES
  }

  lemma LoopIsSound(env: Env, st: LoopState, rs: Records)
    requires Loop(env, st, rs).Ok? && Open(st)
    ensures var Stopped(end, rest) := Loop(env, st, rs).value;
      && st.read <= end.read <= st.read + Count(rs)
      && var k := end.read - st.read;
      && rest == Drop(rs, k)
      && end.written == st.written + RawPrefix(rs, k)
      && end.partBytes == st.partBytes + |RawPrefix(rs, k)|
      && end.sessionBytes == st.sessionBytes + |RawPrefix(rs, k)|
      && end.chunks == st.chunks + ChunkPrefix(rs, k)
      && Justified(env, end, k, rs) && Undisturbed(env, st.read, k, rs)
      && (WithinCap(rs) ==> Bounded(env, st.sessionBytes - st.partBytes, st.partBytes, end))
    requires st.sessionBytes >= st.partBytes
  {
    LoopReads(env, st, rs);
    LoopStores(env, st, rs, Loop(env, st, rs).value.state.read - st.read);
    LoopJustified(env, st, rs);
    LoopUndisturbed(env, st, rs);
    if WithinCap(rs) {
      LoopBounded(env, st, rs);
    }
  }

  /** The state a part's loop starts from: nothing read, and only the synthetic header written. */
  predicate Fresh(st: LoopState, read: nat, sessionBytes: nat, synth: Bytes) {
    && st.read == read && Open(st) && st.chunks == []
    && st.written == synth && st.partBytes == |synth| && st.sessionBytes == sessionBytes + |synth|
  }

  lemma BeginsFresh(env: Env, read: nat, sessionBytes: nat, synth: Option<Bytes>, st: LoopState)
    requires Begin(env, read, sessionBytes, synth) == Ok(st)
    ensures Fresh(st, read, sessionBytes, if synth.Some? then synth.value else [])
  {}

  lemma LoopMakesTurn(env: Env, st: LoopState, t: Turn)
    requires Fresh(st, t.c.read, t.c.sessionBytes, SynthBytes(t))
    requires Loop(env, st, t.rs) == Ok(Stopped(t.end, t.rest)) && t.end.header.Some?
    requires PartName(env, t.c.number) !in t.c.taken && t.synth == SyntheticHeader(env, t.c)
    ensures SoundTurn(env, t)
  {
    LoopIsSound(env, st, t.rs);
  }

  lemma TurnIsSound(env: Env, c: Cursor, rs: Records)
    requires OnePart(env, c, rs).Ok?
    ensures var Stopped(end, rest) := OnePart(env, c, rs).value;
      SoundTurn(env, Turn(c, SyntheticHeader(env, c), rs, end, rest))
  {
    var synth := SyntheticHeader(env, c);
    var st, stopped := Begin(env, c.read, c.sessionBytes, synth).value, OnePart(env, c, rs).value;
    BeginsFresh(env, c.read, c.sessionBytes, synth, st);
    LoopMakesTurn(env, st, Turn(c, synth, rs, stopped.state, stopped.rest));
  }

  ghost predicate Turns(env: Env, ts: seq<Turn>)
    decreases |ts|
  {
    && ts != [] && SoundTurn(env, ts[0])
    && if ts[0].end.next.Rotated? then
         && |ts| > 1 && ts[1].c == Advance(env, ts[0].c, ts[0].end) && ts[1].rs == ts[0].rest
         && Turns(env, ts[1..])
       else |ts| == 1
  }

  /** Every run of the per-part loop is such a list. */
  lemma {:induction false} RunTurns(env: Env, c: Cursor, rs: Records)
    requires Run(env, c, rs).Ok?
    ensures var ts := Run(env, c, rs).value; Turns(env, ts) && ts[0].c == c && ts[0].rs == rs
    decreases Count(rs)
  {
    OnePartShape(env, c, rs);
    TurnIsSound(env, c, rs);
    var Stopped(end, rest) := OnePart(env, c, rs).value;
    if end.next.Rotated? {
      RunTurns(env, Advance(env, c, end), rest);
      var more := Run(env, Advance(env, c, end), rest).value;
      assert ([Turn(c, SyntheticHeader(env, c), rs, end, rest)] + more)[1..] == more;
    }
  }

  // ----- A whole run

  lemma {:induction false} PrefixSplit(rs: Records, j: nat, k: nat)
    ensures RawPrefix(rs, j + k) == RawPrefix(rs, j) + RawPrefix(Drop(rs, j), k)
  {
    if j > 0 && rs.Record? {
      PrefixSplit(rs.more, j - 1, k);
    }
  }

  lemma {:induction false} ChunkSplit(rs: Records, j: nat, k: nat)
    ensures ChunkPrefix(rs, j + k) == ChunkPrefix(rs, j) + ChunkPrefix(Drop(rs, j), k)
  {
    if j > 0 && rs.Record? {
      ChunkSplit(rs.more, j - 1, k);
    }
  }

  lemma {:induction false} DropSplit(rs: Records, j: nat, k: nat)
    ensures Drop(rs, j + k) == Drop(Drop(rs, j), k)
    ensures j <= Count(rs) ==> Count(Drop(rs, j)) == Count(rs) - j
  {
    if j > 0 && rs.Record? {
      DropSplit(rs.more, j - 1, k);
    }
  }

  /** What a turn stored behind its synthetic header. */
  function Payload(t: Turn): Bytes {
    var n := |SynthBytes(t)|;
    if n <= |t.end.written| then t.end.written[n..] else []
  }

  /** A part is its synthetic header, if it has one, and its payload. */
  predicate HeaderThenPayload(t: Turn) {
    t.end.written == SynthBytes(t) + Payload(t)
  }

  /** What the first `n` turns stored, one after the other. */
  function Payloads(ts: seq<Turn>, n: nat): Bytes
    requires n <= |ts|
  {
    if n == 0 then [] else Payloads(ts, n - 1) + Payload(ts[n - 1])
  }

  function AllChunks(ts: seq<Turn>, n: nat): seq<Chunk>
    requires n <= |ts|
  {
    if n == 0 then [] else AllChunks(ts, n - 1) + ts[n - 1].end.chunks
  }

  function TotalBytes(ts: seq<Turn>, n: nat): nat
    requires n <= |ts|
  {
    if n == 0 then 0 else TotalBytes(ts, n - 1) + |ts[n - 1].end.written|
  }

  /** How a rotated turn hands over to the rest of the run. */
  lemma TurnThenRest(env: Env, ts: seq<Turn>)
    requires Turns(env, ts) && ts[0].end.next.Rotated?
    ensures Turns(env, ts[1..]) && ts[1..][0] == ts[1] && ts[1..][|ts| - 2] == ts[|ts| - 1]
    ensures ts[1].rs == ts[0].rest && ts[1].c.read == ts[0].end.read
    ensures ts[1].c.sessionBytes == ts[0].end.sessionBytes
  {}

  /** A turn stores a stretch of the records, and counts what it writes. */
  ghost predicate Stretch(t: Turn) {
    && t.c.read <= t.end.read <= t.c.read + Count(t.rs)
    && t.rest == Drop(t.rs, t.end.read - t.c.read)
    && Payload(t) == RawPrefix(t.rs, t.end.read - t.c.read) && HeaderThenPayload(t)
    && t.end.chunks == ChunkPrefix(t.rs, t.end.read - t.c.read)
    && t.end.sessionBytes == t.c.sessionBytes + |t.end.written|
  }

  /** The next turn continues where the one before it stopped. */
  predicate Continues(a: Turn, b: Turn) {
    b.rs == a.rest && b.c.read == a.end.read && b.c.sessionBytes == a.end.sessionBytes
  }

  ghost predicate Stretches(ts: seq<Turn>) {
    && (forall i {:trigger Stretch(ts[i])} :: 0 <= i < |ts| ==> Stretch(ts[i]))
    && forall i, j {:trigger Continues(ts[i], ts[j])} :: 0 <= i < j == i + 1 < |ts| ==> Continues(ts[i], ts[j])
  }

  lemma {:induction false} RunSound(env: Env, ts: seq<Turn>, i: nat)
    requires Turns(env, ts) && i < |ts|
    ensures SoundTurn(env, ts[i])
  {
    if i > 0 {
      RunSound(env, ts[1..], i - 1);
    }
  }

  lemma {:induction false} RunContinues(env: Env, ts: seq<Turn>, i: nat)
    requires Turns(env, ts) && i + 1 < |ts|
    ensures Continues(ts[i], ts[i + 1])
  {
    TurnThenRest(env, ts);
    if i > 0 {
      RunContinues(env, ts[1..], i - 1);
    }
  }

  lemma EachStretch(env: Env, ts: seq<Turn>)
    requires Turns(env, ts)
    ensures forall i {:trigger Stretch(ts[i])} :: 0 <= i < |ts| ==> Stretch(ts[i])
  {
    forall i | 0 <= i < |ts| ensures Stretch(ts[i]) {
      OneStretch(env, ts, i);
    }
  }

  lemma OneStretch(env: Env, ts: seq<Turn>, i: nat)
    requires Turns(env, ts) && i < |ts|
    ensures Stretch(ts[i])
  {
    RunSound(env, ts, i);
    TurnStretch(env, ts[i]);
  }

  lemma RunStretches(env: Env, ts: seq<Turn>)
    requires Turns(env, ts)
    ensures Stretches(ts)
  {
    EachStretch(env, ts);
    forall i, j | 0 <= i < j == i + 1 < |ts| ensures Continues(ts[i], ts[j]) {
      RunContinues(env, ts, i);
    }
  }

  lemma TurnStretch(env: Env, t: Turn)
    requires SoundTurn(env, t)
    ensures Stretch(t)
  {}

  lemma StretchesHeaded(ts: seq<Turn>)
    requires Stretches(ts)
    ensures forall t :: t in ts ==> HeaderThenPayload(t)
  {
    forall t | t in ts ensures HeaderThenPayload(t) {
      var i :| 0 <= i < |ts| && ts[i] == t;
      assert Stretch(ts[i]);
    }
  }

  /** How far the first `n` turns have read, and what that leaves. */
  lemma {:induction false} StretchesRead(ts: seq<Turn>, n: nat)
    requires Stretches(ts) && 0 < n <= |ts|
    ensures var k := ts[n - 1].end.read - ts[0].c.read;
      0 <= k <= Count(ts[0].rs) && ts[n - 1].rest == Drop(ts[0].rs, k)
    ensures ts[n - 1].end.sessionBytes == ts[0].c.sessionBytes + TotalBytes(ts, n)
  {
    var t := ts[n - 1];
    assert Stretch(t);
    if n > 1 {
      StretchesRead(ts, n - 1);
      assert Continues(ts[n - 2], t);
      DropSplit(ts[0].rs, t.c.read - ts[0].c.read, t.end.read - t.c.read);
    }
  }

  lemma OneMorePayload(ts: seq<Turn>, n: nat, rs: Records, j: nat, k: nat)
    requires n < |ts| && Payloads(ts, n) == RawPrefix(rs, j) && Payload(ts[n]) == RawPrefix(Drop(rs, j), k)
    ensures Payloads(ts, n + 1) == RawPrefix(rs, j + k)
  {
    PrefixSplit(rs, j, k);
  }

  lemma NoPayloads(ts: seq<Turn>)
    ensures Payloads(ts, 0) == []
  {}

  lemma FirstStretch(ts: seq<Turn>)
    requires Stretches(ts) && ts != []
    ensures var t := ts[0]; var k := t.end.read - t.c.read;
      0 <= k && Payload(t) == RawPrefix(t.rs, k) && t.end.chunks == ChunkPrefix(t.rs, k)
  {
    assert Stretch(ts[0]);
  }

  /** What the `n`-th turn stored, as a stretch of the records of the first. */
  lemma NextStretch(ts: seq<Turn>, n: nat)
    requires Stretches(ts) && 0 < n < |ts|
    ensures var t := ts[n]; var j, k := ts[n - 1].end.read - ts[0].c.read, t.end.read - t.c.read;
      && 0 <= j && 0 <= k && j + k == t.end.read - ts[0].c.read
      && Payload(t) == RawPrefix(Drop(ts[0].rs, j), k) && t.end.chunks == ChunkPrefix(Drop(ts[0].rs, j), k)
  {
    StretchesRead(ts, n);
    assert Stretch(ts[n]) && Continues(ts[n - 1], ts[n]);
  }

  /** The first `n` turns stored exactly the first `k` records. */
  predicate Conserved(ts: seq<Turn>, n: nat, k: int)
    requires 0 < n <= |ts|
  {
    0 <= k == ts[n - 1].end.read - ts[0].c.read && Payloads(ts, n) == RawPrefix(ts[0].rs, k)
  }

  lemma FirstConserved(ts: seq<Turn>)
    requires Stretches(ts) && ts != []
    ensures Conserved(ts, 1, ts[0].end.read - ts[0].c.read)
  {
    FirstStretch(ts);
    NoPayloads(ts);
    OneMorePayload(ts, 0, ts[0].rs, 0, ts[0].end.read - ts[0].c.read);
  }

  lemma NextConserved(ts: seq<Turn>, n: nat, j: int)
    requires Stretches(ts) && 0 < n < |ts| && Conserved(ts, n, j)
    ensures Conserved(ts, n + 1, ts[n].end.read - ts[0].c.read)
  {
    NextStretch(ts, n);
    OneMorePayload(ts, n, ts[0].rs, j, ts[n].end.read - ts[n].c.read);
  }

  /** The parts hold, between them, exactly the records read: none lost, repeated, split or reordered. */
  lemma {:induction false} StretchesConserve(ts: seq<Turn>, n: nat)
    requires Stretches(ts) && 0 < n <= |ts|
    ensures Conserved(ts, n, ts[n - 1].end.read - ts[0].c.read)
    decreases n
  {
    if n > 1 {
      StretchesConserve(ts, n - 1);
      NextConserved(ts, n - 1, ts[n - 2].end.read - ts[0].c.read);
    } else {
      FirstConserved(ts);
    }
  }

  lemma OneMoreChunks(ts: seq<Turn>, n: nat, rs: Records, j: nat, k: nat)
    requires n < |ts| && AllChunks(ts, n) == ChunkPrefix(rs, j) && ts[n].end.chunks == ChunkPrefix(Drop(rs, j), k)
    ensures AllChunks(ts, n + 1) == ChunkPrefix(rs, j + k)
  {
    ChunkSplit(rs, j, k);
  }

  lemma NoChunks(ts: seq<Turn>)
    ensures AllChunks(ts, 0) == []
  {}

  /** And their manifests list, between them, exactly the chunk records read. */
  lemma {:induction false} StretchesChunks(ts: seq<Turn>, n: nat)
    requires Stretches(ts) && 0 < n <= |ts|
    ensures var k := ts[n - 1].end.read - ts[0].c.read; 0 <= k && AllChunks(ts, n) == ChunkPrefix(ts[0].rs, k)
  {
    if n > 1 {
      NextStretch(ts, n - 1);
      StretchesChunks(ts, n - 1);
      OneMoreChunks(ts, n - 1, ts[0].rs, ts[n - 2].end.read - ts[0].c.read, ts[n - 1].end.read - ts[n - 1].c.read);
    } else {
      FirstStretch(ts);
      NoChunks(ts);
      OneMoreChunks(ts, 0, ts[0].rs, 0, ts[0].end.read - ts[0].c.read);
    }
  }

  /** A part that was ended by the part limit: full, and with something of the stream in it. */
  ghost predicate FullPart(env: Env, t: Turn) {
    && t.end.next.Rotated? && t.end.endReason == "rotated"
    && t.end.read > t.c.read && |t.end.written| >= env.maxFileBytes && t.end.sessionBytes < env.maxSessionBytes
    && GoesOn(env, t.end.read, Drop(t.rs, t.end.read - t.c.read - 1))
    && Undisturbed(env, t.c.read, t.end.read - t.c.read, t.rs)
  }

  /** Every part but the last was ended by rotation, the last by something else. */
  lemma {:induction false} RunRotates(env: Env, ts: seq<Turn>)
    requires Turns(env, ts)
    ensures forall i :: 0 <= i < |ts| - 1 ==> FullPart(env, ts[i])
    ensures !ts[|ts| - 1].end.next.Rotated?
    decreases |ts|
  {
    if ts[0].end.next.Rotated? {
      TurnThenRest(env, ts);
      RunRotates(env, ts[1..]);
      forall i | 0 <= i < |ts| - 1 ensures FullPart(env, ts[i]) {
        if i > 0 { assert ts[i] == ts[1..][i - 1]; }
      }
    }
  }

  /** Part numbers count up under fresh names, and every later cursor carries `base` and the link before it. */
  predicate TurnFollows(env: Env, base: Option<HeaderInfo>, a: Turn, b: Turn) {
    && b.c.number == a.c.number + 1 && b.c.first == base
    && b.c.link == env.manifest(a.c.number)
    && b.c.taken == a.c.taken + {PartName(env, a.c.number)}
  }

  function Base(t: Turn): Option<HeaderInfo> {
    if t.c.number == 0 then t.end.header else t.c.first
  }

  lemma {:induction false} RunFollows(env: Env, ts: seq<Turn>)
    requires Turns(env, ts)
    ensures forall i :: 0 < i < |ts| ==> TurnFollows(env, Base(ts[0]), ts[i - 1], ts[i])
    decreases |ts|
  {
    if ts[0].end.next.Rotated? {
      TurnThenRest(env, ts);
      RunFollows(env, ts[1..]);
      NextFollows(env, ts);
      forall i | 0 < i < |ts| ensures TurnFollows(env, Base(ts[0]), ts[i - 1], ts[i]) {
        if i > 1 { assert ts[i] == ts[1..][i - 1] && ts[i - 1] == ts[1..][i - 2]; }
      }
    }
  }

  /** A saturated part number repeats a name, which exclusive creation refuses. */
  lemma NextFollows(env: Env, ts: seq<Turn>)
    requires Turns(env, ts) && ts[0].end.next.Rotated?
    ensures TurnFollows(env, Base(ts[0]), ts[0], ts[1]) && Base(ts[1]) == Base(ts[0])
  {
    TurnThenRest(env, ts);
    assert PartName(env, ts[1].c.number) !in ts[1].c.taken;
    assert PartName(env, ts[0].c.number) in ts[1].c.taken;
  }

  /** Rotation needs a full part, and a session below its limit. */
  lemma {:induction false} RunCounts(env: Env, ts: seq<Turn>)
    requires Turns(env, ts) && ts[0].c.sessionBytes < env.maxSessionBytes
    ensures ts[0].c.sessionBytes + (|ts| - 1) * env.maxFileBytes <= env.maxSessionBytes - 1
    ensures ts[|ts| - 1].c.sessionBytes < env.maxSessionBytes
    decreases |ts|
  {
    if ts[0].end.next.Rotated? {
      TurnThenRest(env, ts);
      RunCounts(env, ts[1..]);
      OneMore(|ts| - 2, env.maxFileBytes);
    }
  }

  lemma {:induction false} RunCapped(env: Env, ts: seq<Turn>, i: nat)
    requires Turns(env, ts) && WithinCap(ts[0].rs) && i < |ts|
    ensures SoundTurn(env, ts[i]) && WithinCap(ts[i].rs)
    decreases |ts|
  {
    if i > 0 {
      TurnThenRest(env, ts);
      CapRemains(ts[0].rs, ts[0].end.read - ts[0].c.read);
      RunCapped(env, ts[1..], i - 1);
    }
  }

  lemma {:induction false} CapRemains(rs: Records, k: nat)
    requires WithinCap(rs)
    ensures WithinCap(Drop(rs, k))
  {
    if k > 0 && rs.Record? {
      CapRemains(rs.more, k - 1);
    }
  }

  lemma QuotientBound(n: nat, d: nat, total: nat)
    requires d > 0 && n * d <= total
    ensures n <= total / d
  {
    var q := total / d;
    if n > q {
      OneMore(q, d);
      ProductMonotone(q + 1, n, d);
      assert false;
    }
  }

  lemma ProductMonotone(a: nat, b: nat, d: nat)
    requires a <= b
    ensures a * d <= b * d
  {}

  lemma OneMore(n: int, d: int)
    ensures (n + 1) * d == n * d + d
  {}

  // ----- What a session guarantees

  /**
   In every run that does not fail, what the parts store behind their headers is, end to end, the input up
   to the point where reading stopped, and their manifests list the chunk records of that stretch.
   */
  lemma SessionConserves(env: Env, read: LineReader, input: Bytes, taken: set<string>)
    requires Run(env, Start(taken), RecordsOf(read, input)).Ok?
    ensures var rs := RecordsOf(read, input);
      var ts := Run(env, Start(taken), rs).value;
      && ts != []
      && Payloads(ts, |ts|) <= input
      && RecordsOf(read, input[|Payloads(ts, |ts|)|..]) == ts[|ts| - 1].rest
      && Payloads(ts, |ts|) == RawPrefix(rs, ts[|ts| - 1].end.read)
      && (forall t :: t in ts ==> HeaderThenPayload(t))
      && AllChunks(ts, |ts|) == ChunkPrefix(rs, ts[|ts| - 1].end.read)
      && ts[|ts| - 1].end.sessionBytes == TotalBytes(ts, |ts|)
  {
    var rs := RecordsOf(read, input);
    var ts := Run(env, Start(taken), rs).value;
    RunTurns(env, Start(taken), rs);
    RunStretches(env, ts);
    StretchesHeaded(ts);
    StretchesRead(ts, |ts|);
    StretchesConserve(ts, |ts|);
    StretchesChunks(ts, |ts|);
    PrefixOfInput(read, input, ts[|ts| - 1].end.read);
  }

  /** Why a run stopped reading: the input ended, an `end` record, a shutdown, or the session limit. */
  ghost predicate StoppedBecause(env: Env, t: Turn) {
    && !t.end.next.Rotated? && t.c.read <= t.end.read
    && Justified(env, t.end, t.end.read - t.c.read, t.rs)
    && Undisturbed(env, t.c.read, t.end.read - t.c.read, t.rs)
  }

  lemma SessionStops(env: Env, taken: set<string>, rs: Records)
    requires Run(env, Start(taken), rs).Ok?
    ensures var ts := Run(env, Start(taken), rs).value;
      && ts != [] && StoppedBecause(env, ts[|ts| - 1])
      && forall i :: 0 <= i < |ts| - 1 ==> FullPart(env, ts[i])
  {
    var ts := Run(env, Start(taken), rs).value;
    RunTurns(env, Start(taken), rs);
    TurnsStop(env, ts);
  }

  lemma TurnsStop(env: Env, ts: seq<Turn>)
    requires Turns(env, ts)
    ensures StoppedBecause(env, ts[|ts| - 1])
    ensures forall i :: 0 <= i < |ts| - 1 ==> FullPart(env, ts[i])
  {
    RunRotates(env, ts);
    RunSound(env, ts, |ts| - 1);
  }

  /** Part i's header, for i > 0: part 0's, with the number i and the hash of part i-1's manifest, or null. */
  predicate HeaderChain(env: Env, ts: seq<Turn>)
    requires forall t :: t in ts ==> t.end.header.Some?
  {
    forall i :: 0 <= i < |ts| ==>
      && PartOf(env, ts[i]).number == i
      && PartOf(env, ts[i]).synth
           == (if i == 0 then None
               else Some(env.codec.render(WithLink(ts[0].end.header.value.raw, i, PartOf(env, ts[i - 1]).link))
                         + [NEWLINE]))
  }

  lemma SessionLinks(env: Env, taken: set<string>, rs: Records)
    requires Run(env, Start(taken), rs).Ok?
    ensures var ts := Run(env, Start(taken), rs).value;
      && (forall t :: t in ts ==> t.end.header.Some?)
      && HeaderChain(env, ts)
  {
    var ts := Run(env, Start(taken), rs).value;
    RunTurns(env, Start(taken), rs);
    RunFollows(env, ts);
    forall i | 0 <= i < |ts| ensures SoundTurn(env, ts[i]) && ts[i].c.number == i {
      RunSound(env, ts, i);
      NumbersCount(env, ts, i);
    }
    forall i | 0 < i < |ts| ensures ts[i].c.first == ts[0].end.header && ts[i].c.link == PartOf(env, ts[i - 1]).link {
      assert TurnFollows(env, Base(ts[0]), ts[i - 1], ts[i]);
    }
  }

  lemma {:induction false} NumbersCount(env: Env, ts: seq<Turn>, i: nat)
    requires i < |ts| && ts[0].c.number == 0
    requires forall j :: 0 < j < |ts| ==> TurnFollows(env, Base(ts[0]), ts[j - 1], ts[j])
    ensures ts[i].c.number == i
  {
    if i > 0 {
      NumbersCount(env, ts, i - 1);
      assert TurnFollows(env, Base(ts[0]), ts[i - 1], ts[i]);
    }
  }

  /** The real bounds: every limit plus one header plus one record, and a number of parts fixed by the limits. */
  predicate WithinLimits(env: Env, ts: seq<Turn>)
    requires ts != [] && env.maxFileBytes > 0
  {
    && (forall i :: 0 <= i < |ts| ==>
          |ts[i].end.written| <= Max(env.maxFileBytes - 1, |SynthBytes(ts[i])|) + MAX_LINE_BYTES)
    && TotalBytes(ts, |ts|) <= env.maxSessionBytes - 1 + |SynthBytes(ts[|ts| - 1])| + MAX_LINE_BYTES
    && |ts| <= (env.maxSessionBytes - 1) / env.maxFileBytes + 1
  }

  lemma TurnsBounded(env: Env, ts: seq<Turn>)
    requires LimitsAccepted(env) && Turns(env, ts) && WithinCap(ts[0].rs) && ts[0].c.sessionBytes == 0
    ensures WithinLimits(env, ts)
  {
    RunStretches(env, ts);
    StretchesRead(ts, |ts|);
    RunCounts(env, ts);
    QuotientBound(|ts| - 1, env.maxFileBytes, env.maxSessionBytes - 1);
    forall i | 0 <= i < |ts|
      ensures Bounded(env, ts[i].c.sessionBytes, |SynthBytes(ts[i])|, ts[i].end)
        && ts[i].end.partBytes == |ts[i].end.written|
    {
      RunCapped(env, ts, i);
    }
    assert Bounded(env, ts[|ts| - 1].c.sessionBytes, |SynthBytes(ts[|ts| - 1])|, ts[|ts| - 1].end);
  }

  lemma SessionBounded(env: Env, taken: set<string>, rs: Records)
    requires LimitsAccepted(env) && Run(env, Start(taken), rs).Ok? && WithinCap(rs)
    ensures var ts := Run(env, Start(taken), rs).value; ts != [] && WithinLimits(env, ts)
  {
    RunTurns(env, Start(taken), rs);
    TurnsBounded(env, Run(env, Start(taken), rs).value);
  }

  // ----- The per-part loop itself

  predicate Headed(ts: seq<Turn>) {
    forall t :: t in ts ==> t.end.header.Some?
  }

  function PartsOf(env: Env, ts: seq<Turn>): (parts: seq<Part>)
    requires Headed(ts)
  {
    seq(|ts|, i requires 0 <= i < |ts| => PartOf(env, ts[i]))
  }

  ghost function Behind(ts: seq<Turn>, more: Result<seq<Turn>, RunError>): Result<seq<Turn>, RunError> {
    if more.Err? then more else Ok(ts + more.value)
  }

  lemma BehindNothing(more: Result<seq<Turn>, RunError>)
    ensures Behind([], more) == more
  {
    if more.Ok? {
      assert [] + more.value == more.value;
    }
  }

  lemma BehindBehind(ts: seq<Turn>, t: Turn, more: Result<seq<Turn>, RunError>)
    ensures Behind(ts, Behind([t], more)) == Behind(ts + [t], more)
  {
    if more.Ok? {
      ConcatAssoc(ts, [t], more.value);
    }
  }

  lemma RunStep(env: Env, c: Cursor, rs: Records, t: Turn)
    requires OnePart(env, c, rs) == Ok(Stopped(t.end, t.rest))
    requires t == Turn(c, SyntheticHeader(env, c), rs, t.end, t.rest)
    ensures t.end.header.Some? && (t.end.next.Rotated? ==> Count(t.rest) < Count(rs))
    ensures Run(env, c, rs)
      == if t.end.next.Rotated? then Behind([t], Run(env, Advance(env, c, t.end), t.rest)) else Ok([t])
  {
    OnePartShape(env, c, rs);
  }

  lemma PartsGrow(env: Env, ts: seq<Turn>, t: Turn)
    requires Headed(ts) && t.end.header.Some?
    ensures Headed(ts + [t]) && PartsOf(env, ts + [t]) == PartsOf(env, ts) + [PartOf(env, t)]
  {}

  /** One more turn of the loop, seen from the whole run. */
  lemma LoopStep(env: Env, ts: seq<Turn>, t: Turn, goal: Result<seq<Turn>, RunError>)
    requires Headed(ts) && Behind(ts, Run(env, t.c, t.rs)) == goal
    requires OnePart(env, t.c, t.rs) == Ok(Stopped(t.end, t.rest)) && t.synth == SyntheticHeader(env, t.c)
    ensures Headed(ts + [t]) && PartsOf(env, ts + [t]) == PartsOf(env, ts) + [PartOf(env, t)]
    ensures !t.end.next.Rotated? ==> goal == Ok(ts + [t])
    ensures t.end.next.Rotated? ==>
      Count(t.rest) < Count(t.rs) && Behind(ts + [t], Run(env, Advance(env, t.c, t.end), t.rest)) == goal
  {
    RunStep(env, t.c, t.rs, t);
    PartsGrow(env, ts, t);
    BehindBehind(ts, t, Run(env, Advance(env, t.c, t.end), t.rest));
  }

  /** One part: exclusive creation of its file, its synthetic header, then the record loop. */
  method ProcessPart(env: Env, reader: Reader, c: Cursor) returns (r: Result<LoopState, RunError>)
    modifies reader
    ensures OnePart(env, c, old(reader.Pending()))
      == if r.Ok? then Ok(Stopped(r.value, reader.Pending())) else Err(r.error)
  {
    var name := PartName(env, c.number);
    if name in c.taken {
      return Err(NameTaken(name));
    }
    var synth := SyntheticHeader(env, c);
    var begun := Begin(env, c.read, c.sessionBytes, synth);
    if begun.Err? {
      return Err(begun.error);
    }
    r := RecordLoop(env, reader, begun.value);
    if r.Ok? && r.value.header.None? {
      return Err(Stream(NoHeader));
    }
  }

  /** `run`'s per-part loop, with its session-wide variables; the second result is `hit_session_limit`. */
  method PerPartLoop(env: Env, reader: Reader, taken: set<string>)
      returns (r: Result<seq<Part>, RunError>, hitSessionLimit: bool, ghost ts: seq<Turn>)
    modifies reader
    ensures Run(env, Start(taken), old(reader.Pending())) == if r.Ok? then Ok(ts) else Err(r.error)
    ensures r.Ok? ==> ts != [] && Headed(ts) && r.value == PartsOf(env, ts)
    ensures r.Ok? ==>
      reader.Pending() == ts[|ts| - 1].rest && hitSessionLimit == ts[|ts| - 1].end.next.SessionSizeLimit?
  {
    var c := Start(taken);
    var parts: seq<Part> := [];
    ghost var rs := reader.Pending();
    ghost var goal := Run(env, c, rs);
    ts := [];
    hitSessionLimit := false;
    BehindNothing(goal);
    while true
      invariant Headed(ts) && parts == PartsOf(env, ts) && rs == reader.Pending()
      invariant Behind(ts, Run(env, c, rs)) == goal
      decreases Count(rs)
    {
      var outcome := ProcessPart(env, reader, c);
      if outcome.Err? {
        return Err(outcome.error), false, ts;
      }
      var end := outcome.value;
      ghost var t := Turn(c, SyntheticHeader(env, c), rs, end, reader.Pending());
      LoopStep(env, ts, t, goal);
      ts, rs := ts + [t], t.rest;
      var hash := env.manifest(c.number);
      parts := parts + [Part(c.number, PartName(env, c.number), SyntheticHeader(env, c), end.written,
                             end.header.value, end.chunks, end.endReason, end.exitCode, end.next, hash)];
      if end.next.EndOfStream? {
        break;
      }
      if end.next.SessionSizeLimit? {
        hitSessionLimit := true;
        break;
      }
      c := Advance(env, c, end);
    }
    return Ok(parts), hitSessionLimit, ts;
  }

  /** `run`, from its limit checks to the end of the per-part loop, on the records of one input. */
  method RecordSession(env: Env, input: Bytes, taken: set<string>)
      returns (r: Result<seq<Part>, RunError>, hitSessionLimit: bool)
    ensures LimitsAccepted(env) <==> 1048576 <= env.maxFileBytes <= 536870912 && env.maxFileBytes <= env.maxSessionBytes
    ensures !LimitsAccepted(env) ==> r == Err(BadLimits)
    ensures LimitsAccepted(env) ==>
      var run := Run(env, Start(taken), RecordsOf(CodecReader(env.codec), input));
      if run.Err? then r == Err(run.error)
      else
        && Headed(run.value) && run.value != [] && r == Ok(PartsOf(env, run.value))
        && hitSessionLimit == run.value[|run.value| - 1].end.next.SessionSizeLimit?
  {
    if env.maxFileBytes > MAX_FILE_SIZE || env.maxFileBytes < MIN_PART_BYTES
      || env.maxSessionBytes < env.maxFileBytes
    {
      return Err(BadLimits), false;
    }
    var reader := new Reader(CodecReader(env.codec), input);
    ghost var ts;
    r, hitSessionLimit, ts := PerPartLoop(env, reader, taken);
  }
}
