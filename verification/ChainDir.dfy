/** The chain directory: `head.hash`, the log file and the lock, and the transaction that advances them. */
module ChainDir {
  import opened Wrappers
  import opened Manifests
  import opened Text
  import opened StreamReader
  import opened Signing
  import opened ChainLog
  import opened Calendar

  datatype FileState = Absent | Unreadable | Holds(content: string)

  /** A recording's place: the user's directory and the file in it. */
  datatype Path = Path(dir: string, file: string)

  /** Everything a transaction can change. */
  datatype Disk = Disk(head: FileState, log: FileState, sidecars: map<Path, Manifest>)

  const EMPTY: Disk := Disk(Absent, Absent, map[])

  /** An I/O step can fail before it took effect, or after (a failed directory sync behind a rename). */
  datatype Fault = Clean | FailsBefore | FailsAfter

  datatype ChainFault =
    | HeadUnreadable
    | HeadMalformed
    | BadHashLength
    | SidecarFailed
    | HeadFailed
    | LogFailed(e: LogError)

  // ----- head.hash

  function TrimStart(s: string): string {
    if s != [] && IsSpace(s[0]) then TrimStart(s[1..]) else s
  }

  function TrimEnd(s: string): string {
    if s != [] && IsSpace(s[|s| - 1]) then TrimEnd(s[..|s| - 1]) else s
  }

  predicate IsHexText(s: string) {
    |s| == 64 && forall i :: 0 <= i < |s| ==> IsHex(s[i])
  }

  /** `read_head`: GENESIS while no file exists, otherwise 64 hex digits or an error. */
  function HeadValue(head: FileState): Result<string, ChainFault> {
    match head
    case Absent => Ok(GENESIS_PREV)
    case Unreadable => Err(HeadUnreadable)
    case Holds(content) =>
      var trimmed := TrimEnd(TrimStart(content));
      if IsHexText(trimmed) then Ok(trimmed) else Err(HeadMalformed)
  }

  lemma WrittenHeadReads(hash: string)
    requires IsDigest(hash)
    ensures HeadValue(Holds(hash)) == Ok(hash)
  {}

  // ----- The log file

  function LogText(log: FileState): Result<string, LogError> {
    match log
    case Absent => Ok("")
    case Unreadable => Err(LogUnreadable)
    case Holds(content) => Ok(content)
  }

  function LogVerdict(k: Suite, log: FileState): Result<Scan, LogError> {
    var text := LogText(log);
    if text.Err? then Err(text.error) else ReadLog(k, text.value)
  }

  /** The log text after one append. Fields are rejected before the file is looked at. */
  function LogAfter(k: Suite, log: FileState, r: Record): Result<string, LogError> {
    var name, text := UnsafeLabel(r), LogText(log);
    if name.Some? then Err(UnsafeField(name.value))
    else if text.Err? then Err(text.error)
    else Append(k, text.value, r)
  }

  predicate Loggable(value: string) {
    value != "" && forall c :: c in value ==> !IsSpace(c) && c != '\0'
  }

  lemma LoggableMeans(value: string)
    ensures SafeField(value) <==> Loggable(value)
  {
    assert forall i :: 0 <= i < |value| ==> value[i] in value;
  }

  /** Why nothing is appended: the first field that is empty or holds white space or a NUL, the file, or its tail. */
  lemma AppendRefused(k: Suite, log: FileState, r: Record)
    ensures var result := LogAfter(k, log, r);
      if !Loggable(r.isoTs) then result == Err(UnsafeField("timestamp"))
      else if !Loggable(r.user) then result == Err(UnsafeField("user"))
      else if !Loggable(r.sessionId) then result == Err(UnsafeField("session_id"))
      else if !Loggable(r.manifestHash) then result == Err(UnsafeField("manifest_hash"))
      else if log.Unreadable? then result == Err(LogUnreadable)
      else
        var content := if log.Holds? then log.content else "";
        if ReadTip(Lines(content)).Err? then result == Err(ReadTip(Lines(content)).error)
        else result == Ok(content + (LogLine(k, r, ReadTip(Lines(content)).value) + "\n"))
  {
    LoggableMeans(r.isoTs);
    LoggableMeans(r.user);
    LoggableMeans(r.sessionId);
    LoggableMeans(r.manifestHash);
  }

  // ----- One transaction

  datatype Build = Build(version: string, commit: string)

  type FileBytes = b: Bytes | |b| < 0x1_0000_0000_0000_0000 witness []

  /** One finished part on its way into the chain. */
  datatype Job = Job(
    username: string,
    sessionId: string,
    part: U32,
    suffix: string,
    header: HeaderInfo,
    chunks: seq<Chunk>,
    endReason: string,
    exitCode: I32,
    content: FileBytes)

  /** The two clock readings of a transaction. */
  datatype Clock = Clock(now: Float, secs: nat)

  function RecordingOf(j: Job): Path {
    Path(j.username, j.sessionId + ".part" + Text.Decimal(j.part) + j.suffix)
  }

  function SidecarOf(p: Path): Path {
    Path(p.dir, p.file + ".manifest.json")
  }

  function DraftFor(k: Suite, b: Build, j: Job, prev: string, now: Float): Manifest {
    Manifest("katagrapho-manifest-v1", j.sessionId, j.part, j.username, j.header.host, j.header.bootId,
             j.header.auditSessionId, j.header.started, now, b.version, b.commit,
             j.header.epitroposVersion, j.header.epitroposCommit, RecordingOf(j).file, |j.content|,
             k.shaFile(j.content), j.chunks, j.endReason, j.exitCode, prev, "", "", "")
  }

  function RecordFor(j: Job, secs: nat, hash: string): Record {
    Record.Record(IsoTimestampUtc(secs), j.username, j.sessionId, j.part, hash)
  }

  /** How far a transaction got. A crash and an error return are the same here. */
  datatype Reach = Nothing | SidecarPlaced | HeadAdvanced | LogAppended

  datatype Txn = Txn(job: Job, clock: Clock, reach: Reach)

  function SignedFor(k: Suite, b: Build, d: Disk, t: Txn): Result<Manifest, ChainFault> {
    var prev := HeadValue(d.head);
    if prev.Err? then Err(prev.error) else Ok(Signed(k, DraftFor(k, b, t.job, prev.value, t.clock.now)))
  }

  function WithSidecar(d: Disk, j: Job, m: Manifest): Disk {
    d.(sidecars := d.sidecars[SidecarOf(RecordingOf(j)) := m])
  }

  function WithHead(d: Disk, m: Manifest): Disk {
    d.(head := Holds(m.thisManifestHash))
  }

  /** The disk once a signed manifest has been taken as far as `reach`. */
  function Reached(k: Suite, d: Disk, j: Job, secs: nat, m: Manifest, reach: Reach): Disk {
    if reach.Nothing? then d
    else if reach.SidecarPlaced? then WithSidecar(d, j, m)
    else
      var advanced := WithHead(WithSidecar(d, j, m), m);
      var text := LogAfter(k, d.log, RecordFor(j, secs, m.thisManifestHash));
      if reach.HeadAdvanced? || text.Err? then advanced else advanced.(log := Holds(text.value))
  }

  /** The disk a transaction leaves, for each point it can stop at. */
  function Apply(k: Suite, b: Build, d: Disk, t: Txn): Disk {
    var signed := SignedFor(k, b, d, t);
    if signed.Err? then d else Reached(k, d, t.job, t.clock.secs, signed.value, t.reach)
  }

  // ----- What is signed, field by field

  /** The manifest of this job, as the format wants it. */
  predicate Says(k: Suite, b: Build, j: Job, now: Float, prev: string, m: Manifest) {
    && m.v == "katagrapho-manifest-v1"
    && m.sessionId == j.sessionId && m.part == j.part && m.user == j.username
    && m.host == j.header.host && m.bootId == j.header.bootId && m.auditSessionId == j.header.auditSessionId
    && m.started == j.header.started && m.ended == now
    && m.katagraphoVersion == b.version && m.katagraphoCommit == b.commit
    && m.epitroposVersion == j.header.epitroposVersion && m.epitroposCommit == j.header.epitroposCommit
    && m.recordingFile == j.sessionId + ".part" + Text.Decimal(j.part) + j.suffix
    && m.recordingSize == |j.content| && m.recordingSha256 == k.shaFile(j.content)
    && m.chunks == j.chunks && m.endReason == j.endReason && m.exitCode == j.exitCode
    && m.prevManifestHash == prev
  }

  /** What a transaction signs says exactly what its job, its clock and this build say, behind the current head. */
  lemma ManifestSays(k: Suite, b: Build, d: Disk, t: Txn)
    requires HeadValue(d.head).Ok?
    ensures SignedFor(k, b, d, t).Ok?
    ensures var m := SignedFor(k, b, d, t).value;
      && Says(k, b, t.job, t.clock.now, HeadValue(d.head).value, m)
      && m.thisManifestHash == ManifestHash(k, m) && m.keyId == k.keyId && m.signature == k.sign(m.thisManifestHash)
  {
    var draft := DraftFor(k, b, t.job, HeadValue(d.head).value, t.clock.now);
    Canonical.CanonicalInjective(draft, Signed(k, draft));
  }

  /** The sidecar placed beside the recording is that manifest. */
  lemma PlacedSays(k: Suite, b: Build, d: Disk, t: Txn)
    requires HeadValue(d.head).Ok? && !t.reach.Nothing?
    ensures var j, sidecars := t.job, Apply(k, b, d, t).sidecars;
      var p := Path(j.username, j.sessionId + ".part" + Text.Decimal(j.part) + j.suffix + ".manifest.json");
      p in sidecars && Says(k, b, j, t.clock.now, HeadValue(d.head).value, sidecars[p])
  {
    ManifestSays(k, b, d, t);
  }

  /** The line a transaction logs carries its own time, user, session, part and manifest hash, in this order. */
  lemma LineSays(k: Suite, j: Job, secs: nat, hash: string, prev: string)
    ensures var time, part := IsoTimestampUtc(secs), Text.Decimal(j.part);
      var digest := k.sha(time + "\0" + (j.username + "\0" + (j.sessionId + "\0" + (part + "\0"
                          + (hash + "\0" + (prev + "\0"))))));
      LogLine(k, RecordFor(j, secs, hash), prev)
        == time + " " + (j.username + " " + (j.sessionId + " " + (part + " " + (hash + " "
           + (prev + " " + (digest + " " + k.sign(digest)))))))
  {
    PreimageIs(RecordFor(j, secs, hash), prev);
    LineIs(k, RecordFor(j, secs, hash), prev);
  }

  // ----- What a head file may hold

  /** Exactly 64 hex digits, with white space around them or not, are a head; all other contents are errors. */
  lemma HeadMeans(before: string, hash: string, after: string)
    requires Blank(before) && Blank(after)
    requires hash != [] && !IsSpace(hash[0]) && !IsSpace(hash[|hash| - 1])
    ensures HeadValue(Holds(before + hash + after)) ==
      if |hash| == 64 && forall c :: c in hash ==> c in "0123456789abcdefABCDEF" then Ok(hash) else Err(HeadMalformed)
    ensures HeadValue(Holds(before)) == Err(HeadMalformed)
    ensures HeadValue(Absent) == Ok(GENESIS_PREV) && HeadValue(Unreadable) == Err(HeadUnreadable)
  {
    TrimsTo(before, hash, after);
    TrimsBlank(before);
    HexMeans(hash);
  }

  lemma HexMeans(s: string)
    ensures IsHexText(s) <==> |s| == 64 && forall c :: c in s ==> c in "0123456789abcdefABCDEF"
  {
    forall c ensures IsHex(c) <==> c in "0123456789abcdefABCDEF" {
      HexChar(c);
    }
    if IsHexText(s) {
      forall c | c in s ensures c in "0123456789abcdefABCDEF" {
        var i :| 0 <= i < |s| && s[i] == c;
      }
    }
  }

  lemma HexChar(c: char)
    ensures IsHex(c) <==> c in "0123456789abcdefABCDEF"
  {
    var digits := "0123456789abcdefABCDEF";
    if '0' <= c <= '9' {
      assert digits[c as int - '0' as int] == c;
    } else if 'a' <= c <= 'f' {
      assert digits[10 + (c as int - 'a' as int)] == c;
    } else if 'A' <= c <= 'F' {
      assert digits[16 + (c as int - 'A' as int)] == c;
    }
  }

  lemma {:induction false} TrimsBlank(s: string)
    requires Blank(s)
    ensures TrimStart(s) == "" && TrimEnd("") == ""
  {
    if s != [] {
      TrimsBlank(s[1..]);
    }
  }

  lemma {:induction false} TrimsStart(before: string, s: string)
    requires Blank(before) && s != [] && !IsSpace(s[0])
    ensures TrimStart(before + s) == s
  {
    if before == [] {
      assert before + s == s;
    } else {
      assert (before + s)[1..] == before[1..] + s;
      TrimsStart(before[1..], s);
    }
  }

  lemma {:induction false} TrimsEnd(s: string, after: string)
    requires Blank(after) && s != [] && !IsSpace(s[|s| - 1])
    ensures TrimEnd(s + after) == s
  {
    if after == [] {
      assert s + after == s;
    } else {
      var n := |s + after| - 1;
      assert (s + after)[..n] == s + after[..|after| - 1];
      TrimsEnd(s, after[..|after| - 1]);
    }
  }

  lemma TrimsTo(before: string, s: string, after: string)
    requires Blank(before) && Blank(after) && s != [] && !IsSpace(s[0]) && !IsSpace(s[|s| - 1])
    ensures TrimEnd(TrimStart(before + s + after)) == s
  {
    ConcatAssoc(before, s, after);
    TrimsStart(before, s + after);
    TrimsEnd(s, after);
  }

  class Host {
    var head: FileState
    var log: FileState
    var locked: bool
    var sidecars: map<Path, Manifest>

    constructor ()
      ensures Snapshot() == EMPTY && !locked
    {
      head, log, locked, sidecars := Absent, Absent, false, map[];
    }

    function Snapshot(): Disk
      reads this
    {
      Disk(head, log, sidecars)
    }

    /** `ChainLock::acquire` waits until the lock is free. */
    method Acquire()
      requires !locked
      modifies this`locked
      ensures locked
    {
      locked := true;
    }

    method Release()
      modifies this`locked
      ensures !locked
    {
      locked := false;
    }

    method ReadHead() returns (r: Result<string, ChainFault>)
      ensures r == HeadValue(head)
    {
      if head.Absent? {
        return Ok(GENESIS_PREV);
      }
      if head.Unreadable? {
        return Err(HeadUnreadable);
      }
      var trimmed := TrimEnd(TrimStart(head.content));
      if |trimmed| != 64 || exists i :: 0 <= i < |trimmed| && !IsHex(trimmed[i]) {
        return Err(HeadMalformed);
      }
      return Ok(trimmed);
    }

    /** The temporary file is renamed over `head.hash`; the directory sync behind it can still fail. */
    method WriteHead(hash: string, fault: Fault) returns (r: Result<(), ChainFault>)
      modifies this`head
      ensures |hash| != 64 ==> r == Err(BadHashLength) && head == old(head)
      ensures |hash| == 64 ==>
        && r == (if fault.Clean? then Ok(()) else Err(HeadFailed))
        && head == if fault.FailsBefore? then old(head) else Holds(hash)
    {
      if |hash| != 64 {
        return Err(BadHashLength);
      }
      if fault.FailsBefore? {
        return Err(HeadFailed);
      }
      head := Holds(hash);
      if fault.FailsAfter? {
        return Err(HeadFailed);
      }
      return Ok(());
    }

    method ReadLogTip() returns (r: Result<string, LogError>)
      ensures var text := LogText(log);
        r == if text.Err? then Err(text.error) else ReadTip(Lines(text.value))
    {
      var text := LogText(log);
      if text.Err? {
        return Err(text.error);
      }
      var lines := Lines(text.value);
      var i := |lines|;
      while i > 0 && Blank(lines[i - 1])
        invariant 0 <= i <= |lines| && ReadTip(lines) == TipUpTo(lines, i)
      {
        i := i - 1;
      }
      if i == 0 {
        return Ok(GENESIS_PREV);
      }
      var fields := Words(lines[i - 1]);
      if |fields| == LOG_FIELDS_LEGACY {
        return Ok(GENESIS_PREV);
      }
      if |fields| == LOG_FIELDS_SIGNED {
        return Ok(fields[6]);
      }
      return Err(TailFieldCount(|fields|));
    }

    /** A rejected field or an unreadable tail leaves the file as it was. */
    method AppendLog(k: Suite, rec: Record, fault: Fault) returns (r: Result<(), LogError>)
      modifies this`log
      ensures var text := LogAfter(k, old(log), rec);
        if text.Err? then r == Err(text.error) && log == old(log)
        else
          && r == (if fault.Clean? then Ok(()) else Err(WriteFailed))
          && log == if fault.FailsBefore? then old(log) else Holds(text.value)
    {
      var unsafeName := UnsafeLabel(rec);
      if unsafeName.Some? {
        return Err(UnsafeField(unsafeName.value));
      }
      var logPrev := ReadLogTip();
      if logPrev.Err? {
        return Err(logPrev.error);
      }
      var line := LogLine(k, rec, logPrev.value) + "\n";
      if fault.FailsBefore? {
        return Err(WriteFailed);
      }
      log := Holds((if log.Holds? then log.content else "") + line);
      if fault.FailsAfter? {
        return Err(WriteFailed);
      }
      return Ok(());
    }

    method VerifyLog(k: Suite) returns (r: Result<LogVerification, LogError>)
      ensures var verdict := LogVerdict(k, log);
        r == if verdict.Err? then Err(verdict.error) else Ok(verdict.value.seen)
    {
      var text := LogText(log);
      if text.Err? {
        return Err(text.error);
      }
      r := VerifyLines(k, Lines(text.value));
    }

    static method VerifyLines(k: Suite, lines: seq<string>) returns (r: Result<LogVerification, LogError>)
      ensures var verdict := ReadLines(k, lines);
        r == if verdict.Err? then Err(verdict.error) else Ok(verdict.value.seen)
    {
      var entries: seq<LogEntry>, legacyLines: nat, signedLines: nat := [], 0, 0;
      var expectedPrev := GENESIS_PREV;
      var i := 0;
      while i < |lines|
        invariant 0 <= i <= |lines|
        invariant ReadUpTo(k, lines, i)
          == Ok(Scan(LogVerification(entries, legacyLines, signedLines), expectedPrev))
      {
        ghost var st := Scan(LogVerification(entries, legacyLines, signedLines), expectedPrev);
        var raw, lineno := lines[i], i + 1;
        LineVerdict(k, lines, i, st);
        i := i + 1;
        if Blank(raw) {
          continue;
        }
        var f := Words(raw);
        if |f| == LOG_FIELDS_LEGACY {
          if signedLines > 0 {
            return Err(Downgraded(lineno));
          }
          legacyLines := legacyLines + 1;
          var part := ParseU32(f[3]);
          if part.None? {
            return Err(PartNotNumber(lineno));
          }
          entries := entries + [LogEntry(Record.Record(f[0], f[1], f[2], part.value, f[4]), None)];
        } else if |f| == LOG_FIELDS_SIGNED {
          var part := ParseU32(f[3]);
          if part.None? {
            return Err(PartNotNumber(lineno));
          }
          var rec := Record.Record(f[0], f[1], f[2], part.value, f[4]);
          var digest := LogDigest(k, rec, f[5]);
          if digest != f[6] {
            return Err(HashMismatch(lineno));
          }
          if !k.accepts(digest, f[7]) {
            return Err(LineSignature(lineno));
          }
          if f[5] != expectedPrev {
            return Err(BrokenLink(lineno));
          }
          expectedPrev := f[6];
          signedLines := signedLines + 1;
          entries := entries + [LogEntry(rec, Some(f[6]))];
        } else {
          return Err(FieldCount(lineno, |f|));
        }
      }
      return Ok(LogVerification(entries, legacyLines, signedLines));
    }

    /** The sidecar is written to a temporary file and renamed into place. */
    method PlaceSidecar(j: Job, m: Manifest, fault: Fault) returns (r: Result<(), ChainFault>)
      modifies this`sidecars
      ensures r == if fault.Clean? then Ok(()) else Err(SidecarFailed)
      ensures sidecars == if fault.FailsBefore? then old(sidecars) else old(sidecars)[SidecarOf(RecordingOf(j)) := m]
    {
      if fault.FailsBefore? {
        return Err(SidecarFailed);
      }
      sidecars := sidecars[SidecarOf(RecordingOf(j)) := m];
      return if fault.Clean? then Ok(()) else Err(SidecarFailed);
    }

    /** The three writes, in order, each only after the one before it succeeded. */
    method Advance(k: Suite, j: Job, secs: nat, m: Manifest, sidecarFault: Fault, headFault: Fault, logFault: Fault)
        returns (r: Result<(), ChainFault>, ghost reach: Reach)
      modifies this`sidecars, this`head, this`log
      ensures Snapshot() == Reached(k, old(Snapshot()), j, secs, m, reach)
      ensures r.Ok? ==> reach == LogAppended && LogAfter(k, old(log), RecordFor(j, secs, m.thisManifestHash)).Ok?
    {
      reach := if sidecarFault.FailsBefore? then Nothing else SidecarPlaced;
      var placed := PlaceSidecar(j, m, sidecarFault);
      if placed.Err? {
        return Err(placed.error), reach;
      }
      if |m.thisManifestHash| == 64 && !headFault.FailsBefore? {
        reach := HeadAdvanced;
      }
      var advanced := WriteHead(m.thisManifestHash, headFault);
      if advanced.Err? {
        return Err(advanced.error), reach;
      }
      var appended := AppendLog(k, RecordFor(j, secs, m.thisManifestHash), logFault);
      if !logFault.FailsBefore? {
        reach := LogAppended;
      }
      return if appended.Err? then Err(LogFailed(appended.error)) else Ok(()), reach;
    }

    /**
     `write_manifest_and_advance`: whatever fails, the disk is left as the transaction leaves it at the
     point it reached, and success means every step was taken.
     */
    method WriteManifestAndAdvance(k: Suite, b: Build, j: Job, clock: Clock,
                                   sidecarFault: Fault, headFault: Fault, logFault: Fault)
        returns (r: Result<string, ChainFault>, ghost reach: Reach)
      requires !locked
      modifies this
      ensures !locked
      ensures Snapshot() == Apply(k, b, old(Snapshot()), Txn(j, clock, reach))
      ensures r.Ok? ==>
        && reach == LogAppended
        && HeadValue(old(head)).Ok?
        && r.value == Signed(k, DraftFor(k, b, j, HeadValue(old(head)).value, clock.now)).thisManifestHash
        && LogAfter(k, old(log), RecordFor(j, clock.secs, r.value)).Ok?
    {
      reach := Nothing;
      Acquire();
      var prev := ReadHead();
      if prev.Err? {
        Release();
        return Err(prev.error), reach;
      }
      var draft := new Draft(DraftFor(k, b, j, prev.value, clock.now));
      var hash := draft.Sign(k);
      var advanced;
      advanced, reach := Advance(k, j, clock.secs, draft.manifest, sidecarFault, headFault, logFault);
      Release();
      return if advanced.Err? then Err(advanced.error) else Ok(hash), reach;
    }
  }
}
