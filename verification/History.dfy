/**
 Transactions one after the other, each reaching any of its stages: what the chain directory then holds,
 and exactly when the chain check passes on it.
 */
module History {
  import opened Wrappers
  import opened Sequences
  import opened Manifests
  import opened Text
  import opened Signing
  import opened Deletion
  import opened ChainLog
  import opened Calendar
  import opened ChainDir

  /**
   The disk, and what led to it: the sidecars in order of placement, split into committed manifests and
   orphans no head was advanced to, the log's lines, and what the log verifier makes of them.
   */
  datatype World = World(
    disk: Disk,
    paths: seq<Path>,
    placed: seq<Manifest>,
    chain: seq<Manifest>,
    orphans: seq<Manifest>,
    logged: seq<Logged>,
    scan: Scan)

  /** A line of the log, with the position in the chain of the manifest it names. */
  datatype Logged = Logged(at: nat, record: Record)

  const NEW_WORLD: World := World(EMPTY, [], [], [], [], [], START)

  /** A sidecar placed by a transaction that then stopped. */
  function WithOrphan(w: World, path: Path, m: Manifest): World {
    w.(disk := w.disk.(sidecars := w.disk.sidecars[path := m]), paths := w.paths + [path],
       placed := w.placed + [m], orphans := w.orphans + [m])
  }

  /** A sidecar placed and the head advanced to it. */
  function WithCommit(w: World, path: Path, m: Manifest): World {
    w.(disk := w.disk.(sidecars := w.disk.sidecars[path := m], head := Holds(m.thisManifestHash)),
       paths := w.paths + [path], placed := w.placed + [m], chain := w.chain + [m])
  }

  /** A line appended for the last committed manifest. */
  function WithLine(k: Suite, w: World, text: string, record: Record): World
    requires w.chain != []
  {
    w.(disk := w.disk.(log := Holds(text)), logged := w.logged + [Logged(|w.chain| - 1, record)],
       scan := Extended(k, w.scan, record))
  }

  /** The world once a signed manifest, with its log line, has been taken as far as `reach`. */
  function Grow(k: Suite, w: World, path: Path, m: Manifest, record: Record, text: Result<string, LogError>,
                reach: Reach): World
  {
    match reach
    case Nothing => w
    case SidecarPlaced => WithOrphan(w, path, m)
    case HeadAdvanced => WithCommit(w, path, m)
    case LogAppended =>
      if text.Err? then WithCommit(w, path, m) else WithLine(k, WithCommit(w, path, m), text.value, record)
  }

  function Extend(k: Suite, b: Build, w: World, t: Txn): World {
    var signed := SignedFor(k, b, w.disk, t);
    if signed.Err? then w
    else
      var m := signed.value;
      var record := RecordFor(t.job, t.clock.secs, m.thisManifestHash);
      Grow(k, w, SidecarOf(RecordingOf(t.job)), m, record, LogAfter(k, w.disk.log, record), t.reach)
  }

  /** The bookkeeping follows the disk. */
  lemma ExtendApplies(k: Suite, b: Build, w: World, t: Txn)
    ensures Extend(k, b, w, t).disk == Apply(k, b, w.disk, t)
  {}

  function Replay(k: Suite, b: Build, ts: seq<Txn>): World {
    if ts == [] then NEW_WORLD else Extend(k, b, Replay(k, b, ts[..|ts| - 1]), ts[|ts| - 1])
  }

  // ----- What the recorder has checked before it writes

  predicate IsIdChar(c: char) {
    'a' <= c <= 'z' || 'A' <= c <= 'Z' || '0' <= c <= '9' || c == '.' || c == '_' || c == '-'
  }

  /** `validate` with the identifier alphabet. */
  predicate ValidId(s: string, maxLength: nat) {
    0 < |s| <= maxLength && forall i :: 0 <= i < |s| ==> IsIdChar(s[i])
  }

  predicate IsSuffixChar(c: char) {
    'a' <= c <= 'z' || 'A' <= c <= 'Z' || '0' <= c <= '9' || c == '.'
  }

  predicate ValidSuffix(s: string) {
    1 < |s| <= 32 && s[0] == '.' && s[1] != '.' && forall i :: 0 < i < |s| ==> IsSuffixChar(s[i])
  }

  predicate ValidJob(j: Job) {
    ValidId(j.username, 64) && ValidId(j.sessionId, 128) && ValidSuffix(j.suffix)
  }

  lemma ValidIdIsSafe(s: string, maxLength: nat)
    requires ValidId(s, maxLength)
    ensures SafeField(s)
  {}

  lemma DigestIsSafe(s: string)
    requires IsDigest(s)
    ensures SafeField(s)
  {}

  lemma DigitsAreSafe(s: string)
    requires AllDigits(s)
    ensures forall i :: 0 <= i < |s| ==> !IsSpace(s[i]) && s[i] != '\0'
  {}

  lemma SafeConcat(a: string, b: string)
    requires SafeField(a) && SafeField(b)
    ensures SafeField(a + b)
  {}

  lemma TimestampIsSafe(secs: nat)
    ensures SafeField(IsoTimestampUtc(secs))
  {
    EpochYears(secs / 86400);
    DaysAreDates(secs / 86400);
    DateIsSafe(DaysToYmd(secs / 86400));
    ClockIsSafe(secs % 86400);
    SafeConcat(DayText(DaysToYmd(secs / 86400)), ClockText(secs % 86400));
  }

  lemma DateIsSafe(t: Date)
    requires ValidDate(t) && t.y >= 0
    ensures SafeField(DayText(t))
  {
    DigitsAreSafe(Pad4(t.y));
    DigitsAreSafe(Pad2(t.m));
    DigitsAreSafe(Pad2(t.d));
    SafeConcat("-", Pad2(t.m));
    SafeConcat("-" + Pad2(t.m), "-");
    SafeConcat("-" + Pad2(t.m) + "-", Pad2(t.d));
    SafeConcat(Pad4(t.y), "-" + Pad2(t.m) + "-" + Pad2(t.d));
  }

  lemma ClockIsSafe(sod: nat)
    requires sod < 86400
    ensures SafeField(ClockText(sod))
  {
    var h, m, s := Pad2(sod / 3600), Pad2(sod % 3600 / 60), Pad2(sod % 60);
    DigitsAreSafe(h);
    DigitsAreSafe(m);
    DigitsAreSafe(s);
    SafeConcat("T", h);
    SafeConcat("T" + h, ":");
    SafeConcat("T" + h + ":", m);
    SafeConcat("T" + h + ":" + m, ":");
    SafeConcat("T" + h + ":" + m + ":", s);
    SafeConcat("T" + h + ":" + m + ":" + s, "Z");
  }

  /** A validated job's record can always be logged. */
  lemma ValidJobLogs(k: Suite, j: Job, secs: nat, hash: string)
    requires ValidJob(j) && IsDigest(hash)
    ensures UnsafeLabel(RecordFor(j, secs, hash)).None?
  {
    TimestampIsSafe(secs);
    ValidIdIsSafe(j.username, 64);
    ValidIdIsSafe(j.sessionId, 128);
    DigestIsSafe(hash);
  }

  // ----- What every transaction keeps, whatever stage it reaches

  ghost predicate Hashed(k: Suite, m: Manifest) {
    m.thisManifestHash == ManifestHash(k, m)
  }

  /** The committed manifests are linked from GENESIS, and `head.hash` names the last of them. */
  ghost predicate Chained(k: Suite, w: World) {
    && (forall m {:trigger Hashed(k, m)} :: m in w.chain || m in w.orphans ==> Hashed(k, m))
    && (w.chain != [] ==> w.chain[0].prevManifestHash == GENESIS_PREV)
    && (forall i, j :: 0 <= i < j == i + 1 < |w.chain| ==> w.chain[j].prevManifestHash == w.chain[i].thisManifestHash)
    && w.disk.head == (if w.chain == [] then Absent else Holds(w.chain[|w.chain| - 1].thisManifestHash))
    && (forall m {:trigger Hangs(m, w.chain)} :: m in w.orphans ==> Hangs(m, w.chain))
  }

  /** The log verifies by itself, up to its last newline. */
  ghost predicate LogReads(k: Suite, log: FileState, scan: Scan) {
    LogText(log).Ok? && TextReads(k, LogText(log).value, scan)
  }

  /** Its lines name committed manifests, in chain order. */
  ghost predicate LinesMatch(entries: seq<LogEntry>, logged: seq<Logged>, chain: seq<Manifest>) {
    && |entries| == |logged|
    && (forall i :: 0 <= i < |entries| ==> entries[i].record == logged[i].record && entries[i].logHash.Some?)
    && (forall i :: 0 <= i < |logged| ==>
         logged[i].at < |chain| && logged[i].record.manifestHash == chain[logged[i].at].thisManifestHash)
    && forall i, j :: 0 <= i < j < |logged| ==> logged[i].at < logged[j].at
  }

  /** `placed[i]` is on disk under `paths[i]`, and nothing else is. */
  ghost predicate PlacedAt(sidecars: map<Path, Manifest>, paths: seq<Path>, placed: seq<Manifest>) {
    && |paths| == |placed| && NoDup(paths)
    && (forall p :: p in sidecars <==> p in paths)
    && forall i :: 0 <= i < |paths| ==> paths[i] in sidecars && sidecars[paths[i]] == placed[i]
  }

  /** A sidecar lies beside the recording it names. */
  predicate SelfNamed(p: Path, m: Manifest) {
    p == SidecarOf(Path(m.user, m.recordingFile))
  }

  predicate Source(w: World, p: Path) {
    p in w.disk.sidecars ==> p in w.paths && w.disk.sidecars[p] in w.placed && SelfNamed(p, w.disk.sidecars[p])
  }

  /** Every sidecar on disk is a committed manifest or an orphan, under the path its own fields give. */
  ghost predicate Sourced(w: World) {
    && multiset(w.placed) == multiset(w.chain) + multiset(w.orphans)
    && forall p {:trigger Source(w, p)} :: Source(w, p)
  }

  /** No placed manifest has been overwritten. */
  ghost predicate Placing(w: World) {
    PlacedAt(w.disk.sidecars, w.paths, w.placed)
  }

  /** `m` verifies, and vouches for this job's recording. */
  ghost predicate Describes(k: Suite, m: Manifest, j: Job) {
    && Verify(k, m).Ok? && m.user == j.username && m.recordingFile == RecordingOf(j).file
    && m.recordingSha256 == k.shaFile(j.content)
  }

  lemma NextManifest(k: Suite, b: Build, w: World, t: Txn)
    requires Sound(k) && Chained(k, w)
    ensures SignedFor(k, b, w.disk, t).Ok?
    ensures var m := SignedFor(k, b, w.disk, t).value;
      && Hashed(k, m) && IsDigest(m.thisManifestHash)
      && m.prevManifestHash == (if w.chain == [] then GENESIS_PREV else w.chain[|w.chain| - 1].thisManifestHash)
      && Describes(k, m, t.job)
  {
    if w.chain != [] {
      var last := w.chain[|w.chain| - 1];
      assert Hashed(k, last) && IsDigest(ManifestHash(k, last));
      WrittenHeadReads(last.thisManifestHash);
    }
    var draft := DraftFor(k, b, t.job, HeadValue(w.disk.head).value, t.clock.now);
    SignedVerifies(k, draft);
  }

  /** What a manifest must be to follow this world. */
  ghost predicate NextInChain(k: Suite, w: World, m: Manifest) {
    && Hashed(k, m)
    && m.prevManifestHash == if w.chain == [] then GENESIS_PREV else w.chain[|w.chain| - 1].thisManifestHash
  }

  // Each of the three ways the world grows keeps each of its parts.

  lemma HangsOnLonger(m: Manifest, chain: seq<Manifest>, next: Manifest)
    requires Hangs(m, chain)
    ensures Hangs(m, chain + [next])
  {
    if m.prevManifestHash != GENESIS_PREV {
      var i :| 0 <= i < |chain| && chain[i].thisManifestHash == m.prevManifestHash;
      assert (chain + [next])[i] == chain[i];
    }
  }

  lemma OrphanChained(k: Suite, w: World, path: Path, m: Manifest)
    requires Chained(k, w) && NextInChain(k, w, m)
    ensures Chained(k, WithOrphan(w, path, m))
  {
    assert Hangs(m, w.chain);
  }

  lemma CommitChained(k: Suite, w: World, path: Path, m: Manifest)
    requires Chained(k, w) && NextInChain(k, w, m)
    ensures Chained(k, WithCommit(w, path, m))
  {
    var v := WithCommit(w, path, m);
    assert forall i :: 0 <= i < |w.chain| ==> v.chain[i] == w.chain[i];
    assert forall x :: x in v.chain ==> x in w.chain || x == m;
    forall x | x in v.orphans ensures Hangs(x, v.chain) {
      HangsOnLonger(x, w.chain, m);
    }
  }

  lemma LineChained(k: Suite, w: World, text: string, record: Record)
    requires Chained(k, w) && w.chain != []
    ensures Chained(k, WithLine(k, w, text, record))
  {}

  lemma LogAfterAppends(k: Suite, log: FileState, record: Record, content: string)
    requires UnsafeLabel(record).None? && LogText(log) == Ok(content)
    ensures LogAfter(k, log, record) == Append(k, content, record)
  {}

  lemma HoldsReads(k: Suite, text: string, scan: Scan)
    requires TextReads(k, text, scan)
    ensures LogReads(k, Holds(text), scan)
  {
    assert LogText(Holds(text)) == Ok(text);
  }

  lemma LogGrows(k: Suite, log: FileState, scan: Scan, record: Record) returns (text: string)
    requires Sound(k) && UnsafeLabel(record).None? && LogReads(k, log, scan)
    ensures LogAfter(k, log, record) == Ok(text) && LogReads(k, Holds(text), Extended(k, scan, record))
    ensures LogText(log).value <= text
  {
    var content := LogText(log).value;
    text := TextGrows(k, content, scan, record);
    LogAfterAppends(k, log, record, content);
    HoldsReads(k, text, Extended(k, scan, record));
  }

  lemma LineMatches(entries: seq<LogEntry>, logged: seq<Logged>, chain: seq<Manifest>, entry: LogEntry)
    requires LinesMatch(entries, logged, chain) && chain != [] && entry.logHash.Some?
    requires entry.record.manifestHash == chain[|chain| - 1].thisManifestHash
    requires logged == [] || logged[|logged| - 1].at < |chain| - 1
    ensures LinesMatch(entries + [entry], logged + [Logged(|chain| - 1, entry.record)], chain)
  {}

  lemma LongerChainMatches(entries: seq<LogEntry>, logged: seq<Logged>, chain: seq<Manifest>, m: Manifest)
    requires LinesMatch(entries, logged, chain)
    ensures LinesMatch(entries, logged, chain + [m])
  {
    assert forall i :: 0 <= i < |chain| ==> (chain + [m])[i] == chain[i];
  }

  lemma PlaceOneMore(sidecars: map<Path, Manifest>, paths: seq<Path>, placed: seq<Manifest>, path: Path, m: Manifest)
    requires PlacedAt(sidecars, paths, placed) && path !in sidecars
    ensures PlacedAt(sidecars[path := m], paths + [path], placed + [m])
  {
    var more := paths + [path];
    forall i | 0 <= i < |more|
      ensures more[i] in sidecars[path := m] && sidecars[path := m][more[i]] == (placed + [m])[i]
    {
      if i < |paths| { assert more[i] == paths[i] && paths[i] in sidecars; }
    }
  }

  /** What every transaction keeps, even one that overwrites a sidecar. */
  ghost predicate Kept(k: Suite, w: World) {
    Chained(k, w) && LinesMatch(w.scan.seen.entries, w.logged, w.chain) && Sourced(w)
  }

  ghost predicate Sane(k: Suite, w: World) {
    Kept(k, w) && Placing(w)
  }

  lemma GrowSourced(w: World, path: Path, m: Manifest)
    requires Sourced(w) && SelfNamed(path, m)
    ensures Sourced(WithOrphan(w, path, m)) && Sourced(WithCommit(w, path, m))
  {
    assert multiset(w.placed + [m]) == multiset(w.placed) + multiset{m};
    assert multiset(w.chain + [m]) == multiset(w.chain) + multiset{m};
    assert multiset(w.orphans + [m]) == multiset(w.orphans) + multiset{m};
    forall p ensures Source(WithOrphan(w, path, m), p) && Source(WithCommit(w, path, m), p) {
      assert Source(w, p);
    }
  }

  lemma LineSourced(k: Suite, w: World, text: string, record: Record)
    requires Sourced(w) && w.chain != []
    ensures Sourced(WithLine(k, w, text, record))
  {
    forall p ensures Source(WithLine(k, w, text, record), p) {
      assert Source(w, p);
    }
  }

  lemma CommitKept(k: Suite, w: World, path: Path, m: Manifest)
    requires Kept(k, w) && NextInChain(k, w, m) && SelfNamed(path, m)
    ensures Kept(k, WithCommit(w, path, m)) && Kept(k, WithOrphan(w, path, m))
  {
    GrowSourced(w, path, m);
    OrphanChained(k, w, path, m);
    CommitChained(k, w, path, m);
    LongerChainMatches(w.scan.seen.entries, w.logged, w.chain, m);
  }

  lemma LineKept(k: Suite, w: World, text: string, record: Record)
    requires Kept(k, w) && w.chain != []
    requires record.manifestHash == w.chain[|w.chain| - 1].thisManifestHash
    requires w.logged == [] || w.logged[|w.logged| - 1].at < |w.chain| - 1
    ensures Kept(k, WithLine(k, w, text, record))
  {
    LineChained(k, w, text, record);
    LineSourced(k, w, text, record);
    LineMatches(w.scan.seen.entries, w.logged, w.chain,
                LogEntry(record, Some(LogDigest(k, record, w.scan.expectedPrev))));
  }

  lemma LineFollows(k: Suite, w: World, path: Path, m: Manifest, text: string, record: Record)
    requires Kept(k, WithCommit(w, path, m)) && record.manifestHash == m.thisManifestHash
    requires w.logged == [] || w.logged[|w.logged| - 1].at < |w.chain|
    ensures Kept(k, WithLine(k, WithCommit(w, path, m), text, record))
  {
    LineKept(k, WithCommit(w, path, m), text, record);
  }

  lemma GrowKept(k: Suite, w: World, path: Path, m: Manifest, record: Record, text: string, reach: Reach)
    requires Kept(k, w) && NextInChain(k, w, m) && SelfNamed(path, m)
    requires record.manifestHash == m.thisManifestHash
    ensures Kept(k, Grow(k, w, path, m, record, Ok(text), reach))
  {
    match reach
    case Nothing =>
    case SidecarPlaced => CommitKept(k, w, path, m);
    case HeadAdvanced => CommitKept(k, w, path, m);
    case LogAppended => CommitKept(k, w, path, m); LineFollows(k, w, path, m, text, record);
  }

  lemma GrowPlacing(k: Suite, w: World, path: Path, m: Manifest, record: Record, text: string, reach: Reach)
    ensures var v := Grow(k, w, path, m, record, Ok(text), reach);
      && (Placing(w) && path !in w.disk.sidecars ==> Placing(v))
      && (v.paths == w.paths || v.paths == w.paths + [path])
  {
    if Placing(w) && path !in w.disk.sidecars {
      PlaceOneMore(w.disk.sidecars, w.paths, w.placed, path, m);
    }
  }

  /** What a transaction does to the world, in terms of its manifest and its log line. */
  lemma ExtendGrows(k: Suite, b: Build, w: World, t: Txn) returns (m: Manifest, record: Record, text: string)
    requires Sound(k) && Kept(k, w) && LogReads(k, w.disk.log, w.scan) && ValidJob(t.job)
    ensures Extend(k, b, w, t) == Grow(k, w, SidecarOf(RecordingOf(t.job)), m, record, Ok(text), t.reach)
    ensures NextInChain(k, w, m) && Describes(k, m, t.job) && record.manifestHash == m.thisManifestHash
    ensures UnsafeLabel(record).None?
    ensures LogReads(k, Holds(text), Extended(k, w.scan, record)) && LogText(w.disk.log).value <= text
  {
    NextManifest(k, b, w, t);
    m := SignedFor(k, b, w.disk, t).value;
    record := RecordFor(t.job, t.clock.secs, m.thisManifestHash);
    ValidJobLogs(k, t.job, t.clock.secs, m.thisManifestHash);
    text := LogGrows(k, w.disk.log, w.scan, record);
  }

  predicate ValidJobs(ts: seq<Txn>) {
    forall t :: t in ts ==> ValidJob(t.job)
  }

  /** The recordings named are pairwise distinct. */
  predicate Distinct(ts: seq<Txn>) {
    forall i, j :: 0 <= i < j < |ts| ==> RecordingOf(ts[i].job) != RecordingOf(ts[j].job)
  }

  /** Every recording of the run is a file of its own. */
  predicate FreshJobs(ts: seq<Txn>) {
    ValidJobs(ts) && Distinct(ts)
  }

  lemma SidecarInjective(p: Path, q: Path)
    ensures SidecarOf(p) == SidecarOf(q) <==> p == q
  {
    if SidecarOf(p) == SidecarOf(q) {
      var s, t := SidecarOf(p).file, SidecarOf(q).file;
      assert |p.file| == |q.file|;
      assert p.file == s[..|p.file|] && q.file == t[..|q.file|];
    }
  }

  lemma GrowReads(k: Suite, w: World, path: Path, m: Manifest, record: Record, text: string, reach: Reach)
    requires LogReads(k, w.disk.log, w.scan) && LogReads(k, Holds(text), Extended(k, w.scan, record))
    ensures var v := Grow(k, w, path, m, record, Ok(text), reach); LogReads(k, v.disk.log, v.scan)
  {}

  lemma ExtendKept(k: Suite, b: Build, w: World, t: Txn)
    requires Sound(k) && Kept(k, w) && LogReads(k, w.disk.log, w.scan) && ValidJob(t.job)
    ensures var v, path := Extend(k, b, w, t), SidecarOf(RecordingOf(t.job));
      && Kept(k, v) && LogReads(k, v.disk.log, v.scan)
      && (Placing(w) && path !in w.disk.sidecars ==> Placing(v))
      && (v.paths == w.paths || v.paths == w.paths + [path])
  {
    var m, record, text := ExtendGrows(k, b, w, t);
    var path := SidecarOf(RecordingOf(t.job));
    assert Path(m.user, m.recordingFile) == RecordingOf(t.job);
    GrowKept(k, w, path, m, record, text, t.reach);
    GrowPlacing(k, w, path, m, record, text, t.reach);
    GrowReads(k, w, path, m, record, text, t.reach);
  }

  /** Where the sidecars of a run lie. */
  ghost predicate PathsFrom(paths: seq<Path>, ts: seq<Txn>) {
    forall p :: p in paths ==> exists i :: 0 <= i < |ts| && p == SidecarOf(RecordingOf(ts[i].job))
  }

  lemma LongerPathsFrom(paths: seq<Path>, more: seq<Path>, ts: seq<Txn>, t: Txn)
    requires PathsFrom(paths, ts)
    requires forall p :: p in more ==> p in paths || p == SidecarOf(RecordingOf(t.job))
    ensures PathsFrom(more, ts + [t])
  {
    forall p | p in more ensures exists i :: 0 <= i < |ts + [t]| && p == SidecarOf(RecordingOf((ts + [t])[i].job)) {
      if p in paths {
        var i :| 0 <= i < |ts| && p == SidecarOf(RecordingOf(ts[i].job));
        assert (ts + [t])[i] == ts[i];
      } else {
        assert (ts + [t])[|ts|] == t;
      }
    }
  }

  lemma FreshPath(w: World, ts: seq<Txn>, t: Txn)
    requires Sourced(w) && PathsFrom(w.paths, ts) && Distinct(ts + [t])
    ensures SidecarOf(RecordingOf(t.job)) !in w.disk.sidecars
  {
    var path, all := SidecarOf(RecordingOf(t.job)), ts + [t];
    assert all[|ts|] == t && forall i :: 0 <= i < |ts| ==> all[i] == ts[i];
    assert Source(w, path);
    if path in w.paths {
      var i :| 0 <= i < |ts| && path == SidecarOf(RecordingOf(ts[i].job));
      SidecarInjective(RecordingOf(ts[i].job), RecordingOf(t.job));
      assert false;
    }
  }

  lemma NewWorldSane(k: Suite)
    ensures Sane(k, NEW_WORLD) && LogReads(k, NEW_WORLD.disk.log, NEW_WORLD.scan)
  {
    assert Lines("") == [];
  }

  /** What holds of a world that transactions led to. */
  ghost predicate Led(k: Suite, w: World, ts: seq<Txn>) {
    Kept(k, w) && LogReads(k, w.disk.log, w.scan) && PathsFrom(w.paths, ts)
  }

  lemma ExtendLed(k: Suite, b: Build, w: World, ts: seq<Txn>, t: Txn)
    requires Sound(k) && Led(k, w, ts) && ValidJob(t.job)
    ensures Led(k, Extend(k, b, w, t), ts + [t])
    ensures Placing(w) && Distinct(ts + [t]) ==> Placing(Extend(k, b, w, t))
  {
    ExtendKept(k, b, w, t);
    LongerPathsFrom(w.paths, Extend(k, b, w, t).paths, ts, t);
    if Distinct(ts + [t]) {
      FreshPath(w, ts, t);
    }
  }

  lemma FewerDistinct(ts: seq<Txn>, n: nat)
    requires Distinct(ts) && n <= |ts|
    ensures Distinct(ts[..n])
  {}

  /** The whole run keeps chain, head and log consistent; if its recordings are distinct, no sidecar is lost. */
  lemma {:induction false} ReplaySane(k: Suite, b: Build, ts: seq<Txn>)
    requires Sound(k) && ValidJobs(ts)
    ensures Led(k, Replay(k, b, ts), ts)
    ensures Distinct(ts) ==> Sane(k, Replay(k, b, ts))
  {
    if ts == [] {
      NewWorldSane(k);
    } else {
      var init, t := ts[..|ts| - 1], ts[|ts| - 1];
      assert ts == init + [t];
      ReplaySane(k, b, init);
      if Distinct(ts) {
        FewerDistinct(ts, |init|);
      }
      ExtendLed(k, b, Replay(k, b, init), init, t);
    }
  }
}
