/** From recorders that interleave on one host to the verifier's verdict on the tree they wrote. */
module EndToEnd {
  import opened Wrappers
  import opened Manifests
  import opened Text
  import opened StreamReader
  import opened Signing
  import opened ChainLog
  import opened ChainDir
  import opened History
  import opened Quiescence
  import opened Corpus
  import opened Retention
  import opened Protocol
  import opened Verdict
  import Rotation
  import Session

  // ----- From the parts of a session to the transactions that sign them

  /** The transaction of part `i`: its own chunks and end, under the header of part 0. */
  function JobFor(user: string, env: Rotation.Env, ts: seq<Session.Turn>, i: nat, content: FileBytes): Job
    requires Session.Headed(ts) && i < |ts|
  {
    var end := ts[i].end;
    Job(user, env.sessionId, ts[i].c.number, env.suffix, ts[0].end.header.value, end.chunks, end.endReason,
        end.exitCode, content)
  }

  /** The parts of a session are recordings of their own, under the names they were created with. */
  lemma SessionJobsAreFresh(user: string, env: Rotation.Env, taken: set<string>, rs: Records, i: nat, j: nat,
                            ci: FileBytes, cj: FileBytes)
    requires Session.Run(env, Session.Start(taken), rs).Ok?
    requires ValidId(user, 64) && ValidId(env.sessionId, 128) && ValidSuffix(env.suffix)
    requires i < j < |Session.Run(env, Session.Start(taken), rs).value|
    ensures var ts := Session.Run(env, Session.Start(taken), rs).value;
      && Session.Headed(ts)
      && ValidJob(JobFor(user, env, ts, i, ci)) && ValidJob(JobFor(user, env, ts, j, cj))
      && RecordingOf(JobFor(user, env, ts, i, ci)) == Path(user, Session.PartName(env, i))
      && RecordingOf(JobFor(user, env, ts, j, cj)) == Path(user, Session.PartName(env, j))
      && Session.PartName(env, i) != Session.PartName(env, j)
  {
    var ts := Session.Run(env, Session.Start(taken), rs).value;
    Session.SessionLinks(env, taken, rs);
    assert Session.PartOf(env, ts[i]).number == i && Session.PartOf(env, ts[j]).number == j;
    Session.PartNamesTell(env, i, j);
  }

  // ----- The link in a part's header

  lemma ExtendSidecars(k: Suite, b: Build, w: World, t: Txn)
    ensures var signed, before := SignedFor(k, b, w.disk, t), w.disk.sidecars;
      Extend(k, b, w, t).disk.sidecars
        == if signed.Err? || t.reach.Nothing? then before else before[SidecarOf(RecordingOf(t.job)) := signed.value]
  {}

  /** What transaction `x` signs, on top of those before it. */
  function SignedAt(k: Suite, b: Build, history: seq<Txn>, x: nat): Result<Manifest, ChainFault>
    requires x < |history|
  {
    SignedFor(k, b, Replay(k, b, history[..x]).disk, history[x])
  }

  predicate Stored(sidecars: map<Path, Manifest>, j: Job, m: Manifest) {
    SidecarOf(RecordingOf(j)) in sidecars && sidecars[SidecarOf(RecordingOf(j))] == m
  }

  lemma PlacedNow(k: Suite, b: Build, w: World, t: Txn)
    requires Sound(k) && Kept(k, w) && !t.reach.Nothing?
    ensures var signed := SignedFor(k, b, w.disk, t);
      signed.Ok? && Stored(Extend(k, b, w, t).disk.sidecars, t.job, signed.value)
  {
    NextManifest(k, b, w, t);
    ExtendSidecars(k, b, w, t);
  }

  lemma StoredStays(k: Suite, b: Build, w: World, t: Txn, j: Job, m: Manifest)
    requires Stored(w.disk.sidecars, j, m) && RecordingOf(j) != RecordingOf(t.job)
    ensures Stored(Extend(k, b, w, t).disk.sidecars, j, m)
  {
    SidecarInjective(RecordingOf(j), RecordingOf(t.job));
    ExtendSidecars(k, b, w, t);
  }

  /** On distinct recordings, the sidecar a transaction placed is still there after all others. */
  lemma {:induction false} PlacedStays(k: Suite, b: Build, history: seq<Txn>, x: nat)
    requires Sound(k) && ValidJobs(history) && Distinct(history) && x < |history| && !history[x].reach.Nothing?
    ensures SignedAt(k, b, history, x).Ok?
    ensures Stored(Replay(k, b, history).disk.sidecars, history[x].job, SignedAt(k, b, history, x).value)
  {
    var last := |history| - 1;
    var init, t := history[..last], history[last];
    assert history == init + [t];
    if x < last {
      assert init[..x] == history[..x];
      FewerDistinct(history, last);
      PlacedStays(k, b, init, x);
      StoredStays(k, b, Replay(k, b, init), t, history[x].job, SignedAt(k, b, history, x).value);
    } else {
      ReplaySane(k, b, init);
      PlacedNow(k, b, Replay(k, b, init), t);
    }
  }

  /** Transaction `x` completed part `i`, and its hash is what `WriteManifestAndAdvance` gave back to the session. */
  predicate PartSigned(k: Suite, b: Build, user: string, env: Rotation.Env, ts: seq<Session.Turn>, i: nat,
                       history: seq<Txn>, x: nat)
    requires Session.Headed(ts) && i < |ts|
  {
    && x < |history| && history[x].reach.LogAppended?
    && history[x].job == JobFor(user, env, ts, i, history[x].job.content)
    && SignedAt(k, b, history, x).Ok? && env.manifest(i) == Some(SignedAt(k, b, history, x).value.thisManifestHash)
  }

  /** `synth` is the original header with part number `n` and this link, or null. */
  predicate LinksTo(env: Rotation.Env, raw: Value, n: U32, link: Option<string>, synth: Option<Bytes>) {
    var v := Session.WithLink(raw, n, link);
    && synth == Some(env.codec.render(v) + [NEWLINE])
    && (raw.Object? ==> Field(v, "prev_manifest_hash_link") == if link.Some? then String(link.value) else Null)
  }

  lemma SynthLinks(env: Rotation.Env, raw: Value, n: U32, link: Option<string>, synth: Option<Bytes>)
    requires synth == Some(env.codec.render(Session.WithLink(raw, n, link)) + [NEWLINE])
    ensures LinksTo(env, raw, n, link, synth)
  {
    if raw.Object? {
      Session.LinkedHeaderReads(env.codec, raw, n, link);
    }
  }

  lemma PartLink(env: Rotation.Env, taken: set<string>, rs: Records, ts: seq<Session.Turn>, i: nat)
    requires Session.Run(env, Session.Start(taken), rs) == Ok(ts) && i + 1 < |ts|
    ensures Session.Headed(ts) && ts[i].c.number == i && ts[i + 1].c.number == i + 1
    ensures LinksTo(env, ts[0].end.header.value.raw, ts[i + 1].c.number, env.manifest(i), ts[i + 1].synth)
  {
    Session.SessionLinks(env, taken, rs);
    assert Session.PartOf(env, ts[i]).number == i && Session.PartOf(env, ts[i + 1]).number == i + 1;
    SynthLinks(env, ts[0].end.header.value.raw, ts[i + 1].c.number, env.manifest(i), ts[i + 1].synth);
  }

  lemma PartNamed(user: string, env: Rotation.Env, ts: seq<Session.Turn>, i: nat, j: Job)
    requires Session.Headed(ts) && i < |ts| && j == JobFor(user, env, ts, i, j.content)
    ensures RecordingOf(j) == Path(user, Session.PartName(env, ts[i].c.number))
  {}

  /** The sidecar on disk of a part that was signed stores the hash the session was given. */
  lemma PartStored(k: Suite, b: Build, user: string, env: Rotation.Env, ts: seq<Session.Turn>, i: nat,
                   history: seq<Txn>, x: nat)
    requires Sound(k) && ValidJobs(history) && Distinct(history)
    requires Session.Headed(ts) && i < |ts| && PartSigned(k, b, user, env, ts, i, history, x)
    ensures StoresLink(Replay(k, b, history).disk.sidecars, Path(user, Session.PartName(env, ts[i].c.number)),
                       env.manifest(i))
  {
    PlacedStays(k, b, history, x);
    PartNamed(user, env, ts, i, history[x].job);
  }

  /** The manifest beside this recording stores this hash. */
  predicate StoresLink(sidecars: map<Path, Manifest>, recording: Path, link: Option<string>) {
    SidecarOf(recording) in sidecars && link == Some(sidecars[SidecarOf(recording)].thisManifestHash)
  }

  /** The header of a part behind a signed one names the hash stored in that one's sidecar on disk. */
  lemma LinkNamesSidecar(k: Suite, b: Build, user: string, env: Rotation.Env, taken: set<string>, rs: Records,
                         ts: seq<Session.Turn>, i: nat, history: seq<Txn>, x: nat)
    requires Sound(k) && ValidJobs(history) && Distinct(history)
    requires Session.Run(env, Session.Start(taken), rs) == Ok(ts)
    requires Session.Headed(ts) && i + 1 < |ts| && PartSigned(k, b, user, env, ts, i, history, x)
    ensures ts[i].c.number == i && ts[i + 1].c.number == i + 1
    ensures StoresLink(Replay(k, b, history).disk.sidecars, Path(user, Session.PartName(env, i)), env.manifest(i))
    ensures LinksTo(env, ts[0].end.header.value.raw, ts[i + 1].c.number, env.manifest(i), ts[i + 1].synth)
  {
    PartStored(k, b, user, env, ts, i, history, x);
    PartLink(env, taken, rs, ts, i);
  }

  // ----- What the sidecars of a session say

  /** Transaction `x` placed the sidecar of part `i`. */
  predicate PartPlaced(user: string, env: Rotation.Env, ts: seq<Session.Turn>, i: nat, history: seq<Txn>, x: nat)
    requires Session.Headed(ts) && i < |ts|
  {
    && x < |history| && !history[x].reach.Nothing?
    && history[x].job == JobFor(user, env, ts, i, history[x].job.content)
  }

  /** The manifest at hand is that of part `i`: its number, its own chunks and end, under the session's header. */
  predicate SaysPart(user: string, env: Rotation.Env, t: Session.Turn, i: nat, header: HeaderInfo, m: Manifest) {
    && m.v == "katagrapho-manifest-v1" && m.user == user && m.sessionId == env.sessionId && m.part == i
    && m.recordingFile == Session.PartName(env, i)
    && m.chunks == t.end.chunks && m.endReason == t.end.endReason && m.exitCode == t.end.exitCode
    && m.host == header.host && m.bootId == header.bootId && m.auditSessionId == header.auditSessionId
    && m.started == header.started
    && m.epitroposVersion == header.epitroposVersion && m.epitroposCommit == header.epitroposCommit
  }

  predicate PartStoredAt(user: string, env: Rotation.Env, t: Session.Turn, i: nat, header: HeaderInfo,
                         sidecars: map<Path, Manifest>) {
    var p := SidecarOf(Path(user, Session.PartName(env, i)));
    p in sidecars && SaysPart(user, env, t, i, header, sidecars[p])
  }

  lemma JobSaysPart(k: Suite, b: Build, user: string, env: Rotation.Env, ts: seq<Session.Turn>, i: nat, j: Job,
                    now: Float, prev: string, m: Manifest)
    requires Session.Headed(ts) && i < |ts| && ts[i].c.number == i && j == JobFor(user, env, ts, i, j.content)
    requires Says(k, b, j, now, prev, m)
    ensures SaysPart(user, env, ts[i], i, ts[0].end.header.value, m)
  {}

  lemma SignedSays(k: Suite, b: Build, history: seq<Txn>, x: nat) returns (prev: string)
    requires x < |history| && SignedAt(k, b, history, x).Ok?
    ensures Says(k, b, history[x].job, history[x].clock.now, prev, SignedAt(k, b, history, x).value)
  {
    var d := Replay(k, b, history[..x]).disk;
    prev := HeadValue(d.head).value;
    ManifestSays(k, b, d, history[x]);
  }

  lemma PartSays(k: Suite, b: Build, user: string, env: Rotation.Env, ts: seq<Session.Turn>, i: nat,
                 history: seq<Txn>, x: nat)
    requires Sound(k) && ValidJobs(history) && Distinct(history)
    requires Session.Headed(ts) && i < |ts| && ts[i].c.number == i && PartPlaced(user, env, ts, i, history, x)
    ensures PartStoredAt(user, env, ts[i], i, ts[0].end.header.value, Replay(k, b, history).disk.sidecars)
  {
    PlacedStays(k, b, history, x);
    PartNamed(user, env, ts, i, history[x].job);
    var prev := SignedSays(k, b, history, x);
    JobSaysPart(k, b, user, env, ts, i, history[x].job, history[x].clock.now, prev, SignedAt(k, b, history, x).value);
  }

  /** The chunk lists of the sidecars of parts 0 to `n`, one after the other. */
  function StoredChunks(user: string, env: Rotation.Env, sidecars: map<Path, Manifest>, n: nat): seq<Chunk> {
    if n == 0 then []
    else
      var p := SidecarOf(Path(user, Session.PartName(env, n - 1)));
      StoredChunks(user, env, sidecars, n - 1) + if p in sidecars then sidecars[p].chunks else []
  }

  lemma {:induction false} ChunksStored(user: string, env: Rotation.Env, ts: seq<Session.Turn>, header: HeaderInfo,
                                        sidecars: map<Path, Manifest>, n: nat)
    requires n <= |ts|
    requires forall i {:trigger ts[i]} :: 0 <= i < |ts| ==> PartStoredAt(user, env, ts[i], i, header, sidecars)
    ensures StoredChunks(user, env, sidecars, n) == Session.AllChunks(ts, n)
  {
    if n > 0 {
      ChunksStored(user, env, ts, header, sidecars, n - 1);
      assert PartStoredAt(user, env, ts[n - 1], n - 1, header, sidecars);
    }
  }

  lemma RunChunks(env: Rotation.Env, taken: set<string>, rs: Records, ts: seq<Session.Turn>)
    requires Session.Run(env, Session.Start(taken), rs) == Ok(ts)
    ensures ts != [] && Session.AllChunks(ts, |ts|) == ChunkPrefix(rs, ts[|ts| - 1].end.read)
  {
    Session.RunTurns(env, Session.Start(taken), rs);
    Session.RunStretches(env, ts);
    Session.StretchesChunks(ts, |ts|);
  }

  /**
   From the stream to the chain. Where each part of a session had its sidecar placed, by whatever transactions
   among all the others, the sidecars on disk list in part order exactly the chunk records read, and each says
   its part's own end reason and exit code, those of the last part being the session's.
   */
  lemma SessionSigned(k: Suite, b: Build, user: string, env: Rotation.Env, taken: set<string>, rs: Records,
                      ts: seq<Session.Turn>, history: seq<Txn>, at: seq<nat>)
    requires Sound(k) && ValidJobs(history) && Distinct(history)
    requires Session.Run(env, Session.Start(taken), rs) == Ok(ts) && Session.Headed(ts) && |at| == |ts| > 0
    requires forall i {:trigger at[i]} :: 0 <= i < |ts| ==> PartPlaced(user, env, ts, i, history, at[i])
    ensures var sidecars := Replay(k, b, history).disk.sidecars;
      && StoredChunks(user, env, sidecars, |ts|) == ChunkPrefix(rs, ts[|ts| - 1].end.read)
      && forall i {:trigger ts[i]} :: 0 <= i < |ts| ==>
           PartStoredAt(user, env, ts[i], i, ts[0].end.header.value, sidecars)
  {
    var sidecars := Replay(k, b, history).disk.sidecars;
    forall i | 0 <= i < |ts| ensures PartStoredAt(user, env, ts[i], i, ts[0].end.header.value, sidecars) {
      assert PartPlaced(user, env, ts, i, history, at[i]);
      PartNumber(env, taken, rs, ts, i);
      PartSays(k, b, user, env, ts, i, history, at[i]);
    }
    ChunksStored(user, env, ts, ts[0].end.header.value, sidecars, |ts|);
    RunChunks(env, taken, rs, ts);
  }

  lemma PartNumber(env: Rotation.Env, taken: set<string>, rs: Records, ts: seq<Session.Turn>, i: nat)
    requires Session.Run(env, Session.Start(taken), rs) == Ok(ts) && i < |ts|
    ensures Session.Headed(ts) && ts[i].c.number == i
  {
    Session.SessionLinks(env, taken, rs);
    assert Session.PartOf(env, ts[i]).number == i;
  }

  // ----- Each placed sidecar vouches for the recording beside it

  ghost predicate Attested(k: Suite, sidecars: map<Path, Manifest>, ts: seq<Txn>, p: Path) {
    exists i :: 0 <= i < |ts| && p == SidecarOf(RecordingOf(ts[i].job)) && p in sidecars
      && Describes(k, sidecars[p], ts[i].job)
  }

  lemma GrowPlaces(k: Suite, w: World, path: Path, m: Manifest, record: Record, text: string, reach: Reach)
    ensures Grow(k, w, path, m, record, Ok(text), reach).disk.sidecars
      == if reach.Nothing? then w.disk.sidecars else w.disk.sidecars[path := m]
  {}

  lemma ExtendAttested(k: Suite, b: Build, w: World, ts: seq<Txn>, t: Txn, p: Path)
    requires Sound(k) && Kept(k, w) && LogReads(k, w.disk.log, w.scan) && ValidJob(t.job)
    requires p in w.disk.sidecars ==> Attested(k, w.disk.sidecars, ts, p)
    ensures var after := Extend(k, b, w, t).disk.sidecars; p in after ==> Attested(k, after, ts + [t], p)
  {
    var m, record, text := ExtendGrows(k, b, w, t);
    GrowPlaces(k, w, SidecarOf(RecordingOf(t.job)), m, record, text, t.reach);
    LongerAttested(k, w.disk.sidecars, Extend(k, b, w, t).disk.sidecars, ts, t, p);
  }

  /** Every sidecar on disk was placed for one of the transactions, and vouches for that one's recording. */
  lemma {:induction false} SidecarsAttested(k: Suite, b: Build, ts: seq<Txn>, p: Path)
    requires Sound(k) && ValidJobs(ts)
    ensures var sidecars := Replay(k, b, ts).disk.sidecars; p in sidecars ==> Attested(k, sidecars, ts, p)
  {
    if ts != [] {
      var init, t := ts[..|ts| - 1], ts[|ts| - 1];
      assert ts == init + [t];
      SidecarsAttested(k, b, init, p);
      ReplaySane(k, b, init);
      ExtendAttested(k, b, Replay(k, b, init), init, t, p);
    }
  }

  lemma LongerAttested(k: Suite, before: map<Path, Manifest>, after: map<Path, Manifest>, ts: seq<Txn>, t: Txn, p: Path)
    requires p in before ==> Attested(k, before, ts, p)
    requires p in after ==> if p in before && after[p] == before[p] then true
      else p == SidecarOf(RecordingOf(t.job)) && Describes(k, after[p], t.job)
    ensures p in after ==> Attested(k, after, ts + [t], p)
  {
    var all := ts + [t];
    if p in after {
      if p in before && after[p] == before[p] {
        var i :| 0 <= i < |ts| && p == SidecarOf(RecordingOf(ts[i].job)) && Describes(k, before[p], ts[i].job);
        assert all[i] == ts[i];
      } else {
        assert all[|ts|] == t;
      }
    }
  }

  // ----- The tree the recorders left

  function PlaceOf(p: Path): Place {
    Place([p.dir], p.file)
  }

  predicate HoldsManifest(n: Option<Node>, m: Manifest) {
    n.Some? && n.value.File? && n.value.manifest == Some(m)
  }

  predicate HoldsBytes(n: Option<Node>, bytes: Bytes) {
    n.Some? && n.value.File? && n.value.bytes == Some(bytes)
  }

  /** The tree holds these sidecars and recordings, each in its user's directory, and no other file. */
  ghost predicate Mirrors(root: seq<Child>, sidecars: map<Path, Manifest>, recordings: map<Path, FileBytes>) {
    && WellFormed(root)
    && (forall p :: p in sidecars ==> HoldsManifest(NodeAt(root, [p.dir], p.file), sidecars[p]))
    && (forall p :: p in recordings ==> HoldsBytes(NodeAt(root, [p.dir], p.file), recordings[p]))
    && (forall at: Place {:trigger OnlyHeld(root, sidecars, recordings, at)} ::
         OnlyHeld(root, sidecars, recordings, at))
  }

  ghost predicate OnlyHeld(root: seq<Child>, sidecars: map<Path, Manifest>, recordings: map<Path, FileBytes>,
                           at: Place) {
    var n := NodeAt(root, at.dir, at.name);
    at.name == "" || n.None? || !n.value.File?
    || (|at.dir| == 1 && (Path(at.dir[0], at.name) in sidecars || Path(at.dir[0], at.name) in recordings))
  }

  lemma {:induction false} DigitsNoSlash(s: string)
    requires AllDigits(s)
    ensures '/' !in s
  {}

  lemma FileNameIsPlain(j: Job)
    requires ValidJob(j)
    ensures BaseName(RecordingOf(j).file) == Some(RecordingOf(j).file) && RecordingOf(j).file != ""
  {
    DigitsNoSlash(Text.Decimal(j.part));
    assert '/' !in j.sessionId && '/' !in ".part" && '/' !in j.suffix;
    PlainName(RecordingOf(j).file);
  }

  lemma SidecarStem(p: Path)
    ensures EndsWith(SidecarOf(p).file, SIDECAR) && Derived(PlaceOf(SidecarOf(p))) == PlaceOf(p)
  {}

  /** What checking the sidecar at `at`, which signed for content with this digest, makes of this content. */
  function Judged(k: Suite, recording: Place, sha: string, content: Option<FileBytes>): Result<Option<Place>, Failure> {
    if content.None? then Ok(None)
    else if k.shaFile(content.value) != sha then Err(ContentDiffers(recording))
    else Ok(Some(recording))
  }

  predicate HoldsContent(n: Option<Node>, content: Option<FileBytes>) {
    if content.None? then n.None? else HoldsBytes(n, content.value)
  }

  /** A job's sidecar is checked against that job's recording while it is there, and against no other file. */
  lemma EntryVouches(k: Suite, root: seq<Child>, j: Job, e: Entry, content: Option<FileBytes>)
    requires ValidJob(j) && e.at == PlaceOf(SidecarOf(RecordingOf(j))) && Describes(k, e.m, j)
    requires HoldsContent(NodeAt(root, [j.username], RecordingOf(j).file), content)
    ensures OwnName(root, e)
    ensures CheckerOf(k, root)(e) == Judged(k, PlaceOf(RecordingOf(j)), k.shaFile(j.content), content)
  {
    FileNameIsPlain(j);
    SidecarStem(RecordingOf(j));
  }

  function PathAt(at: Place): Path {
    if at.dir == [] then Path("", at.name) else Path(at.dir[0], at.name)
  }

  function PathsAt(entries: seq<Entry>): (paths: seq<Path>)
    ensures |paths| == |entries| && forall i :: 0 <= i < |paths| ==> paths[i] == PathAt(entries[i].at)
  {
    seq(|entries|, i requires 0 <= i < |entries| => PathAt(entries[i].at))
  }

  /** Names keep sidecars and recordings apart. */
  ghost predicate NamedApart(sidecars: map<Path, Manifest>, recordings: map<Path, FileBytes>) {
    && (forall p :: p in sidecars ==> EndsWith(p.file, SIDECAR))
    && (forall p :: p in recordings ==> IsRecording(p.file))
  }

  lemma SidecarLoads(root: seq<Child>, sidecars: map<Path, Manifest>, recordings: map<Path, FileBytes>, at: Place)
    requires Mirrors(root, sidecars, recordings) && NamedApart(sidecars, recordings)
    requires at.name != "" && EndsWith(at.name, SIDECAR)
    ensures var n := NodeAt(root, at.dir, at.name); n.Some? && n.value.File? ==> n.value.manifest.Some?
  {
    var n := NodeAt(root, at.dir, at.name);
    assert OnlyHeld(root, sidecars, recordings, at);
    if n.Some? && n.value.File? {
      assert at.dir == [PathAt(at).dir];
      assert HoldsManifest(NodeAt(root, [PathAt(at).dir], at.name), sidecars[PathAt(at)]);
    }
  }

  lemma MirrorLoads(root: seq<Child>, sidecars: map<Path, Manifest>, recordings: map<Path, FileBytes>)
    requires Mirrors(root, sidecars, recordings) && NamedApart(sidecars, recordings)
    ensures Walk([], root).Ok?
  {
    if Walk([], root).Err? {
      WalkFails([], root);
      BelowRoot(root, Walk([], root).error.at);
      SidecarLoads(root, sidecars, recordings, Walk([], root).error.at);
      assert false;
    }
  }

  /** The walk lists the sidecars on disk, each once. */
  lemma MirrorEntry(root: seq<Child>, sidecars: map<Path, Manifest>, recordings: map<Path, FileBytes>, e: Entry)
    requires Mirrors(root, sidecars, recordings) && NamedApart(sidecars, recordings) && Walk([], root).Ok?
    requires e.at.name != ""
    ensures e in Walk([], root).value.entries <==>
      PathAt(e.at) in sidecars && e == Entry(PlaceOf(PathAt(e.at)), sidecars[PathAt(e.at)])
  {
    var p := PathAt(e.at);
    WalkComplete([], root, Walk([], root).value, e.at);
    BelowRoot(root, e.at);
    assert OnlyHeld(root, sidecars, recordings, e.at);
    assert e == Entry(e.at, e.m);
    if e.at == PlaceOf(p) && p in sidecars {
      assert HoldsManifest(NodeAt(root, [p.dir], p.file), sidecars[p]);
    }
  }

  lemma MirrorRecording(root: seq<Child>, sidecars: map<Path, Manifest>, recordings: map<Path, FileBytes>, at: Place)
    requires Mirrors(root, sidecars, recordings) && NamedApart(sidecars, recordings) && Walk([], root).Ok?
    requires at.name != ""
    ensures at in Walk([], root).value.recordings <==> PathAt(at) in recordings && at == PlaceOf(PathAt(at))
  {
    var p := PathAt(at);
    WalkComplete([], root, Walk([], root).value, at);
    BelowRoot(root, at);
    assert OnlyHeld(root, sidecars, recordings, at);
    if at == PlaceOf(p) && p in recordings {
      assert HoldsBytes(NodeAt(root, [p.dir], p.file), recordings[p]);
    }
  }

  lemma MirrorLists(root: seq<Child>, sidecars: map<Path, Manifest>, recordings: map<Path, FileBytes>)
    requires Mirrors(root, sidecars, recordings) && NamedApart(sidecars, recordings) && Walk([], root).Ok?
    ensures var entries := Walk([], root).value.entries;
      PlacedAt(sidecars, PathsAt(entries), ManifestsOf(entries))
  {
    var found := Walk([], root).value;
    var entries, paths := found.entries, PathsAt(found.entries);
    NamedPlaces([], root, found);
    WalkOnce([], root, found);
    forall i | 0 <= i < |entries|
      ensures paths[i] in sidecars && entries[i] == Entry(PlaceOf(paths[i]), sidecars[paths[i]])
    {
      MirrorEntry(root, sidecars, recordings, entries[i]);
    }
    forall i, j | 0 <= i < j < |paths| ensures paths[i] != paths[j] {
      assert PlacesOf(entries)[i] != PlacesOf(entries)[j];
    }
    forall p | p in sidecars ensures p in paths {
      var e := Entry(PlaceOf(p), sidecars[p]);
      assert EndsWith(p.file, SIDECAR) && PathAt(e.at) == p;
      MirrorEntry(root, sidecars, recordings, e);
      var i :| 0 <= i < |entries| && entries[i] == e;
      assert paths[i] == p;
    }
  }

  // ----- The verdict on it

  /** Whatever follows, a placed sidecar stays. */
  lemma {:induction false} SidecarStays(k: Suite, b: Build, ts: seq<Txn>, i: nat)
    requires Sound(k) && ValidJobs(ts) && i < |ts| && !ts[i].reach.Nothing?
    ensures SidecarOf(RecordingOf(ts[i].job)) in Replay(k, b, ts).disk.sidecars
  {
    var init, t := ts[..|ts| - 1], ts[|ts| - 1];
    assert ts == init + [t];
    if i < |init| {
      SidecarStays(k, b, init, i);
    }
    OneSidecarStays(k, b, init, t, SidecarOf(RecordingOf(ts[i].job)));
  }

  lemma OneSidecarStays(k: Suite, b: Build, init: seq<Txn>, t: Txn, p: Path)
    requires Sound(k) && ValidJobs(init) && ValidJob(t.job)
    requires p in Replay(k, b, init).disk.sidecars || (!t.reach.Nothing? && p == SidecarOf(RecordingOf(t.job)))
    ensures p in Extend(k, b, Replay(k, b, init), t).disk.sidecars
  {
    ReplaySane(k, b, init);
    ExtendKeepsSidecars(k, b, Replay(k, b, init), t);
  }

  lemma ExtendKeepsSidecars(k: Suite, b: Build, w: World, t: Txn)
    requires Sound(k) && Kept(k, w) && LogReads(k, w.disk.log, w.scan) && ValidJob(t.job)
    ensures forall p :: p in w.disk.sidecars ==> p in Extend(k, b, w, t).disk.sidecars
    ensures !t.reach.Nothing? ==> SidecarOf(RecordingOf(t.job)) in Extend(k, b, w, t).disk.sidecars
  {
    var m, record, text := ExtendGrows(k, b, w, t);
    GrowPlaces(k, w, SidecarOf(RecordingOf(t.job)), m, record, text, t.reach);
  }

  lemma {:induction false} NoneOutside(places: seq<Place>, within: set<Place>)
    requires forall p :: p in places ==> p in within
    ensures Outside(places, within) == []
  {
    if places != [] {
      NoneOutside(places[..|places| - 1], within);
    }
  }

  ghost predicate Deleted(root: seq<Child>, recordings: map<Path, FileBytes>, p: Path) {
    p in recordings || NodeAt(root, [p.dir], p.file).None?
  }

  function ContentAt(recordings: map<Path, FileBytes>, p: Path): Option<FileBytes> {
    if p in recordings then Some(recordings[p]) else None
  }

  /**
   Transactions at any stage, and the tree beside them: it holds their sidecars and these recordings, where a
   recording was deleted nothing lies, and the walk counts all their names as recordings.
   */
  ghost predicate Standing(k: Suite, b: Build, ts: seq<Txn>, recordings: map<Path, FileBytes>, root: seq<Child>) {
    && ValidJobs(ts) && (forall t :: t in ts ==> IsRecording(RecordingOf(t.job).file))
    && (forall p :: p in recordings ==> IsRecording(p.file))
    && Mirrors(root, Replay(k, b, ts).disk.sidecars, recordings)
    && forall t :: t in ts ==> Deleted(root, recordings, RecordingOf(t.job))
  }

  lemma StandingApart(k: Suite, b: Build, ts: seq<Txn>, recordings: map<Path, FileBytes>, root: seq<Child>)
    requires Sound(k) && Standing(k, b, ts, recordings, root)
    ensures NamedApart(Replay(k, b, ts).disk.sidecars, recordings) && Walk([], root).Ok?
  {
    var sidecars := Replay(k, b, ts).disk.sidecars;
    forall p | p in sidecars ensures EndsWith(p.file, SIDECAR) {
      SidecarsAttested(k, b, ts, p);
      var i :| 0 <= i < |ts| && p == SidecarOf(RecordingOf(ts[i].job));
      SidecarStem(RecordingOf(ts[i].job));
    }
    MirrorLoads(root, sidecars, recordings);
  }

  lemma ContentHeld(root: seq<Child>, sidecars: map<Path, Manifest>, recordings: map<Path, FileBytes>, p: Path)
    requires Mirrors(root, sidecars, recordings) && Deleted(root, recordings, p)
    ensures HoldsContent(NodeAt(root, [p.dir], p.file), ContentAt(recordings, p))
  {
    if p in recordings {
      assert HoldsBytes(NodeAt(root, [p.dir], p.file), recordings[p]);
    }
  }

  /** The sidecar found is this job's, and is checked against this job's recording. */
  ghost predicate JudgedAs(k: Suite, check: Checker, recordings: map<Path, FileBytes>, e: Entry, j: Job) {
    && PathAt(e.at) == SidecarOf(RecordingOf(j)) && Derived(e.at) == PlaceOf(RecordingOf(j))
    && e.m.recordingSha256 == k.shaFile(j.content)
    && check(e) == Judged(k, PlaceOf(RecordingOf(j)), k.shaFile(j.content), ContentAt(recordings, RecordingOf(j)))
  }

  lemma EntryJudged(k: Suite, b: Build, ts: seq<Txn>, recordings: map<Path, FileBytes>, root: seq<Child>, e: Entry)
      returns (i: nat)
    requires Sound(k) && Standing(k, b, ts, recordings, root)
    requires Walk([], root).Ok? && e in Walk([], root).value.entries
    ensures OwnName(root, e) && i < |ts| && JudgedAs(k, CheckerOf(k, root), recordings, e, ts[i].job)
    ensures PathAt(e.at) in Replay(k, b, ts).disk.sidecars && e.m == Replay(k, b, ts).disk.sidecars[PathAt(e.at)]
  {
    var sidecars, p := Replay(k, b, ts).disk.sidecars, PathAt(e.at);
    StandingApart(k, b, ts, recordings, root);
    NamedPlaces([], root, Walk([], root).value);
    MirrorEntry(root, sidecars, recordings, e);
    SidecarsAttested(k, b, ts, p);
    i :| 0 <= i < |ts| && p == SidecarOf(RecordingOf(ts[i].job)) && Describes(k, sidecars[p], ts[i].job);
    assert ts[i] in ts;
    ContentHeld(root, sidecars, recordings, RecordingOf(ts[i].job));
    SidecarStem(RecordingOf(ts[i].job));
    EntryVouches(k, root, ts[i].job, e, ContentAt(recordings, RecordingOf(ts[i].job)));
  }

  /** The sidecar of a recording is found. */
  lemma SidecarListed(k: Suite, b: Build, ts: seq<Txn>, recordings: map<Path, FileBytes>, root: seq<Child>, p: Path)
      returns (n: nat)
    requires Sound(k) && Standing(k, b, ts, recordings, root) && Walk([], root).Ok?
    requires SidecarOf(p) in Replay(k, b, ts).disk.sidecars
    ensures n < |Walk([], root).value.entries|
    ensures PathAt(Walk([], root).value.entries[n].at) == SidecarOf(p)
  {
    var sidecars, found := Replay(k, b, ts).disk.sidecars, Walk([], root).value;
    StandingApart(k, b, ts, recordings, root);
    SidecarStem(p);
    var e := Entry(PlaceOf(SidecarOf(p)), sidecars[SidecarOf(p)]);
    MirrorEntry(root, sidecars, recordings, e);
    n :| 0 <= n < |found.entries| && found.entries[n] == e;
  }

  // ----- Green, at any moment

  /** Each recording on disk has the content signed in the sidecar beside it. */
  ghost predicate SidecarsVouch(k: Suite, sidecars: map<Path, Manifest>, recordings: map<Path, FileBytes>) {
    forall p {:trigger recordings[p]} :: p in recordings ==> VouchedBeside(k, sidecars, p, recordings[p])
  }

  predicate VouchedBeside(k: Suite, sidecars: map<Path, Manifest>, p: Path, content: FileBytes) {
    SidecarOf(p) in sidecars && sidecars[SidecarOf(p)].recordingSha256 == k.shaFile(content)
  }

  /** The sidecar at `e` finds no fault, if the recordings there are all vouched for. */
  lemma VouchedPasses(k: Suite, sidecars: map<Path, Manifest>, recordings: map<Path, FileBytes>, check: Checker,
                      e: Entry, j: Job)
    requires JudgedAs(k, check, recordings, e, j) && SidecarsVouch(k, sidecars, recordings)
    requires PathAt(e.at) in sidecars && e.m == sidecars[PathAt(e.at)]
    ensures check(e) == Ok(if RecordingOf(j) in recordings then Some(PlaceOf(RecordingOf(j))) else None)
  {
    if RecordingOf(j) in recordings {
      assert VouchedBeside(k, sidecars, RecordingOf(j), recordings[RecordingOf(j)]);
    }
  }

  lemma VouchingEntries(k: Suite, b: Build, ts: seq<Txn>, recordings: map<Path, FileBytes>, root: seq<Child>)
    requires Sound(k) && Standing(k, b, ts, recordings, root) && Walk([], root).Ok?
    requires SidecarsVouch(k, Replay(k, b, ts).disk.sidecars, recordings)
    ensures Faultless(CheckerOf(k, root), Walk([], root).value.entries)
    ensures Report(k, root, true).unsignedRecordings == []
  {
    var found, check, sidecars := Walk([], root).value, CheckerOf(k, root), Replay(k, b, ts).disk.sidecars;
    forall i | 0 <= i < |found.entries| ensures check(found.entries[i]).Ok? {
      var x := EntryJudged(k, b, ts, recordings, root, found.entries[i]);
      VouchedPasses(k, sidecars, recordings, check, found.entries[i], ts[x].job);
    }
    forall at | at in found.recordings ensures at in VouchedFor(k, root) {
      VouchedRecording(k, b, ts, recordings, root, at);
    }
    NoneOutside(found.recordings, VouchedFor(k, root));
  }

  lemma VouchedRecording(k: Suite, b: Build, ts: seq<Txn>, recordings: map<Path, FileBytes>, root: seq<Child>,
                         at: Place)
    requires Sound(k) && Standing(k, b, ts, recordings, root) && Walk([], root).Ok?
    requires SidecarsVouch(k, Replay(k, b, ts).disk.sidecars, recordings) && at in Walk([], root).value.recordings
    ensures at in VouchedFor(k, root)
  {
    var found, check, sidecars := Walk([], root).value, CheckerOf(k, root), Replay(k, b, ts).disk.sidecars;
    StandingApart(k, b, ts, recordings, root);
    NamedPlaces([], root, found);
    MirrorRecording(root, sidecars, recordings, at);
    var p := PathAt(at);
    assert VouchedBeside(k, sidecars, p, recordings[p]);
    var n := SidecarListed(k, b, ts, recordings, root, p);
    var x := EntryJudged(k, b, ts, recordings, root, found.entries[n]);
    SidecarInjective(p, RecordingOf(ts[x].job));
    VouchedPasses(k, sidecars, recordings, check, found.entries[n], ts[x].job);
    VouchedBy(check, found.entries, |found.entries|, at);
  }

  lemma GreenVouches(k: Suite, b: Build, ts: seq<Txn>, recordings: map<Path, FileBytes>, root: seq<Child>, p: Path)
    requires Sound(k) && Standing(k, b, ts, recordings, root) && Walk([], root).Ok? && p in recordings
    requires Report(k, root, true).unsignedRecordings == []
    ensures VouchedBeside(k, Replay(k, b, ts).disk.sidecars, p, recordings[p])
  {
    var found, check, sidecars := Walk([], root).value, CheckerOf(k, root), Replay(k, b, ts).disk.sidecars;
    StandingApart(k, b, ts, recordings, root);
    MirrorRecording(root, sidecars, recordings, PlaceOf(p));
    OutsideMeans(found.recordings, VouchedFor(k, root), PlaceOf(p));
    VouchedBy(check, found.entries, |found.entries|, PlaceOf(p));
    var i :| 0 <= i < |found.entries| && check(found.entries[i]) == Ok(Some(PlaceOf(p)));
    var x := EntryJudged(k, b, ts, recordings, root, found.entries[i]);
    assert PlaceOf(RecordingOf(ts[x].job)) == PlaceOf(p);
  }

  lemma StandingGreen(k: Suite, b: Build, ts: seq<Txn>, recordings: map<Path, FileBytes>, root: seq<Child>)
    requires Sound(k) && Standing(k, b, ts, recordings, root)
    ensures Walk([], root).Ok?
    ensures var d := Replay(k, b, ts).disk;
      Green(k, d, root) <==>
        Passes(k, d, ManifestsOf(Walk([], root).value.entries)) && SidecarsVouch(k, d.sidecars, recordings)
  {
    StandingApart(k, b, ts, recordings, root);
    if SidecarsVouch(k, Replay(k, b, ts).disk.sidecars, recordings) {
      VouchingEntries(k, b, ts, recordings, root);
    } else if Report(k, root, true).unsignedRecordings == [] {
      forall p | p in recordings ensures VouchedBeside(k, Replay(k, b, ts).disk.sidecars, p, recordings[p]) {
        GreenVouches(k, b, ts, recordings, root, p);
      }
    }
  }

  /** The tree beside a state of the host, whatever its recorders are at. */
  ghost predicate TreeOf(s: Sys, root: seq<Child>) {
    && Mirrors(root, s.disk.sidecars, s.recordings)
    && (forall p :: p in s.recordings ==> IsRecording(p.file))
    && (forall t :: t in SoFar(s) ==> IsRecording(RecordingOf(t.job).file))
    && forall t :: t in SoFar(s) ==> Deleted(root, s.recordings, RecordingOf(t.job))
  }

  /**
   The whole check on a host with live recorders: in any reachable state it is green if and only if the chain
   check passes and every recording on disk has the content signed in the sidecar beside it. A recording that
   is still being written has none.
   */
  lemma GreenAnytime(k: Suite, b: Build, actions: seq<Action>, root: seq<Child>)
    requires Sound(k) && After(k, b, actions).Some? && TreeOf(After(k, b, actions).value, root)
    ensures Walk([], root).Ok?
    ensures var s := After(k, b, actions).value;
      Green(k, s.disk, root) <==>
        Passes(k, s.disk, ManifestsOf(Walk([], root).value.entries)) && SidecarsVouch(k, s.disk.sidecars, s.recordings)
  {
    var s := After(k, b, actions).value;
    EveryStateIsSerial(k, b, actions);
    StandingGreen(k, b, SoFar(s), s.recordings, root);
  }

  // ----- The report on a finished host

  /** Complete transactions, and recordings that are as they were signed. */
  ghost predicate Finished(k: Suite, b: Build, ts: seq<Txn>, recordings: map<Path, FileBytes>, root: seq<Child>) {
    && Standing(k, b, ts, recordings, root) && (forall t :: t in ts ==> t.reach.LogAppended?)
    && forall p :: p in recordings ==> AsSigned(ts, p, recordings[p])
  }

  /** What checking this sidecar finds: the recording at the path it was derived from, if that is left. */
  predicate Finds(check: Checker, recordings: map<Path, FileBytes>, e: Entry) {
    check(e) == Ok(if PathAt(Derived(e.at)) in recordings then Some(Derived(e.at)) else None)
  }

  lemma SameContent(ts: seq<Txn>, i: nat, content: FileBytes)
    requires Distinct(ts) && i < |ts| && AsSigned(ts, RecordingOf(ts[i].job), content)
    ensures ts[i].job.content == content
  {
    var j :| 0 <= j < |ts| && RecordingOf(ts[j].job) == RecordingOf(ts[i].job) && ts[j].job.content == content;
    assert i == j;
  }

  /** Every sidecar found passes its check. */
  lemma FinishedEntry(k: Suite, b: Build, ts: seq<Txn>, recordings: map<Path, FileBytes>, root: seq<Child>, e: Entry)
    requires Sound(k) && Finished(k, b, ts, recordings, root) && Distinct(ts)
    requires Walk([], root).Ok? && e in Walk([], root).value.entries
    ensures Finds(CheckerOf(k, root), recordings, e) && OwnName(root, e)
  {
    var i := EntryJudged(k, b, ts, recordings, root, e);
    if RecordingOf(ts[i].job) in recordings {
      SameContent(ts, i, recordings[RecordingOf(ts[i].job)]);
    }
  }

  /** The sidecar of a recording that is there is found. */
  lemma RecordingHasEntry(k: Suite, b: Build, ts: seq<Txn>, recordings: map<Path, FileBytes>, root: seq<Child>, p: Path)
      returns (n: nat)
    requires Sound(k) && Finished(k, b, ts, recordings, root) && Walk([], root).Ok? && p in recordings
    ensures n < |Walk([], root).value.entries| && Derived(Walk([], root).value.entries[n].at) == PlaceOf(p)
  {
    assert AsSigned(ts, p, recordings[p]);
    var i :| 0 <= i < |ts| && RecordingOf(ts[i].job) == p;
    assert ts[i] in ts;
    SidecarStays(k, b, ts, i);
    n := SidecarListed(k, b, ts, recordings, root, p);
    var x := EntryJudged(k, b, ts, recordings, root, Walk([], root).value.entries[n]);
    SidecarInjective(p, RecordingOf(ts[x].job));
  }

  function RecordingPlaces(recordings: map<Path, FileBytes>): set<Place> {
    set p | p in recordings :: PlaceOf(p)
  }

  lemma {:induction false} EachPlaceOnce(recordings: map<Path, FileBytes>)
    ensures |RecordingPlaces(recordings)| == |recordings|
    decreases |recordings|
  {
    if p :| p in recordings {
      var fewer := recordings - {p};
      EachPlaceOnce(fewer);
      assert PlaceOf(p) !in RecordingPlaces(fewer);
      assert RecordingPlaces(recordings) == RecordingPlaces(fewer) + {PlaceOf(p)};
      assert recordings == fewer[p := recordings[p]];
    } else {
      assert recordings == map[] && RecordingPlaces(recordings) == {};
    }
  }

  predicate VouchApart(check: Checker, entries: seq<Entry>) {
    forall i, j :: 0 <= i < j < |entries| && Vouches(check, entries[i]) ==> check(entries[i]) != check(entries[j])
  }

  /** Sidecars that vouch for different recordings: each either vouches for one more, or misses one more. */
  lemma {:induction false} VouchedOrMissing(check: Checker, entries: seq<Entry>, n: nat)
    requires n <= |entries|
    requires VouchApart(check, entries)
    ensures |Vouched(check, entries, n)| + Missing(check, entries, n) == n
  {
    if n > 0 {
      VouchedOrMissing(check, entries, n - 1);
      if Vouches(check, entries[n - 1]) {
        VouchedBy(check, entries, n - 1, check(entries[n - 1]).value.value);
      }
    }
  }

  /** Such a tree has no fault; each recording is vouched for, and each sidecar without one is counted. */
  lemma FinishedReport(k: Suite, b: Build, ts: seq<Txn>, recordings: map<Path, FileBytes>, root: seq<Child>)
    requires Sound(k) && Finished(k, b, ts, recordings, root) && Distinct(ts) && Walk([], root).Ok?
    ensures var entries := Walk([], root).value.entries;
      && Faultless(CheckerOf(k, root), entries) && (forall e :: e in entries ==> OwnName(root, e))
      && |recordings| <= |entries|
      && Report(k, root, true) == VerifyResult(|entries|, true, |entries| - |recordings|, [])
  {
    var found, check := Walk([], root).value, CheckerOf(k, root);
    forall i | 0 <= i < |found.entries|
      ensures Finds(check, recordings, found.entries[i]) && OwnName(root, found.entries[i])
    {
      FinishedEntry(k, b, ts, recordings, root, found.entries[i]);
    }
    FinishedVouched(k, b, ts, recordings, root);
    FinishedSole(root, check, recordings, found);
    VouchedOrMissing(check, found.entries, |found.entries|);
    EachPlaceOnce(recordings);
    forall at | at in found.recordings ensures at in VouchedFor(k, root) {
      FinishedRecording(k, b, ts, recordings, root, at);
    }
    NoneOutside(found.recordings, VouchedFor(k, root));
  }

  lemma FinishedVouched(k: Suite, b: Build, ts: seq<Txn>, recordings: map<Path, FileBytes>, root: seq<Child>)
    requires Sound(k) && Finished(k, b, ts, recordings, root) && Distinct(ts) && Walk([], root).Ok?
    ensures VouchedFor(k, root) == RecordingPlaces(recordings)
  {
    var entries, check := Walk([], root).value.entries, CheckerOf(k, root);
    StandingApart(k, b, ts, recordings, root);
    forall at ensures at in VouchedFor(k, root) <==> at in RecordingPlaces(recordings) {
      VouchedBy(check, entries, |entries|, at);
      if i :| 0 <= i < |entries| && check(entries[i]) == Ok(Some(at)) {
        FinishedEntry(k, b, ts, recordings, root, entries[i]);
        EntryIsMirrored(root, Replay(k, b, ts).disk.sidecars, recordings, entries[i]);
      }
      if p :| p in recordings && at == PlaceOf(p) {
        var n := RecordingHasEntry(k, b, ts, recordings, root, p);
        FinishedEntry(k, b, ts, recordings, root, entries[n]);
      }
    }
  }

  lemma EntryIsMirrored(root: seq<Child>, sidecars: map<Path, Manifest>, recordings: map<Path, FileBytes>, e: Entry)
    requires Mirrors(root, sidecars, recordings) && NamedApart(sidecars, recordings)
    requires Walk([], root).Ok? && e in Walk([], root).value.entries
    ensures e.at == PlaceOf(PathAt(e.at)) && Derived(e.at) == PlaceOf(PathAt(Derived(e.at)))
  {
    NamedPlaces([], root, Walk([], root).value);
    MirrorEntry(root, sidecars, recordings, e);
  }

  lemma FinishedSole(root: seq<Child>, check: Checker, recordings: map<Path, FileBytes>, found: Found)
    requires WellFormed(root) && Walk([], root) == Ok(found)
    requires forall i :: 0 <= i < |found.entries| ==> Finds(check, recordings, found.entries[i])
    ensures VouchApart(check, found.entries)
  {
    var entries := found.entries;
    NamedPlaces([], root, found);
    WalkOnce([], root, found);
    forall i, j | 0 <= i < j < |entries| && Vouches(check, entries[i]) ensures check(entries[i]) != check(entries[j]) {
      assert PlacesOf(entries)[i] != PlacesOf(entries)[j];
      DerivedTells(entries[i].at, entries[j].at);
    }
  }

  lemma FinishedRecording(k: Suite, b: Build, ts: seq<Txn>, recordings: map<Path, FileBytes>, root: seq<Child>,
                          at: Place)
    requires Sound(k) && Finished(k, b, ts, recordings, root) && Distinct(ts)
    requires Walk([], root).Ok? && at in Walk([], root).value.recordings
    ensures at in VouchedFor(k, root)
  {
    StandingApart(k, b, ts, recordings, root);
    NamedPlaces([], root, Walk([], root).value);
    MirrorRecording(root, Replay(k, b, ts).disk.sidecars, recordings, at);
    FinishedVouched(k, b, ts, recordings, root);
  }

  lemma FinishedPasses(k: Suite, b: Build, ts: seq<Txn>, recordings: map<Path, FileBytes>, root: seq<Child>)
    requires Sound(k) && Finished(k, b, ts, recordings, root) && HashesTell(k, Replay(k, b, ts).placed)
    ensures Walk([], root).Ok?
    ensures var entries := Walk([], root).value.entries;
      && (Passes(k, Replay(k, b, ts).disk, ManifestsOf(entries)) <==> Distinct(ts))
      && (Distinct(ts) ==> |entries| == |ts|)
  {
    StandingApart(k, b, ts, recordings, root);
    var entries := Walk([], root).value.entries;
    MirrorLists(root, Replay(k, b, ts).disk.sidecars, recordings);
    CompleteRunExactly(k, b, ts, PathsAt(entries), ManifestsOf(entries));
    if Distinct(ts) {
      CompleteRunPasses(k, b, ts, PathsAt(entries), ManifestsOf(entries));
    }
  }

  /** What a run in which nobody failed has left, with retention, once nobody is at work any more. */
  ghost predicate Settled(k: Suite, b: Build, actions: seq<Action>, root: seq<Child>) {
    After(k, b, actions).Some? && Graceful(k, b, actions) &&
    var s := After(k, b, actions).value;
    && Resting(s) && TreeOf(s, root) && HashesTell(k, Replay(k, b, s.history).placed)
  }

  lemma SettledFinished(k: Suite, b: Build, actions: seq<Action>, root: seq<Child>)
    requires Settled(k, b, actions, root)
    ensures var s := After(k, b, actions).value;
      && Finished(k, b, s.history, s.recordings, root) && s.disk == Replay(k, b, s.history).disk
      && (s.reused == {} ==> Distinct(s.history))
  {
    EveryStateIsSerial(k, b, actions);
    GracefulRunsComplete(k, b, actions);
  }

  /**
   The end-to-end theorem. Any number of recorders of which none failed, interleaved in any way with each other
   and with retention, leave a host on which `--check-chain` is green if and only if no name was signed for
   twice. Every manifest is then counted, the deleted recordings as pruned, and nothing is unsigned.
   */
  lemma RecordersVerify(k: Suite, b: Build, actions: seq<Action>, root: seq<Child>)
    requires Sound(k) && Settled(k, b, actions, root)
    ensures var s := After(k, b, actions).value;
      && (Green(k, s.disk, root) <==> Distinct(s.history)) && (s.reused == {} ==> Distinct(s.history))
      && (Distinct(s.history) ==>
           && |s.recordings| <= |s.history|
           && Report(k, root, true) == VerifyResult(|s.history|, true, |s.history| - |s.recordings|, []))
  {
    var s := After(k, b, actions).value;
    SettledFinished(k, b, actions, root);
    FinishedPasses(k, b, s.history, s.recordings, root);
    if Distinct(s.history) {
      FinishedReport(k, b, s.history, s.recordings, root);
    }
  }

  /** Retention at any later time keeps such a host green, with exactly the recordings it deletes newly pruned. */
  lemma AgedHostVerifies(k: Suite, b: Build, actions: seq<Action>, root: seq<Child>, gone: set<Place>)
    requires Sound(k) && Settled(k, b, actions, root) && Distinct(After(k, b, actions).value.history)
    requires Walk([], root).Ok? && forall p :: p in gone ==> p in Walk([], root).value.recordings
    ensures var s, aged := After(k, b, actions).value, Prune([], root, gone);
      && Green(k, s.disk, aged) && |s.recordings| <= |s.history|
      && Report(k, aged, true) == VerifyResult(|s.history|, true, |s.history| - |s.recordings| + |gone|, [])
  {
    var s, aged := After(k, b, actions).value, Prune([], root, gone);
    RecordersVerify(k, b, actions, root);
    SettledFinished(k, b, actions, root);
    FinishedReport(k, b, s.history, s.recordings, root);
    GoneAreFiles(root, Walk([], root).value, gone);
    PruneWalk([], root, gone, Walk([], root).value);
    OwnNamesArePlain(root, gone, Walk([], root).value);
    SignedCorpusAges(k, root, gone, true, AnchorOf(s.disk, true));
  }
}
