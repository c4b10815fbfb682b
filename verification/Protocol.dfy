/**
 Any number of recorders on one host, their steps interleaved in any order: creating and writing
 recordings, and the locked transaction step by step. A recorder may stop, fail or die at any point.
 */
module Protocol {
  import opened Wrappers
  import opened Manifests
  import opened StreamReader
  import opened Signing
  import opened ChainDir
  import opened History
  import opened Quiescence

  /** Where one recorder is. From `Entered` on it holds the lock. */
  datatype Proc =
    | Idle
    | Writing(at: Path)
    | Waiting(job: Job)
    | Entered(job: Job)
    | Linked(job: Job, prev: string)
    | Drafted(job: Job, now: Float, m: Manifest)
    | Placed(job: Job, now: Float, m: Manifest)
    | Advanced(job: Job, now: Float, m: Manifest)
    | LogDone(job: Job, now: Float, m: Manifest, secs: nat)

  /**
   The host. `recordings` holds what each created recording contains so far. The rest is bookkeeping that no
   step depends on: `history` lists the finished transactions with the point each reached, `gone` the
   recordings that retention has deleted, and `reused` those of them that were created again.
   */
  datatype Sys = Sys(
    lock: Option<nat>,
    disk: Disk,
    recordings: map<Path, FileBytes>,
    procs: map<nat, Proc>,
    history: seq<Txn>,
    gone: set<Path>,
    reused: set<Path>)

  const INITIAL: Sys := Sys(None, EMPTY, map[], map[], [], {}, {})

  datatype Action =
    | Create(p: nat, at: Path)
    | Write(p: nat, more: Bytes)
    | Finish(p: nat, job: Job)
    | Lock(p: nat)
    | ReadHead(p: nat)
    | Sign(p: nat, now: Float)
    | PlaceSidecar(p: nat)
    | WriteHead(p: nat)
    | AppendLog(p: nat, secs: nat)
    | Stop(p: nat)
    | Delete(p: nat, at: Path)

  function ProcOf(s: Sys, p: nat): Proc {
    if p in s.procs then s.procs[p] else Idle
  }

  function Become(s: Sys, p: nat, proc: Proc): Sys {
    s.(procs := s.procs[p := proc])
  }

  predicate Holding(proc: Proc) {
    !proc.Idle? && !proc.Writing? && !proc.Waiting?
  }

  /** The transaction of a lock holder, as far as it has come. */
  function Inflight(proc: Proc): Txn
    requires Holding(proc)
  {
    match proc
    case Entered(job) => Txn(job, Clock(NaN, 0), Nothing)
    case Linked(job, _) => Txn(job, Clock(NaN, 0), Nothing)
    case Drafted(job, now, _) => Txn(job, Clock(now, 0), Nothing)
    case Placed(job, now, _) => Txn(job, Clock(now, 0), SidecarPlaced)
    case Advanced(job, now, _) => Txn(job, Clock(now, 0), HeadAdvanced)
    case LogDone(job, now, _, secs) => Txn(job, Clock(now, secs), LogAppended)
  }

  /** The recording a recorder is responsible for. */
  function PathOf(proc: Proc): Option<Path> {
    if proc.Idle? then None else if proc.Writing? then Some(proc.at) else Some(RecordingOf(proc.job))
  }

  /** No recorder is still responsible for this recording. Retention leaves the others alone. */
  predicate Unattended(s: Sys, at: Path) {
    forall p :: p in s.procs ==> PathOf(s.procs[p]) != Some(at)
  }

  /** One step, or nothing where the action is not possible: the step that fails is a `Stop` instead. */
  function Step(k: Suite, b: Build, s: Sys, a: Action): Option<Sys> {
    var proc := ProcOf(s, a.p);
    match a
    case Create(p, at) =>
      if proc.Idle? && at !in s.recordings then
        Some(Become(s.(recordings := s.recordings[at := []],
                       reused := if at in s.gone then s.reused + {at} else s.reused),
                    p, Writing(at)))
      else None
    case Write(p, more) =>
      if proc.Writing? && proc.at in s.recordings && |s.recordings[proc.at] + more| < 0x1_0000_0000_0000_0000 then
        Some(s.(recordings := s.recordings[proc.at := s.recordings[proc.at] + more]))
      else None
    case Finish(p, job) =>
      if proc.Writing? && proc.at in s.recordings && RecordingOf(job) == proc.at
         && job.content == s.recordings[proc.at] && ValidJob(job) then
        Some(Become(s, p, Waiting(job)))
      else None
    case Lock(p) =>
      if proc.Waiting? && s.lock.None? then Some(Become(s.(lock := Some(p)), p, Entered(proc.job))) else None
    case ReadHead(p) =>
      if proc.Entered? && HeadValue(s.disk.head).Ok? then
        Some(Become(s, p, Linked(proc.job, HeadValue(s.disk.head).value)))
      else None
    case Sign(p, now) =>
      if proc.Linked? then
        Some(Become(s, p, Drafted(proc.job, now, Signed(k, DraftFor(k, b, proc.job, proc.prev, now)))))
      else None
    case PlaceSidecar(p) =>
      if proc.Drafted? then
        Some(Become(s.(disk := WithSidecar(s.disk, proc.job, proc.m)), p, Placed(proc.job, proc.now, proc.m)))
      else None
    case WriteHead(p) =>
      if proc.Placed? && |proc.m.thisManifestHash| == 64 then
        Some(Become(s.(disk := WithHead(s.disk, proc.m)), p, Advanced(proc.job, proc.now, proc.m)))
      else None
    case AppendLog(p, secs) =>
      if proc.Advanced? then
        var text := LogAfter(k, s.disk.log, RecordFor(proc.job, secs, proc.m.thisManifestHash));
        if text.Ok? then
          Some(Become(s.(disk := s.disk.(log := Holds(text.value))), p, LogDone(proc.job, proc.now, proc.m, secs)))
        else None
      else None
    case Stop(p) =>
      Some(if Holding(proc) then Become(s.(lock := None, history := s.history + [Inflight(proc)]), p, Idle)
           else Become(s, p, Idle))
    case Delete(_, at) =>
      if at in s.recordings && Unattended(s, at) then
        Some(s.(recordings := s.recordings - {at}, gone := s.gone + {at}))
      else None
  }

  /** The state after these actions, if each was possible in its turn. */
  function After(k: Suite, b: Build, actions: seq<Action>): Option<Sys> {
    if actions == [] then Some(INITIAL)
    else
      var before := After(k, b, actions[..|actions| - 1]);
      if before.None? then None else Step(k, b, before.value, actions[|actions| - 1])
  }

  // ----- What every step keeps

  /** Exactly the lock holder is inside the transaction. */
  ghost predicate Exclusive(s: Sys) {
    forall p: nat :: Holding(ProcOf(s, p)) <==> s.lock == Some(p)
  }

  ghost predicate Filed(recordings: map<Path, FileBytes>, job: Job) {
    ValidJob(job) && RecordingOf(job) in recordings && recordings[RecordingOf(job)] == job.content
  }

  ghost predicate Minds(recordings: map<Path, FileBytes>, proc: Proc) {
    proc.Idle? || (PathOf(proc).value in recordings && (proc.Writing? || Filed(recordings, proc.job)))
  }

  /** What a finished transaction signed is as it was, or deleted; unless its name was used again. */
  ghost predicate Lasts(s: Sys, job: Job) {
    var p := RecordingOf(job);
    p in s.reused || (if p in s.recordings then s.recordings[p] == job.content else p in s.gone)
  }

  /**
   Each recording belongs to one recorder at a time. Names that were not reused belong to one recorder or
   one finished transaction ever, and finished contents stay until they are deleted.
   */
  ghost predicate Owned(s: Sys) {
    && ValidJobs(s.history) && s.reused <= s.gone
    && (forall t :: t in s.history ==> Lasts(s, t.job))
    && (forall p: nat :: Minds(s.recordings, ProcOf(s, p)))
    && (forall p: nat, q: nat :: p != q && !ProcOf(s, p).Idle? ==> PathOf(ProcOf(s, p)) != PathOf(ProcOf(s, q)))
    && (forall p: nat, t :: t in s.history ==>
         PathOf(ProcOf(s, p)) != Some(RecordingOf(t.job)) || RecordingOf(t.job) in s.reused)
    && forall i, j :: 0 <= i < j < |s.history| ==>
         RecordingOf(s.history[i].job) != RecordingOf(s.history[j].job) || RecordingOf(s.history[i].job) in s.reused
  }

  /** What a lock holder knows is still so: nobody else has touched the chain directory since. */
  ghost predicate Current(k: Suite, b: Build, base: Disk, disk: Disk, proc: Proc)
    requires Holding(proc)
  {
    match proc
    case Entered(job) => disk == base
    case Linked(job, prev) => disk == base && HeadValue(base.head) == Ok(prev)
    case Drafted(job, now, m) => disk == base && Draws(k, b, base, job, now, m)
    case Placed(job, now, m) => disk == Reached(k, base, job, 0, m, SidecarPlaced) && Draws(k, b, base, job, now, m)
    case Advanced(job, now, m) => disk == Reached(k, base, job, 0, m, HeadAdvanced) && Draws(k, b, base, job, now, m)
    case LogDone(job, now, m, secs) =>
      disk == Reached(k, base, job, secs, m, LogAppended) && Draws(k, b, base, job, now, m)
  }

  /** `m` is the signed manifest that follows the head of `base`. */
  ghost predicate Draws(k: Suite, b: Build, base: Disk, job: Job, now: Float, m: Manifest) {
    HeadValue(base.head).Ok? && m == Signed(k, DraftFor(k, b, job, HeadValue(base.head).value, now))
  }

  ghost predicate Serial(k: Suite, b: Build, s: Sys) {
    var base := Replay(k, b, s.history).disk;
    if s.lock.None? then s.disk == base
    else Holding(ProcOf(s, s.lock.value)) && Current(k, b, base, s.disk, ProcOf(s, s.lock.value))
  }

  lemma StepExclusive(k: Suite, b: Build, s: Sys, a: Action)
    requires Exclusive(s) && Step(k, b, s, a).Some?
    ensures Exclusive(Step(k, b, s, a).value)
  {
    var v := Step(k, b, s, a).value;
    forall p: nat ensures Holding(ProcOf(v, p)) <==> v.lock == Some(p) {
      assert Holding(ProcOf(s, p)) <==> s.lock == Some(p);
      assert Holding(ProcOf(s, a.p)) <==> s.lock == Some(a.p);
      assert p != a.p ==> ProcOf(v, p) == ProcOf(s, p);
    }
  }

  /** Nothing changed but what recorder `p` is doing. */
  predicate SameFiles(s: Sys, v: Sys) {
    v.recordings == s.recordings && v.gone == s.gone && v.reused == s.reused
  }

  /** A recorder moves on with its recording. */
  lemma OwnerMoves(s: Sys, v: Sys, p: nat, proc: Proc)
    requires Owned(s) && SameFiles(s, v) && v.history == s.history && v.procs == s.procs[p := proc]
    requires Minds(s.recordings, proc) && (proc.Idle? || PathOf(proc) == PathOf(ProcOf(s, p)))
    ensures Owned(v)
  {
    assert ProcOf(v, p) == proc && forall q: nat :: q != p ==> ProcOf(v, q) == ProcOf(s, q);
    forall t | t in v.history ensures Lasts(v, t.job) {
      assert Lasts(s, t.job);
    }
  }

  lemma OwnerCreates(s: Sys, v: Sys, p: nat, at: Path)
    requires Owned(s) && at !in s.recordings && v.gone == s.gone
    requires v.recordings == s.recordings[at := []] && v.history == s.history && v.procs == s.procs[p := Writing(at)]
    requires v.reused == if at in s.gone then s.reused + {at} else s.reused
    ensures Owned(v)
  {
    assert ProcOf(v, p) == Writing(at) && forall q: nat :: q != p ==> ProcOf(v, q) == ProcOf(s, q);
    forall q: nat ensures PathOf(ProcOf(s, q)) != Some(at) && (q != p ==> Minds(v.recordings, ProcOf(v, q))) {
      assert Minds(s.recordings, ProcOf(s, q));
    }
    forall t | t in v.history ensures Lasts(v, t.job) && (RecordingOf(t.job) == at ==> at in v.reused) {
      assert Lasts(s, t.job);
    }
  }

  lemma OwnerWrites(s: Sys, v: Sys, p: nat, content: FileBytes)
    requires Owned(s) && ProcOf(s, p).Writing? && v.gone == s.gone && v.reused == s.reused
    requires v.recordings == s.recordings[ProcOf(s, p).at := content] && v.history == s.history && v.procs == s.procs
    ensures Owned(v)
  {
    var at := ProcOf(s, p).at;
    assert PathOf(ProcOf(s, p)) == Some(at) && forall q: nat :: ProcOf(v, q) == ProcOf(s, q);
    forall q: nat ensures Minds(v.recordings, ProcOf(v, q)) {
      assert Minds(s.recordings, ProcOf(s, q));
      assert q != p && !ProcOf(s, q).Idle? ==> PathOf(ProcOf(s, q)) != PathOf(ProcOf(s, p));
    }
    forall t | t in v.history ensures Lasts(v, t.job) {
      assert Lasts(s, t.job);
      assert PathOf(ProcOf(s, p)) != Some(RecordingOf(t.job)) || RecordingOf(t.job) in s.reused;
    }
  }

  /** A transaction ends: its recording passes to the history. */
  lemma OwnerEnds(s: Sys, v: Sys, p: nat, t: Txn)
    requires Owned(s) && Holding(ProcOf(s, p)) && t.job == ProcOf(s, p).job
    requires SameFiles(s, v) && v.history == s.history + [t] && v.procs == s.procs[p := Idle]
    ensures Owned(v)
  {
    var mine := PathOf(ProcOf(s, p));
    assert Minds(s.recordings, ProcOf(s, p)) && mine == Some(RecordingOf(t.job));
    assert ProcOf(v, p) == Idle && forall q: nat :: q != p ==> ProcOf(v, q) == ProcOf(s, q);
    forall x | x in v.history ensures Lasts(v, x.job) {
      assert x in s.history ==> Lasts(s, x.job);
    }
    forall q: nat, x | x in v.history
      ensures PathOf(ProcOf(v, q)) != Some(RecordingOf(x.job)) || RecordingOf(x.job) in v.reused
    {
      if q != p && x !in s.history {
        assert x == t;
        assert PathOf(ProcOf(s, p)) != PathOf(ProcOf(s, q));
      }
    }
    forall i, j | 0 <= i < j < |v.history|
      ensures var p, q := RecordingOf(v.history[i].job), RecordingOf(v.history[j].job); p != q || p in v.reused
    {
      assert v.history[i] in s.history;
      assert PathOf(ProcOf(s, p)) != Some(RecordingOf(v.history[i].job)) || RecordingOf(v.history[i].job) in s.reused;
    }
  }

  /** Retention deletes a recording that nobody is writing. */
  lemma OwnerLoses(s: Sys, v: Sys, at: Path)
    requires Owned(s) && at in s.recordings && Unattended(s, at)
    requires v == s.(recordings := s.recordings - {at}, gone := s.gone + {at})
    ensures Owned(v)
  {
    forall q: nat ensures ProcOf(v, q) == ProcOf(s, q) && Minds(v.recordings, ProcOf(v, q)) {
      assert Minds(s.recordings, ProcOf(s, q));
      assert q in s.procs ==> PathOf(s.procs[q]) != Some(at);
    }
    forall t | t in v.history ensures Lasts(v, t.job) {
      assert Lasts(s, t.job);
    }
  }

  lemma StepOwned(k: Suite, b: Build, s: Sys, a: Action)
    requires Owned(s) && Step(k, b, s, a).Some?
    ensures Owned(Step(k, b, s, a).value)
  {
    var v, proc := Step(k, b, s, a).value, ProcOf(s, a.p);
    assert Minds(s.recordings, proc);
    if a.Create? {
      OwnerCreates(s, v, a.p, a.at);
    } else if a.Write? {
      OwnerWrites(s, v, a.p, s.recordings[proc.at] + a.more);
    } else if a.Delete? {
      OwnerLoses(s, v, a.at);
    } else if a.Stop? && Holding(proc) {
      OwnerEnds(s, v, a.p, Inflight(proc));
    } else {
      OwnerMoves(s, v, a.p, ProcOf(v, a.p));
    }
  }

  lemma ReplayStep(k: Suite, b: Build, ts: seq<Txn>, t: Txn)
    ensures Replay(k, b, ts + [t]).disk == Apply(k, b, Replay(k, b, ts).disk, t)
  {
    assert (ts + [t])[..|ts|] == ts;
    ExtendApplies(k, b, Replay(k, b, ts), t);
  }

  lemma CurrentApplies(k: Suite, b: Build, base: Disk, disk: Disk, proc: Proc)
    requires Holding(proc) && Current(k, b, base, disk, proc)
    ensures disk == Apply(k, b, base, Inflight(proc))
  {
  }

  lemma FilesKeepPace(k: Suite, base: Disk, job: Job, m: Manifest)
    ensures var placed := Reached(k, base, job, 0, m, SidecarPlaced);
      var advanced := Reached(k, base, job, 0, m, HeadAdvanced);
      WithSidecar(base, job, m) == placed && WithHead(placed, m) == advanced && advanced.log == base.log
  {}

  lemma LogKeepsPace(k: Suite, base: Disk, job: Job, m: Manifest, secs: nat, text: string)
    requires LogAfter(k, base.log, RecordFor(job, secs, m.thisManifestHash)) == Ok(text)
    ensures Reached(k, base, job, 0, m, HeadAdvanced).(log := Holds(text))
      == Reached(k, base, job, secs, m, LogAppended)
  {}

  predicate Writes(a: Action) {
    a.PlaceSidecar? || a.WriteHead? || a.AppendLog?
  }

  /** `v` is where the holder's step leads, against the directory it found. */
  ghost predicate Moved(k: Suite, b: Build, base: Disk, s: Sys, v: Sys, p: nat) {
    Holding(ProcOf(v, p)) && Current(k, b, base, v.disk, ProcOf(v, p)) && v.lock == s.lock
  }

  lemma HolderReads(k: Suite, b: Build, base: Disk, s: Sys, a: Action)
    requires Holding(ProcOf(s, a.p)) && Current(k, b, base, s.disk, ProcOf(s, a.p))
    requires !a.Stop? && !Writes(a) && Step(k, b, s, a).Some?
    ensures Moved(k, b, base, s, Step(k, b, s, a).value, a.p)
  {}

  lemma HolderWrites(k: Suite, b: Build, base: Disk, s: Sys, a: Action)
    requires Holding(ProcOf(s, a.p)) && Current(k, b, base, s.disk, ProcOf(s, a.p))
    requires Writes(a) && Step(k, b, s, a).Some?
    ensures Moved(k, b, base, s, Step(k, b, s, a).value, a.p)
  {
    var proc := ProcOf(s, a.p);
    FilesKeepPace(k, base, proc.job, proc.m);
    if a.AppendLog? {
      LogKeepsPace(k, base, proc.job, proc.m, a.secs, Step(k, b, s, a).value.disk.log.content);
    }
  }

  /** A recorder without the lock changes nothing the holder relies on. */
  lemma OthersWait(k: Suite, b: Build, s: Sys, a: Action)
    requires !Holding(ProcOf(s, a.p)) && Step(k, b, s, a).Some?
    ensures var v := Step(k, b, s, a).value;
      && v.disk == s.disk && v.history == s.history
      && (if a.Lock? then s.lock == None && v.lock == Some(a.p) && ProcOf(v, a.p).Entered? else v.lock == s.lock)
      && forall q: nat :: q != a.p ==> ProcOf(v, q) == ProcOf(s, q)
  {}

  lemma StopEnds(k: Suite, b: Build, s: Sys, a: Action)
    requires a.Stop? && Holding(ProcOf(s, a.p))
    ensures var v := Step(k, b, s, a).value;
      v.disk == s.disk && v.lock.None? && v.history == s.history + [Inflight(ProcOf(s, a.p))]
  {}

  lemma KeepsHistory(k: Suite, b: Build, s: Sys, a: Action)
    requires !a.Stop? && Step(k, b, s, a).Some?
    ensures Step(k, b, s, a).value.history == s.history
  {}

  lemma StepSerial(k: Suite, b: Build, s: Sys, a: Action)
    requires Exclusive(s) && Serial(k, b, s) && Step(k, b, s, a).Some?
    ensures Serial(k, b, Step(k, b, s, a).value)
  {
    var proc, base := ProcOf(s, a.p), Replay(k, b, s.history).disk;
    assert Holding(proc) <==> s.lock == Some(a.p);
    if !Holding(proc) {
      OthersWait(k, b, s, a);
    } else if a.Stop? {
      CurrentApplies(k, b, base, s.disk, proc);
      ReplayStep(k, b, s.history, Inflight(proc));
      StopEnds(k, b, s, a);
    } else {
      if Writes(a) { HolderWrites(k, b, base, s, a); } else { HolderReads(k, b, base, s, a); }
      KeepsHistory(k, b, s, a);
    }
  }

  lemma {:induction false} RunKeeps(k: Suite, b: Build, actions: seq<Action>)
    requires After(k, b, actions).Some?
    ensures var s := After(k, b, actions).value; Exclusive(s) && Owned(s) && Serial(k, b, s)
  {
    if actions != [] {
      var before, a := After(k, b, actions[..|actions| - 1]).value, actions[|actions| - 1];
      RunKeeps(k, b, actions[..|actions| - 1]);
      StepExclusive(k, b, before, a);
      StepOwned(k, b, before, a);
      StepSerial(k, b, before, a);
    }
  }

  // ----- The theorems

  /** The transactions so far, the one in flight as far as it has come. */
  function SoFar(s: Sys): seq<Txn> {
    if s.lock.Some? && Holding(ProcOf(s, s.lock.value)) then s.history + [Inflight(ProcOf(s, s.lock.value))]
    else s.history
  }

  /** However steps interleave, at most one recorder is inside the transaction. */
  lemma MutualExclusion(k: Suite, b: Build, actions: seq<Action>, p: nat, q: nat)
    requires After(k, b, actions).Some? && p != q
    ensures var s := After(k, b, actions).value; !(Holding(ProcOf(s, p)) && Holding(ProcOf(s, q)))
  {
    RunKeeps(k, b, actions);
    var s := After(k, b, actions).value;
    assert Holding(ProcOf(s, p)) <==> s.lock == Some(p);
  }

  /**
   Interleaving is invisible: in every reachable state the directory is what whole transactions leave when
   they run one after the other. Each has a recording of its own, unless a deleted name was used again.
   */
  lemma EveryStateIsSerial(k: Suite, b: Build, actions: seq<Action>)
    requires After(k, b, actions).Some?
    ensures var s := After(k, b, actions).value;
      && ValidJobs(SoFar(s)) && s.disk == Replay(k, b, SoFar(s)).disk
      && (s.reused == {} ==> Distinct(SoFar(s)))
      && (s.lock.None? ==> SoFar(s) == s.history)
  {
    var s := After(k, b, actions).value;
    RunKeeps(k, b, actions);
    SoFarJobs(s);
    SoFarDisk(k, b, s);
  }

  lemma SoFarJobs(s: Sys)
    requires Owned(s) && Exclusive(s)
    ensures ValidJobs(SoFar(s)) && (s.reused == {} ==> Distinct(SoFar(s)))
  {
    if s.lock.Some? {
      var p := s.lock.value;
      assert Holding(ProcOf(s, p));
      var v := Become(s, p, Idle).(history := s.history + [Inflight(ProcOf(s, p))]);
      OwnerEnds(s, v, p, Inflight(ProcOf(s, p)));
    }
  }

  lemma SoFarDisk(k: Suite, b: Build, s: Sys)
    requires Exclusive(s) && Serial(k, b, s)
    ensures s.disk == Replay(k, b, SoFar(s)).disk && (s.lock.None? ==> SoFar(s) == s.history)
  {
    if s.lock.Some? {
      var proc := ProcOf(s, s.lock.value);
      CurrentApplies(k, b, Replay(k, b, s.history).disk, s.disk, proc);
      ReplayStep(k, b, s.history, Inflight(proc));
    }
  }

  lemma NothingReused(k: Suite, b: Build, s: Sys, a: Action)
    requires s.gone == {} && s.reused == {} && !a.Delete? && Step(k, b, s, a).Some?
    ensures Step(k, b, s, a).value.gone == {} && Step(k, b, s, a).value.reused == {}
  {}

  lemma {:induction false} NothingGone(k: Suite, b: Build, actions: seq<Action>)
    requires After(k, b, actions).Some? && forall a :: a in actions ==> !a.Delete?
    ensures After(k, b, actions).value.gone == {} && After(k, b, actions).value.reused == {}
  {
    if actions != [] {
      var init, a := actions[..|actions| - 1], actions[|actions| - 1];
      assert a in actions && forall x :: x in init ==> x in actions;
      NothingGone(k, b, init);
      NothingReused(k, b, After(k, b, init).value, a);
    }
  }

  /** Exclusive creation: as long as nothing is deleted, no name is ever used twice. */
  lemma ExclusiveCreation(k: Suite, b: Build, actions: seq<Action>)
    requires After(k, b, actions).Some? && forall a :: a in actions ==> !a.Delete?
    ensures Distinct(SoFar(After(k, b, actions).value))
  {
    NothingGone(k, b, actions);
    EveryStateIsSerial(k, b, actions);
  }

  /**
   What the chain check says of one state, any reachable one, even in the middle of a transaction: it passes
   if and only if the last commit is logged and the sidecars on disk were placed by all the commits there were.
   */
  lemma VerdictAnytime(k: Suite, b: Build, actions: seq<Action>, paths: seq<Path>, entries: seq<Manifest>)
    requires Sound(k) && After(k, b, actions).Some?
    requires HashesTell(k, Replay(k, b, SoFar(After(k, b, actions).value)).placed)
    requires PlacedAt(After(k, b, actions).value.disk.sidecars, paths, entries)
    ensures var s := After(k, b, actions).value; var ts := SoFar(s);
      && (Passes(k, s.disk, entries) <==>
           (Appended(ts) == 0 || LastCommitLogged(ts)) && NoneLost(LastPlaced(ts), Committed(ts)))
      && (Distinct(ts) ==>
           (Passes(k, s.disk, entries) <==>
             && (Appended(ts) == 0 || LastCommitLogged(ts))
             && (Orphaned(ts) == 0 || (Committed(ts) == 0 && Orphaned(ts) == 1))))
  {
    var ts := SoFar(After(k, b, actions).value);
    EveryStateIsSerial(k, b, actions);
    VerdictWithReuse(k, b, ts, paths, entries);
    if Distinct(ts) {
      QuiescentVerdict(k, b, ts, paths, entries);
    }
  }

  /**
   Recorders that all complete, in any interleaving with each other and with retention, leave a directory
   that passes whenever the lock is free, if and only if no recording's name was signed for twice.
   */
  lemma CompleteRecordersPass(k: Suite, b: Build, actions: seq<Action>, paths: seq<Path>, entries: seq<Manifest>)
    requires Sound(k) && After(k, b, actions).Some? && After(k, b, actions).value.lock.None?
    requires forall t :: t in After(k, b, actions).value.history ==> t.reach.LogAppended?
    requires HashesTell(k, Replay(k, b, After(k, b, actions).value.history).placed)
    requires PlacedAt(After(k, b, actions).value.disk.sidecars, paths, entries)
    ensures var s := After(k, b, actions).value;
      && (Passes(k, s.disk, entries) <==> Distinct(s.history))
      && (s.reused == {} ==> Distinct(s.history) && |entries| == |s.history|)
  {
    var s := After(k, b, actions).value;
    EveryStateIsSerial(k, b, actions);
    CompleteRunExactly(k, b, s.history, paths, entries);
    if Distinct(s.history) {
      CompleteRunPasses(k, b, s.history, paths, entries);
    }
  }

  /** Their log has one line for each finished transaction in any case, and its newest line agrees with the head. */
  lemma CompleteRecordersAgree(k: Suite, b: Build, actions: seq<Action>)
    requires Sound(k) && After(k, b, actions).Some? && After(k, b, actions).value.lock.None?
    requires forall t :: t in After(k, b, actions).value.history ==> t.reach.LogAppended?
    requires HashesTell(k, Replay(k, b, After(k, b, actions).value.history).chain)
    ensures var s := After(k, b, actions).value;
      && LogVerdict(k, s.disk.log).Ok? && |LogVerdict(k, s.disk.log).value.seen.entries| == |s.history|
      && (s.history != [] ==> HeadIsTip(s.disk, LogVerdict(k, s.disk.log).value.seen))
  {
    EveryStateIsSerial(k, b, actions);
    CompleteRunAgrees(k, b, After(k, b, actions).value.history);
  }

  // ----- Runs in which nobody fails

  /** A recorder stops only before it has created a recording, or once its transaction is complete. */
  predicate Clean(s: Sys, a: Action) {
    a.Stop? ==> ProcOf(s, a.p).Idle? || ProcOf(s, a.p).LogDone?
  }

  ghost predicate Graceful(k: Suite, b: Build, actions: seq<Action>) {
    forall n {:trigger actions[n]} :: 0 <= n < |actions| ==>
      var s := After(k, b, actions[..n]); s.Some? && Clean(s.value, actions[n])
  }

  /** No recorder is at work. */
  predicate Resting(s: Sys) {
    forall p :: p in s.procs ==> s.procs[p].Idle?
  }

  /** Some transaction signed this content for the recording at `p`. */
  ghost predicate AsSigned(ts: seq<Txn>, p: Path, content: FileBytes) {
    exists i :: 0 <= i < |ts| && RecordingOf(ts[i].job) == p && ts[i].job.content == content
  }

  /** Some recorder is at work on the recording, or it is as some transaction signed it. */
  ghost predicate AnsweredAt(s: Sys, p: Path)
    requires p in s.recordings
  {
    !Unattended(s, p) || AsSigned(s.history, p, s.recordings[p])
  }

  /** Every recording is answered for, and every finished transaction was completed. */
  ghost predicate Answered(s: Sys) {
    && (forall t :: t in s.history ==> t.reach.LogAppended?)
    && forall p {:trigger s.recordings[p]} :: p in s.recordings ==> AnsweredAt(s, p)
  }

  /** Who was at work on a recording still is, if nobody let it go. */
  lemma StillAttended(s: Sys, v: Sys, p: nat, at: Path)
    requires !Unattended(s, at) && forall q :: q != p ==> ProcOf(v, q) == ProcOf(s, q)
    requires PathOf(ProcOf(s, p)) == Some(at) ==> PathOf(ProcOf(v, p)) == Some(at)
    ensures !Unattended(v, at)
  {
    var q :| q in s.procs && PathOf(s.procs[q]) == Some(at);
    assert PathOf(ProcOf(v, q)) == Some(at);
  }

  lemma MoveAnswered(s: Sys, v: Sys, p: nat, at: Path)
    requires Answered(s) && at in s.recordings && at in v.recordings && v.history == s.history
    requires v.recordings[at] == s.recordings[at] && forall q :: q != p ==> ProcOf(v, q) == ProcOf(s, q)
    requires PathOf(ProcOf(s, p)) == Some(at) ==> PathOf(ProcOf(v, p)) == Some(at)
    ensures AnsweredAt(v, at)
  {
    assert AnsweredAt(s, at);
    if !Unattended(s, at) {
      StillAttended(s, v, p, at);
    }
  }

  /** A recorder creates or writes its recording. */
  lemma WriterAnswered(s: Sys, v: Sys, p: nat, at: Path, content: FileBytes)
    requires Answered(s) && v.recordings == s.recordings[at := content] && v.history == s.history
    requires ProcOf(v, p) == Writing(at) && forall q :: q != p ==> ProcOf(v, q) == ProcOf(s, q)
    requires ProcOf(s, p).Idle? || ProcOf(s, p) == Writing(at)
    ensures Answered(v)
  {
    forall x | x in v.recordings ensures AnsweredAt(v, x) {
      if x == at {
        assert p in v.procs && PathOf(v.procs[p]) == Some(at);
      } else {
        MoveAnswered(s, v, p, x);
      }
    }
  }

  /** A transaction is complete: the recording is left as it signed it. */
  lemma EndAnswered(s: Sys, v: Sys, p: nat, t: Txn)
    requires Owned(s) && Answered(s) && ProcOf(s, p).LogDone? && t == Inflight(ProcOf(s, p))
    requires SameFiles(s, v) && v.history == s.history + [t] && v.procs == s.procs[p := Idle]
    ensures Answered(v)
  {
    assert Minds(s.recordings, ProcOf(s, p)) && v.history[|s.history|] == t;
    assert forall q :: q != p ==> ProcOf(v, q) == ProcOf(s, q);
    forall x | x in v.recordings ensures AnsweredAt(v, x) {
      assert AnsweredAt(s, x);
      if x == RecordingOf(t.job) {
        assert AsSigned(v.history, x, v.recordings[x]);
      } else if !Unattended(s, x) {
        StillAttended(s, v, p, x);
      } else {
        SignedBefore(s.history, t, x, s.recordings[x]);
      }
    }
  }

  lemma SignedBefore(ts: seq<Txn>, t: Txn, p: Path, content: FileBytes)
    requires AsSigned(ts, p, content)
    ensures AsSigned(ts + [t], p, content)
  {
    var i :| 0 <= i < |ts| && RecordingOf(ts[i].job) == p && ts[i].job.content == content;
    assert (ts + [t])[i] == ts[i];
  }

  /** Every recorder stays with its recording, and no recording changes, though one may be deleted. */
  ghost predicate StaysPut(s: Sys, v: Sys, p: nat) {
    && v.history == s.history && v.recordings.Keys <= s.recordings.Keys
    && (forall x :: x in v.recordings ==> v.recordings[x] == s.recordings[x])
    && (forall q :: q != p ==> ProcOf(v, q) == ProcOf(s, q))
    && PathOf(ProcOf(v, p)) == PathOf(ProcOf(s, p))
  }

  lemma StayAnswered(s: Sys, v: Sys, p: nat)
    requires Answered(s) && StaysPut(s, v, p)
    ensures Answered(v)
  {
    forall x | x in v.recordings ensures AnsweredAt(v, x) {
      MoveAnswered(s, v, p, x);
    }
  }

  lemma WritersStay(k: Suite, b: Build, s: Sys, a: Action)
    requires Writes(a) && Step(k, b, s, a).Some?
    ensures StaysPut(s, Step(k, b, s, a).value, a.p)
  {}

  lemma OthersStay(k: Suite, b: Build, s: Sys, a: Action)
    requires Clean(s, a) && Step(k, b, s, a).Some? && !Writes(a)
    requires !a.Create? && !a.Write? && !(a.Stop? && Holding(ProcOf(s, a.p)))
    ensures StaysPut(s, Step(k, b, s, a).value, a.p)
  {}

  lemma StepAnswered(k: Suite, b: Build, s: Sys, a: Action)
    requires Owned(s) && Answered(s) && Clean(s, a) && Step(k, b, s, a).Some?
    ensures Answered(Step(k, b, s, a).value)
  {
    var v, proc := Step(k, b, s, a).value, ProcOf(s, a.p);
    if a.Create? {
      WriterAnswered(s, v, a.p, a.at, []);
    } else if a.Write? {
      WriterAnswered(s, v, a.p, proc.at, s.recordings[proc.at] + a.more);
    } else if a.Stop? && Holding(proc) {
      EndAnswered(s, v, a.p, Inflight(proc));
    } else {
      if Writes(a) { WritersStay(k, b, s, a); } else { OthersStay(k, b, s, a); }
      StayAnswered(s, v, a.p);
    }
  }

  lemma {:induction false} RunAnswered(k: Suite, b: Build, actions: seq<Action>)
    requires After(k, b, actions).Some? && Graceful(k, b, actions)
    ensures Answered(After(k, b, actions).value)
  {
    if actions != [] {
      var init, a := actions[..|actions| - 1], actions[|actions| - 1];
      forall n | 0 <= n < |init|
        ensures After(k, b, init[..n]).Some? && Clean(After(k, b, init[..n]).value, init[n])
      {
        assert init[..n] == actions[..n] && init[n] == actions[n];
      }
      RunKeeps(k, b, init);
      RunAnswered(k, b, init);
      StepAnswered(k, b, After(k, b, init).value, a);
    }
  }

  /**
   Where nobody fails and nobody is still at work, the lock is free, every transaction is complete, and every
   recording left has the content that a transaction signed for it.
   */
  lemma GracefulRunsComplete(k: Suite, b: Build, actions: seq<Action>)
    requires After(k, b, actions).Some? && Graceful(k, b, actions) && Resting(After(k, b, actions).value)
    ensures var s := After(k, b, actions).value;
      && s.lock.None? && (forall t :: t in s.history ==> t.reach.LogAppended?)
      && forall p :: p in s.recordings ==> AsSigned(s.history, p, s.recordings[p])
  {
    var s := After(k, b, actions).value;
    RunKeeps(k, b, actions);
    RunAnswered(k, b, actions);
    forall p: nat ensures s.lock != Some(p) {
      assert Holding(ProcOf(s, p)) <==> s.lock == Some(p);
    }
    forall p | p in s.recordings ensures AsSigned(s.history, p, s.recordings[p]) {
      assert AnsweredAt(s, p);
    }
  }
}
