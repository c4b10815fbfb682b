/** The protocol can always be carried through: whenever the lock is free, a recorder can complete a transaction. */
module Progress {
  import opened Wrappers
  import opened Manifests
  import opened Signing
  import opened ChainDir
  import opened History
  import opened Protocol

  /** The state after these actions, taken from `s`. */
  function Steps(k: Suite, b: Build, s: Sys, actions: seq<Action>): Option<Sys>
    decreases |actions|
  {
    if actions == [] then Some(s)
    else
      var v := Step(k, b, s, actions[0]);
      if v.None? then None else Steps(k, b, v.value, actions[1..])
  }

  lemma {:induction false} AfterSteps(k: Suite, b: Build, before: seq<Action>, actions: seq<Action>)
    requires After(k, b, before).Some?
    ensures After(k, b, before + actions) == Steps(k, b, After(k, b, before).value, actions)
    decreases |actions|
  {
    if actions == [] {
      assert before + actions == before;
    } else {
      var first := before + [actions[0]];
      assert first[..|first| - 1] == before && before + actions == first + actions[1..];
      if Step(k, b, After(k, b, before).value, actions[0]).Some? {
        AfterSteps(k, b, first, actions[1..]);
      } else {
        NothingAfter(k, b, first, actions[1..]);
      }
    }
  }

  lemma {:induction false} NothingAfter(k: Suite, b: Build, before: seq<Action>, actions: seq<Action>)
    requires After(k, b, before).None?
    ensures After(k, b, before + actions).None?
  {
    if actions == [] {
      assert before + actions == before;
    } else {
      var all := before + actions;
      assert all[..|all| - 1] == before + actions[..|actions| - 1];
      NothingAfter(k, b, before, actions[..|actions| - 1]);
    }
  }

  lemma ThreeSteps(k: Suite, b: Build, s: Sys, x: Action, y: Action, z: Action, t: Sys, u: Sys, v: Sys)
    requires Step(k, b, s, x) == Some(t) && Step(k, b, t, y) == Some(u) && Step(k, b, u, z) == Some(v)
    ensures Steps(k, b, s, [x, y, z]) == Some(v)
  {
    assert [x, y, z][1..] == [y, z] && [y, z][1..] == [z] && [z][1..] == [];
    assert Steps(k, b, v, []) == Some(v);
    assert Steps(k, b, u, [z]) == Some(v);
    assert Steps(k, b, t, [y, z]) == Some(v);
  }

  lemma {:induction false} StepsConcat(k: Suite, b: Build, s: Sys, x: seq<Action>, y: seq<Action>, v: Sys)
    requires Steps(k, b, s, x) == Some(v)
    ensures Steps(k, b, s, x + y) == Steps(k, b, v, y)
    decreases |x|
  {
    if x == [] {
      assert x + y == y;
    } else {
      assert (x + y)[1..] == x[1..] + y;
      StepsConcat(k, b, Step(k, b, s, x[0]).value, x[1..], y, v);
    }
  }

  // ----- Three stages of one recorder

  function Recording(p: nat, job: Job): seq<Action> {
    [Create(p, RecordingOf(job)), Write(p, job.content), Finish(p, job)]
  }

  function Drafting(p: nat, now: Float): seq<Action> {
    [Lock(p), Action.ReadHead(p), Action.Sign(p, now)]
  }

  function Committing(p: nat, secs: nat): seq<Action> {
    [Action.PlaceSidecar(p), Action.WriteHead(p), Action.AppendLog(p, secs)]
  }

  lemma Stores(k: Suite, b: Build, s: Sys, p: nat, job: Job) returns (v: Sys)
    requires ProcOf(s, p).Idle? && RecordingOf(job) !in s.recordings && ValidJob(job)
    ensures Steps(k, b, s, Recording(p, job)) == Some(v)
    ensures ProcOf(v, p) == Waiting(job) && v.lock == s.lock && v.disk == s.disk && v.history == s.history
    ensures v.recordings == s.recordings[RecordingOf(job) := job.content]
  {
    var at := RecordingOf(job);
    var t := Step(k, b, s, Create(p, at)).value;
    assert ProcOf(t, p) == Writing(at) && t.recordings[at] + job.content == job.content;
    var u := Step(k, b, t, Write(p, job.content)).value;
    v := Step(k, b, u, Finish(p, job)).value;
    ThreeSteps(k, b, s, Create(p, at), Write(p, job.content), Finish(p, job), t, u, v);
  }

  lemma Locks(k: Suite, b: Build, s: Sys, p: nat)
    requires ProcOf(s, p).Waiting? && s.lock.None?
    ensures var v := Step(k, b, s, Lock(p));
      && v.Some? && ProcOf(v.value, p) == Entered(ProcOf(s, p).job) && v.value.lock == Some(p)
      && v.value.disk == s.disk && v.value.history == s.history && v.value.recordings == s.recordings
  {}

  lemma Reads(k: Suite, b: Build, s: Sys, p: nat)
    requires ProcOf(s, p).Entered? && HeadValue(s.disk.head).Ok?
    ensures var v := Step(k, b, s, Action.ReadHead(p));
      && v.Some? && ProcOf(v.value, p) == Linked(ProcOf(s, p).job, HeadValue(s.disk.head).value)
      && v.value.lock == s.lock
      && v.value.disk == s.disk && v.value.history == s.history && v.value.recordings == s.recordings
  {}

  lemma Signs(k: Suite, b: Build, s: Sys, p: nat, job: Job, prev: string, now: Float, m: Manifest)
    requires ProcOf(s, p) == Linked(job, prev) && m == Signed(k, DraftFor(k, b, job, prev, now))
    ensures var v := Step(k, b, s, Action.Sign(p, now));
      && v.Some? && ProcOf(v.value, p) == Drafted(job, now, m) && v.value.lock == s.lock
      && v.value.disk == s.disk && v.value.history == s.history && v.value.recordings == s.recordings
  {}

  lemma Drafts(k: Suite, b: Build, s: Sys, p: nat, job: Job, now: Float) returns (v: Sys)
    requires ProcOf(s, p) == Waiting(job) && s.lock.None? && HeadValue(s.disk.head).Ok?
    ensures Steps(k, b, s, Drafting(p, now)) == Some(v)
    ensures ProcOf(v, p) == Drafted(job, now, Signed(k, DraftFor(k, b, job, HeadValue(s.disk.head).value, now)))
    ensures v.lock == Some(p) && v.disk == s.disk && v.history == s.history && v.recordings == s.recordings
  {
    Locks(k, b, s, p);
    var t := Step(k, b, s, Lock(p)).value;
    Reads(k, b, t, p);
    var u := Step(k, b, t, Action.ReadHead(p)).value;
    var prev := HeadValue(s.disk.head).value;
    Signs(k, b, u, p, job, prev, now, Signed(k, DraftFor(k, b, job, prev, now)));
    v := Step(k, b, u, Action.Sign(p, now)).value;
    ThreeSteps(k, b, s, Lock(p), Action.ReadHead(p), Action.Sign(p, now), t, u, v);
  }

  lemma Appends(k: Suite, b: Build, s: Sys, p: nat, secs: nat)
    requires ProcOf(s, p).Advanced?
    requires LogAfter(k, s.disk.log, RecordFor(ProcOf(s, p).job, secs, ProcOf(s, p).m.thisManifestHash)).Ok?
    ensures var proc, v := ProcOf(s, p), Step(k, b, s, Action.AppendLog(p, secs));
      && v.Some? && ProcOf(v.value, p) == LogDone(proc.job, proc.now, proc.m, secs)
      && v.value.lock == s.lock && v.value.history == s.history && v.value.recordings == s.recordings
  {}

  lemma Places(k: Suite, b: Build, s: Sys, p: nat)
    requires ProcOf(s, p).Drafted?
    ensures var proc, v := ProcOf(s, p), Step(k, b, s, Action.PlaceSidecar(p));
      && v.Some? && ProcOf(v.value, p) == Placed(proc.job, proc.now, proc.m) && v.value.disk.log == s.disk.log
      && v.value.lock == s.lock && v.value.history == s.history && v.value.recordings == s.recordings
  {}

  lemma Heads(k: Suite, b: Build, s: Sys, p: nat)
    requires ProcOf(s, p).Placed? && |ProcOf(s, p).m.thisManifestHash| == 64
    ensures var proc, v := ProcOf(s, p), Step(k, b, s, Action.WriteHead(p));
      && v.Some? && ProcOf(v.value, p) == Advanced(proc.job, proc.now, proc.m) && v.value.disk.log == s.disk.log
      && v.value.lock == s.lock && v.value.history == s.history && v.value.recordings == s.recordings
  {}

  lemma Publishes(k: Suite, b: Build, s: Sys, p: nat, job: Job, now: Float, m: Manifest, secs: nat) returns (v: Sys)
    requires ProcOf(s, p) == Drafted(job, now, m) && |m.thisManifestHash| == 64
    requires LogAfter(k, s.disk.log, RecordFor(job, secs, m.thisManifestHash)).Ok?
    ensures Steps(k, b, s, Committing(p, secs)) == Some(v)
    ensures ProcOf(v, p) == LogDone(job, now, m, secs)
    ensures v.lock == s.lock && v.history == s.history && v.recordings == s.recordings
  {
    Places(k, b, s, p);
    var t := Step(k, b, s, Action.PlaceSidecar(p)).value;
    Heads(k, b, t, p);
    var u := Step(k, b, t, Action.WriteHead(p)).value;
    Appends(k, b, u, p, secs);
    v := Step(k, b, u, Action.AppendLog(p, secs)).value;
    ThreeSteps(k, b, s, Action.PlaceSidecar(p), Action.WriteHead(p), Action.AppendLog(p, secs), t, u, v);
  }

  lemma Releases(k: Suite, b: Build, s: Sys, p: nat) returns (v: Sys)
    requires ProcOf(s, p).LogDone?
    ensures Steps(k, b, s, [Stop(p)]) == Some(v)
    ensures var proc := ProcOf(s, p);
      v.history == s.history + [Txn(proc.job, Clock(proc.now, proc.secs), LogAppended)]
    ensures v.lock.None? && ProcOf(v, p).Idle? && v.recordings == s.recordings && v.disk == s.disk
  {
    v := Step(k, b, s, Stop(p)).value;
    assert [Stop(p)][1..] == [];
  }

  // ----- The whole transaction

  /** What one recorder does, from creating its recording to releasing the lock. */
  function WholePart(p: nat, job: Job, now: Float, secs: nat): seq<Action> {
    Recording(p, job) + (Drafting(p, now) + (Committing(p, secs) + [Stop(p)]))
  }

  lemma CanBeLogged(k: Suite, b: Build, ts: seq<Txn>, job: Job, now: Float, secs: nat)
    requires Sound(k) && ValidJobs(ts) && ValidJob(job)
    ensures var d := Replay(k, b, ts).disk;
      && HeadValue(d.head).Ok?
      && var m := Signed(k, DraftFor(k, b, job, HeadValue(d.head).value, now));
      && IsDigest(m.thisManifestHash) && LogAfter(k, d.log, RecordFor(job, secs, m.thisManifestHash)).Ok?
  {
    var w, t := Replay(k, b, ts), Txn(job, Clock(now, secs), Nothing);
    ReplaySane(k, b, ts);
    NextManifest(k, b, w, t);
    var m := SignedFor(k, b, w.disk, t).value;
    ValidJobLogs(k, job, secs, m.thisManifestHash);
    var text := LogGrows(k, w.disk.log, w.scan, RecordFor(job, secs, m.thisManifestHash));
  }

  /**
   In every reachable state in which the lock is free, an idle recorder can take any valid job on a free name
   through to the end, and is then one more complete transaction in the history.
   */
  lemma RecorderCanComplete(k: Suite, b: Build, actions: seq<Action>, p: nat, job: Job, now: Float, secs: nat)
    requires Sound(k) && After(k, b, actions).Some? && After(k, b, actions).value.lock.None?
    requires ProcOf(After(k, b, actions).value, p).Idle? && ValidJob(job)
    requires RecordingOf(job) !in After(k, b, actions).value.recordings
    ensures After(k, b, actions + WholePart(p, job, now, secs)).Some?
    ensures var s, v := After(k, b, actions).value, After(k, b, actions + WholePart(p, job, now, secs)).value;
      && v.history == s.history + [Txn(job, Clock(now, secs), LogAppended)]
      && v.lock.None? && ProcOf(v, p).Idle? && v.recordings == s.recordings[RecordingOf(job) := job.content]
  {
    var s := After(k, b, actions).value;
    EveryStateIsSerial(k, b, actions);
    CanBeLogged(k, b, s.history, job, now, secs);
    var t := Stores(k, b, s, p, job);
    var u := Drafts(k, b, t, p, job, now);
    var v := Publishes(k, b, u, p, job, now, ProcOf(u, p).m, secs);
    var z := Releases(k, b, v, p);
    StepsConcat(k, b, v, [], [Stop(p)], v);
    StepsConcat(k, b, u, Committing(p, secs), [Stop(p)], v);
    StepsConcat(k, b, t, Drafting(p, now), Committing(p, secs) + [Stop(p)], u);
    StepsConcat(k, b, s, Recording(p, job), Drafting(p, now) + (Committing(p, secs) + [Stop(p)]), t);
    AfterSteps(k, b, actions, WholePart(p, job, now, secs));
  }
}
