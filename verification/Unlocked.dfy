/**
 The verifier takes no lock: it reads the log, then the head, then the sidecars, while recorders go on. What
 it finds then are three states of one run.
 */
module Unlocked {
  import opened Wrappers
  import opened Manifests
  import opened Signing
  import opened ChainCheck
  import opened Deletion
  import opened ChainLog
  import opened ChainDir
  import opened History
  import opened Quiescence
  import opened Protocol

  // ----- The committed chain only grows

  ghost function WorldNow(k: Suite, b: Build, s: Sys): World {
    Replay(k, b, SoFar(s))
  }

  /** `u` is transaction `t`, and has come at least as far. */
  predicate SameTxn(t: Txn, u: Txn) {
    t.job == u.job && (Commits(t) ==> Commits(u) && t.clock.now == u.clock.now)
  }

  lemma SameManifest(k: Suite, b: Build, d: Disk, t: Txn, u: Txn)
    requires t.job == u.job && t.clock.now == u.clock.now
    ensures SignedFor(k, b, d, t) == SignedFor(k, b, d, u)
  {}

  lemma LongerChain(k: Suite, b: Build, w: World, t: Txn, u: Txn)
    requires SameTxn(t, u)
    ensures w.chain <= Extend(k, b, w, t).chain <= Extend(k, b, w, u).chain
  {
    ExtendChain(k, b, w, t);
    ExtendChain(k, b, w, u);
    if Commits(t) {
      SameManifest(k, b, w.disk, t, u);
    }
  }

  lemma LaterChain(k: Suite, b: Build, ts: seq<Txn>, t: Txn, u: Txn)
    requires SameTxn(t, u)
    ensures Replay(k, b, ts).chain <= Replay(k, b, ts + [t]).chain <= Replay(k, b, ts + [u]).chain
  {
    assert (ts + [t])[..|ts|] == ts && (ts + [u])[..|ts|] == ts;
    LongerChain(k, b, Replay(k, b, ts), t, u);
  }

  /** `v` is `s` with the holder further on. */
  predicate Further(s: Sys, v: Sys, p: nat) {
    && v.lock == s.lock && v.history == s.history
    && Holding(ProcOf(s, p)) && Holding(ProcOf(v, p)) && SameTxn(Inflight(ProcOf(s, p)), Inflight(ProcOf(v, p)))
  }

  lemma LogsOnly(k: Suite, b: Build, s: Sys, a: Action)
    requires a.AppendLog? && Step(k, b, s, a).Some?
    ensures var proc, v := ProcOf(s, a.p), Step(k, b, s, a).value;
      && proc.Advanced? && ProcOf(v, a.p) == LogDone(proc.job, proc.now, proc.m, a.secs)
      && v.lock == s.lock && v.history == s.history
  {}

  lemma DoneIsFurther(s: Sys, v: Sys, p: nat, job: Job, now: Float, m: Manifest, secs: nat)
    requires ProcOf(s, p) == Advanced(job, now, m) && ProcOf(v, p) == LogDone(job, now, m, secs)
    requires v.lock == s.lock && v.history == s.history
    ensures Further(s, v, p)
  {}

  lemma LogsFurther(k: Suite, b: Build, s: Sys, a: Action)
    requires Holding(ProcOf(s, a.p)) && a.AppendLog? && Step(k, b, s, a).Some?
    ensures Further(s, Step(k, b, s, a).value, a.p)
  {
    var proc := ProcOf(s, a.p);
    LogsOnly(k, b, s, a);
    DoneIsFurther(s, Step(k, b, s, a).value, a.p, proc.job, proc.now, proc.m, a.secs);
  }

  lemma FilesFurther(k: Suite, b: Build, s: Sys, a: Action)
    requires Holding(ProcOf(s, a.p)) && (a.PlaceSidecar? || a.WriteHead?) && Step(k, b, s, a).Some?
    ensures Further(s, Step(k, b, s, a).value, a.p)
  {}

  lemma HolderWriting(k: Suite, b: Build, s: Sys, a: Action)
    requires Holding(ProcOf(s, a.p)) && Writes(a) && Step(k, b, s, a).Some?
    ensures Further(s, Step(k, b, s, a).value, a.p)
  {
    if a.AppendLog? { LogsFurther(k, b, s, a); } else { FilesFurther(k, b, s, a); }
  }

  lemma HolderReading(k: Suite, b: Build, s: Sys, a: Action)
    requires Holding(ProcOf(s, a.p)) && !Writes(a) && !a.Stop? && Step(k, b, s, a).Some?
    ensures Further(s, Step(k, b, s, a).value, a.p)
  {}

  lemma StepGrowsChain(k: Suite, b: Build, s: Sys, a: Action)
    requires Exclusive(s) && Step(k, b, s, a).Some?
    ensures WorldNow(k, b, s).chain <= WorldNow(k, b, Step(k, b, s, a).value).chain
  {
    var v := Step(k, b, s, a).value;
    assert Holding(ProcOf(s, a.p)) <==> s.lock == Some(a.p);
    if !Holding(ProcOf(s, a.p)) {
      OthersWait(k, b, s, a);
      if a.Lock? {
        LaterChain(k, b, s.history, Inflight(ProcOf(v, a.p)), Inflight(ProcOf(v, a.p)));
      } else {
        assert SoFar(v) == SoFar(s);
      }
    } else if a.Stop? {
      StopEnds(k, b, s, a);
    } else {
      if Writes(a) { HolderWriting(k, b, s, a); } else { HolderReading(k, b, s, a); }
      LaterChain(k, b, s.history, Inflight(ProcOf(s, a.p)), Inflight(ProcOf(v, a.p)));
    }
  }

  lemma {:induction false} ChainsGrow(k: Suite, b: Build, actions: seq<Action>, i: nat)
    requires After(k, b, actions).Some? && i <= |actions|
    ensures After(k, b, actions[..i]).Some?
    ensures WorldNow(k, b, After(k, b, actions[..i]).value).chain <= WorldNow(k, b, After(k, b, actions).value).chain
  {
    if i == |actions| {
      assert actions[..i] == actions;
    } else {
      var init := actions[..|actions| - 1];
      assert init[..i] == actions[..i];
      RunKeeps(k, b, init);
      ChainsGrow(k, b, init, i);
      StepGrowsChain(k, b, After(k, b, init).value, actions[|actions| - 1]);
    }
  }

  // ----- What three reads decide

  /** The newest line read names the manifest that the head read names, if a line was read. */
  predicate LogAgrees(early: World, head: World) {
    early.logged == [] || early.logged[|early.logged| - 1].at == |head.chain| - 1
  }

  /** The sidecars listed are what was committed when the head was read; or no head was, and they form a chain. */
  ghost predicate ListedToHead(entries: seq<Manifest>, head: World, late: World) {
    if head.chain == [] then LinesUp(entries, late.chain) else Hashes(entries) == Hashes(head.chain)
  }

  lemma TipReads(k: Suite, w: World)
    requires Sound(k) && Kept(k, w) && LogReads(k, w.disk.log, w.scan) && HashesTell(k, w.chain)
    ensures LogVerdict(k, w.disk.log) == Ok(w.scan)
    ensures w.logged != [] ==> w.logged[|w.logged| - 1].at < |w.chain|
    ensures TipHash(w.scan.seen)
      == if w.logged == [] then None else Some(w.chain[w.logged[|w.logged| - 1].at].thisManifestHash)
  {
    LogStands(k, w);
  }

  lemma PassesFrom(k: Suite, head: FileState, log: FileState, entries: seq<Manifest>, scan: Scan, h: string)
    requires LogVerdict(k, log) == Ok(scan) && HeadValue(head) == Ok(h)
    ensures Passes(k, Disk(head, log, map[]), entries)
      <==> (TipHash(scan.seen).Some? ==> h == TipHash(scan.seen).value) && Accepted(entries, Some(h))
  {}

  lemma PlacedTell(k: Suite, w: World, part: seq<Manifest>)
    requires Kept(k, w) && HashesTell(k, w.placed) && part <= w.chain
    ensures HashesTell(k, part) && (part == w.chain ==> Honest(w.chain))
  {
    forall m | m in part ensures m in w.placed { assert m in multiset(w.placed); }
    HashesTellPart(k, w.placed, part);
    if part == w.chain {
      ChainIsHonest(k, w);
    }
  }

  lemma KeptHeadReads(k: Suite, w: World)
    requires Sound(k) && Kept(k, w)
    ensures HeadValue(w.disk.head) == Ok(HeadOf(w.chain))
  {
    HeadReads(k, w);
  }

  function HeadOf(chain: seq<Manifest>): string {
    if chain == [] then GENESIS_PREV else chain[|chain| - 1].thisManifestHash
  }

  /** Log, head and sidecars of three worlds whose chains only grew. */
  lemma WorldsDecide(k: Suite, early: World, head: World, late: World, paths: seq<Path>, entries: seq<Manifest>)
    requires Sound(k) && Kept(k, early) && LogReads(k, early.disk.log, early.scan) && Kept(k, head) && Kept(k, late)
    requires early.chain <= head.chain <= late.chain
    requires HashesTell(k, late.placed) && PlacedAt(late.disk.sidecars, paths, entries)
    ensures Passes(k, Disk(head.disk.head, early.disk.log, map[]), entries)
      <==> LogAgrees(early, head) && ListedToHead(entries, head, late)
  {
    PlacedTell(k, late, late.chain);
    PlacedTell(k, late, early.chain);
    TipReads(k, early);
    KeptHeadReads(k, head);
    PassesFrom(k, head.disk.head, early.disk.log, entries, early.scan, HeadOf(head.chain));
    ListingFits(k, late, paths, entries);
    HeadNames(early, head, late);
    ListingDecides(entries, head.chain, late.chain);
  }

  lemma HeadNames(early: World, head: World, late: World)
    requires early.chain <= head.chain <= late.chain && Honest(late.chain)
    requires early.logged != [] ==> early.logged[|early.logged| - 1].at < |early.chain|
    ensures early.logged != [] ==>
      (LogAgrees(early, head) <==>
        early.chain[early.logged[|early.logged| - 1].at].thisManifestHash == HeadOf(head.chain))
  {
    if early.logged != [] {
      var at := early.logged[|early.logged| - 1].at;
      assert early.chain[at] == late.chain[at] && head.chain[|head.chain| - 1] == late.chain[|head.chain| - 1];
    }
  }

  lemma ListingDecides(entries: seq<Manifest>, chain: seq<Manifest>, late: seq<Manifest>)
    requires chain <= late && Fits(entries, late)
    ensures Accepted(entries, Some(HeadOf(chain))) <==>
      if chain == [] then LinesUp(entries, late) else Hashes(entries) == Hashes(chain)
  {
    if chain == [] {
      assert Anchor(Some(GENESIS_PREV)) == Anchor(None);
      UnanchoredListing(entries, late);
    } else {
      assert chain == late[..|chain|];
      AnchoredListing(entries, late, |chain|);
    }
  }

  lemma StateKept(k: Suite, b: Build, actions: seq<Action>)
    requires Sound(k) && After(k, b, actions).Some?
    ensures var s := After(k, b, actions).value; var w := Replay(k, b, SoFar(s));
      Kept(k, w) && LogReads(k, w.disk.log, w.scan) && w.disk == s.disk
  {
    EveryStateIsSerial(k, b, actions);
    ReplaySane(k, b, SoFar(After(k, b, actions).value));
  }

  /** The log is read after the first `i` steps, the head after the first `j`, the sidecars after all of them. */
  ghost predicate ReadsPass(k: Suite, b: Build, actions: seq<Action>, i: nat, j: nat, entries: seq<Manifest>)
    requires i <= j <= |actions| && After(k, b, actions[..i]).Some? && After(k, b, actions[..j]).Some?
  {
    var early, head := After(k, b, actions[..i]).value, After(k, b, actions[..j]).value;
    Passes(k, Disk(head.disk.head, early.disk.log, map[]), entries)
  }

  /**
   The lock-free verifier, exactly. Wherever its three reads fall in a run, it passes if and only if the log
   read is empty or its newest line names the manifest that the head read names, and the sidecars listed are
   the chain up to that head; or no head was written yet, and they line up with the chain.
   */
  lemma ThreeReads(k: Suite, b: Build, actions: seq<Action>, i: nat, j: nat, paths: seq<Path>, entries: seq<Manifest>)
    requires Sound(k) && i <= j <= |actions| && After(k, b, actions).Some?
    requires HashesTell(k, WorldNow(k, b, After(k, b, actions).value).placed)
    requires PlacedAt(After(k, b, actions).value.disk.sidecars, paths, entries)
    ensures After(k, b, actions[..i]).Some? && After(k, b, actions[..j]).Some?
    ensures var early, head, late := After(k, b, actions[..i]).value, After(k, b, actions[..j]).value,
                                     After(k, b, actions).value;
      ReadsPass(k, b, actions, i, j, entries) <==>
        && LogAgrees(WorldNow(k, b, early), WorldNow(k, b, head))
        && ListedToHead(entries, WorldNow(k, b, head), WorldNow(k, b, late))
  {
    assert actions[..j][..i] == actions[..i];
    ChainsGrow(k, b, actions, j);
    ChainsGrow(k, b, actions[..j], i);
    StateKept(k, b, actions[..i]);
    StateKept(k, b, actions[..j]);
    StateKept(k, b, actions);
    WorldsDecide(k, WorldNow(k, b, After(k, b, actions[..i]).value), WorldNow(k, b, After(k, b, actions[..j]).value),
                 WorldNow(k, b, After(k, b, actions).value), paths, entries);
  }

  // ----- Recorders that all complete

  lemma StepGrowsHistory(k: Suite, b: Build, s: Sys, a: Action)
    requires Step(k, b, s, a).Some?
    ensures s.history <= Step(k, b, s, a).value.history
  {}

  lemma {:induction false} HistoryGrows(k: Suite, b: Build, actions: seq<Action>, i: nat)
    requires After(k, b, actions).Some? && i <= |actions|
    ensures After(k, b, actions[..i]).Some?
    ensures After(k, b, actions[..i]).value.history <= After(k, b, actions).value.history
  {
    if i == |actions| {
      assert actions[..i] == actions;
    } else {
      var init := actions[..|actions| - 1];
      assert init[..i] == actions[..i];
      HistoryGrows(k, b, init, i);
      StepGrowsHistory(k, b, After(k, b, init).value, actions[|actions| - 1]);
    }
  }

  /** The world of `n` complete transactions: one manifest and one line each, the last line at the tip. */
  predicate AllLogged(w: World, n: nat) {
    |w.chain| == n && |w.logged| == n && (n > 0 ==> AtTip(w))
  }

  lemma CompleteWorld(k: Suite, b: Build, actions: seq<Action>, later: seq<Txn>)
    requires Sound(k) && After(k, b, actions).Some? && After(k, b, actions).value.lock.None?
    requires After(k, b, actions).value.history <= later && forall t :: t in later ==> t.reach.LogAppended?
    ensures var s := After(k, b, actions).value; AllLogged(WorldNow(k, b, s), |s.history|)
  {
    var s := After(k, b, actions).value;
    forall t | t in s.history ensures t in later {
      var i :| 0 <= i < |s.history| && s.history[i] == t;
      assert later[i] == t;
    }
    EveryStateIsSerial(k, b, actions);
    CompleteCounts(s.history);
    ReplayCounts(k, b, s.history);
  }

  lemma WholeListing(entries: seq<Manifest>, head: World, late: World)
    requires head.chain <= late.chain && Honest(late.chain) && Hashes(entries) == Hashes(late.chain)
    ensures ListedToHead(entries, head, late) <==> head.chain == [] || |head.chain| == |late.chain|
  {
    assert late.chain[..|late.chain|] == late.chain;
    if head.chain == [] {
      assert LinesUpAt(entries, late.chain, |late.chain|);
    } else if Hashes(entries) == Hashes(head.chain) {
      FewerHashes(head.chain, late.chain);
    }
  }

  lemma CompleteListing(k: Suite, b: Build, ts: seq<Txn>, paths: seq<Path>, entries: seq<Manifest>)
    requires Sound(k) && ValidJobs(ts) && Distinct(ts) && forall t :: t in ts ==> t.reach.LogAppended?
    requires HashesTell(k, Replay(k, b, ts).placed) && PlacedAt(Replay(k, b, ts).disk.sidecars, paths, entries)
    ensures Honest(Replay(k, b, ts).chain) && Hashes(entries) == Hashes(Replay(k, b, ts).chain)
  {
    var w := Replay(k, b, ts);
    CompleteRunPasses(k, b, ts, paths, entries);
    VerdictByListing(k, b, ts, paths, entries);
    CompleteCounts(ts);
    ReplaySane(k, b, ts);
    ReplayCounts(k, b, ts);
    PlacedTell(k, w, w.chain);
  }

  /**
   Where every transaction completes and each read finds the lock free, the verifier fails exactly when a
   commit fell between two reads: a healthy host can be reported as tampered with, if the verifier raced.
   */
  lemma RacedReadsFail(k: Suite, b: Build, actions: seq<Action>, i: nat, j: nat, paths: seq<Path>,
                       entries: seq<Manifest>)
    requires Sound(k) && i <= j <= |actions| && After(k, b, actions).Some?
    requires var s := After(k, b, actions).value;
      s.lock.None? && Distinct(s.history) && forall t :: t in s.history ==> t.reach.LogAppended?
    requires HashesTell(k, WorldNow(k, b, After(k, b, actions).value).placed)
    requires PlacedAt(After(k, b, actions).value.disk.sidecars, paths, entries)
    requires After(k, b, actions[..i]).Some? && After(k, b, actions[..i]).value.lock.None?
    requires After(k, b, actions[..j]).Some? && After(k, b, actions[..j]).value.lock.None?
    ensures var early := |After(k, b, actions[..i]).value.history|;
      var head, late := |After(k, b, actions[..j]).value.history|, |After(k, b, actions).value.history|;
      ReadsPass(k, b, actions, i, j, entries) <==> (early == 0 || early == head) && (head == 0 || head == late)
  {
    var s := After(k, b, actions).value;
    HistoryGrows(k, b, actions, i);
    HistoryGrows(k, b, actions, j);
    CompleteWorld(k, b, actions[..i], s.history);
    CompleteWorld(k, b, actions[..j], s.history);
    CompleteWorld(k, b, actions, s.history);
    EveryStateIsSerial(k, b, actions);
    CompleteListing(k, b, s.history, paths, entries);
    ChainsGrow(k, b, actions, j);
    WholeListing(entries, WorldNow(k, b, After(k, b, actions[..j]).value), WorldNow(k, b, s));
    ThreeReads(k, b, actions, i, j, paths, entries);
  }
}
