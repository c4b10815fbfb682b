/** Exactly when the manifest check and the log check pass on what a run left, whatever failed on the way. */
module Quiescence {
  import opened Wrappers
  import opened Sequences
  import opened Manifests
  import opened Canonical
  import opened Signing
  import opened ChainCheck
  import opened Deletion
  import opened ChainLog
  import opened ChainDir
  import opened History

  // ----- The committed manifests are one honest chain

  ghost function Texts(ms: seq<Manifest>): set<string> {
    set m | m in ms :: CanonicalText(m)
  }

  /** The digests of these manifests tell them apart, and none stands for "no predecessor". */
  ghost predicate HashesTell(k: Suite, ms: seq<Manifest>) {
    NoCollision(k, Texts(ms)) && NoneGenesis(k, Texts(ms))
  }

  lemma HashTellsFields(k: Suite, ms: seq<Manifest>, a: Manifest, b: Manifest)
    requires HashesTell(k, ms) && a in ms && b in ms && Hashed(k, a) && Hashed(k, b)
    ensures a.thisManifestHash != GENESIS_PREV
    ensures a.thisManifestHash == b.thisManifestHash ==> SameSigned(a, b)
  {
    var s, t := CanonicalText(a), CanonicalText(b);
    assert s in Texts(ms) && t in Texts(ms);
    CanonicalInjective(a, b);
  }

  /** Two manifests of one chain never share a hash: their predecessors would share one too, back to GENESIS. */
  lemma {:induction false} ChainHashesDiffer(k: Suite, w: World, i: nat, j: nat)
    requires Chained(k, w) && HashesTell(k, w.chain) && i < j < |w.chain|
    ensures w.chain[i].thisManifestHash != w.chain[j].thisManifestHash
  {
    var a, b := w.chain[i], w.chain[j];
    assert Hashed(k, a) && Hashed(k, b);
    HashTellsFields(k, w.chain, a, b);
    assert Hashed(k, w.chain[j - 1]);
    HashTellsFields(k, w.chain, w.chain[j - 1], b);
    if i > 0 {
      ChainHashesDiffer(k, w, i - 1, j - 1);
    }
  }

  lemma HashesTellPart(k: Suite, ms: seq<Manifest>, part: seq<Manifest>)
    requires HashesTell(k, ms) && forall m :: m in part ==> m in ms
    ensures HashesTell(k, part)
  {
    assert Texts(part) <= Texts(ms);
  }

  lemma ChainIsHonest(k: Suite, w: World)
    requires Chained(k, w) && HashesTell(k, w.chain)
    ensures Honest(w.chain)
  {
    forall i | 0 <= i < |w.chain| ensures w.chain[i].thisManifestHash != GENESIS_PREV {
      assert Hashed(k, w.chain[i]);
      HashTellsFields(k, w.chain, w.chain[i], w.chain[i]);
    }
    forall i, j | 0 <= i < j < |w.chain| ensures w.chain[i].thisManifestHash != w.chain[j].thisManifestHash {
      ChainHashesDiffer(k, w, i, j);
    }
  }

  // ----- Every listing of the sidecars is a permutation of them

  lemma OneFewer(sidecars: map<Path, Manifest>, paths: seq<Path>, placed: seq<Manifest>, i: nat)
    requires PlacedAt(sidecars, paths, placed) && i < |paths|
    ensures PlacedAt(sidecars - {paths[i]}, Without(paths, i), Without(placed, i))
  {
    WithoutKeeps(paths, i);
    var fewer := Without(paths, i);
    forall j | 0 <= j < |fewer|
      ensures fewer[j] in sidecars - {paths[i]} && sidecars[fewer[j]] == Without(placed, i)[j]
    {
      assert fewer[j] in fewer;
    }
  }

  /** In whatever order a directory walk meets the sidecars, it meets each once. */
  lemma {:induction false} ListingsPermute(sidecars: map<Path, Manifest>, p1: seq<Path>, l1: seq<Manifest>,
                                           p2: seq<Path>, l2: seq<Manifest>)
    requires PlacedAt(sidecars, p1, l1) && PlacedAt(sidecars, p2, l2)
    ensures multiset(l1) == multiset(l2)
    decreases |p1|
  {
    if p1 == [] {
      NoDupFits(p2, p1);
    } else {
      var n := |p1| - 1;
      assert p1[n] in p1;
      var i :| 0 <= i < |p2| && p2[i] == p1[n];
      OneFewer(sidecars, p1, l1, n);
      OneFewer(sidecars, p2, l2, i);
      WithoutKeeps(l1, n);
      WithoutKeeps(l2, i);
      ListingsPermute(sidecars - {p1[n]}, Without(p1, n), Without(l1, n), Without(p2, i), Without(l2, i));
    }
  }

  // ----- The manifest check

  lemma OrphansAlone(entries: seq<Manifest>)
    requires forall m :: m in entries ==> m.prevManifestHash == GENESIS_PREV
    ensures Accepted(entries, Some(GENESIS_PREV)) <==> |entries| <= 1
  {
    assert Anchor(Some(GENESIS_PREV)) == None;
    if |entries| == 1 {
      assert entries[0] in entries;
      assert Orders(entries, entries, None);
    } else if |entries| > 1 {
      forall order ensures !Orders(order, entries, None) {
        if Orders(order, entries, None) {
          assert entries[0] in entries && entries[1] in entries;
          TwoLinksSameElement(order, entries, 0, 1);
        }
      }
    }
  }

  lemma OrphansBeside(entries: seq<Manifest>, chain: seq<Manifest>, orphans: seq<Manifest>)
    requires Honest(chain) && chain != [] && multiset(entries) == multiset(chain) + multiset(orphans)
    ensures Accepted(entries, Some(chain[|chain| - 1].thisManifestHash)) <==> orphans == []
  {
    var head := Some(chain[|chain| - 1].thisManifestHash);
    assert |multiset(entries)| == |entries|;
    if orphans == [] {
      assert chain[..|chain|] == chain;
      PrefixIsAccepted(entries, chain, |chain|, head);
    } else {
      forall order ensures !Orders(order, entries, Anchor(head)) {
        if Orders(order, entries, Anchor(head)) {
          PermutationKeeps(order, entries);
          forall m | m in chain ensures m in order { assert m in multiset(entries); }
          PrefixHonest(chain, |chain|);
          assert chain[..|chain|] == chain;
          AnchoredPathIsWhole(chain, order);
        }
      }
    }
  }

  /**
   The manifests on disk pass against `head.hash` exactly when no transaction stopped between its sidecar
   and its head; or when the only sidecar there is, is the one such a transaction left.
   */
  lemma ManifestVerdict(k: Suite, w: World, paths: seq<Path>, entries: seq<Manifest>)
    requires Sound(k) && Sane(k, w) && HashesTell(k, w.placed)
    requires PlacedAt(w.disk.sidecars, paths, entries)
    ensures HeadValue(w.disk.head).Ok?
    ensures Accepted(entries, Some(HeadValue(w.disk.head).value))
      <==> w.orphans == [] || (w.chain == [] && |w.orphans| == 1)
  {
    ListingsPermute(w.disk.sidecars, paths, entries, w.paths, w.placed);
    assert multiset(entries) == multiset(w.chain) + multiset(w.orphans);
    assert |multiset(entries)| == |entries|;
    if w.chain == [] {
      forall m | m in entries ensures m.prevManifestHash == GENESIS_PREV {
        assert m in multiset(entries) && Hangs(m, w.chain);
      }
      OrphansAlone(entries);
    } else {
      forall m | m in w.chain ensures m in w.placed { assert m in multiset(w.placed); }
      HashesTellPart(k, w.placed, w.chain);
      ChainIsHonest(k, w);
      HeadReads(k, w);
      OrphansBeside(entries, w.chain, w.orphans);
    }
  }

  lemma HeadReads(k: Suite, w: World)
    requires Sound(k) && Chained(k, w)
    ensures HeadValue(w.disk.head)
      == Ok(if w.chain == [] then GENESIS_PREV else w.chain[|w.chain| - 1].thisManifestHash)
  {
    if w.chain != [] {
      var last := w.chain[|w.chain| - 1];
      assert Hashed(k, last) && IsDigest(ManifestHash(k, last));
      WrittenHeadReads(last.thisManifestHash);
    }
  }

  // ----- The same without assuming that no sidecar was overwritten

  /** Digests that tell the placed manifests apart, tell the listed ones from each other and from the chain. */
  lemma ListingFits(k: Suite, w: World, paths: seq<Path>, entries: seq<Manifest>)
    requires Sound(k) && Kept(k, w) && HashesTell(k, w.placed) && PlacedAt(w.disk.sidecars, paths, entries)
    ensures Fits(entries, w.chain)
  {
    forall m | m in w.chain ensures m in w.placed { assert m in multiset(w.placed); }
    HashesTellPart(k, w.placed, w.chain);
    ChainIsHonest(k, w);
    forall m | m in entries ensures m in w.placed && Hashed(k, m) && Hangs(m, w.chain) {
      EntryPlaced(k, w, paths, entries, m);
    }
    forall x, y | 0 <= x < |entries| && 0 <= y < |w.chain| && entries[x].thisManifestHash == w.chain[y].thisManifestHash
      ensures entries[x].prevManifestHash == w.chain[y].prevManifestHash
    {
      assert entries[x] in entries && Hashed(k, w.chain[y]);
      HashTellsFields(k, w.placed, entries[x], w.chain[y]);
    }
    forall i, j | 0 <= i < j < |entries| ensures entries[i].thisManifestHash != entries[j].thisManifestHash {
      assert entries[i] in entries && entries[j] in entries;
      EntriesDiffer(k, w, paths, entries, i, j);
    }
    forall m | m in entries ensures m.thisManifestHash != GENESIS_PREV {
      HashTellsFields(k, w.placed, m, m);
    }
  }

  lemma EntryPlaced(k: Suite, w: World, paths: seq<Path>, entries: seq<Manifest>, m: Manifest)
    requires Kept(k, w) && PlacedAt(w.disk.sidecars, paths, entries) && m in entries
    ensures m in w.placed && Hashed(k, m) && Hangs(m, w.chain)
  {
    var i :| 0 <= i < |entries| && entries[i] == m;
    assert paths[i] in w.disk.sidecars && Source(w, paths[i]);
    PlacedHangs(k, w, m);
  }

  lemma PlacedHangs(k: Suite, w: World, m: Manifest)
    requires Kept(k, w) && m in w.placed
    ensures Hashed(k, m) && Hangs(m, w.chain)
  {
    assert m in multiset(w.placed);
    if m in w.chain {
      var y :| 0 <= y < |w.chain| && w.chain[y] == m;
      assert y > 0 ==> w.chain[y - 1].thisManifestHash == m.prevManifestHash;
    }
  }

  /** Two sidecars never claim one hash: their signed contents would give them one path. */
  lemma EntriesDiffer(k: Suite, w: World, paths: seq<Path>, entries: seq<Manifest>, i: nat, j: nat)
    requires Kept(k, w) && HashesTell(k, w.placed) && PlacedAt(w.disk.sidecars, paths, entries) && i < j < |entries|
    ensures entries[i].thisManifestHash != entries[j].thisManifestHash
  {
    assert entries[i] in entries && entries[j] in entries;
    EntryPlaced(k, w, paths, entries, entries[i]);
    EntryPlaced(k, w, paths, entries, entries[j]);
    HashTellsFields(k, w.placed, entries[i], entries[j]);
    assert paths[i] in w.disk.sidecars && Source(w, paths[i]) && paths[j] in w.disk.sidecars && Source(w, paths[j]);
    assert paths[i] != paths[j];
  }

  /** The sidecars on disk are exactly the committed manifests; with none committed, there is one at most. */
  ghost predicate ExactlyCommitted(w: World, entries: seq<Manifest>) {
    if w.chain == [] then |entries| <= 1 else Hashes(entries) == Hashes(w.chain)
  }

  lemma ListingVerdict(k: Suite, w: World, paths: seq<Path>, entries: seq<Manifest>)
    requires Sound(k) && Kept(k, w) && HashesTell(k, w.placed) && PlacedAt(w.disk.sidecars, paths, entries)
    ensures HeadValue(w.disk.head).Ok?
    ensures Accepted(entries, Some(HeadValue(w.disk.head).value)) <==> ExactlyCommitted(w, entries)
  {
    HeadReads(k, w);
    ListingFits(k, w, paths, entries);
    if w.chain == [] {
      forall m | m in entries ensures m.prevManifestHash == GENESIS_PREV { assert Hangs(m, w.chain); }
      OrphansAlone(entries);
    } else {
      assert w.chain[..|w.chain|] == w.chain;
      AnchoredListing(entries, w.chain, |w.chain|);
    }
  }

  // ----- The log check, and its agreement with the head

  /** The log verifies by itself, and its newest line names a committed manifest, the last or an earlier one. */
  lemma LogStands(k: Suite, w: World)
    requires Sound(k) && Chained(k, w) && HashesTell(k, w.chain)
    requires LinesMatch(w.scan.seen.entries, w.logged, w.chain) && LogReads(k, w.disk.log, w.scan)
    ensures LogVerdict(k, w.disk.log) == Ok(w.scan)
    ensures TipHash(w.scan.seen).None? <==> w.logged == []
    ensures w.logged != [] ==> (Ok(TipHash(w.scan.seen).value) == HeadValue(w.disk.head) <==> AtTip(w))
  {
    HeadReads(k, w);
    ChainIsHonest(k, w);
    ReadsBackLog(k, w.disk.log, w.scan);
    TipNames(w.scan.seen, w.logged, w.chain);
    if w.logged != [] {
      OnlyLastTells(w.chain, w.logged[|w.logged| - 1].at);
    }
  }

  lemma ReadsBackLog(k: Suite, log: FileState, scan: Scan)
    requires LogReads(k, log, scan)
    ensures LogVerdict(k, log) == Ok(scan)
  {}

  lemma TipNames(seen: LogVerification, logged: seq<Logged>, chain: seq<Manifest>)
    requires LinesMatch(seen.entries, logged, chain)
    ensures logged != [] ==> logged[|logged| - 1].at < |chain|
    ensures TipHash(seen) == if logged == [] then None else Some(chain[logged[|logged| - 1].at].thisManifestHash)
  {
    if logged != [] {
      assert seen.entries[|logged| - 1].record == logged[|logged| - 1].record;
    }
  }

  lemma OnlyLastTells(chain: seq<Manifest>, at: nat)
    requires Honest(chain) && at < |chain|
    ensures chain[at].thisManifestHash == chain[|chain| - 1].thisManifestHash <==> at == |chain| - 1
  {}

  /** The newest log line names the manifest `head.hash` names. */
  predicate AtTip(w: World) {
    w.logged != [] && w.logged[|w.logged| - 1].at == |w.chain| - 1
  }

  /** The decision on chain directory and manifests: an unreadable head only drops the anchor. */
  ghost predicate Passes(k: Suite, d: Disk, entries: seq<Manifest>) {
    var log, head := LogVerdict(k, d.log), HeadValue(d.head);
    && log.Ok?
    && (head.Ok? && TipHash(log.value.seen).Some? ==> head.value == TipHash(log.value.seen).value)
    && Accepted(entries, if head.Ok? then Some(head.value) else None)
  }

  lemma WorldVerdict(k: Suite, w: World, paths: seq<Path>, entries: seq<Manifest>)
    requires Sound(k) && Sane(k, w) && LogReads(k, w.disk.log, w.scan) && HashesTell(k, w.placed)
    requires PlacedAt(w.disk.sidecars, paths, entries)
    ensures Passes(k, w.disk, entries) <==>
      && (w.logged == [] || AtTip(w))
      && (w.orphans == [] || (w.chain == [] && |w.orphans| == 1))
  {
    forall m | m in w.chain ensures m in w.placed { assert m in multiset(w.placed); }
    HashesTellPart(k, w.placed, w.chain);
    ManifestVerdict(k, w, paths, entries);
    LogStands(k, w);
  }

  lemma KeptVerdict(k: Suite, w: World, paths: seq<Path>, entries: seq<Manifest>)
    requires Sound(k) && Kept(k, w) && LogReads(k, w.disk.log, w.scan) && HashesTell(k, w.placed)
    requires PlacedAt(w.disk.sidecars, paths, entries)
    ensures Passes(k, w.disk, entries) <==> (w.logged == [] || AtTip(w)) && ExactlyCommitted(w, entries)
  {
    forall m | m in w.chain ensures m in w.placed { assert m in multiset(w.placed); }
    HashesTellPart(k, w.placed, w.chain);
    ListingVerdict(k, w, paths, entries);
    LogStands(k, w);
  }

  // ----- The same, read off the transactions

  function Orphaned(ts: seq<Txn>): nat {
    if ts == [] then 0 else Orphaned(ts[..|ts| - 1]) + if ts[|ts| - 1].reach.SidecarPlaced? then 1 else 0
  }

  predicate Commits(t: Txn) {
    t.reach.HeadAdvanced? || t.reach.LogAppended?
  }

  lemma ExtendChain(k: Suite, b: Build, w: World, t: Txn)
    ensures var signed := SignedFor(k, b, w.disk, t);
      Extend(k, b, w, t).chain == if Commits(t) && signed.Ok? then w.chain + [signed.value] else w.chain
  {}

  function Committed(ts: seq<Txn>): nat {
    if ts == [] then 0 else Committed(ts[..|ts| - 1]) + if Commits(ts[|ts| - 1]) then 1 else 0
  }

  function Appended(ts: seq<Txn>): nat {
    if ts == [] then 0 else Appended(ts[..|ts| - 1]) + if ts[|ts| - 1].reach.LogAppended? then 1 else 0
  }

  /** The last transaction that advanced the head also appended its log line. */
  predicate LastCommitLogged(ts: seq<Txn>) {
    if ts == [] then false
    else if Commits(ts[|ts| - 1]) then ts[|ts| - 1].reach.LogAppended?
    else LastCommitLogged(ts[..|ts| - 1])
  }

  /** `v` is `w` after a transaction that reached `reach`. */
  predicate CountsFollow(w: World, v: World, reach: Reach) {
    && |v.chain| == |w.chain| + (if reach.HeadAdvanced? || reach.LogAppended? then 1 else 0)
    && |v.orphans| == |w.orphans| + (if reach.SidecarPlaced? then 1 else 0)
    && |v.logged| == |w.logged| + (if reach.LogAppended? then 1 else 0)
    && (AtTip(v) <==> if reach.HeadAdvanced? || reach.LogAppended? then reach.LogAppended? else AtTip(w))
  }

  lemma GrowCounts(k: Suite, w: World, path: Path, m: Manifest, record: Record, text: string, reach: Reach)
    requires forall i :: 0 <= i < |w.logged| ==> w.logged[i].at < |w.chain|
    ensures CountsFollow(w, Grow(k, w, path, m, record, Ok(text), reach), reach)
  {}

  lemma ExtendCounts(k: Suite, b: Build, w: World, t: Txn)
    requires Sound(k) && Kept(k, w) && LogReads(k, w.disk.log, w.scan) && ValidJob(t.job)
    ensures CountsFollow(w, Extend(k, b, w, t), t.reach)
  {
    var m, record, text := ExtendGrows(k, b, w, t);
    GrowCounts(k, w, SidecarOf(RecordingOf(t.job)), m, record, text, t.reach);
  }

  /** The world has as much of everything as the transactions say. */
  predicate Counts(w: World, ts: seq<Txn>) {
    && |w.chain| == Committed(ts) && |w.orphans| == Orphaned(ts) && |w.logged| == Appended(ts)
    && (AtTip(w) <==> LastCommitLogged(ts))
  }

  lemma CountsStep(w: World, v: World, ts: seq<Txn>, t: Txn)
    requires Counts(w, ts) && CountsFollow(w, v, t.reach)
    ensures Counts(v, ts + [t])
  {
    assert (ts + [t])[..|ts|] == ts;
  }

  lemma {:induction false} ReplayCounts(k: Suite, b: Build, ts: seq<Txn>)
    requires Sound(k) && ValidJobs(ts)
    ensures Counts(Replay(k, b, ts), ts)
  {
    if ts != [] {
      var init, t := ts[..|ts| - 1], ts[|ts| - 1];
      assert ts == init + [t] && t in ts;
      var w := Replay(k, b, init);
      ReplaySane(k, b, init);
      ReplayCounts(k, b, init);
      ExtendCounts(k, b, w, t);
      CountsStep(w, Extend(k, b, w, t), init, t);
    }
  }

  /**
   After any transactions, each having reached any stage, the chain check passes exactly when no sidecar
   was orphaned (or one was, and nothing was ever committed) and the last commit was logged (or none was).
   */
  lemma QuiescentVerdict(k: Suite, b: Build, ts: seq<Txn>, paths: seq<Path>, entries: seq<Manifest>)
    requires Sound(k) && FreshJobs(ts) && HashesTell(k, Replay(k, b, ts).placed)
    requires PlacedAt(Replay(k, b, ts).disk.sidecars, paths, entries)
    ensures Passes(k, Replay(k, b, ts).disk, entries) <==>
      && (Appended(ts) == 0 || LastCommitLogged(ts))
      && (Orphaned(ts) == 0 || (Committed(ts) == 0 && Orphaned(ts) == 1))
  {
    ReplaySane(k, b, ts);
    ReplayCounts(k, b, ts);
    WorldVerdict(k, Replay(k, b, ts), paths, entries);
  }

  /** Any transactions, also where recordings share a name, in terms of the listing that is read. */
  lemma VerdictByListing(k: Suite, b: Build, ts: seq<Txn>, paths: seq<Path>, entries: seq<Manifest>)
    requires Sound(k) && ValidJobs(ts) && HashesTell(k, Replay(k, b, ts).placed)
    requires PlacedAt(Replay(k, b, ts).disk.sidecars, paths, entries)
    ensures Passes(k, Replay(k, b, ts).disk, entries) <==>
      (Appended(ts) == 0 || LastCommitLogged(ts)) && ExactlyCommitted(Replay(k, b, ts), entries)
  {
    ReplaySane(k, b, ts);
    ReplayCounts(k, b, ts);
    KeptVerdict(k, Replay(k, b, ts), paths, entries);
  }

  // ----- Names used again, read off the transactions

  /** For each sidecar there is, whether the transaction that placed it last also advanced the head. */
  function LastPlaced(ts: seq<Txn>): map<Path, bool> {
    if ts == [] then map[]
    else
      var before, t := LastPlaced(ts[..|ts| - 1]), ts[|ts| - 1];
      if t.reach.Nothing? then before else before[SidecarOf(RecordingOf(t.job)) := Commits(t)]
  }

  predicate AllCommitted(tags: map<Path, bool>) {
    forall p :: p in tags ==> tags[p]
  }

  ghost predicate Tells(w: World, p: Path, tag: bool) {
    p in w.disk.sidecars && (tag <==> w.disk.sidecars[p].thisManifestHash in Hashes(w.chain))
  }

  /** The tags tell the committed manifests on disk from the others. */
  ghost predicate Tagged(w: World, tags: map<Path, bool>) {
    tags.Keys == w.disk.sidecars.Keys && forall p {:trigger tags[p]} :: p in tags ==> Tells(w, p, tags[p])
  }

  lemma NoneFollowsLast(chain: seq<Manifest>, y: nat)
    requires Honest(chain) && y < |chain|
    ensures chain[y].prevManifestHash != chain[|chain| - 1].thisManifestHash
  {
    if y > 0 {
      assert Follows(chain[y - 1], chain[y]);
    }
  }

  lemma OtherHash(k: Suite, w: World, ms: seq<Manifest>, m: Manifest, y: nat)
    requires Chained(k, w) && Honest(w.chain) && NextInChain(k, w, m) && HashesTell(k, ms) && y < |w.chain|
    requires m in ms && w.chain[y] in ms
    ensures w.chain[y].thisManifestHash != m.thisManifestHash
  {
    assert Hashed(k, w.chain[y]);
    HashTellsFields(k, ms, w.chain[y], m);
    NoneFollowsLast(w.chain, y);
  }

  /** A manifest that is not committed has a hash of its own: no committed one follows the same head. */
  lemma OrphanIsNew(k: Suite, w: World, m: Manifest)
    requires Kept(k, w) && NextInChain(k, w, m) && HashesTell(k, w.placed + [m])
    ensures m.thisManifestHash !in Hashes(w.chain)
  {
    ChainTells(k, w, w.placed + [m]);
    forall y | 0 <= y < |w.chain| ensures w.chain[y].thisManifestHash != m.thisManifestHash {
      assert w.chain[y] in w.chain;
      OtherHash(k, w, w.placed + [m], m, y);
    }
  }

  lemma ChainTells(k: Suite, w: World, ms: seq<Manifest>)
    requires Kept(k, w) && HashesTell(k, ms) && forall m :: m in w.placed ==> m in ms
    ensures Honest(w.chain) && forall m :: m in w.chain ==> m in ms
  {
    forall m | m in w.chain ensures m in ms { assert m in multiset(w.placed); }
    HashesTellPart(k, ms, w.chain);
    ChainIsHonest(k, w);
  }

  lemma OrphanTagged(k: Suite, w: World, path: Path, m: Manifest, tags: map<Path, bool>)
    requires Kept(k, w) && NextInChain(k, w, m) && HashesTell(k, w.placed + [m]) && Tagged(w, tags)
    ensures Tagged(WithOrphan(w, path, m), tags[path := false])
  {
    OrphanIsNew(k, w, m);
    var v, more := WithOrphan(w, path, m), tags[path := false];
    forall p | p in more ensures Tells(v, p, more[p]) {
      if p != path { assert Tells(w, p, tags[p]); }
    }
  }

  /** Two placed manifests with one hash lie under one path. */
  lemma OtherPathOtherHash(k: Suite, w: World, path: Path, m: Manifest, p: Path)
    requires Kept(k, w) && NextInChain(k, w, m) && HashesTell(k, w.placed + [m]) && SelfNamed(path, m)
    requires p in w.disk.sidecars && p != path
    ensures w.disk.sidecars[p].thisManifestHash != m.thisManifestHash
  {
    var other := w.disk.sidecars[p];
    assert Source(w, p);
    assert other in multiset(w.placed);
    assert Hashed(k, other) && other in w.placed + [m] && m in w.placed + [m];
    HashTellsFields(k, w.placed + [m], other, m);
  }

  lemma CommitTagged(k: Suite, w: World, path: Path, m: Manifest, tags: map<Path, bool>)
    requires Kept(k, w) && NextInChain(k, w, m) && HashesTell(k, w.placed + [m]) && SelfNamed(path, m)
    requires Tagged(w, tags)
    ensures Tagged(WithCommit(w, path, m), tags[path := true])
  {
    var v, more := WithCommit(w, path, m), tags[path := true];
    HashesOfLast(v.chain);
    assert v.chain[..|v.chain| - 1] == w.chain;
    forall p | p in more ensures Tells(v, p, more[p]) {
      if p != path {
        assert Tells(w, p, tags[p]);
        OtherPathOtherHash(k, w, path, m, p);
      }
    }
  }

  lemma GrowTagged(k: Suite, w: World, path: Path, m: Manifest, record: Record, text: string, reach: Reach,
                   tags: map<Path, bool>)
    requires Kept(k, w) && NextInChain(k, w, m) && SelfNamed(path, m) && Tagged(w, tags)
    requires !reach.Nothing? ==> HashesTell(k, w.placed + [m])
    ensures Tagged(Grow(k, w, path, m, record, Ok(text), reach),
                   if reach.Nothing? then tags else tags[path := reach.HeadAdvanced? || reach.LogAppended?])
  {
    match reach
    case Nothing =>
    case SidecarPlaced => OrphanTagged(k, w, path, m, tags);
    case HeadAdvanced => CommitTagged(k, w, path, m, tags);
    case LogAppended =>
      CommitTagged(k, w, path, m, tags);
      LineTagged(k, WithCommit(w, path, m), text, record, tags[path := true]);
  }

  lemma LineTagged(k: Suite, w: World, text: string, record: Record, tags: map<Path, bool>)
    requires w.chain != [] && Tagged(w, tags)
    ensures Tagged(WithLine(k, w, text, record), tags)
  {
    forall p | p in tags ensures Tells(WithLine(k, w, text, record), p, tags[p]) {
      assert Tells(w, p, tags[p]);
    }
  }

  lemma GrowPlaced(k: Suite, w: World, path: Path, m: Manifest, record: Record, text: string, reach: Reach)
    ensures Grow(k, w, path, m, record, Ok(text), reach).placed == if reach.Nothing? then w.placed else w.placed + [m]
  {}

  lemma ExtendTagged(k: Suite, b: Build, w: World, t: Txn, tags: map<Path, bool>)
    requires Sound(k) && Kept(k, w) && LogReads(k, w.disk.log, w.scan) && ValidJob(t.job)
    requires HashesTell(k, Extend(k, b, w, t).placed)
    ensures HashesTell(k, w.placed)
    ensures Tagged(w, tags) ==>
      Tagged(Extend(k, b, w, t), if t.reach.Nothing? then tags else tags[SidecarOf(RecordingOf(t.job)) := Commits(t)])
  {
    var m, record, text := ExtendGrows(k, b, w, t);
    var path := SidecarOf(RecordingOf(t.job));
    assert Path(m.user, m.recordingFile) == RecordingOf(t.job);
    GrowPlaced(k, w, path, m, record, text, t.reach);
    HashesTellPart(k, Extend(k, b, w, t).placed, w.placed);
    if Tagged(w, tags) {
      GrowTagged(k, w, path, m, record, text, t.reach, tags);
    }
  }

  lemma {:induction false} ReplayTagged(k: Suite, b: Build, ts: seq<Txn>)
    requires Sound(k) && ValidJobs(ts) && HashesTell(k, Replay(k, b, ts).placed)
    ensures Tagged(Replay(k, b, ts), LastPlaced(ts))
  {
    if ts != [] {
      var init, t := ts[..|ts| - 1], ts[|ts| - 1];
      assert ts == init + [t] && t in ts;
      ReplaySane(k, b, init);
      ExtendTagged(k, b, Replay(k, b, init), t, LastPlaced(init));
      ReplayTagged(k, b, init);
    }
  }

  lemma TagsCount(sidecars: map<Path, Manifest>, paths: seq<Path>, entries: seq<Manifest>, tags: map<Path, bool>)
    requires PlacedAt(sidecars, paths, entries) && tags.Keys == sidecars.Keys
    ensures |tags| == |entries|
  {
    ElementsCount(paths);
    assert Elements(paths) == tags.Keys;
  }

  lemma AllHashesIn(entries: seq<Manifest>, chain: seq<Manifest>)
    requires DistinctHashes(entries) && DistinctHashes(chain)
    ensures Hashes(entries) == Hashes(chain) <==>
      |entries| == |chain| && forall m :: m in entries ==> m.thisManifestHash in Hashes(chain)
  {
    HashListNames(entries);
    HashListNames(chain);
    ElementsCount(HashList(entries));
    ElementsCount(HashList(chain));
    if forall m :: m in entries ==> m.thisManifestHash in Hashes(chain) {
      SubsetCount(Hashes(entries), Hashes(chain));
    }
  }

  lemma TagsListed(w: World, paths: seq<Path>, entries: seq<Manifest>, tags: map<Path, bool>)
    requires Tagged(w, tags) && PlacedAt(w.disk.sidecars, paths, entries)
    ensures AllCommitted(tags) <==> forall m :: m in entries ==> m.thisManifestHash in Hashes(w.chain)
  {
    if AllCommitted(tags) {
      forall m | m in entries ensures m.thisManifestHash in Hashes(w.chain) {
        var i :| 0 <= i < |entries| && entries[i] == m;
        assert paths[i] in w.disk.sidecars && Tells(w, paths[i], tags[paths[i]]);
      }
    } else {
      var p :| p in tags && !tags[p];
      assert Tells(w, p, tags[p]) && p in paths;
      var i :| 0 <= i < |paths| && paths[i] == p;
      assert entries[i] in entries;
    }
  }

  /** With some manifest committed: each sidecar on disk was placed last by a commit, and no commit was overwritten. */
  predicate NoneLost(tags: map<Path, bool>, committed: nat) {
    if committed == 0 then |tags| <= 1 else AllCommitted(tags) && |tags| == committed
  }

  lemma TagsDecide(k: Suite, w: World, paths: seq<Path>, entries: seq<Manifest>, tags: map<Path, bool>)
    requires Sound(k) && Kept(k, w) && HashesTell(k, w.placed) && PlacedAt(w.disk.sidecars, paths, entries)
    requires Tagged(w, tags)
    ensures ExactlyCommitted(w, entries) <==> NoneLost(tags, |w.chain|)
  {
    ListingFits(k, w, paths, entries);
    TagsCount(w.disk.sidecars, paths, entries, tags);
    AllHashesIn(entries, w.chain);
    TagsListed(w, paths, entries, tags);
  }

  /**
   Any transactions at all, names used again included. The check passes exactly when the last commit is logged
   (or none was), every sidecar was placed last by a transaction that committed it, and there are as many as
   were committed; or, with none committed, one sidecar at most.
   */
  lemma VerdictWithReuse(k: Suite, b: Build, ts: seq<Txn>, paths: seq<Path>, entries: seq<Manifest>)
    requires Sound(k) && ValidJobs(ts) && HashesTell(k, Replay(k, b, ts).placed)
    requires PlacedAt(Replay(k, b, ts).disk.sidecars, paths, entries)
    ensures Passes(k, Replay(k, b, ts).disk, entries) <==>
      (Appended(ts) == 0 || LastCommitLogged(ts)) && NoneLost(LastPlaced(ts), Committed(ts))
  {
    ReplaySane(k, b, ts);
    ReplayCounts(k, b, ts);
    ReplayTagged(k, b, ts);
    VerdictByListing(k, b, ts, paths, entries);
    TagsDecide(k, Replay(k, b, ts), paths, entries, LastPlaced(ts));
  }

  // ----- What that says about runs

  lemma {:induction false} CountsGrow(ts: seq<Txn>, more: seq<Txn>)
    ensures Orphaned(ts + more) >= Orphaned(ts) && Committed(ts + more) >= Committed(ts)
  {
    if more == [] {
      assert ts + more == ts;
    } else {
      assert (ts + more)[..|ts + more| - 1] == ts + more[..|more| - 1];
      CountsGrow(ts, more[..|more| - 1]);
    }
  }

  lemma {:induction false} CompleteCounts(ts: seq<Txn>)
    requires forall t :: t in ts ==> t.reach.LogAppended?
    ensures Orphaned(ts) == 0 && Committed(ts) == |ts| == Appended(ts) && (ts == [] || LastCommitLogged(ts))
  {
    if ts != [] {
      CompleteCounts(ts[..|ts| - 1]);
    }
  }

  /** A run in which no step failed passes, with one manifest for each transaction. */
  lemma CompleteRunPasses(k: Suite, b: Build, ts: seq<Txn>, paths: seq<Path>, entries: seq<Manifest>)
    requires Sound(k) && FreshJobs(ts) && HashesTell(k, Replay(k, b, ts).placed)
    requires forall t :: t in ts ==> t.reach.LogAppended?
    requires PlacedAt(Replay(k, b, ts).disk.sidecars, paths, entries)
    ensures Passes(k, Replay(k, b, ts).disk, entries) && |entries| == |ts|
  {
    CompleteCounts(ts);
    QuiescentVerdict(k, b, ts, paths, entries);
    PlacedCount(k, b, ts, paths, entries);
  }

  function AllPaths(ts: seq<Txn>): (paths: seq<Path>)
    ensures |paths| == |ts| && forall i :: 0 <= i < |ts| ==> paths[i] == SidecarOf(RecordingOf(ts[i].job))
  {
    seq(|ts|, i requires 0 <= i < |ts| => SidecarOf(RecordingOf(ts[i].job)))
  }

  lemma SharedPathLoses(paths: seq<Path>, ts: seq<Txn>, i: nat, j: nat)
    requires NoDup(paths) && PathsFrom(paths, ts)
    requires i < j < |ts| && RecordingOf(ts[i].job) == RecordingOf(ts[j].job)
    ensures |paths| < |ts|
  {
    var all := AllPaths(ts);
    var pool := Without(all, j);
    forall p | p in paths ensures p in pool {
      var n :| 0 <= n < |ts| && p == SidecarOf(RecordingOf(ts[n].job));
      var at := if n == j then i else n;
      assert all[at] == p && pool[if at < j then at else at - 1] == p;
    }
    NoDupFits(paths, pool);
  }

  lemma ListedFrom(k: Suite, w: World, ts: seq<Txn>, paths: seq<Path>, entries: seq<Manifest>)
    requires Led(k, w, ts) && PlacedAt(w.disk.sidecars, paths, entries)
    ensures PathsFrom(paths, ts)
  {
    forall p | p in paths ensures p in w.paths {
      assert p in w.disk.sidecars && Source(w, p);
    }
  }

  /** Where two transactions share a recording's name, there are fewer sidecars than transactions. */
  lemma SharedNameLoses(k: Suite, b: Build, ts: seq<Txn>, paths: seq<Path>, entries: seq<Manifest>, i: nat, j: nat)
    requires Sound(k) && ValidJobs(ts) && PlacedAt(Replay(k, b, ts).disk.sidecars, paths, entries)
    requires i < j < |ts| && RecordingOf(ts[i].job) == RecordingOf(ts[j].job)
    ensures |entries| < |ts|
  {
    ReplaySane(k, b, ts);
    ListedFrom(k, Replay(k, b, ts), ts, paths, entries);
    SharedPathLoses(paths, ts, i, j);
  }

  lemma FewerHashes(a: seq<Manifest>, b: seq<Manifest>)
    requires DistinctHashes(b) && Hashes(a) == Hashes(b)
    ensures |b| <= |a|
  {
    HashListNames(a);
    HashListNames(b);
    ElementsCount(HashList(a));
    ElementsCount(HashList(b));
  }

  /**
   Reuse, exactly. Where every transaction completed, the check passes if and only if their recordings are
   pairwise distinct. A session id recorded again after retention deleted its recording overwrites the
   sidecar that was kept, and the chain has a hole.
   */
  lemma CompleteRunExactly(k: Suite, b: Build, ts: seq<Txn>, paths: seq<Path>, entries: seq<Manifest>)
    requires Sound(k) && ValidJobs(ts) && HashesTell(k, Replay(k, b, ts).placed)
    requires forall t :: t in ts ==> t.reach.LogAppended?
    requires PlacedAt(Replay(k, b, ts).disk.sidecars, paths, entries)
    ensures Passes(k, Replay(k, b, ts).disk, entries) <==> Distinct(ts)
  {
    if Distinct(ts) {
      CompleteRunPasses(k, b, ts, paths, entries);
    } else {
      var i, j :| 0 <= i < j < |ts| && RecordingOf(ts[i].job) == RecordingOf(ts[j].job);
      SharedNameLoses(k, b, ts, paths, entries, i, j);
      HoleIsSeen(k, b, ts, paths, entries);
    }
  }

  lemma HoleIsSeen(k: Suite, b: Build, ts: seq<Txn>, paths: seq<Path>, entries: seq<Manifest>)
    requires Sound(k) && ValidJobs(ts) && HashesTell(k, Replay(k, b, ts).placed)
    requires forall t :: t in ts ==> t.reach.LogAppended?
    requires PlacedAt(Replay(k, b, ts).disk.sidecars, paths, entries) && |entries| < |ts|
    ensures !Passes(k, Replay(k, b, ts).disk, entries)
  {
    var w := Replay(k, b, ts);
    CompleteCounts(ts);
    ReplaySane(k, b, ts);
    ReplayCounts(k, b, ts);
    VerdictByListing(k, b, ts, paths, entries);
    ListingFits(k, w, paths, entries);
    if ExactlyCommitted(w, entries) {
      FewerHashes(entries, w.chain);
    }
  }

  lemma PlacedCount(k: Suite, b: Build, ts: seq<Txn>, paths: seq<Path>, entries: seq<Manifest>)
    requires Sound(k) && FreshJobs(ts) && PlacedAt(Replay(k, b, ts).disk.sidecars, paths, entries)
    ensures |entries| == Committed(ts) + Orphaned(ts)
  {
    var w := Replay(k, b, ts);
    ReplaySane(k, b, ts);
    ReplayCounts(k, b, ts);
    ListingsPermute(w.disk.sidecars, paths, entries, w.paths, w.placed);
    assert |multiset(entries)| == |entries|;
  }

  /** Its log holds one line for each transaction, and the head is the manifest hash of the last. */
  lemma CompleteRunAgrees(k: Suite, b: Build, ts: seq<Txn>)
    requires Sound(k) && ValidJobs(ts) && HashesTell(k, Replay(k, b, ts).chain)
    requires forall t :: t in ts ==> t.reach.LogAppended?
    ensures var d := Replay(k, b, ts).disk;
      && LogVerdict(k, d.log).Ok? && |LogVerdict(k, d.log).value.seen.entries| == |ts|
      && (ts != [] ==> HeadIsTip(d, LogVerdict(k, d.log).value.seen))
  {
    CompleteCounts(ts);
    ReplaySane(k, b, ts);
    ReplayCounts(k, b, ts);
    LogStands(k, Replay(k, b, ts));
  }

  predicate HeadIsTip(d: Disk, log: LogVerification) {
    TipHash(log).Some? && HeadValue(d.head) == Ok(TipHash(log).value)
  }

  /** Whatever failed, the log verifies by itself, with one line for each append that was made. */
  lemma LogAlwaysVerifies(k: Suite, b: Build, ts: seq<Txn>)
    requires Sound(k) && ValidJobs(ts)
    ensures var log := LogVerdict(k, Replay(k, b, ts).disk.log);
      log.Ok? && |log.value.seen.entries| == Appended(ts)
  {
    ReplaySane(k, b, ts);
    ReplayCounts(k, b, ts);
  }

  /** Failed appends leave manifests that pass against the head, and the next complete transaction mends the rest. */
  lemma FailedAppendsMend(k: Suite, b: Build, ts: seq<Txn>, t: Txn, paths: seq<Path>, entries: seq<Manifest>,
                          morePaths: seq<Path>, moreEntries: seq<Manifest>)
    requires Sound(k) && FreshJobs(ts + [t]) && t.reach.LogAppended? && Orphaned(ts) == 0
    requires HashesTell(k, Replay(k, b, ts).placed) && HashesTell(k, Replay(k, b, ts + [t]).placed)
    requires PlacedAt(Replay(k, b, ts).disk.sidecars, paths, entries)
    requires PlacedAt(Replay(k, b, ts + [t]).disk.sidecars, morePaths, moreEntries)
    ensures HeadValue(Replay(k, b, ts).disk.head).Ok?
    ensures Accepted(entries, Some(HeadValue(Replay(k, b, ts).disk.head).value))
    ensures Passes(k, Replay(k, b, ts).disk, entries) <==> Appended(ts) == 0 || LastCommitLogged(ts)
    ensures Passes(k, Replay(k, b, ts + [t]).disk, moreEntries)
  {
    assert (ts + [t])[..|ts|] == ts;
    assert FreshJobs(ts) by {
      assert forall i :: 0 <= i < |ts| ==> (ts + [t])[i] == ts[i];
      assert forall x :: x in ts ==> x in ts + [t];
    }
    ReplaySane(k, b, ts);
    ReplayCounts(k, b, ts);
    ManifestVerdict(k, Replay(k, b, ts), paths, entries);
    QuiescentVerdict(k, b, ts, paths, entries);
    QuiescentVerdict(k, b, ts + [t], morePaths, moreEntries);
  }

  lemma {:induction false} TagStays(ts: seq<Txn>, more: seq<Txn>, p: Path)
    requires p in LastPlaced(ts)
    requires forall t :: t in more ==> t.reach.Nothing? || SidecarOf(RecordingOf(t.job)) != p
    ensures p in LastPlaced(ts + more) && LastPlaced(ts + more)[p] == LastPlaced(ts)[p]
  {
    if more == [] {
      assert ts + more == ts;
    } else {
      assert (ts + more)[..|ts + more| - 1] == ts + more[..|more| - 1];
      TagStays(ts, more[..|more| - 1], p);
    }
  }

  /**
   A sidecar orphaned beside a chain: no later transaction makes the check pass again, unless it places a
   sidecar of the same name over the orphan.
   */
  lemma OrphanNeverMends(k: Suite, b: Build, ts: seq<Txn>, t: Txn, more: seq<Txn>, paths: seq<Path>,
                         entries: seq<Manifest>)
    requires Sound(k) && ValidJobs(ts + [t] + more) && HashesTell(k, Replay(k, b, ts + [t] + more).placed)
    requires t.reach.SidecarPlaced? && Committed(ts + [t] + more) > 0
    requires forall u :: u in more ==> u.reach.Nothing? || RecordingOf(u.job) != RecordingOf(t.job)
    requires PlacedAt(Replay(k, b, ts + [t] + more).disk.sidecars, paths, entries)
    ensures !Passes(k, Replay(k, b, ts + [t] + more).disk, entries)
  {
    var p := SidecarOf(RecordingOf(t.job));
    assert (ts + [t])[..|ts|] == ts;
    assert p in LastPlaced(ts + [t]) && !LastPlaced(ts + [t])[p];
    forall u | u in more ensures u.reach.Nothing? || SidecarOf(RecordingOf(u.job)) != p {
      SidecarInjective(RecordingOf(u.job), RecordingOf(t.job));
    }
    TagStays(ts + [t], more, p);
    VerdictWithReuse(k, b, ts + [t] + more, paths, entries);
  }

  lemma MendedTags(ts: seq<Txn>, t: Txn, u: Txn)
    requires t.reach.SidecarPlaced? && u.reach.LogAppended? && RecordingOf(u.job) == RecordingOf(t.job)
    requires AllCommitted(LastPlaced(ts)) && |LastPlaced(ts)| == Committed(ts)
    requires SidecarOf(RecordingOf(t.job)) !in LastPlaced(ts)
    ensures LastCommitLogged(ts + [t, u]) && NoneLost(LastPlaced(ts + [t, u]), Committed(ts + [t, u]))
  {
    var p, all := SidecarOf(RecordingOf(t.job)), ts + [t, u];
    assert all[..|all| - 1] == ts + [t] && (ts + [t])[..|ts|] == ts;
    assert LastPlaced(all) == LastPlaced(ts)[p := true];
    assert LastPlaced(all).Keys == LastPlaced(ts).Keys + {p};
  }

  /**
   It does pass again when the name is used again: the orphan `t` is overwritten by a complete transaction
   on the same name, where nothing else was lost.
   */
  lemma ReusedNameMends(k: Suite, b: Build, ts: seq<Txn>, t: Txn, u: Txn, paths: seq<Path>, entries: seq<Manifest>)
    requires Sound(k) && ValidJobs(ts + [t, u]) && HashesTell(k, Replay(k, b, ts + [t, u]).placed)
    requires t.reach.SidecarPlaced? && u.reach.LogAppended? && RecordingOf(u.job) == RecordingOf(t.job)
    requires AllCommitted(LastPlaced(ts)) && |LastPlaced(ts)| == Committed(ts)
    requires SidecarOf(RecordingOf(t.job)) !in LastPlaced(ts)
    requires PlacedAt(Replay(k, b, ts + [t, u]).disk.sidecars, paths, entries)
    ensures Passes(k, Replay(k, b, ts + [t, u]).disk, entries)
  {
    MendedTags(ts, t, u);
    VerdictWithReuse(k, b, ts + [t, u], paths, entries);
  }
}
