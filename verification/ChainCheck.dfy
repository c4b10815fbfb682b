/**
 The manifest chain verifier: one set of manifests is accepted exactly when it is a single path
 from one genesis to the anchored tip.

 Hashes are opaque strings here, so a set may hold cycles, forks and duplicates, and every check
 of the verifier has work to do.
 */
module ChainCheck {
  import opened Wrappers
  import opened Sequences
  import opened Manifests

  datatype ChainError =
    | Truncated(head: string)
    | DuplicateHash(hash: string)
    | TwoGenesis
    | MissingPredecessor(prev: string)
    | Fork(prev: string)
    | NoGenesis
    | NoTip
    | TwoTips
    | Cycle
    | WalkBroke
    | Orphans(walked: nat, total: nat)

  // ----- What the verifier decides

  /** The tip the caller insists on. A head that names GENESIS anchors nothing. */
  function Anchor(expectedHead: Option<string>): Option<string> {
    if expectedHead.Some? && expectedHead.value != GENESIS_PREV then expectedHead else None
  }

  ghost predicate DistinctHashes(ms: seq<Manifest>) {
    forall i, j :: 0 <= i < j < |ms| ==> ms[i].thisManifestHash != ms[j].thisManifestHash
  }

  ghost predicate HasHash(ms: seq<Manifest>, hash: string) {
    exists m :: m in ms && m.thisManifestHash == hash
  }

  /** `b` names `a` as its predecessor. */
  predicate Follows(a: Manifest, b: Manifest) {
    b.prevManifestHash == a.thisManifestHash && b.prevManifestHash != GENESIS_PREV
  }

  /** One path that starts at a genesis and never restarts. */
  ghost predicate SinglePath(order: seq<Manifest>) {
    && order != []
    && DistinctHashes(order)
    && order[0].prevManifestHash == GENESIS_PREV
    && forall i :: 0 < i < |order| ==> Follows(order[i - 1], order[i])
  }

  ghost predicate EndsAt(order: seq<Manifest>, anchor: Option<string>)
    requires order != []
  {
    anchor.Some? ==> order[|order| - 1].thisManifestHash == anchor.value
  }

  /** `order` lists exactly `entries`, as one path to the anchored tip. */
  ghost predicate Orders(order: seq<Manifest>, entries: seq<Manifest>, anchor: Option<string>) {
    multiset(order) == multiset(entries) && SinglePath(order) && EndsAt(order, anchor)
  }

  ghost predicate Accepted(entries: seq<Manifest>, expectedHead: Option<string>) {
    if entries == [] then Anchor(expectedHead).None?
    else exists order :: Orders(order, entries, Anchor(expectedHead))
  }

  /** Each element follows the next one, and the last follows the first. */
  ghost predicate IsCycle(cyc: seq<Manifest>) {
    && cyc != []
    && (forall i :: 0 < i < |cyc| ==> Follows(cyc[i], cyc[i - 1]))
    && Follows(cyc[0], cyc[|cyc| - 1])
  }

  ghost predicate CycleAmong(cyc: seq<Manifest>, entries: seq<Manifest>) {
    IsCycle(cyc) && forall m :: m in cyc ==> m in entries
  }

  /** `path` is a full history to the anchored tip that leaves some of `entries` out. */
  ghost predicate Strays(path: seq<Manifest>, entries: seq<Manifest>, anchor: Option<string>) {
    && SinglePath(path) && EndsAt(path, anchor)
    && (forall m :: m in path ==> m in entries)
    && |path| < |entries|
  }

  ghost predicate SharedHash(entries: seq<Manifest>, hash: string) {
    exists i, j :: 0 <= i < j < |entries| && entries[i].thisManifestHash == hash == entries[j].thisManifestHash
  }

  ghost predicate SharedPrev(entries: seq<Manifest>, prev: string) {
    exists i, j :: 0 <= i < j < |entries| && entries[i].prevManifestHash == prev == entries[j].prevManifestHash
  }

  /** What each error says about the set. Three of the errors cannot happen at all. */
  ghost predicate Explains(e: ChainError, entries: seq<Manifest>, anchor: Option<string>) {
    match e
    case Truncated(head) => anchor == Some(head) && !HasHash(entries, head)
    case DuplicateHash(hash) => SharedHash(entries, hash)
    case TwoGenesis => SharedPrev(entries, GENESIS_PREV)
    case MissingPredecessor(prev) =>
      prev != GENESIS_PREV && !HasHash(entries, prev) && exists m :: m in entries && m.prevManifestHash == prev
    case Fork(prev) => prev != GENESIS_PREV && SharedPrev(entries, prev)
    case NoGenesis => forall m :: m in entries ==> m.prevManifestHash != GENESIS_PREV
    case NoTip => false
    case TwoTips => false
    case WalkBroke => false
    case Cycle =>
      anchor.Some? && exists cyc: seq<Manifest> :: CycleAmong(cyc, entries) && cyc[0].thisManifestHash == anchor.value
    case Orphans(walked, total) =>
      && total == |entries|
      && (exists path :: |path| == walked && Strays(path, entries, anchor))
      && (anchor.None? ==> exists cyc: seq<Manifest> :: CycleAmong(cyc, entries))
  }

  // ----- Facts about an accepted order

  lemma DistinctHashesNoDup(ms: seq<Manifest>)
    requires DistinctHashes(ms)
    ensures NoDup(ms)
  {}

  /** Within a set that has distinct hashes, a hash names one manifest. */
  lemma HashNames(ms: seq<Manifest>, a: Manifest, b: Manifest)
    requires DistinctHashes(ms) && a in ms && b in ms && a.thisManifestHash == b.thisManifestHash
    ensures a == b
  {
    var i :| 0 <= i < |ms| && ms[i] == a;
    var j :| 0 <= j < |ms| && ms[j] == b;
    if i < j { assert false; } else if j < i { assert false; }
  }

  lemma OnlyFirstIsGenesis(order: seq<Manifest>, k: nat)
    requires SinglePath(order) && k < |order| && order[k].prevManifestHash == GENESIS_PREV
    ensures k == 0
  {
    assert k > 0 ==> Follows(order[k - 1], order[k]);
  }

  /** A predecessor that is named inside a path is the element just before. */
  lemma PredecessorOnPath(order: seq<Manifest>, p: Manifest, k: nat)
    requires SinglePath(order) && k < |order| && p in order && Follows(p, order[k])
    ensures k > 0 && p == order[k - 1]
  {
    assert k > 0;
    assert Follows(order[k - 1], order[k]);
    HashNames(order, p, order[k - 1]);
  }

  /** The `t`-th element of a cycle that meets a path lies `t` steps before the meeting point. */
  lemma {:induction false} CycleClimbs(order: seq<Manifest>, cyc: seq<Manifest>, k: nat, t: nat)
    requires SinglePath(order) && CycleAmong(cyc, order)
    requires k < |order| && cyc[0] == order[k] && t < |cyc|
    ensures t <= k && cyc[t] == order[k - t]
  {
    if t > 0 {
      CycleClimbs(order, cyc, k, t - 1);
      assert Follows(cyc[t], cyc[t - 1]);
      PredecessorOnPath(order, cyc[t], k - (t - 1));
    }
  }

  lemma PathHasNoCycle(order: seq<Manifest>, cyc: seq<Manifest>)
    requires SinglePath(order)
    ensures !CycleAmong(cyc, order)
  {
    if CycleAmong(cyc, order) {
      assert cyc[0] in order;
      var k :| 0 <= k < |order| && order[k] == cyc[0];
      var last := |cyc| - 1;
      CycleClimbs(order, cyc, k, last);
      PredecessorOnPath(order, cyc[0], k - last);
      assert false;
    }
  }

  /** Two paths to the same tip inside one set agree, element by element, back from the tip. */
  lemma {:induction false} PathsAgree(path: seq<Manifest>, order: seq<Manifest>, k: nat)
    requires SinglePath(path) && SinglePath(order)
    requires forall m :: m in path ==> m in order
    requires path[|path| - 1].thisManifestHash == order[|order| - 1].thisManifestHash
    requires k < |path|
    ensures k < |order| && path[|path| - 1 - k] == order[|order| - 1 - k]
  {
    if k == 0 {
      HashNames(order, path[|path| - 1], order[|order| - 1]);
    } else {
      PathsAgree(path, order, k - 1);
      var i := |path| - k;
      assert Follows(path[i - 1], path[i]);
      PredecessorOnPath(order, path[i - 1], |order| - k);
    }
  }

  lemma AnchoredPathIsWhole(path: seq<Manifest>, order: seq<Manifest>)
    requires SinglePath(path) && SinglePath(order)
    requires forall m :: m in path ==> m in order
    requires path[|path| - 1].thisManifestHash == order[|order| - 1].thisManifestHash
    ensures path == order
  {
    PathsAgree(path, order, |path| - 1);
    OnlyFirstIsGenesis(order, |order| - |path|);
    forall i | 0 <= i < |path| ensures path[i] == order[i] {
      PathsAgree(path, order, |path| - 1 - i);
    }
  }

  // ----- Every error the verifier can report describes a set that is not one path

  lemma TwoLinksSameElement(order: seq<Manifest>, entries: seq<Manifest>, i: nat, j: nat)
    requires multiset(order) == multiset(entries) && SinglePath(order)
    requires i < j < |entries|
    ensures entries[i].thisManifestHash != entries[j].thisManifestHash
    ensures entries[i].prevManifestHash != entries[j].prevManifestHash
  {
    PermutationKeeps(order, entries);
    DistinctHashesNoDup(order);
    assert entries[i] in order && entries[j] in order;
    if entries[i].thisManifestHash == entries[j].thisManifestHash {
      HashNames(order, entries[i], entries[j]);
      assert false;
    }
    if entries[i].prevManifestHash == entries[j].prevManifestHash {
      var a :| 0 <= a < |order| && order[a] == entries[i];
      var b :| 0 <= b < |order| && order[b] == entries[j];
      SamePrevSamePlace(order, a, b);
      assert false;
    }
  }

  lemma SamePrevSamePlace(order: seq<Manifest>, a: nat, b: nat)
    requires SinglePath(order) && a < |order| && b < |order|
    requires order[a].prevManifestHash == order[b].prevManifestHash
    ensures a == b
  {
    if order[a].prevManifestHash == GENESIS_PREV {
      OnlyFirstIsGenesis(order, a);
      OnlyFirstIsGenesis(order, b);
    } else {
      assert Follows(order[a - 1], order[a]) && Follows(order[b - 1], order[b]);
    }
  }

  lemma EndsAreWithin(order: seq<Manifest>, entries: seq<Manifest>)
    requires multiset(order) == multiset(entries) && order != []
    ensures order[0] in entries && order[|order| - 1] in entries
  {
    PermutationKeeps(order, entries);
  }

  lemma LinksAreWithin(order: seq<Manifest>, entries: seq<Manifest>, m: Manifest)
    requires multiset(order) == multiset(entries) && SinglePath(order) && m in entries
    ensures PrevKnown(entries, m)
  {
    PermutationKeeps(order, entries);
    var k :| 0 <= k < |order| && order[k] == m;
    if k > 0 {
      assert Follows(order[k - 1], order[k]) && order[k - 1] in entries;
    }
  }

  lemma StraysIsRejected(path: seq<Manifest>, entries: seq<Manifest>, order: seq<Manifest>, anchor: Option<string>)
    requires Strays(path, entries, anchor) && anchor.Some?
    ensures !Orders(order, entries, anchor)
  {
    if Orders(order, entries, anchor) {
      PermutationKeeps(order, entries);
      AnchoredPathIsWhole(path, order);
      assert false;
    }
  }

  lemma CycleIsRejected(cyc: seq<Manifest>, entries: seq<Manifest>, order: seq<Manifest>, anchor: Option<string>)
    requires CycleAmong(cyc, entries)
    ensures !Orders(order, entries, anchor)
  {
    if Orders(order, entries, anchor) {
      PermutationKeeps(order, entries);
      PathHasNoCycle(order, cyc);
      assert false;
    }
  }

  lemma ExplainedIsRejected(e: ChainError, entries: seq<Manifest>, order: seq<Manifest>, anchor: Option<string>)
    requires Explains(e, entries, anchor)
    ensures !Orders(order, entries, anchor)
  {
    if Orders(order, entries, anchor) {
      EndsAreWithin(order, entries);
      match e
      case Truncated(head) =>
        assert false;
      case DuplicateHash(hash) =>
        var i, j :| 0 <= i < j < |entries| && entries[i].thisManifestHash == hash == entries[j].thisManifestHash;
        TwoLinksSameElement(order, entries, i, j);
        assert false;
      case TwoGenesis =>
        var i, j :| 0 <= i < j < |entries|
          && entries[i].prevManifestHash == GENESIS_PREV == entries[j].prevManifestHash;
        TwoLinksSameElement(order, entries, i, j);
        assert false;
      case MissingPredecessor(prev) =>
        var m :| m in entries && m.prevManifestHash == prev;
        LinksAreWithin(order, entries, m);
        assert false;
      case Fork(prev) =>
        var i, j :| 0 <= i < j < |entries| && entries[i].prevManifestHash == prev == entries[j].prevManifestHash;
        TwoLinksSameElement(order, entries, i, j);
        assert false;
      case NoGenesis =>
        assert false;
      case Cycle =>
        var cyc: seq<Manifest> :| CycleAmong(cyc, entries) && cyc[0].thisManifestHash == anchor.value;
        CycleIsRejected(cyc, entries, order, anchor);
      case Orphans(walked, total) =>
        if anchor.Some? {
          var path :| |path| == walked && Strays(path, entries, anchor);
          StraysIsRejected(path, entries, order, anchor);
        } else {
          var cyc: seq<Manifest> :| CycleAmong(cyc, entries);
          CycleIsRejected(cyc, entries, order, anchor);
        }
    }
  }

  // ----- The backward walk

  /** `path` runs backwards: each element is the predecessor of the one before it. */
  ghost predicate BackWalk(path: seq<Manifest>, entries: seq<Manifest>) {
    && path != []
    && (forall m :: m in path ==> m in entries)
    && forall i :: 0 < i < |path| ==> Follows(path[i], path[i - 1])
  }

  ghost predicate DistinctPrevs(ms: seq<Manifest>) {
    forall i, j :: 0 <= i < j < |ms| ==> ms[i].prevManifestHash != ms[j].prevManifestHash
  }

  /** What the uniqueness, genesis, predecessor and fork passes establish. */
  ghost predicate Linked(entries: seq<Manifest>) {
    && DistinctHashes(entries)
    && DistinctPrevs(entries)
    && forall m {:trigger PrevKnown(entries, m)} :: m in entries ==> PrevKnown(entries, m)
  }

  ghost predicate PrevKnown(entries: seq<Manifest>, m: Manifest) {
    m.prevManifestHash == GENESIS_PREV || HasHash(entries, m.prevManifestHash)
  }

  /** Within a linked set, a predecessor has one successor. */
  lemma PrevNames(entries: seq<Manifest>, a: Manifest, b: Manifest)
    requires Linked(entries) && a in entries && b in entries && a.prevManifestHash == b.prevManifestHash
    ensures a == b
  {
    var i :| 0 <= i < |entries| && entries[i] == a;
    var j :| 0 <= j < |entries| && entries[j] == b;
    if i < j { assert false; } else if j < i { assert false; }
  }

  /** A walk that comes back to an element has first come back to where it started. */
  lemma {:induction false} ReturnsToStart(path: seq<Manifest>, entries: seq<Manifest>, a: nat, b: nat)
    requires Linked(entries) && BackWalk(path, entries)
    requires a < b < |path| && path[a] == path[b]
    ensures path[0] == path[b - a]
  {
    if a > 0 {
      assert Follows(path[a], path[a - 1]) && Follows(path[b], path[b - 1]);
      PrevNames(entries, path[a - 1], path[b - 1]);
      ReturnsToStart(path, entries, a - 1, b - 1);
    }
  }

  lemma ReturnIsCycle(path: seq<Manifest>, entries: seq<Manifest>, k: nat)
    requires BackWalk(path, entries) && 0 < k < |path| && path[k] == path[0]
    ensures CycleAmong(path[..k], entries) && path[..k][0] == path[0]
  {
    var cyc := path[..k];
    assert Follows(path[k], path[k - 1]);
    forall i | 0 < i < k ensures Follows(cyc[i], cyc[i - 1]) {
      assert Follows(path[i], path[i - 1]);
    }
  }

  /** A walk longer than the set has gone round a cycle through its start. */
  lemma LongWalkCycles(path: seq<Manifest>, entries: seq<Manifest>)
    requires Linked(entries) && BackWalk(path, entries) && |path| > |entries|
    ensures exists cyc: seq<Manifest> :: CycleAmong(cyc, entries) && cyc[0] == path[0]
  {
    if NoDup(path) {
      NoDupFits(path, entries);
      assert false;
    }
    var a, b :| 0 <= a < b < |path| && path[a] == path[b];
    ReturnsToStart(path, entries, a, b);
    ReturnIsCycle(path, entries, b - a);
  }

  lemma {:induction false} SameForward(path: seq<Manifest>, entries: seq<Manifest>, a: nat, b: nat, t: nat)
    requires Linked(entries) && BackWalk(path, entries)
    requires a < b && b + t < |path| && path[a] == path[b]
    ensures path[a + t] == path[b + t]
  {
    if t > 0 {
      SameForward(path, entries, a, b, t - 1);
      assert Follows(path[a + t], path[a + t - 1]) && Follows(path[b + t], path[b + t - 1]);
      HashNames(entries, path[a + t], path[b + t]);
    }
  }

  ghost function Reverse<T>(s: seq<T>): (r: seq<T>)
    ensures |r| == |s| && forall i :: 0 <= i < |s| ==> r[i] == s[|s| - 1 - i]
  {
    seq(|s|, i requires 0 <= i < |s| => s[|s| - 1 - i])
  }

  /** A backward walk that ends at a genesis is, read forwards, a single path. */
  lemma WalkIsPath(path: seq<Manifest>, entries: seq<Manifest>)
    requires Linked(entries) && BackWalk(path, entries)
    requires path[|path| - 1].prevManifestHash == GENESIS_PREV
    ensures SinglePath(Reverse(path)) && NoDup(path)
    ensures forall m :: m in Reverse(path) <==> m in path
  {
    var order, n := Reverse(path), |path|;
    forall a, b | 0 <= a < b < n ensures path[a] != path[b] {
      assert Follows(path[a + n - b], path[a + n - 1 - b]);
      if path[a] == path[b] {
        SameForward(path, entries, a, b, n - 1 - b);
        assert false;
      }
    }
    forall i | 0 < i < n ensures Follows(order[i - 1], order[i]) {
      assert Follows(path[n - i], path[n - 1 - i]);
    }
    forall i, j | 0 <= i < j < n ensures order[i].thisManifestHash != order[j].thisManifestHash {
      var x, y := path[n - 1 - i], path[n - 1 - j];
      if x.thisManifestHash == y.thisManifestHash {
        HashNames(entries, x, y);
        assert false;
      }
    }
    forall m ensures m in order <==> m in path {
      if m in path { var k :| 0 <= k < n && path[k] == m; assert order[n - 1 - k] == m; }
    }
  }

  /** The walk that reaches a genesis after `|entries|` steps has listed the whole set. */
  lemma FullWalkOrders(path: seq<Manifest>, entries: seq<Manifest>, anchor: Option<string>)
    requires Linked(entries) && BackWalk(path, entries) && |path| == |entries|
    requires path[|path| - 1].prevManifestHash == GENESIS_PREV
    requires anchor.Some? ==> path[0].thisManifestHash == anchor.value
    ensures Orders(Reverse(path), entries, anchor)
  {
    WalkIsPath(path, entries);
    NoDupFits(path, entries);
    DistinctHashesNoDup(entries);
    DistinctHashesNoDup(Reverse(path));
    SameElementsPermute(Reverse(path), entries);
  }

  ghost predicate Unfollowed(tip: Manifest, entries: seq<Manifest>) {
    forall m :: m in entries ==> !Follows(tip, m)
  }

  /** A complete backward walk from a tip that nothing follows. */
  ghost predicate Sealed(path: seq<Manifest>, entries: seq<Manifest>) {
    && BackWalk(path, entries)
    && path[|path| - 1].prevManifestHash == GENESIS_PREV
    && Unfollowed(path[0], entries)
  }

  /** Whatever follows an element of a sealed walk is on the walk as well. */
  lemma FollowerOnWalk(path: seq<Manifest>, entries: seq<Manifest>, p: Manifest, m: Manifest)
    requires Linked(entries) && Sealed(path, entries) && m in entries && p in path && Follows(p, m)
    ensures m in path
  {
    var i :| 0 <= i < |path| && path[i] == p;
    assert i > 0;
    assert Follows(path[i], path[i - 1]);
    PrevNames(entries, m, path[i - 1]);
  }

  /** What a complete walk from an unanchored tip leaves over has its predecessors left over too. */
  lemma LeftoverPredecessor(path: seq<Manifest>, entries: seq<Manifest>, m: Manifest) returns (p: Manifest)
    requires Linked(entries) && Sealed(path, entries) && m in entries && m !in path
    ensures p in entries && p !in path && Follows(p, m)
  {
    if m.prevManifestHash == GENESIS_PREV {
      PrevNames(entries, m, path[|path| - 1]);
      assert false;
    }
    assert PrevKnown(entries, m);
    p :| p in entries && p.thisManifestHash == m.prevManifestHash;
    if p in path {
      FollowerOnWalk(path, entries, p, m);
      assert false;
    }
  }

  lemma {:induction false} LeftoverCycle(path: seq<Manifest>, entries: seq<Manifest>, walk: seq<Manifest>)
      returns (cyc: seq<Manifest>)
    requires Linked(entries) && Sealed(path, entries)
    requires BackWalk(walk, entries) && NoDup(walk) && forall m :: m in walk ==> m !in path
    ensures CycleAmong(cyc, entries)
    decreases |entries| - |walk|
  {
    var p := LeftoverPredecessor(path, entries, walk[|walk| - 1]);
    var longer := walk + [p];
    if p in walk {
      var a :| 0 <= a < |walk| && walk[a] == p;
      ReturnsToStart(longer, entries, a, |walk|);
      ReturnIsCycle(longer, entries, |walk| - a);
      cyc := longer[..|walk| - a];
    } else {
      NoDupFits(longer, entries);
      cyc := LeftoverCycle(path, entries, longer);
    }
  }

  /** A walk that reached the genesis early: what it means for the verdict. */
  lemma ShortWalkStrays(path: seq<Manifest>, entries: seq<Manifest>, anchor: Option<string>)
    requires Linked(entries) && BackWalk(path, entries) && |path| < |entries|
    requires path[|path| - 1].prevManifestHash == GENESIS_PREV
    requires anchor.Some? ==> path[0].thisManifestHash == anchor.value
    requires anchor.None? ==> Unfollowed(path[0], entries)
    ensures Explains(Orphans(|path|, |entries|), entries, anchor)
  {
    WalkIsPath(path, entries);
    assert Strays(Reverse(path), entries, anchor);
    if anchor.None? {
      DistinctHashesNoDup(entries);
      if forall m :: m in entries ==> m in path {
        NoDupFits(entries, path);
        assert false;
      }
      var m :| m in entries && m !in path;
      var cyc := LeftoverCycle(path, entries, [m]);
    }
  }

  // ----- The verifier, with a manifest reference as an index into `entries`

  ghost predicate HashIndex(entries: seq<Manifest>, byHash: map<string, nat>, n: nat)
    requires n <= |entries|
  {
    && (forall k :: 0 <= k < n ==> entries[k].thisManifestHash in byHash)
    && (forall h {:trigger byHash[h]} :: h in byHash ==> byHash[h] < n && entries[byHash[h]].thisManifestHash == h)
    && forall j, k :: 0 <= j < k < n ==> entries[j].thisManifestHash != entries[k].thisManifestHash
  }

  /** Every non-genesis link among the first `n` is indexed by the predecessor it names, once. */
  ghost predicate ChildIndex(entries: seq<Manifest>, childOf: map<string, nat>, n: nat)
    requires n <= |entries|
  {
    && (forall k :: 0 <= k < n && entries[k].prevManifestHash != GENESIS_PREV ==>
         entries[k].prevManifestHash in childOf)
    && (forall h {:trigger childOf[h]} :: h in childOf ==>
         h != GENESIS_PREV && childOf[h] < n && entries[childOf[h]].prevManifestHash == h)
    && forall j, k :: 0 <= j < k < n ==> entries[j].prevManifestHash != entries[k].prevManifestHash
  }

  method CheckSingleChain(entries: seq<Manifest>, expectedHead: Option<string>)
      returns (r: Result<(), ChainError>)
    ensures r.Ok? <==> Accepted(entries, expectedHead)
    ensures r.Err? ==> Explains(r.error, entries, Anchor(expectedHead))
  {
    if entries == [] {
      if expectedHead.Some? && expectedHead.value != GENESIS_PREV {
        return Err(Truncated(expectedHead.value));
      }
      return Ok(());
    }
    r := CheckNonEmpty(entries, expectedHead);
    if r.Err? {
      forall order ensures !Orders(order, entries, Anchor(expectedHead)) {
        ExplainedIsRejected(r.error, entries, order, Anchor(expectedHead));
      }
    }
  }

  method CheckNonEmpty(entries: seq<Manifest>, expectedHead: Option<string>)
      returns (r: Result<(), ChainError>)
    requires entries != []
    ensures r.Ok? ==> Accepted(entries, expectedHead)
    ensures r.Err? ==> Explains(r.error, entries, Anchor(expectedHead))
  {
    ghost var anchor := Anchor(expectedHead);
    var hashes := IndexHashes(entries);
    if hashes.Err? {
      return Err(hashes.error);
    }
    var byHash := hashes.value;
    var children := IndexChildren(entries, byHash);
    if children.Err? {
      ChildFaultExplains(children.error, entries, byHash, anchor);
      return Err(children.error);
    }
    var (childOf, genesis) := children.value;
    LinkedByPasses(entries, byHash, childOf);

    var tip: nat;
    if expectedHead.Some? && expectedHead.value != GENESIS_PREV {
      if expectedHead.value !in byHash {
        NotIndexed(entries, byHash, expectedHead.value);
        return Err(Truncated(expectedHead.value));
      }
      tip := byHash[expectedHead.value];
    } else {
      var first, second := FirstTips(entries, byHash, childOf);
      if first.None? {
        return Err(NoTip);
      }
      if second.Some? {
        return Err(TwoTips);
      }
      tip := first.value;
    }
    r := WalkBack(entries, byHash, genesis, tip, anchor);
  }

  lemma HashIndexed(entries: seq<Manifest>, byHash: map<string, nat>, i: nat)
    requires i < |entries| && HashIndex(entries, byHash, i) && entries[i].thisManifestHash !in byHash
    ensures HashIndex(entries, byHash[entries[i].thisManifestHash := i], i + 1)
  {}

  lemma HashShared(entries: seq<Manifest>, byHash: map<string, nat>, i: nat)
    requires i < |entries| && HashIndex(entries, byHash, i) && entries[i].thisManifestHash in byHash
    ensures SharedHash(entries, entries[i].thisManifestHash)
  {
    assert byHash[entries[i].thisManifestHash] < i;
  }

  method IndexHashes(entries: seq<Manifest>)
      returns (r: Result<map<string, nat>, ChainError>)
    ensures r.Ok? ==> HashIndex(entries, r.value, |entries|) && |r.value| == |entries|
    ensures r.Err? ==> r.error.DuplicateHash? && SharedHash(entries, r.error.hash)
  {
    var byHash: map<string, nat> := map[];
    var i := 0;
    while i < |entries|
      invariant 0 <= i <= |entries| && |byHash| == i && HashIndex(entries, byHash, i)
    {
      var hash := entries[i].thisManifestHash;
      if hash in byHash {
        HashShared(entries, byHash, i);
        return Err(DuplicateHash(hash));
      }
      HashIndexed(entries, byHash, i);
      byHash := byHash[hash := i];
      i := i + 1;
    }
    return Ok(byHash);
  }

  lemma NotIndexed(entries: seq<Manifest>, byHash: map<string, nat>, hash: string)
    requires HashIndex(entries, byHash, |entries|) && hash !in byHash
    ensures !HasHash(entries, hash)
  {}

  lemma PrevShared(entries: seq<Manifest>, i: nat, j: nat)
    requires i < j < |entries| && entries[i].prevManifestHash == entries[j].prevManifestHash
    ensures SharedPrev(entries, entries[j].prevManifestHash)
  {}

  /** What the successor pass found wrong: a name outside the index, or a link shared or absent. */
  ghost predicate ChildFault(e: ChainError, entries: seq<Manifest>, byHash: map<string, nat>) {
    match e
    case TwoGenesis => SharedPrev(entries, GENESIS_PREV)
    case MissingPredecessor(prev) =>
      prev != GENESIS_PREV && prev !in byHash && exists k :: 0 <= k < |entries| && entries[k].prevManifestHash == prev
    case Fork(prev) => prev != GENESIS_PREV && SharedPrev(entries, prev)
    case NoGenesis => forall k :: 0 <= k < |entries| ==> entries[k].prevManifestHash != GENESIS_PREV
    case _ => false
  }

  lemma ChildFaultExplains(e: ChainError, entries: seq<Manifest>, byHash: map<string, nat>, anchor: Option<string>)
    requires HashIndex(entries, byHash, |entries|) && ChildFault(e, entries, byHash)
    ensures Explains(e, entries, anchor)
  {
    if e.MissingPredecessor? {
      NotIndexed(entries, byHash, e.prev);
      var k :| 0 <= k < |entries| && entries[k].prevManifestHash == e.prev;
      assert entries[k] in entries;
    }
  }

  /** The successor pass after `n` manifests. */
  ghost predicate Passed(entries: seq<Manifest>, byHash: map<string, nat>, childOf: map<string, nat>,
                         genesis: Option<nat>, n: nat)
  {
    && n <= |entries| && ChildIndex(entries, childOf, n)
    && childOf.Keys <= byHash.Keys && |childOf| == (if genesis.Some? then n - 1 else n)
    && (genesis.Some? ==> genesis.value < n && entries[genesis.value].prevManifestHash == GENESIS_PREV)
    && (genesis.None? ==> forall k :: 0 <= k < n ==> entries[k].prevManifestHash != GENESIS_PREV)
  }

  lemma PassChild(entries: seq<Manifest>, byHash: map<string, nat>, childOf: map<string, nat>,
                  genesis: Option<nat>, i: nat)
    requires i < |entries| && Passed(entries, byHash, childOf, genesis, i)
    requires var prev := entries[i].prevManifestHash; prev != GENESIS_PREV && prev in byHash && prev !in childOf
    ensures Passed(entries, byHash, childOf[entries[i].prevManifestHash := i], genesis, i + 1)
  {}

  lemma PassGenesis(entries: seq<Manifest>, byHash: map<string, nat>, childOf: map<string, nat>, i: nat)
    requires i < |entries| && Passed(entries, byHash, childOf, None, i)
    requires entries[i].prevManifestHash == GENESIS_PREV
    ensures Passed(entries, byHash, childOf, Some(i), i + 1)
  {}

  lemma PassFault(entries: seq<Manifest>, byHash: map<string, nat>, childOf: map<string, nat>,
                  genesis: Option<nat>, i: nat)
    requires i < |entries| && Passed(entries, byHash, childOf, genesis, i)
    ensures var prev := entries[i].prevManifestHash;
      && (prev == GENESIS_PREV && genesis.Some? ==> ChildFault(TwoGenesis, entries, byHash))
      && (prev != GENESIS_PREV && prev !in byHash ==> ChildFault(MissingPredecessor(prev), entries, byHash))
      && (prev != GENESIS_PREV && prev in childOf ==> ChildFault(Fork(prev), entries, byHash))
  {
    var prev := entries[i].prevManifestHash;
    if genesis.Some? && prev == GENESIS_PREV {
      PrevShared(entries, genesis.value, i);
    }
    if prev in childOf {
      PrevShared(entries, childOf[prev], i);
    }
  }

  /** One successor per predecessor, one genesis, no predecessor outside the set. */
  method IndexChildren(entries: seq<Manifest>, byHash: map<string, nat>)
      returns (r: Result<(map<string, nat>, nat), ChainError>)
    ensures r.Ok? ==> Passed(entries, byHash, r.value.0, Some(r.value.1), |entries|)
    ensures r.Err? ==> ChildFault(r.error, entries, byHash)
  {
    var childOf: map<string, nat> := map[];
    var genesis: Option<nat> := None;
    var i := 0;
    while i < |entries|
      invariant 0 <= i <= |entries| && Passed(entries, byHash, childOf, genesis, i)
    {
      PassFault(entries, byHash, childOf, genesis, i);
      var prev := entries[i].prevManifestHash;
      if prev == GENESIS_PREV {
        if genesis.Some? {
          return Err(TwoGenesis);
        }
        PassGenesis(entries, byHash, childOf, i);
        genesis := Some(i);
      } else {
        if prev !in byHash {
          return Err(MissingPredecessor(prev));
        }
        if prev in childOf {
          return Err(Fork(prev));
        }
        PassChild(entries, byHash, childOf, genesis, i);
        childOf := childOf[prev := i];
      }
      i := i + 1;
    }
    if genesis.None? {
      return Err(NoGenesis);
    }
    return Ok((childOf, genesis.value));
  }

  /** Pigeonhole: with one successor fewer than there are hashes, exactly one hash is followed by nothing. */
  lemma OneHashUnfollowed(byHash: map<string, nat>, childOf: map<string, nat>)
    requires childOf.Keys <= byHash.Keys && |childOf| + 1 == |byHash|
    ensures exists h :: h in byHash && h !in childOf
    ensures forall g, h :: g in byHash && g !in childOf && h in byHash && h !in childOf ==> g == h
  {
    var left := byHash.Keys - childOf.Keys;
    assert |left| == 1 by { assert byHash.Keys == left + childOf.Keys; }
    var h :| h in left;
    forall g | g in left ensures g == h {
      SubsetCount({h}, left);
      assert {h} == left;
    }
    forall a, b | a in byHash && a !in childOf && b in byHash && b !in childOf ensures a == b {
      assert a in left && b in left;
    }
  }

  /** The first two entries nothing follows, in listing order. One always exists, and never a second. */
  method FirstTips(entries: seq<Manifest>, byHash: map<string, nat>, childOf: map<string, nat>)
      returns (first: Option<nat>, second: Option<nat>)
    requires HashIndex(entries, byHash, |entries|)
    requires childOf.Keys <= byHash.Keys && |childOf| + 1 == |byHash|
    ensures first.Some? && second.None?
    ensures first.value < |entries| && entries[first.value].thisManifestHash !in childOf
  {
    first, second := None, None;
    var i := 0;
    while i < |entries| && first.None?
      invariant 0 <= i <= |entries|
      invariant first.Some? ==> i == first.value + 1 && entries[first.value].thisManifestHash !in childOf
      invariant first.None? ==> forall k :: 0 <= k < i ==> entries[k].thisManifestHash in childOf
    {
      if entries[i].thisManifestHash !in childOf {
        first := Some(i);
      }
      i := i + 1;
    }
    ghost var f := i;
    while i < |entries| && second.None?
      invariant f <= i <= |entries|
      invariant second.Some? ==> f <= second.value < |entries| && entries[second.value].thisManifestHash !in childOf
    {
      if entries[i].thisManifestHash !in childOf {
        second := Some(i);
      }
      i := i + 1;
    }
    OneHashUnfollowed(byHash, childOf);
    var tip :| tip in byHash && tip !in childOf;
    assert byHash[tip] < |entries|;
  }

  lemma LinkedByPasses(entries: seq<Manifest>, byHash: map<string, nat>, childOf: map<string, nat>)
    requires HashIndex(entries, byHash, |entries|) && ChildIndex(entries, childOf, |entries|)
    requires childOf.Keys <= byHash.Keys
    ensures Linked(entries)
  {
    forall m | m in entries ensures PrevKnown(entries, m) {
      if m.prevManifestHash != GENESIS_PREV {
        assert m.prevManifestHash in childOf;
        assert entries[byHash[m.prevManifestHash]] in entries;
      }
    }
  }

  /** Walk from the tip to the genesis, one step per manifest at most. */
  method WalkBack(entries: seq<Manifest>, byHash: map<string, nat>, genesis: nat, tip: nat,
                  ghost anchor: Option<string>)
      returns (r: Result<(), ChainError>)
    requires entries != [] && Linked(entries) && HashIndex(entries, byHash, |entries|)
    requires genesis < |entries| && entries[genesis].prevManifestHash == GENESIS_PREV && tip < |entries|
    requires if anchor.Some? then entries[tip].thisManifestHash == anchor.value else Unfollowed(entries[tip], entries)
    ensures r.Ok? ==> exists order :: Orders(order, entries, anchor)
    ensures r.Err? ==> Explains(r.error, entries, anchor)
  {
    var walked := 0;
    var cursor: nat := tip;
    ghost var path := [entries[tip]];
    while true
      invariant walked <= |entries| && |path| == walked + 1 && cursor < |entries|
      invariant BackWalk(path, entries) && path[0] == entries[tip] && path[walked] == entries[cursor]
      decreases |entries| - walked
    {
      walked := walked + 1;
      if walked > |entries| {
        CycleUnlessUnfollowed(path, entries, anchor);
        return Err(Cycle);
      }
      if entries[cursor].thisManifestHash == entries[genesis].thisManifestHash {
        HashNames(entries, entries[cursor], entries[genesis]);
        break;
      }
      StepsBack(entries, entries[cursor], entries[genesis]);
      var prev := entries[cursor].prevManifestHash;
      if prev !in byHash {
        NotIndexed(entries, byHash, prev);
        return Err(WalkBroke);
      }
      cursor := byHash[prev];
      path := path + [entries[cursor]];
    }
    if walked != |entries| {
      ShortWalkStrays(path, entries, anchor);
      return Err(Orphans(walked, |entries|));
    }
    FullWalkOrders(path, entries, anchor);
    return Ok(());
  }

  /** Short of the genesis, a linked set always offers one more step. */
  lemma StepsBack(entries: seq<Manifest>, m: Manifest, genesis: Manifest)
    requires Linked(entries) && m in entries && genesis in entries
    requires genesis.prevManifestHash == GENESIS_PREV && m.thisManifestHash != genesis.thisManifestHash
    ensures m.prevManifestHash != GENESIS_PREV && HasHash(entries, m.prevManifestHash)
  {
    assert PrevKnown(entries, m);
    if m.prevManifestHash == GENESIS_PREV {
      PrevNames(entries, m, genesis);
      assert false;
    }
  }

  /** The walk guard trips only on a cycle through the tip, so never when nothing follows the tip. */
  lemma CycleUnlessUnfollowed(path: seq<Manifest>, entries: seq<Manifest>, anchor: Option<string>)
    requires Linked(entries) && BackWalk(path, entries) && |path| > |entries|
    requires if anchor.Some? then path[0].thisManifestHash == anchor.value else Unfollowed(path[0], entries)
    ensures Explains(Cycle, entries, anchor)
  {
    LongWalkCycles(path, entries);
    var cyc :| CycleAmong(cyc, entries) && cyc[0] == path[0];
    assert cyc[|cyc| - 1] in entries && Follows(path[0], cyc[|cyc| - 1]);
  }
}
