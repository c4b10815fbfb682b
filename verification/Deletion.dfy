/** What the manifest chain says about deleted and overwritten sidecars, with and without an anchor. */
module Deletion {
  import opened Wrappers
  import opened Sequences
  import opened Manifests
  import opened ChainCheck

  /** A history as the recorder leaves it: linked from genesis, with distinct hashes that are not GENESIS. */
  ghost predicate Honest(chain: seq<Manifest>) {
    && DistinctHashes(chain)
    && (forall i :: 0 <= i < |chain| ==> chain[i].thisManifestHash != GENESIS_PREV)
    && (chain != [] ==> chain[0].prevManifestHash == GENESIS_PREV)
    && forall i :: 0 < i < |chain| ==> Follows(chain[i - 1], chain[i])
  }

  /** `kept` lists some of the chain's manifests, each at most once, in any order. */
  ghost predicate Remainder(kept: seq<Manifest>, chain: seq<Manifest>) {
    NoDup(kept) && forall m :: m in kept ==> m in chain
  }

  lemma PrefixHonest(chain: seq<Manifest>, k: nat)
    requires Honest(chain) && k <= |chain|
    ensures Honest(chain[..k])
    ensures k > 0 ==> SinglePath(chain[..k])
  {
    forall i | 0 < i < k ensures Follows(chain[..k][i - 1], chain[..k][i]) {
      assert Follows(chain[i - 1], chain[i]);
    }
  }

  /** Any single path made of a chain's manifests retraces the chain from its start. */
  lemma {:induction false} PathRetraces(order: seq<Manifest>, chain: seq<Manifest>, j: nat)
    requires Honest(chain) && SinglePath(order) && j < |order|
    requires forall m :: m in order ==> m in chain
    ensures j < |chain| && order[j] == chain[j]
  {
    assert order[j] in chain;
    var t :| 0 <= t < |chain| && chain[t] == order[j];
    assert t > 0 ==> Follows(chain[t - 1], chain[t]);
    if j > 0 {
      PathRetraces(order, chain, j - 1);
      assert Follows(order[j - 1], order[j]);
      HashNames(chain, chain[t - 1], chain[j - 1]);
      DistinctHashesNoDup(chain);
    }
  }

  lemma AcceptedIsPrefix(kept: seq<Manifest>, chain: seq<Manifest>, head: Option<string>)
    requires Honest(chain) && Remainder(kept, chain) && Accepted(kept, head) && kept != []
    ensures |kept| <= |chain| && multiset(kept) == multiset(chain[..|kept|])
    ensures EndsAt(chain[..|kept|], Anchor(head))
  {
    var order :| Orders(order, kept, Anchor(head));
    PermutationKeeps(order, kept);
    forall j | 0 <= j < |order| ensures j < |chain| && order[j] == chain[j] {
      PathRetraces(order, chain, j);
    }
    PathRetraces(order, chain, |order| - 1);
    assert order == chain[..|kept|];
  }

  lemma PrefixIsAccepted(kept: seq<Manifest>, chain: seq<Manifest>, k: nat, head: Option<string>)
    requires Honest(chain) && 0 < k <= |chain| && multiset(kept) == multiset(chain[..k])
    requires Anchor(head).Some? ==> Anchor(head).value == chain[k - 1].thisManifestHash
    ensures Accepted(kept, head)
  {
    PrefixHonest(chain, k);
    PermutationKeeps(chain[..k], kept);
    assert Orders(chain[..k], kept, Anchor(head));
  }

  /** Without an anchor, exactly the truncations of the history pass. */
  lemma DeletionUnanchored(kept: seq<Manifest>, chain: seq<Manifest>)
    requires Honest(chain) && Remainder(kept, chain)
    ensures Accepted(kept, None) <==> exists k :: 0 <= k <= |chain| && multiset(kept) == multiset(chain[..k])
  {
    if kept == [] {
      assert multiset(kept) == multiset(chain[..0]);
    } else {
      if Accepted(kept, None) {
        AcceptedIsPrefix(kept, chain, None);
      }
      if k :| 0 <= k <= |chain| && multiset(kept) == multiset(chain[..k]) {
        PermutationKeeps(kept, chain[..k]);
        PrefixIsAccepted(kept, chain, k, None);
      }
    }
  }

  /** Anchored to the k-th manifest, only the history up to and including it passes. */
  lemma DeletionAnchored(kept: seq<Manifest>, chain: seq<Manifest>, k: nat)
    requires Honest(chain) && Remainder(kept, chain) && k < |chain|
    ensures Accepted(kept, Some(chain[k].thisManifestHash)) <==> multiset(kept) == multiset(chain[..k + 1])
  {
    var head := Some(chain[k].thisManifestHash);
    if Accepted(kept, head) {
      AcceptedIsPrefix(kept, chain, head);
      HashNames(chain, chain[|kept| - 1], chain[k]);
      DistinctHashesNoDup(chain);
    }
    if multiset(kept) == multiset(chain[..k + 1]) {
      PrefixIsAccepted(kept, chain, k + 1, head);
    }
  }

  // ----- Any set of manifests beside an honest chain

  /** In both, a hash determines the predecessor. */
  ghost predicate PrevsAgree(order: seq<Manifest>, chain: seq<Manifest>) {
    forall x, y :: 0 <= x < |order| && 0 <= y < |chain| && order[x].thisManifestHash == chain[y].thisManifestHash
      ==> order[x].prevManifestHash == chain[y].prevManifestHash
  }

  /** Walking back from a shared hash, path and chain name the same hashes step by step. */
  lemma {:induction false} PathNamesChain(order: seq<Manifest>, chain: seq<Manifest>, i: nat, j: nat)
    requires SinglePath(order) && Honest(chain) && PrevsAgree(order, chain) && i < |order| && j < |chain|
    requires order[i].thisManifestHash == chain[j].thisManifestHash
    ensures i == j && forall x :: 0 <= x <= i ==> order[x].thisManifestHash == chain[x].thisManifestHash
    decreases i
  {
    assert order[i].prevManifestHash == chain[j].prevManifestHash;
    if j > 0 {
      assert Follows(chain[j - 1], chain[j]);
    }
    if i > 0 {
      assert Follows(order[i - 1], order[i]);
      PathNamesChain(order, chain, i - 1, j - 1);
    }
  }

  ghost function Hashes(ms: seq<Manifest>): set<string> {
    set m | m in ms :: m.thisManifestHash
  }

  /** `m` starts a chain, or follows one of these. */
  ghost predicate Hangs(m: Manifest, chain: seq<Manifest>) {
    || m.prevManifestHash == GENESIS_PREV
    || exists i :: 0 <= i < |chain| && chain[i].thisManifestHash == m.prevManifestHash
  }

  /** Manifests that an honest host may have placed: on its chain, or hanging on it. */
  ghost predicate Fits(entries: seq<Manifest>, chain: seq<Manifest>) {
    && Honest(chain) && DistinctHashes(entries) && PrevsAgree(entries, chain)
    && forall m {:trigger Hangs(m, chain)} :: m in entries ==> Hangs(m, chain) && m.thisManifestHash != GENESIS_PREV
  }

  ghost function Named(ms: seq<Manifest>, hash: string): (m: Manifest)
    requires hash in Hashes(ms)
    ensures m in ms && m.thisManifestHash == hash
  {
    var m :| m in ms && m.thisManifestHash == hash;
    m
  }

  /** A set with distinct hashes can be listed in any order its hashes are given in. */
  lemma ListByHash(entries: seq<Manifest>, names: seq<string>) returns (order: seq<Manifest>)
    requires DistinctHashes(entries) && NoDup(names) && Hashes(entries) == Elements(names)
    ensures |order| == |names| && forall i :: 0 <= i < |names| ==> order[i].thisManifestHash == names[i]
    ensures multiset(order) == multiset(entries) && forall m :: m in order <==> m in entries
  {
    forall i | 0 <= i < |names| ensures names[i] in Hashes(entries) {
      assert names[i] in Elements(names);
    }
    order := seq(|names|, i requires 0 <= i < |names| => Named(entries, names[i]));
    forall m ensures m in order <==> m in entries {
      if m in entries {
        assert m.thisManifestHash in Elements(names);
        var i :| 0 <= i < |names| && names[i] == m.thisManifestHash;
        HashNames(entries, order[i], m);
      }
    }
    DistinctHashesNoDup(entries);
    assert NoDup(order);
    SameElementsPermute(order, entries);
  }

  function HashList(ms: seq<Manifest>): (names: seq<string>)
    ensures |names| == |ms| && forall i :: 0 <= i < |ms| ==> names[i] == ms[i].thisManifestHash
  {
    seq(|ms|, i requires 0 <= i < |ms| => ms[i].thisManifestHash)
  }

  lemma HashListNames(ms: seq<Manifest>)
    ensures Elements(HashList(ms)) == Hashes(ms)
    ensures DistinctHashes(ms) ==> NoDup(HashList(ms))
  {
    forall h ensures h in Elements(HashList(ms)) <==> h in Hashes(ms) {
      if m :| m in ms && m.thisManifestHash == h {
        var i :| 0 <= i < |ms| && ms[i] == m;
        assert HashList(ms)[i] == h;
      }
      if i :| 0 <= i < |ms| && HashList(ms)[i] == h {
        assert ms[i] in ms;
      }
    }
  }

  lemma SameHashes(a: seq<Manifest>, b: seq<Manifest>)
    requires |a| == |b| && forall i :: 0 <= i < |a| ==> a[i].thisManifestHash == b[i].thisManifestHash
    ensures Hashes(a) == Hashes(b)
  {
    HashListNames(a);
    HashListNames(b);
    assert HashList(a) == HashList(b);
  }

  lemma OrderAgrees(order: seq<Manifest>, entries: seq<Manifest>, chain: seq<Manifest>)
    requires Fits(entries, chain) && multiset(order) == multiset(entries)
    ensures PrevsAgree(order, chain) && Hashes(order) == Hashes(entries) && |order| == |entries|
    ensures forall m :: m in order <==> m in entries
  {
    PermutationKeeps(order, entries);
    forall x, y | 0 <= x < |order| && 0 <= y < |chain| && order[x].thisManifestHash == chain[y].thisManifestHash
      ensures order[x].prevManifestHash == chain[y].prevManifestHash
    {
      assert order[x] in entries;
      var z :| 0 <= z < |entries| && entries[z] == order[x];
    }
  }

  /** Listed by the chain's own hashes, such a set is a path as long as the chain's first part. */
  lemma ChainOrder(entries: seq<Manifest>, chain: seq<Manifest>, c: nat) returns (order: seq<Manifest>)
    requires Fits(entries, chain) && 0 < c <= |chain| && Hashes(entries) == Hashes(chain[..c])
    ensures multiset(order) == multiset(entries) && SinglePath(order)
    ensures |order| == c && order[c - 1].thisManifestHash == chain[c - 1].thisManifestHash
  {
    HashListNames(chain[..c]);
    order := ListByHash(entries, HashList(chain[..c]));
    OrderAgrees(order, entries, chain);
    forall i | 0 <= i < c
      ensures order[i].thisManifestHash == chain[i].thisManifestHash
      ensures order[i].prevManifestHash == chain[i].prevManifestHash
    {
      assert chain[..c][i] == chain[i];
    }
    forall i | 0 < i < |order| ensures Follows(order[i - 1], order[i]) {
      assert Follows(chain[i - 1], chain[i]);
    }
  }

  /**
   Anchored to the c-th manifest of the chain, a set passes exactly when its hashes are those of the chain up
   to it: nothing is missing, and nothing else is there.
   */
  lemma AnchoredListing(entries: seq<Manifest>, chain: seq<Manifest>, c: nat)
    requires Fits(entries, chain) && 0 < c <= |chain|
    ensures Accepted(entries, Some(chain[c - 1].thisManifestHash)) <==> Hashes(entries) == Hashes(chain[..c])
  {
    var head := Some(chain[c - 1].thisManifestHash);
    assert Anchor(head) == head;
    if Hashes(entries) == Hashes(chain[..c]) {
      assert chain[..c][0] in chain[..c] && chain[..c][0].thisManifestHash in Hashes(entries);
      var order := ChainOrder(entries, chain, c);
      assert Orders(order, entries, Anchor(head));
    }
    if Accepted(entries, head) {
      var order: seq<Manifest> :| Orders(order, entries, Anchor(head));
      OrderAgrees(order, entries, chain);
      PathNamesChain(order, chain, |order| - 1, c - 1);
      SameHashes(order, chain[..c]);
    }
  }

  /** `o` comes next behind the first `c` of the chain, and is none of them. */
  ghost predicate NextBehind(o: Manifest, chain: seq<Manifest>, c: nat) {
    && c <= |chain| && o.thisManifestHash !in Hashes(chain[..c])
    && o.prevManifestHash == if c == 0 then GENESIS_PREV else chain[c - 1].thisManifestHash
  }

  /** The set is the chain's first `c` manifests, or those and one that comes next behind them. */
  ghost predicate LinesUpAt(entries: seq<Manifest>, chain: seq<Manifest>, c: nat)
    requires c <= |chain|
  {
    || Hashes(entries) == Hashes(chain[..c])
    || exists o {:trigger NextBehind(o, chain, c)} ::
         o in entries && NextBehind(o, chain, c) && Hashes(entries) == Hashes(chain[..c]) + {o.thisManifestHash}
  }

  ghost predicate LinesUp(entries: seq<Manifest>, chain: seq<Manifest>) {
    exists c: nat {:trigger LinesUpAt(entries, chain, c)} :: c <= |chain| && LinesUpAt(entries, chain, c)
  }

  lemma AcceptedUnanchored(entries: seq<Manifest>, order: seq<Manifest>, anchor: Option<string>)
    requires Orders(order, entries, anchor)
    ensures Accepted(entries, None)
  {
    assert Orders(order, entries, Anchor(None));
  }

  /** Listed by hash: the chain's first part, then the one behind it. */
  lemma BehindOrder(entries: seq<Manifest>, chain: seq<Manifest>, c: nat, o: Manifest) returns (order: seq<Manifest>)
    requires Fits(entries, chain) && c <= |chain| && o in entries && NextBehind(o, chain, c)
    requires Hashes(entries) == Hashes(chain[..c]) + {o.thisManifestHash}
    ensures multiset(order) == multiset(entries) && DistinctHashes(order) && |order| == c + 1 && order[c] == o
    ensures PrevsAgree(order, chain)
    ensures forall i :: 0 <= i < c ==> order[i].thisManifestHash == chain[i].thisManifestHash
  {
    var names := HashList(chain[..c]) + [o.thisManifestHash];
    HashListNames(chain[..c]);
    assert Elements(names) == Elements(HashList(chain[..c])) + {o.thisManifestHash};
    NoDupConcat(HashList(chain[..c]), [o.thisManifestHash]);
    order := ListByHash(entries, names);
    OrderAgrees(order, entries, chain);
    HashNames(entries, order[c], o);
    forall i | 0 <= i < c ensures order[i].thisManifestHash == chain[i].thisManifestHash {
      assert names[i] == chain[..c][i].thisManifestHash;
    }
  }

  lemma BehindIsPath(order: seq<Manifest>, chain: seq<Manifest>, c: nat)
    requires Honest(chain) && PrevsAgree(order, chain) && DistinctHashes(order) && |order| == c + 1
    requires c <= |chain| && forall i :: 0 <= i < c ==> order[i].thisManifestHash == chain[i].thisManifestHash
    requires order[c].prevManifestHash == if c == 0 then GENESIS_PREV else chain[c - 1].thisManifestHash
    ensures SinglePath(order)
  {
    forall i | 0 < i < |order| ensures Follows(order[i - 1], order[i]) {
      assert i < c ==> Follows(chain[i - 1], chain[i]);
    }
  }

  lemma OneBehindPasses(entries: seq<Manifest>, chain: seq<Manifest>, c: nat, o: Manifest)
    requires Fits(entries, chain) && c <= |chain| && o in entries && NextBehind(o, chain, c)
    requires Hashes(entries) == Hashes(chain[..c]) + {o.thisManifestHash}
    ensures Accepted(entries, None)
  {
    var order := BehindOrder(entries, chain, c, o);
    BehindIsPath(order, chain, c);
    AcceptedUnanchored(entries, order, None);
  }

  /** Of a path in such a set, all but the last retraces the chain. */
  lemma AllButLast(entries: seq<Manifest>, chain: seq<Manifest>, order: seq<Manifest>)
    requires Fits(entries, chain) && Orders(order, entries, None)
    ensures var n := |order| - 1;
      && n <= |chain| && Hashes(order[..n]) == Hashes(chain[..n])
      && order[n].prevManifestHash == if n == 0 then GENESIS_PREV else chain[n - 1].thisManifestHash
  {
    OrderAgrees(order, entries, chain);
    var n := |order| - 1;
    assert Hangs(order[n], chain);
    if n > 0 {
      assert Follows(order[n - 1], order[n]);
      var y :| 0 <= y < |chain| && chain[y].thisManifestHash == order[n].prevManifestHash;
      PathNamesChain(order, chain, n - 1, y);
    }
    SameHashes(order[..n], chain[..n]);
  }

  lemma HashesOfLast(order: seq<Manifest>)
    requires order != []
    ensures Hashes(order) == Hashes(order[..|order| - 1]) + {order[|order| - 1].thisManifestHash}
  {
    assert order == order[..|order| - 1] + [order[|order| - 1]];
  }

  lemma PathLinesUp(entries: seq<Manifest>, chain: seq<Manifest>, order: seq<Manifest>)
    requires Fits(entries, chain) && Orders(order, entries, None)
    ensures LinesUp(entries, chain)
  {
    var n := |order| - 1;
    var o := order[n];
    OrderAgrees(order, entries, chain);
    AllButLast(entries, chain, order);
    HashesOfLast(order);
    if x :| 0 <= x < |chain| && chain[x].thisManifestHash == o.thisManifestHash {
      PathNamesChain(order, chain, n, x);
      SameHashes(order, chain[..n + 1]);
      assert LinesUpAt(entries, chain, n + 1);
    } else {
      assert NextBehind(o, chain, n);
      assert LinesUpAt(entries, chain, n);
    }
  }

  /** Without an anchor, a set passes exactly when it lines up with the chain, at any length. */
  lemma UnanchoredListing(entries: seq<Manifest>, chain: seq<Manifest>)
    requires Fits(entries, chain)
    ensures Accepted(entries, None) <==> LinesUp(entries, chain)
  {
    if Accepted(entries, None) {
      if entries == [] {
        assert LinesUpAt(entries, chain, 0);
      } else {
        var order: seq<Manifest> :| Orders(order, entries, Anchor(None));
        PathLinesUp(entries, chain, order);
      }
    }
    if LinesUp(entries, chain) {
      var c: nat :| c <= |chain| && LinesUpAt(entries, chain, c);
      if Hashes(entries) == Hashes(chain[..c]) {
        if c == 0 {
          assert entries != [] ==> entries[0].thisManifestHash in Hashes(entries);
        } else {
          var order := ChainOrder(entries, chain, c);
          AcceptedUnanchored(entries, order, None);
        }
      } else {
        var o :| o in entries && NextBehind(o, chain, c)
          && Hashes(entries) == Hashes(chain[..c]) + {o.thisManifestHash};
        OneBehindPasses(entries, chain, c, o);
      }
    }
  }
}
