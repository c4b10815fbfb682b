/**
 The chain check as a whole against an edited host: what passes is an earlier state of the same host. And
 what the check cannot see: a log without signed lines, and a head that cannot be read.
 */
module Rollback {
  import opened Wrappers
  import opened Sequences
  import opened Manifests
  import opened Text
  import opened Canonical
  import opened Signing
  import opened ChainCheck
  import opened Deletion
  import opened ChainLog
  import opened ChainDir
  import opened History
  import opened Quiescence
  import opened Tamper
  import opened Legacy

  // ----- Manifests anchored to a hash of the host's own chain

  lemma VerifiedHash(k: Suite, m: Manifest)
    requires Sound(k) && Verify(k, m).Ok?
    ensures Lowered(m.thisManifestHash) == ManifestHash(k, m)
  {
    VerifyMeans(k, m);
  }

  /** A verified manifest that claims an honest manifest's hash has its signed content. */
  lemma SameClaim(k: Suite, ms: seq<Manifest>, a: Manifest, b: Manifest)
    requires Sound(k) && HashesTell(k, ms) && a in ms && b in ms
    requires Verify(k, a).Ok? && Hashed(k, b) && a.thisManifestHash == b.thisManifestHash
    ensures SameSigned(a, b)
  {
    VerifiedHash(k, a);
    LoweredDigest(b.thisManifestHash);
    assert IsDigest(ManifestHash(k, b));
    assert CanonicalText(a) in Texts(ms) && CanonicalText(b) in Texts(ms);
    CanonicalInjective(a, b);
  }

  predicate SameClaims(a: Manifest, b: Manifest) {
    a.thisManifestHash == b.thisManifestHash && SameSigned(a, b)
  }

  /** `entries` are, in some order, manifests with the hashes and the signed contents of `honest`. */
  ghost predicate Copies(entries: seq<Manifest>, honest: seq<Manifest>) {
    exists order: seq<Manifest> :: multiset(order) == multiset(entries) && Copy(order, honest)
  }

  ghost predicate Copy(order: seq<Manifest>, honest: seq<Manifest>) {
    |order| == |honest| && forall i :: 0 <= i < |order| ==> SameClaims(order[i], honest[i])
  }

  ghost predicate AllVerify(k: Suite, ms: seq<Manifest>) {
    forall m {:trigger Verify(k, m)} :: m in ms ==> Verify(k, m).Ok?
  }

  ghost predicate AllHashed(k: Suite, ms: seq<Manifest>) {
    forall m {:trigger Hashed(k, m)} :: m in ms ==> Hashed(k, m)
  }

  ghost predicate HashesClaim(order: seq<Manifest>, chain: seq<Manifest>) {
    forall x, y :: 0 <= x < |order| && 0 <= y < |chain| && order[x].thisManifestHash == chain[y].thisManifestHash
      ==> SameClaims(order[x], chain[y])
  }

  lemma ClaimsAgree(k: Suite, order: seq<Manifest>, chain: seq<Manifest>)
    requires Sound(k) && HashesTell(k, order + chain) && AllVerify(k, order) && AllHashed(k, chain)
    ensures PrevsAgree(order, chain) && HashesClaim(order, chain)
  {
    forall x, y | 0 <= x < |order| && 0 <= y < |chain| && order[x].thisManifestHash == chain[y].thisManifestHash
      ensures SameClaims(order[x], chain[y])
    {
      assert Verify(k, order[x]).Ok? && Hashed(k, chain[y]);
      SameClaim(k, order + chain, order[x], chain[y]);
    }
  }

  lemma OrderCopies(order: seq<Manifest>, chain: seq<Manifest>, j: nat)
    requires SinglePath(order) && Honest(chain) && PrevsAgree(order, chain) && HashesClaim(order, chain)
    requires j < |chain| && order[|order| - 1].thisManifestHash == chain[j].thisManifestHash
    ensures Copy(order, chain[..j + 1])
  {
    PathNamesChain(order, chain, |order| - 1, j);
    forall i | 0 <= i < |order| ensures SameClaims(order[i], chain[..j + 1][i]) {
      assert order[i].thisManifestHash == chain[i].thisManifestHash;
    }
  }

  lemma ClaimsAgreeIn(k: Suite, entries: seq<Manifest>, order: seq<Manifest>, chain: seq<Manifest>)
    requires Sound(k) && HashesTell(k, entries + chain) && AllVerify(k, entries) && AllHashed(k, chain)
    requires forall m :: m in order ==> m in entries
    ensures PrevsAgree(order, chain) && HashesClaim(order, chain)
  {
    HashesTellPart(k, entries + chain, order + chain);
    ClaimsAgree(k, order, chain);
  }

  /**
   Verified manifests accepted against the hash of the host's j-th manifest are the host's first j + 1
   manifests, on every signed field. This does not even rely on signatures.
   */
  lemma AnchoredAreCopies(k: Suite, entries: seq<Manifest>, chain: seq<Manifest>, j: nat)
    requires Sound(k) && Honest(chain) && AllHashed(k, chain) && j < |chain|
    requires HashesTell(k, entries + chain) && AllVerify(k, entries)
    requires Accepted(entries, Some(chain[j].thisManifestHash))
    ensures Copies(entries, chain[..j + 1])
  {
    var anchor := Some(chain[j].thisManifestHash);
    assert Anchor(anchor) == anchor && entries != [];
    var order :| Orders(order, entries, anchor);
    PermutationKeeps(order, entries);
    ClaimsAgreeIn(k, entries, order, chain);
    OrderCopies(order, chain, j);
  }

  // ----- Log, head and manifests together

  /** The position in the host's chain that the `n`-th line of its log names. */
  function LineAt(w: World, n: nat): nat
    requires 0 < n <= |w.logged|
  {
    w.logged[n - 1].at
  }

  /** An earlier state of the host: the first `n` signed lines, and the manifests up to the one the last names. */
  ghost predicate EarlierState(w: World, v: LogVerification, entries: seq<Manifest>, n: nat) {
    && 0 < n <= |w.logged| && v.signedLines == n && Prefixes(v, w.scan.seen.entries)
    && LineAt(w, n) < |w.chain| && Copies(entries, w.chain[..LineAt(w, n) + 1])
  }

  lemma TipIsLogged(w: World, v: LogVerification)
    requires LinesMatch(w.scan.seen.entries, w.logged, w.chain) && Prefixes(v, w.scan.seen.entries)
    requires v.signedLines > 0
    ensures v.signedLines <= |w.logged| && LineAt(w, v.signedLines) < |w.chain|
    ensures TipHash(v) == Some(w.chain[LineAt(w, v.signedLines)].thisManifestHash)
  {
    var n := v.signedLines;
    assert v.entries[|v.entries| - 1] == SignedPart(v)[n - 1];
    assert SignedPart(v)[n - 1] == w.scan.seen.entries[n - 1];
  }

  /** What `Passes` says of a readable head beside a log that claims a tip. */
  lemma PassingHead(k: Suite, d: Disk, entries: seq<Manifest>, v: LogVerification, tip: string)
    requires Passes(k, d, entries) && HeadValue(d.head).Ok? && LogVerdict(k, d.log).value.seen == v
    requires TipHash(v) == Some(tip)
    ensures HeadValue(d.head) == Ok(tip) && Accepted(entries, Some(tip))
  {}

  lemma PassesAsEarlier(k: Suite, w: World, v: LogVerification, entries: seq<Manifest>)
    requires Sound(k) && Chained(k, w) && LinesMatch(w.scan.seen.entries, w.logged, w.chain)
    requires Prefixes(v, w.scan.seen.entries) && v.signedLines > 0 && TipHash(v).Some?
    requires Accepted(entries, Some(TipHash(v).value))
    requires AllVerify(k, entries) && HashesTell(k, entries + w.chain)
    ensures EarlierState(w, v, entries, v.signedLines) && Honest(w.chain)
  {
    TipIsLogged(w, v);
    HashesTellPart(k, entries + w.chain, w.chain);
    ChainIsHonest(k, w);
    AnchoredAreCopies(k, entries, w.chain, LineAt(w, v.signedLines));
  }

  /**
   Only earlier states pass. Whatever was done to log, head and manifests, if the check passes with a
   readable head and at least one signed line, what it passed is a state the host was in before.
   */
  lemma OnlyEarlierStates(k: Suite, b: Build, ts: seq<Txn>, d: Disk, entries: seq<Manifest>, drafts: seq<Manifest>)
    requires Sound(k) && ValidJobs(ts) && LogText(d.log).Ok?
    requires Trusted(k, Replay(k, b, ts), LogText(d.log).value, drafts)
    requires Passes(k, d, entries) && HeadValue(d.head).Ok? && LogVerdict(k, d.log).value.seen.signedLines > 0
    requires AllVerify(k, entries) && HashesTell(k, entries + Replay(k, b, ts).chain)
    ensures var v := LogVerdict(k, d.log).value.seen; EarlierState(Replay(k, b, ts), v, entries, v.signedLines)
  {
    var w, v := Replay(k, b, ts), LogVerdict(k, d.log).value.seen;
    LogTamperEvident(k, b, ts, LogText(d.log).value, drafts);
    ReplaySane(k, b, ts);
    TipIsLogged(w, v);
    PassingHead(k, d, entries, v, TipHash(v).value);
    PassesAsEarlier(k, w, v, entries);
  }

  lemma AllOfIt(w: World, v: LogVerification, entries: seq<Manifest>)
    requires LinesMatch(w.scan.seen.entries, w.logged, w.chain) && AtTip(w) && Honest(w.chain)
    requires EarlierState(w, v, entries, v.signedLines)
    requires w.chain[LineAt(w, v.signedLines)].thisManifestHash == w.chain[|w.chain| - 1].thisManifestHash
    ensures SignedPart(v) == w.scan.seen.entries && Copies(entries, w.chain)
  {
    var n, last := v.signedLines, |w.logged| - 1;
    assert LineAt(w, n) == w.logged[last].at;
    assert w.chain[..|w.chain|] == w.chain && w.scan.seen.entries[..|w.logged|] == w.scan.seen.entries;
  }

  /** With `head.hash` left alone after a logged commit, what passes is all of it: every line, every manifest. */
  lemma NothingCutOff(k: Suite, b: Build, ts: seq<Txn>, d: Disk, entries: seq<Manifest>, drafts: seq<Manifest>)
    requires Sound(k) && ValidJobs(ts) && LogText(d.log).Ok? && LastCommitLogged(ts)
    requires Trusted(k, Replay(k, b, ts), LogText(d.log).value, drafts)
    requires Passes(k, d, entries) && d.head == Replay(k, b, ts).disk.head
    requires LogVerdict(k, d.log).value.seen.signedLines > 0
    requires AllVerify(k, entries) && HashesTell(k, entries + Replay(k, b, ts).chain)
    ensures var w, v := Replay(k, b, ts), LogVerdict(k, d.log).value.seen;
      SignedPart(v) == w.scan.seen.entries && Copies(entries, w.chain)
  {
    var w, v := Replay(k, b, ts), LogVerdict(k, d.log).value.seen;
    ReplaySane(k, b, ts);
    ReplayCounts(k, b, ts);
    HeadReads(k, w);
    OnlyEarlierStates(k, b, ts, d, entries, drafts);
    TipIsLogged(w, v);
    PassingHead(k, d, entries, v, TipHash(v).value);
    PassesAsEarlier(k, w, v, entries);
    AllOfIt(w, v, entries);
  }

  /** The line that names the last manifest is the last line. */
  lemma LastLine(w: World, n: nat)
    requires LinesMatch(w.scan.seen.entries, w.logged, w.chain) && AtTip(w) && Honest(w.chain) && 0 < n <= |w.logged|
    ensures w.chain[LineAt(w, n)].thisManifestHash == w.chain[|w.chain| - 1].thisManifestHash <==> n == |w.logged|
  {
    assert LineAt(w, |w.logged|) == |w.chain| - 1;
  }

  lemma AllLines(entries: seq<LogEntry>, n: nat)
    requires n <= |entries|
    ensures entries[..n] == entries <==> n == |entries|
  {
    assert |entries[..n]| == n;
  }

  /**
   The log alone, whatever has become of the manifests: with `head.hash` left alone after a logged commit, a
   log with a signed line agrees with it if and only if every line is there.
   */
  lemma NoLineCutOff(k: Suite, b: Build, ts: seq<Txn>, content: string, drafts: seq<Manifest>)
    requires Sound(k) && ValidJobs(ts) && LastCommitLogged(ts) && HashesTell(k, Replay(k, b, ts).chain)
    requires Trusted(k, Replay(k, b, ts), content, drafts) && ReadLog(k, content).value.seen.signedLines > 0
    ensures var w, v := Replay(k, b, ts), ReadLog(k, content).value.seen;
      && TipHash(v).Some?
      && (HeadValue(w.disk.head) == Ok(TipHash(v).value) <==> SignedPart(v) == w.scan.seen.entries)
  {
    var w, v := Replay(k, b, ts), ReadLog(k, content).value.seen;
    LogTamperEvident(k, b, ts, content, drafts);
    ReplaySane(k, b, ts);
    ReplayCounts(k, b, ts);
    ChainIsHonest(k, w);
    HeadReads(k, w);
    TipIsLogged(w, v);
    LastLine(w, v.signedLines);
    AllLines(w.scan.seen.entries, v.signedLines);
  }

  lemma CopyIsPath(order: seq<Manifest>, honest: seq<Manifest>)
    requires Copy(order, honest) && SinglePath(honest)
    ensures SinglePath(order) && order[|order| - 1].thisManifestHash == honest[|honest| - 1].thisManifestHash
  {
    forall i | 0 <= i < |order|
      ensures order[i].thisManifestHash == honest[i].thisManifestHash
      ensures order[i].prevManifestHash == honest[i].prevManifestHash
    {
      assert SameClaims(order[i], honest[i]);
    }
    forall i | 0 < i < |order| ensures Follows(order[i - 1], order[i]) {
      assert Follows(honest[i - 1], honest[i]);
    }
  }

  lemma CopyIsAccepted(order: seq<Manifest>, entries: seq<Manifest>, honest: seq<Manifest>, hash: string)
    requires Copy(order, honest) && SinglePath(honest) && multiset(order) == multiset(entries)
    requires hash == honest[|honest| - 1].thisManifestHash
    ensures Accepted(entries, Some(hash))
  {
    PermutationKeeps(order, entries);
    CopyIsPath(order, honest);
    assert Orders(order, entries, Anchor(Some(hash)));
  }

  /** Copies of the first part of an honest chain are accepted, like the originals. */
  lemma CopiesAreAccepted(entries: seq<Manifest>, chain: seq<Manifest>, j: nat)
    requires Honest(chain) && j < |chain| && Copies(entries, chain[..j + 1])
    ensures Accepted(entries, Some(chain[j].thisManifestHash))
  {
    var order: seq<Manifest> :| multiset(order) == multiset(entries) && Copy(order, chain[..j + 1]);
    PrefixHonest(chain, j + 1);
    CopyIsAccepted(order, entries, chain[..j + 1], chain[j].thisManifestHash);
  }

  lemma AgreementPasses(k: Suite, d: Disk, entries: seq<Manifest>, v: LogVerification, tip: string)
    requires LogVerdict(k, d.log).Ok? && LogVerdict(k, d.log).value.seen == v
    requires TipHash(v) == Some(tip) && HeadValue(d.head) == Ok(tip) && Accepted(entries, Some(tip))
    ensures Passes(k, d, entries)
  {}

  lemma EarlierAccepted(w: World, entries: seq<Manifest>, v: LogVerification)
    requires LinesMatch(w.scan.seen.entries, w.logged, w.chain) && Honest(w.chain)
    requires EarlierState(w, v, entries, v.signedLines)
    ensures var tip := w.chain[LineAt(w, v.signedLines)].thisManifestHash;
      TipHash(v) == Some(tip) && Accepted(entries, Some(tip))
  {
    TipIsLogged(w, v);
    CopiesAreAccepted(entries, w.chain, LineAt(w, v.signedLines));
  }

  /**
   The exact condition. Over a log that verifies and has a signed line, the check passes if and only if log
   and manifests are an earlier state of the host and `head.hash` names the manifest of its last line.
   */
  lemma PassesExactlyEarlier(k: Suite, b: Build, ts: seq<Txn>, d: Disk, entries: seq<Manifest>, drafts: seq<Manifest>)
    requires Sound(k) && ValidJobs(ts) && LogText(d.log).Ok?
    requires Trusted(k, Replay(k, b, ts), LogText(d.log).value, drafts)
    requires HeadValue(d.head).Ok? && LogVerdict(k, d.log).value.seen.signedLines > 0
    requires AllVerify(k, entries) && HashesTell(k, entries + Replay(k, b, ts).chain)
    ensures var w, v := Replay(k, b, ts), LogVerdict(k, d.log).value.seen;
      Passes(k, d, entries) <==>
        && EarlierState(w, v, entries, v.signedLines)
        && HeadValue(d.head).value == w.chain[LineAt(w, v.signedLines)].thisManifestHash
  {
    var w, v := Replay(k, b, ts), LogVerdict(k, d.log).value.seen;
    ReplaySane(k, b, ts);
    HashesTellPart(k, entries + w.chain, w.chain);
    ChainIsHonest(k, w);
    LogTamperEvident(k, b, ts, LogText(d.log).value, drafts);
    TipIsLogged(w, v);
    if Passes(k, d, entries) {
      OnlyEarlierStates(k, b, ts, d, entries, drafts);
      PassingHead(k, d, entries, v, TipHash(v).value);
    } else if EarlierState(w, v, entries, v.signedLines)
        && HeadValue(d.head).value == w.chain[LineAt(w, v.signedLines)].thisManifestHash {
      EarlierAccepted(w, entries, v);
      AgreementPasses(k, d, entries, v, HeadValue(d.head).value);
    }
  }

  // ----- What the check cannot see

  /** A log of one unsigned line that names this manifest hash. */
  function UnsignedLog(hash: string): string {
    UnsignedText([Record.Record("1970-01-01T00:00:00Z", "u", "s", 0, hash)])
  }

  /** Anyone can write a log that verifies and claims any tip, without a signature. */
  lemma UnsignedLogReads(k: Suite, hash: string)
    requires IsWord(hash)
    ensures ReadLog(k, UnsignedLog(hash)).Ok?
    ensures var v := ReadLog(k, UnsignedLog(hash)).value.seen; v.signedLines == 0 && TipHash(v) == Some(hash)
  {
    UnsignedReads(k, [Record.Record("1970-01-01T00:00:00Z", "u", "s", 0, hash)]);
  }

  lemma HexIsWord(s: string)
    requires IsHexText(s)
    ensures IsWord(s)
  {}

  /** With the signed log replaced by one unsigned line, or removed, only the manifests are still checked. */
  lemma StrippedLogPasses(k: Suite, d: Disk, entries: seq<Manifest>)
    requires d.head.Holds? && HeadValue(d.head).Ok?
    ensures var h := HeadValue(d.head).value;
      && (Passes(k, d.(log := Holds(UnsignedLog(h))), entries) <==> Accepted(entries, Some(h)))
      && (Passes(k, d.(log := Absent), entries) <==> Accepted(entries, Some(h)))
  {
    HexIsWord(HeadValue(d.head).value);
    UnsignedLogReads(k, HeadValue(d.head).value);
    assert Lines("") == [];
  }

  /** Placed manifests with hashes of their own fit the chain, whether they were committed or not. */
  lemma PlacedFit(k: Suite, w: World, kept: seq<Manifest>)
    requires Kept(k, w) && HashesTell(k, w.placed) && DistinctHashes(kept) && forall m :: m in kept ==> m in w.placed
    ensures Fits(kept, w.chain)
  {
    ChainTells(k, w, w.placed);
    forall m | m in kept ensures Hashed(k, m) && Hangs(m, w.chain) && m.thisManifestHash != GENESIS_PREV {
      PlacedHangs(k, w, m);
      HashTellsFields(k, w.placed, m, m);
    }
    forall x, y | 0 <= x < |kept| && 0 <= y < |w.chain| && kept[x].thisManifestHash == w.chain[y].thisManifestHash
      ensures kept[x].prevManifestHash == w.chain[y].prevManifestHash
    {
      assert kept[x] in kept && Hashed(k, w.chain[y]);
      HashTellsFields(k, w.placed, kept[x], w.chain[y]);
    }
  }

  /** What a verifier without an anchor makes of these manifests: the log, if it is there, verifies. */
  predicate NoAnchor(k: Suite, d: Disk) {
    (HeadValue(d.head).Err? && LogVerdict(k, d.log).Ok?) || (d.head.Absent? && d.log.Absent?)
  }

  lemma PassesUnanchored(k: Suite, d: Disk, kept: seq<Manifest>)
    requires NoAnchor(k, d)
    ensures Passes(k, d, kept) <==> Accepted(kept, None)
  {
    assert Lines("") == [];
    assert Anchor(Some(GENESIS_PREV)) == Anchor(None);
    assert Accepted(kept, Some(GENESIS_PREV)) <==> Accepted(kept, None);
  }

  lemma AcceptedDistinct(entries: seq<Manifest>, head: Option<string>)
    requires Accepted(entries, head)
    ensures DistinctHashes(entries)
  {
    if entries != [] {
      var order :| Orders(order, entries, Anchor(head));
      forall i, j | 0 <= i < j < |entries| ensures entries[i].thisManifestHash != entries[j].thisManifestHash {
        TwoLinksSameElement(order, entries, i, j);
      }
    }
  }

  /**
   Where `head.hash` cannot be read, or it and the log are gone: of all sidecars ever placed, orphans included,
   exactly those sets pass that are a first part of the chain, or such a part and one manifest next behind it.
   Of the committed ones, deletions are noticed exactly when they are not the newest.
   */
  lemma LostHeadHidesTruncation(k: Suite, b: Build, ts: seq<Txn>, d: Disk, kept: seq<Manifest>)
    requires Sound(k) && ValidJobs(ts) && HashesTell(k, Replay(k, b, ts).placed) && NoAnchor(k, d)
    requires forall m :: m in kept ==> m in Replay(k, b, ts).placed
    ensures Passes(k, d, kept) <==> DistinctHashes(kept) && LinesUp(kept, Replay(k, b, ts).chain)
    ensures var chain := Replay(k, b, ts).chain;
      Remainder(kept, chain) ==>
        (Passes(k, d, kept) <==> exists n :: 0 <= n <= |chain| && multiset(kept) == multiset(chain[..n]))
  {
    var w := Replay(k, b, ts);
    ReplaySane(k, b, ts);
    ChainTells(k, w, w.placed);
    PassesUnanchored(k, d, kept);
    if Accepted(kept, None) {
      AcceptedDistinct(kept, None);
    }
    if DistinctHashes(kept) {
      PlacedFit(k, w, kept);
      UnanchoredListing(kept, w.chain);
    }
    if Remainder(kept, w.chain) {
      DeletionUnanchored(kept, w.chain);
    }
  }

  // ----- Manifests without an anchor: signatures carry the proof

  /** No manifest here bears a forged signature: the key signed its hash, for a manifest or a log line. */
  ghost predicate ManifestsUnforged(k: Suite, entries: seq<Manifest>, rs: seq<Record>, signed: seq<Manifest>) {
    forall m {:trigger Verify(k, m)} :: m in entries && k.accepts(ManifestHash(k, m), m.signature)
      ==> KeySigned(k, rs, signed, ManifestHash(k, m))
  }

  /** The host's log lines and manifests, and the manifests under examination: no digests collide. */
  ghost predicate AllTell(k: Suite, rs: seq<Record>, ms: seq<Manifest>) {
    NoCollision(k, LinkTexts(k, rs) + Texts(ms))
  }

  /** A verified manifest has the signed content of one the key signed: never that of a log line. */
  lemma SignedIsOriginal(k: Suite, rs: seq<Record>, ms: seq<Manifest>, chain: seq<Manifest>, m: Manifest)
      returns (y: nat)
    requires Sound(k) && AllTell(k, rs, ms) && m in ms && (forall x :: x in chain ==> x in ms)
    requires Verify(k, m).Ok? && KeySigned(k, rs, chain, ManifestHash(k, m))
    ensures y < |chain| && SameSigned(m, chain[y]) && ManifestHash(k, m) == ManifestHash(k, chain[y])
  {
    assert CanonicalText(m) in Texts(ms);
    if i :| 0 < i <= |rs| && ManifestHash(k, m) == Link(k, rs[..i]) {
      LinkIsDigest(k, rs, i - 1);
      assert LinkText(k, rs, i - 1) in LinkTexts(k, rs);
      LinesAreNotManifests(rs[i - 1], Link(k, rs[..i - 1]), m);
      assert false;
    }
    var x :| x in chain && ManifestHash(k, m) == ManifestHash(k, x);
    assert CanonicalText(x) in Texts(ms);
    CanonicalInjective(m, x);
    y :| 0 <= y < |chain| && chain[y] == x;
  }

  /** `m` is chain[y] again, but for the letter case of its own hash. */
  predicate IsOriginal(m: Manifest, chain: seq<Manifest>, y: nat) {
    y < |chain| && SameSigned(m, chain[y]) && Lowered(m.thisManifestHash) == chain[y].thisManifestHash
  }

  /** `entries` have, in some order, the signed contents of `honest`. */
  ghost predicate SignedAs(entries: seq<Manifest>, honest: seq<Manifest>) {
    exists order: seq<Manifest> :: multiset(order) == multiset(entries) && SameContents(order, honest)
  }

  predicate SameContents(order: seq<Manifest>, honest: seq<Manifest>) {
    |order| == |honest| && forall i :: 0 <= i < |order| ==> SameSigned(order[i], honest[i])
  }

  ghost predicate HasOriginal(m: Manifest, chain: seq<Manifest>) {
    exists y: nat :: IsOriginal(m, chain, y)
  }

  ghost function OriginalOf(m: Manifest, chain: seq<Manifest>): (y: nat)
    requires HasOriginal(m, chain)
    ensures IsOriginal(m, chain, y)
  {
    var y: nat :| IsOriginal(m, chain, y);
    y
  }

  lemma VerifiedHasOriginal(k: Suite, rs: seq<Record>, entries: seq<Manifest>, chain: seq<Manifest>, m: Manifest)
    requires Sound(k) && AllHashed(k, chain) && AllVerify(k, entries) && m in entries
    requires AllTell(k, rs, entries + chain) && ManifestsUnforged(k, entries, rs, chain)
    ensures HasOriginal(m, chain)
  {
    assert Verify(k, m).Ok?;
    VerifyMeans(k, m);
    var y := SignedIsOriginal(k, rs, entries + chain, chain, m);
    assert Hashed(k, chain[y]);
    assert IsOriginal(m, chain, y);
  }

  // ----- The same, with everything the key ever signed as a manifest

  predicate NextOf(m: Manifest, chain: seq<Manifest>, n: nat)
    requires n <= |chain|
  {
    m.prevManifestHash == if n == 0 then GENESIS_PREV else chain[n - 1].thisManifestHash
  }

  /** On every signed field, the chain's first `n`; or those and a manifest signed to follow them. */
  ghost predicate LineageAt(entries: seq<Manifest>, chain: seq<Manifest>, others: seq<Manifest>, n: nat)
    requires n <= |chain|
  {
    || SignedAs(entries, chain[..n])
    || exists o {:trigger NextOf(o, chain, n)} ::
         o in others && NextOf(o, chain, n) && SignedAs(entries, chain[..n] + [o])
  }

  ghost predicate Lineage(entries: seq<Manifest>, chain: seq<Manifest>, others: seq<Manifest>) {
    exists n: nat {:trigger LineageAt(entries, chain, others, n)} ::
      n <= |chain| && LineageAt(entries, chain, others, n)
  }

  /** What the key signed besides the chain: each of these follows GENESIS or one of the chain. */
  ghost predicate Attached(others: seq<Manifest>, chain: seq<Manifest>) {
    forall o {:trigger Hangs(o, chain)} :: o in others ==> Hangs(o, chain)
  }

  /** All that is assumed of manifests under examination: they verify, and none bears a forged signature. */
  ghost predicate Examined(k: Suite, entries: seq<Manifest>, chain: seq<Manifest>, others: seq<Manifest>,
                           rs: seq<Record>) {
    && AllVerify(k, entries) && ManifestsUnforged(k, entries, rs, chain + others)
    && AllTell(k, rs, entries + (chain + others)) && NoneGenesis(k, Texts(chain + others))
  }

  ghost predicate HonestHost(k: Suite, chain: seq<Manifest>, others: seq<Manifest>) {
    Honest(chain) && AllHashed(k, chain + others) && Attached(others, chain)
  }

  lemma AllHaveOriginals(k: Suite, entries: seq<Manifest>, chain: seq<Manifest>, others: seq<Manifest>, rs: seq<Record>)
    requires Sound(k) && HonestHost(k, chain, others) && Examined(k, entries, chain, others, rs)
    ensures forall m :: m in entries ==> HasOriginal(m, chain + others)
    ensures HashesTell(k, entries + chain)
  {
    forall m | m in entries ensures HasOriginal(m, chain + others) && CanonicalText(m) in Texts(chain + others) {
      VerifiedHasOriginal(k, rs, entries, chain + others, m);
      CanonicalInjective(m, (chain + others)[OriginalOf(m, chain + others)]);
    }
    assert Texts(entries + chain) <= Texts(chain + others);
  }

  lemma OriginalHangs(k: Suite, m: Manifest, chain: seq<Manifest>, others: seq<Manifest>)
    requires Honest(chain) && Attached(others, chain) && HasOriginal(m, chain + others)
    ensures Hangs(m, chain)
  {
    var y := OriginalOf(m, chain + others);
    if y < |chain| {
      assert (chain + others)[y] == chain[y];
      assert y > 0 ==> Follows(chain[y - 1], chain[y]);
    } else {
      var o := others[y - |chain|];
      assert (chain + others)[y] == o && Hangs(o, chain);
    }
  }

  lemma ExaminedFit(k: Suite, entries: seq<Manifest>, chain: seq<Manifest>, others: seq<Manifest>, rs: seq<Record>)
    requires Sound(k) && HonestHost(k, chain, others) && Examined(k, entries, chain, others, rs)
    requires DistinctHashes(entries)
    ensures Fits(entries, chain) && HashesClaim(entries, chain)
  {
    AllHaveOriginals(k, entries, chain, others, rs);
    assert AllHashed(k, chain) by {
      forall m | m in chain ensures Hashed(k, m) { assert m in chain + others; }
    }
    ClaimsAgree(k, entries, chain);
    forall m | m in entries ensures Hangs(m, chain) && m.thisManifestHash != GENESIS_PREV {
      OriginalHangs(k, m, chain, others);
      NotGenesis(k, entries + chain, m);
    }
  }

  lemma NotGenesis(k: Suite, ms: seq<Manifest>, m: Manifest)
    requires Sound(k) && HashesTell(k, ms) && m in ms && Verify(k, m).Ok?
    ensures m.thisManifestHash != GENESIS_PREV
  {
    VerifiedHash(k, m);
    LoweredDigest(GENESIS_PREV);
    assert CanonicalText(m) in Texts(ms);
  }

  /** The last of a path, by its original: the chain's own next manifest, or another one signed to come next. */
  lemma LastOriginal(order: seq<Manifest>, chain: seq<Manifest>, others: seq<Manifest>, y: nat)
    requires Honest(chain) && order != [] && |order| - 1 <= |chain| && NextOf(order[|order| - 1], chain, |order| - 1)
    requires IsOriginal(order[|order| - 1], chain + others, y)
    requires forall i :: 0 <= i < |order| - 1 ==> SameSigned(order[i], chain[i])
    ensures Lineage(order, chain, others)
  {
    var n := |order| - 1;
    if y < |chain| {
      assert (chain + others)[y] == chain[y];
      ChainNext(chain, y, n);
      assert SameContents(order, chain[..n + 1]);
      assert LineageAt(order, chain, others, n + 1);
    } else {
      var o := (chain + others)[y];
      assert o in others && NextOf(o, chain, n);
      assert SameContents(order, chain[..n] + [o]);
      assert LineageAt(order, chain, others, n);
    }
  }

  lemma ChainNext(chain: seq<Manifest>, y: nat, n: nat)
    requires Honest(chain) && y < |chain| && n <= |chain| && NextOf(chain[y], chain, n)
    ensures y == n
  {
    if y > 0 {
      assert Follows(chain[y - 1], chain[y]);
      if n > 0 {
        HashNames(chain, chain[y - 1], chain[n - 1]);
        DistinctHashesNoDup(chain);
      }
    }
  }

  /** All but the last of a path have the hashes, and so the contents, of the chain's first ones. */
  lemma PathContents(entries: seq<Manifest>, order: seq<Manifest>, chain: seq<Manifest>)
    requires Fits(entries, chain) && HashesClaim(entries, chain) && Orders(order, entries, None)
    ensures var n := |order| - 1;
      n <= |chain| && NextOf(order[n], chain, n) && forall i :: 0 <= i < n ==> SameSigned(order[i], chain[i])
  {
    var n := |order| - 1;
    OrderAgrees(order, entries, chain);
    if n > 0 {
      assert Follows(order[n - 1], order[n]) && order[n - 1] in entries && Hangs(order[n], chain);
      var y :| 0 <= y < |chain| && chain[y].thisManifestHash == order[n].prevManifestHash;
      PathNamesChain(order, chain, n - 1, y);
      forall i | 0 <= i < n ensures SameSigned(order[i], chain[i]) {
        assert order[i] in entries;
        var x :| 0 <= x < |entries| && entries[x] == order[i];
        assert SameClaims(entries[x], chain[i]);
      }
    }
  }

  lemma LineageOfOrder(entries: seq<Manifest>, order: seq<Manifest>, chain: seq<Manifest>, others: seq<Manifest>)
    requires multiset(order) == multiset(entries) && Lineage(order, chain, others)
    ensures Lineage(entries, chain, others)
  {
    var n: nat :| n <= |chain| && LineageAt(order, chain, others, n);
    if SignedAs(order, chain[..n]) {
      SignedAsOrder(entries, order, chain[..n]);
    } else {
      var o :| o in others && NextOf(o, chain, n) && SignedAs(order, chain[..n] + [o]);
      SignedAsOrder(entries, order, chain[..n] + [o]);
    }
    assert LineageAt(entries, chain, others, n);
  }

  lemma SignedAsOrder(entries: seq<Manifest>, order: seq<Manifest>, honest: seq<Manifest>)
    requires multiset(order) == multiset(entries) && SignedAs(order, honest)
    ensures SignedAs(entries, honest)
  {
    var x: seq<Manifest> :| multiset(x) == multiset(order) && SameContents(x, honest);
  }

  /**
   Even without an anchor, verified manifests of which none is forged pass exactly when their hashes line up
   with the host's chain. They are then, on every signed field, its first manifests; or those and one more
   that the key signed to follow them, as for an orphaned sidecar.
   */
  lemma UnanchoredAreOriginals(k: Suite, entries: seq<Manifest>, chain: seq<Manifest>, others: seq<Manifest>,
                               rs: seq<Record>)
    requires Sound(k) && HonestHost(k, chain, others) && Examined(k, entries, chain, others, rs)
    ensures Accepted(entries, None) <==> DistinctHashes(entries) && LinesUp(entries, chain)
    ensures Accepted(entries, None) ==> Lineage(entries, chain, others)
  {
    if Accepted(entries, None) {
      AcceptedDistinct(entries, None);
    }
    if DistinctHashes(entries) {
      ExaminedFit(k, entries, chain, others, rs);
      UnanchoredListing(entries, chain);
    }
    if Accepted(entries, None) {
      AcceptedLineage(k, entries, chain, others, rs);
    }
  }

  lemma AcceptedLineage(k: Suite, entries: seq<Manifest>, chain: seq<Manifest>, others: seq<Manifest>, rs: seq<Record>)
    requires Sound(k) && HonestHost(k, chain, others) && Examined(k, entries, chain, others, rs)
    requires Accepted(entries, None)
    ensures Lineage(entries, chain, others)
  {
    if entries == [] {
      assert SameContents(entries, chain[..0]);
      assert LineageAt(entries, chain, others, 0);
    } else {
      var order: seq<Manifest> :| Orders(order, entries, Anchor(None));
      AcceptedDistinct(entries, None);
      ExaminedFit(k, entries, chain, others, rs);
      PermutationKeeps(order, entries);
      PathContents(entries, order, chain);
      AllHaveOriginals(k, entries, chain, others, rs);
      LastOriginal(order, chain, others, OriginalOf(order[|order| - 1], chain + others));
      LineageOfOrder(entries, order, chain, others);
    }
  }

  // ----- One theorem for any edited host

  /** Every manifest that the key may have signed in these transactions, whatever stage they reached. */
  function EverySigned(k: Suite, b: Build, ts: seq<Txn>): seq<Manifest> {
    if ts == [] then []
    else
      var init, t := ts[..|ts| - 1], ts[|ts| - 1];
      var signed := SignedFor(k, b, Replay(k, b, init).disk, t);
      EverySigned(k, b, init) + if signed.Ok? then [signed.value] else []
  }

  lemma {:induction false} SignedHang(k: Suite, b: Build, ts: seq<Txn>)
    requires Sound(k) && ValidJobs(ts)
    ensures AllHashed(k, EverySigned(k, b, ts)) && Attached(EverySigned(k, b, ts), Replay(k, b, ts).chain)
  {
    if ts != [] {
      var init, t := ts[..|ts| - 1], ts[|ts| - 1];
      assert ts == init + [t];
      SignedHang(k, b, init);
      ReplaySane(k, b, init);
      OneMoreHangs(k, b, Replay(k, b, init), t, EverySigned(k, b, init));
    }
  }

  lemma OneMoreHangs(k: Suite, b: Build, w: World, t: Txn, others: seq<Manifest>)
    requires Sound(k) && Kept(k, w) && AllHashed(k, others) && Attached(others, w.chain)
    ensures SignedFor(k, b, w.disk, t).Ok?
    ensures var more := others + [SignedFor(k, b, w.disk, t).value];
      AllHashed(k, more) && Attached(more, Extend(k, b, w, t).chain)
  {
    NextManifest(k, b, w, t);
    ExtendChain(k, b, w, t);
    NextHangs(w.chain, others, SignedFor(k, b, w.disk, t).value, Extend(k, b, w, t).chain);
  }

  lemma NextHangs(chain: seq<Manifest>, others: seq<Manifest>, m: Manifest, longer: seq<Manifest>)
    requires Attached(others, chain) && NextOf(m, chain, |chain|) && (longer == chain || longer == chain + [m])
    ensures Attached(others + [m], longer)
  {
    forall o | o in others + [m] ensures Hangs(o, longer) {
      if o in others {
        assert Hangs(o, chain);
        HangsOnLonger(o, chain, m);
      } else if chain != [] {
        assert longer[|chain| - 1] == chain[|chain| - 1];
      }
    }
  }

  lemma RunIsHost(k: Suite, b: Build, ts: seq<Txn>)
    requires Sound(k) && ValidJobs(ts) && HashesTell(k, Replay(k, b, ts).chain)
    ensures HonestHost(k, Replay(k, b, ts).chain, EverySigned(k, b, ts))
  {
    var w := Replay(k, b, ts);
    ReplaySane(k, b, ts);
    ChainIsHonest(k, w);
    SignedHang(k, b, ts);
    forall m | m in w.chain + EverySigned(k, b, ts) ensures Hashed(k, m) {
      assert m in w.chain || m in EverySigned(k, b, ts);
    }
  }

  lemma ExaminedTells(k: Suite, entries: seq<Manifest>, chain: seq<Manifest>, others: seq<Manifest>, rs: seq<Record>)
    requires Examined(k, entries, chain, others, rs)
    ensures HashesTell(k, chain)
  {
    assert Texts(chain) <= Texts(chain + others);
    assert Texts(chain) <= Texts(entries + (chain + others));
  }

  lemma PassesAccepted(k: Suite, d: Disk, entries: seq<Manifest>)
    requires Passes(k, d, entries)
    ensures Accepted(entries, None)
  {
    var head := if HeadValue(d.head).Ok? then Some(HeadValue(d.head).value) else None;
    if entries != [] {
      var order :| Orders(order, entries, Anchor(head));
      AcceptedUnanchored(entries, order, Anchor(head));
    }
  }

  /**
   Whatever was done to log, head and manifests, with a signed line left or not: if no manifest signature is
   forged, the manifests that pass are the first the host committed, or those and one it signed to follow them.
   */
  lemma OnlyOwnManifests(k: Suite, b: Build, ts: seq<Txn>, d: Disk, entries: seq<Manifest>)
    requires Sound(k) && ValidJobs(ts) && Passes(k, d, entries)
    requires Examined(k, entries, Replay(k, b, ts).chain, EverySigned(k, b, ts), RecordsLogged(Replay(k, b, ts).logged))
    ensures Lineage(entries, Replay(k, b, ts).chain, EverySigned(k, b, ts))
  {
    var w, others := Replay(k, b, ts), EverySigned(k, b, ts);
    ExaminedTells(k, entries, w.chain, others, RecordsLogged(w.logged));
    RunIsHost(k, b, ts);
    PassesAccepted(k, d, entries);
    AcceptedLineage(k, entries, w.chain, others, RecordsLogged(w.logged));
  }
}
