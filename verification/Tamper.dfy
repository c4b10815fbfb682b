/**
 What an edited chain directory can still pass as: with the key unforged and no digests colliding, only as
 an earlier state of the same host.
 */
module Tamper {
  import opened Wrappers
  import opened Sequences
  import opened Manifests
  import opened Text
  import opened Canonical
  import opened Signing
  import opened ChainLog
  import opened ChainDir
  import opened History
  import opened Quiescence

  // ----- Every accepted log is a hash chain over its signed entries

  /** The hash of the last of these records, each linked to the one before. */
  function Link(k: Suite, rs: seq<Record>): string {
    if rs == [] then GENESIS_PREV else LogDigest(k, rs[|rs| - 1], Link(k, rs[..|rs| - 1]))
  }

  function SignedEntries(k: Suite, rs: seq<Record>): seq<LogEntry> {
    if rs == [] then [] else SignedEntries(k, rs[..|rs| - 1]) + [LogEntry(rs[|rs| - 1], Some(Link(k, rs)))]
  }

  /** The entries read are unsigned ones, then these records chained from GENESIS. */
  ghost predicate Shaped(k: Suite, st: Scan, legacy: seq<LogEntry>, rs: seq<Record>) {
    && st == Scan(LogVerification(legacy + SignedEntries(k, rs), |legacy|, |rs|), Link(k, rs))
    && forall e :: e in legacy ==> e.logHash.None?
  }

  /** A line's effect: none, one legacy entry while no line was signed, or one signed entry. */
  datatype Effect = Blankness | LegacyEntry(entry: LogEntry) | SignedEntry(record: Record)

  function AfterEffect(k: Suite, st: Scan, e: Effect): Scan {
    match e
    case Blankness => st
    case LegacyEntry(entry) =>
      st.(seen := st.seen.(entries := st.seen.entries + [entry], legacyLines := st.seen.legacyLines + 1))
    case SignedEntry(record) => Extended(k, st, record)
  }

  predicate CarriesSignature(k: Suite, line: string, digest: string) {
    |Words(line)| == LOG_FIELDS_SIGNED && Words(line)[6] == digest && k.accepts(digest, Words(line)[7])
  }

  lemma LineEffect(k: Suite, st: Scan, line: string, lineno: nat) returns (e: Effect)
    requires ReadLine(k, st, line, lineno).Ok?
    ensures ReadLine(k, st, line, lineno) == Ok(AfterEffect(k, st, e))
    ensures e.LegacyEntry? ==> st.seen.signedLines == 0 && e.entry.logHash.None?
    ensures e.SignedEntry? ==> CarriesSignature(k, line, LogDigest(k, e.record, st.expectedPrev))
    ensures !e.SignedEntry? ==> |Words(line)| != LOG_FIELDS_SIGNED
  {
    BlankHasNoWords(line);
    if Blank(line) {
      return Blankness;
    }
    var f := Words(line);
    var record := Record.Record(f[0], f[1], f[2], ParseU32(f[3]).value, f[4]);
    return if |f| == LOG_FIELDS_LEGACY then LegacyEntry(LogEntry(record, None)) else SignedEntry(record);
  }

  lemma EffectShaped(k: Suite, st: Scan, legacy: seq<LogEntry>, rs: seq<Record>, e: Effect)
    requires Shaped(k, st, legacy, rs)
    requires e.LegacyEntry? ==> st.seen.signedLines == 0 && e.entry.logHash.None?
    ensures match e
      case Blankness => Shaped(k, AfterEffect(k, st, e), legacy, rs)
      case LegacyEntry(entry) => Shaped(k, AfterEffect(k, st, e), legacy + [entry], rs)
      case SignedEntry(record) => Shaped(k, AfterEffect(k, st, e), legacy, rs + [record])
  {
    if e.SignedEntry? {
      assert (rs + [e.record])[..|rs|] == rs;
    } else if e.LegacyEntry? {
      assert SignedEntries(k, rs) == [];
    }
  }

  ghost predicate Carried(k: Suite, lines: seq<string>, digest: string) {
    exists i :: 0 <= i < |lines| && CarriesSignature(k, lines[i], digest)
  }

  /** Each signed entry's digest is covered by a signature in the text that verifies. */
  ghost predicate AllCarried(k: Suite, lines: seq<string>, rs: seq<Record>) {
    forall i {:trigger Link(k, rs[..i])} :: 0 < i <= |rs| ==> Carried(k, lines, Link(k, rs[..i]))
  }

  /** What acceptance means: unsigned entries first, then one chain from GENESIS, every link of it signed. */
  lemma {:induction false} AcceptedShape(k: Suite, lines: seq<string>, n: nat)
      returns (legacy: seq<LogEntry>, rs: seq<Record>)
    requires n <= |lines| && ReadUpTo(k, lines, n).Ok?
    ensures Shaped(k, ReadUpTo(k, lines, n).value, legacy, rs) && AllCarried(k, lines, rs)
  {
    if n == 0 {
      legacy, rs := [], [];
    } else {
      legacy, rs := AcceptedShape(k, lines, n - 1);
      var st := ReadUpTo(k, lines, n - 1).value;
      var e := LineEffect(k, st, lines[n - 1], n);
      EffectShaped(k, st, legacy, rs, e);
      match e
      case Blankness =>
      case LegacyEntry(entry) => legacy := legacy + [entry];
      case SignedEntry(record) =>
        OneMoreCarried(k, lines, n - 1, rs, record);
        rs := rs + [record];
    }
  }

  lemma OneMoreCarried(k: Suite, lines: seq<string>, at: nat, rs: seq<Record>, record: Record)
    requires at < |lines| && AllCarried(k, lines, rs)
    requires CarriesSignature(k, lines[at], LogDigest(k, record, Link(k, rs)))
    ensures AllCarried(k, lines, rs + [record])
  {
    var more := rs + [record];
    assert more[..|rs|] == rs && more[..|more|] == more;
    forall i | 0 < i <= |more| ensures Carried(k, lines, Link(k, more[..i])) {
      if i <= |rs| {
        assert more[..i] == rs[..i];
      }
    }
  }

  // ----- What the key signed

  /** The text that the link behind the `i`-th record is the digest of. */
  function LinkText(k: Suite, rs: seq<Record>, i: nat): string
    requires i < |rs|
  {
    Preimage(rs[i], Link(k, rs[..i]))
  }

  lemma LinkIsDigest(k: Suite, rs: seq<Record>, i: nat)
    requires Sound(k) && i < |rs|
    ensures Link(k, rs[..i + 1]) == k.sha(LinkText(k, rs, i))
  {
    assert rs[..i + 1][..i] == rs[..i];
  }

  ghost predicate AllNulFree(rs: seq<Record>) {
    forall i {:trigger NulFreeRecord(rs[i])} :: 0 <= i < |rs| ==> NulFreeRecord(rs[i])
  }

  lemma LinkIsNulFree(k: Suite, rs: seq<Record>)
    requires Sound(k)
    ensures '\0' !in Link(k, rs)
  {
    if rs != [] {
      assert IsDigest(Link(k, rs));
    }
  }

  ghost function LinkTexts(k: Suite, rs: seq<Record>): set<string> {
    set i | 0 <= i < |rs| :: LinkText(k, rs, i)
  }

  /** The key has put its signature under the lines of the honest log, and under manifests. */
  ghost predicate KeySigned(k: Suite, rs: seq<Record>, drafts: seq<Manifest>, digest: string) {
    || (exists i {:trigger Link(k, rs[..i])} :: 0 < i <= |rs| && digest == Link(k, rs[..i]))
    || (exists m {:trigger ManifestHash(k, m)} :: m in drafts && digest == ManifestHash(k, m))
  }

  /** No valid signature in this text is a forgery. */
  ghost predicate Unforged(k: Suite, lines: seq<string>, rs: seq<Record>, drafts: seq<Manifest>) {
    forall d {:trigger Carried(k, lines, d)} :: Carried(k, lines, d) ==> KeySigned(k, rs, drafts, d)
  }

  /** The honest log, the log under examination, and the manifests the key signed: no digests collide. */
  ghost predicate LogsTell(k: Suite, rs: seq<Record>, ts: seq<Record>, drafts: seq<Manifest>) {
    NoCollision(k, LinkTexts(k, rs) + LinkTexts(k, ts) + Texts(drafts)) && NoneGenesis(k, LinkTexts(k, rs))
  }

  /** A log line's preimage is never a manifest's canonical text, so one key can sign both. */
  lemma LinesAreNotManifests(r: Record, prev: string, m: Manifest)
    ensures Preimage(r, prev) != CanonicalText(m)
  {
    var head := Terminated(DigestFields(r, prev)[..5]);
    PreimageEnds(DigestFields(r, prev));
    CanonicalEnds(m);
  }

  lemma {:induction false} PreimageEnds(fields: seq<string>)
    requires fields != []
    ensures var s := Terminated(fields); s != [] && s[|s| - 1] == '\0'
  {
    if |fields| > 1 {
      PreimageEnds(fields[1..]);
    }
  }

  /** Two links with the same digest come from the same record and the same link before it. */
  lemma SameLink(k: Suite, rs: seq<Record>, ts: seq<Record>, drafts: seq<Manifest>, i: nat, j: nat)
    requires Sound(k) && LogsTell(k, rs, ts, drafts) && AllNulFree(rs)
    requires i < |rs| && j < |ts| && Link(k, rs[..i + 1]) == Link(k, ts[..j + 1])
    ensures rs[i] == ts[j] && Link(k, rs[..i]) == Link(k, ts[..j])
  {
    LinkIsDigest(k, rs, i);
    LinkIsDigest(k, ts, j);
    LinkIsNulFree(k, rs[..i]);
    var a, b := LinkText(k, rs, i), LinkText(k, ts, j);
    assert a in LinkTexts(k, rs) && b in LinkTexts(k, ts);
    assert NulFreeRecord(rs[i]);
    PreimageUnambiguous(rs[i], Link(k, rs[..i]), ts[j], Link(k, ts[..j]));
  }

  lemma LogsTellSelf(k: Suite, rs: seq<Record>, ts: seq<Record>, drafts: seq<Manifest>)
    requires LogsTell(k, rs, ts, drafts)
    ensures LogsTell(k, rs, rs, drafts)
  {}

  lemma LinkIsNotGenesis(k: Suite, rs: seq<Record>, j: nat)
    requires Sound(k) && NoneGenesis(k, LinkTexts(k, rs)) && j < |rs|
    ensures Link(k, rs[..j + 1]) != GENESIS_PREV
  {
    LinkIsDigest(k, rs, j);
    assert LinkText(k, rs, j) in LinkTexts(k, rs);
  }

  lemma GenesisLinksFirst(k: Suite, rs: seq<Record>, i: nat, j: nat)
    requires Sound(k) && NoneGenesis(k, LinkTexts(k, rs))
    requires i <= |rs| && j <= |rs| && Link(k, rs[..i]) == Link(k, rs[..j])
    ensures i == 0 <==> j == 0
  {
    if i > 0 {
      LinkIsNotGenesis(k, rs, i - 1);
    }
    if j > 0 {
      LinkIsNotGenesis(k, rs, j - 1);
    }
  }

  /** The links of an honest log tell their places. */
  lemma {:induction false} LinksDiffer(k: Suite, rs: seq<Record>, drafts: seq<Manifest>, i: nat, j: nat)
    requires Sound(k) && LogsTell(k, rs, rs, drafts) && AllNulFree(rs)
    requires i <= |rs| && j <= |rs| && Link(k, rs[..i]) == Link(k, rs[..j])
    ensures i == j
    decreases i
  {
    GenesisLinksFirst(k, rs, i, j);
    if i > 0 {
      SameLink(k, rs, rs, drafts, i - 1, j - 1);
      LinksDiffer(k, rs, drafts, i - 1, j - 1);
    }
  }

  /** A signed link of the examined log is one of the honest log's links. */
  lemma LinkIsHonest(k: Suite, rs: seq<Record>, ts: seq<Record>, drafts: seq<Manifest>, j: nat) returns (i: nat)
    requires Sound(k) && LogsTell(k, rs, ts, drafts) && j < |ts|
    requires KeySigned(k, rs, drafts, Link(k, ts[..j + 1]))
    ensures i < |rs| && Link(k, rs[..i + 1]) == Link(k, ts[..j + 1])
  {
    if x :| 0 < x <= |rs| && Link(k, ts[..j + 1]) == Link(k, rs[..x]) {
      return x - 1;
    }
    var m :| m in drafts && Link(k, ts[..j + 1]) == ManifestHash(k, m);
    LinkIsDigest(k, ts, j);
    assert LinkText(k, ts, j) in LinkTexts(k, ts) && CanonicalText(m) in Texts(drafts);
    LinesAreNotManifests(ts[j], Link(k, ts[..j]), m);
    assert false;
  }

  lemma NextIsHonest(k: Suite, rs: seq<Record>, ts: seq<Record>, drafts: seq<Manifest>, n: nat)
    requires Sound(k) && LogsTell(k, rs, ts, drafts) && AllNulFree(rs)
    requires n < |ts| && n <= |rs| && Link(k, ts[..n]) == Link(k, rs[..n])
    requires KeySigned(k, rs, drafts, Link(k, ts[..n + 1]))
    ensures n < |rs| && ts[n] == rs[n]
  {
    var i := LinkIsHonest(k, rs, ts, drafts, n);
    SameLink(k, rs, ts, drafts, i, n);
    LogsTellSelf(k, rs, ts, drafts);
    LinksDiffer(k, rs, drafts, i, n);
  }

  ghost predicate AllSigned(k: Suite, rs: seq<Record>, ts: seq<Record>, drafts: seq<Manifest>) {
    forall j {:trigger Link(k, ts[..j])} :: 0 < j <= |ts| ==> KeySigned(k, rs, drafts, Link(k, ts[..j]))
  }

  /** The signed records of an accepted log are a prefix of those the honest host logged. */
  lemma {:induction false} SignedIsPrefix(k: Suite, rs: seq<Record>, ts: seq<Record>, drafts: seq<Manifest>, n: nat)
    requires Sound(k) && LogsTell(k, rs, ts, drafts) && AllNulFree(rs)
    requires n <= |ts| && AllSigned(k, rs, ts, drafts)
    ensures n <= |rs| && ts[..n] == rs[..n]
  {
    if n > 0 {
      SignedIsPrefix(k, rs, ts, drafts, n - 1);
      NextIsHonest(k, rs, ts, drafts, n - 1);
      LongerPrefix(ts, rs, n - 1);
    }
  }

  // ----- The log under examination, against the host's own

  function RecordsLogged(logged: seq<Logged>): (rs: seq<Record>)
    ensures |rs| == |logged| && forall i :: 0 <= i < |rs| ==> rs[i] == logged[i].record
  {
    seq(|logged|, i requires 0 <= i < |logged| => logged[i].record)
  }

  /** The entries after the unsigned ones. */
  function SignedPart(v: LogVerification): seq<LogEntry> {
    if v.legacyLines <= |v.entries| then v.entries[v.legacyLines..] else []
  }

  lemma {:induction false} SignedEntriesAt(k: Suite, rs: seq<Record>, i: nat)
    ensures |SignedEntries(k, rs)| == |rs|
    ensures i < |rs| ==> SignedEntries(k, rs)[i] == LogEntry(rs[i], Some(Link(k, rs[..i + 1])))
  {
    if rs != [] {
      var n := |rs| - 1;
      SignedEntriesAt(k, rs[..n], i);
      if i < n {
        assert rs[..n][..i + 1] == rs[..i + 1];
      } else if i == n {
        assert rs[..i + 1] == rs;
      }
    }
  }

  lemma SignedEntriesPrefix(k: Suite, rs: seq<Record>, n: nat)
    requires n <= |rs|
    ensures |SignedEntries(k, rs)| == |rs| && SignedEntries(k, rs[..n]) == SignedEntries(k, rs)[..n]
  {
    SignedEntriesAt(k, rs, 0);
    SignedEntriesAt(k, rs[..n], 0);
    forall i | 0 <= i < n ensures SignedEntries(k, rs[..n])[i] == SignedEntries(k, rs)[i] {
      SignedEntriesAt(k, rs, i);
      SignedEntriesAt(k, rs[..n], i);
      assert rs[..n][..i + 1] == rs[..i + 1];
    }
  }

  /** The honest log's own entries are the chain over the records it was given. */
  lemma HonestShape(k: Suite, w: World)
    requires LinesMatch(w.scan.seen.entries, w.logged, w.chain) && LogReads(k, w.disk.log, w.scan)
    ensures w.scan.seen.entries == SignedEntries(k, RecordsLogged(w.logged))
  {
    var lines := Lines(LogText(w.disk.log).value);
    var legacy, rs := AcceptedShape(k, lines, |lines|);
    ShapeMatches(k, w.scan, legacy, rs, w.logged, w.chain);
  }

  lemma LegacyShows(legacy: seq<LogEntry>, more: seq<LogEntry>)
    requires legacy != [] && forall e :: e in legacy ==> e.logHash.None?
    ensures (legacy + more)[0].logHash.None?
  {
    assert legacy[0] in legacy;
  }

  lemma ShapeMatches(k: Suite, st: Scan, legacy: seq<LogEntry>, rs: seq<Record>, logged: seq<Logged>,
                     chain: seq<Manifest>)
    requires Shaped(k, st, legacy, rs) && LinesMatch(st.seen.entries, logged, chain)
    ensures rs == RecordsLogged(logged) && legacy == [] && st.seen.entries == SignedEntries(k, rs)
  {
    var entries := st.seen.entries;
    if legacy != [] {
      LegacyShows(legacy, SignedEntries(k, rs));
      assert false;
    }
    SignedEntriesAt(k, rs, 0);
    forall i | 0 <= i < |rs| ensures rs[i] == RecordsLogged(logged)[i] {
      SignedEntriesAt(k, rs, i);
      assert entries[i].record == logged[i].record;
    }
    assert rs == RecordsLogged(logged);
  }

  /** The log of these transactions holds no field with a NUL. */
  lemma {:induction false} RecordsAreSafe(k: Suite, b: Build, ts: seq<Txn>)
    requires Sound(k) && ValidJobs(ts)
    ensures AllNulFree(RecordsLogged(Replay(k, b, ts).logged))
  {
    if ts != [] {
      var init, t := ts[..|ts| - 1], ts[|ts| - 1];
      assert ts == init + [t];
      RecordsAreSafe(k, b, init);
      ReplaySane(k, b, init);
      ExtendSafe(k, b, Replay(k, b, init), t);
    }
  }

  lemma ExtendSafe(k: Suite, b: Build, w: World, t: Txn)
    requires Sound(k) && Kept(k, w) && LogReads(k, w.disk.log, w.scan) && ValidJob(t.job)
    requires AllNulFree(RecordsLogged(w.logged))
    ensures AllNulFree(RecordsLogged(Extend(k, b, w, t).logged))
  {
    var m, record, text := ExtendGrows(k, b, w, t);
    SafeIsNulFree(record);
    GrowSafe(k, w, SidecarOf(RecordingOf(t.job)), m, record, text, t.reach);
  }

  lemma SafeIsNulFree(r: Record)
    requires UnsafeLabel(r).None?
    ensures NulFreeRecord(r)
  {}

  lemma GrowSafe(k: Suite, w: World, path: Path, m: Manifest, record: Record, text: string, reach: Reach)
    requires AllNulFree(RecordsLogged(w.logged)) && NulFreeRecord(record)
    ensures AllNulFree(RecordsLogged(Grow(k, w, path, m, record, Ok(text), reach).logged))
  {
    var rs, more := RecordsLogged(w.logged), RecordsLogged(Grow(k, w, path, m, record, Ok(text), reach).logged);
    forall i | 0 <= i < |more| ensures NulFreeRecord(more[i]) {
      if i < |rs| {
        assert more[i] == rs[i] && NulFreeRecord(rs[i]);
      }
    }
  }

  /** What is assumed of a log text: its valid signatures are the key's own, and no digests collide. */
  ghost predicate Trusted(k: Suite, w: World, content: string, drafts: seq<Manifest>) {
    && ReadLog(k, content).Ok?
    && Unforged(k, Lines(content), RecordsLogged(w.logged), drafts)
    && LogsTell(k, RecordsLogged(w.logged), RecordsIn(SignedPart(ReadLog(k, content).value.seen)), drafts)
  }

  function RecordsIn(entries: seq<LogEntry>): (rs: seq<Record>)
    ensures |rs| == |entries| && forall i :: 0 <= i < |rs| ==> rs[i] == entries[i].record
  {
    seq(|entries|, i requires 0 <= i < |entries| => entries[i].record)
  }

  lemma RecordsOfSigned(k: Suite, rs: seq<Record>)
    ensures RecordsIn(SignedEntries(k, rs)) == rs
  {
    SignedEntriesAt(k, rs, 0);
    forall i | 0 <= i < |rs| ensures RecordsIn(SignedEntries(k, rs))[i] == rs[i] {
      SignedEntriesAt(k, rs, i);
    }
  }

  /** `v` holds unsigned entries, then the first of these signed ones. */
  ghost predicate Prefixes(v: LogVerification, entries: seq<LogEntry>) {
    && |v.entries| == v.legacyLines + v.signedLines
    && (forall i :: 0 <= i < v.legacyLines ==> v.entries[i].logHash.None?)
    && v.signedLines <= |entries| && SignedPart(v) == entries[..v.signedLines]
  }

  lemma PrefixOfEntries(legacy: seq<LogEntry>, signed: seq<LogEntry>, honest: seq<LogEntry>)
    requires |signed| <= |honest| && signed == honest[..|signed|] && forall e :: e in legacy ==> e.logHash.None?
    ensures Prefixes(LogVerification(legacy + signed, |legacy|, |signed|), honest)
  {
    assert (legacy + signed)[|legacy|..] == signed;
    assert forall i :: 0 <= i < |legacy| ==> (legacy + signed)[i] == legacy[i];
  }

  lemma ExaminedIsPrefix(k: Suite, lines: seq<string>, honest: seq<Record>, rs: seq<Record>, drafts: seq<Manifest>)
    requires Sound(k) && AllNulFree(honest) && LogsTell(k, honest, rs, drafts)
    requires AllCarried(k, lines, rs) && Unforged(k, lines, honest, drafts)
    ensures |rs| <= |honest| && rs == honest[..|rs|]
  {
    CarriedAreSigned(k, lines, honest, rs, drafts);
    SignedIsPrefix(k, honest, rs, drafts, |rs|);
    assert rs[..|rs|] == rs;
  }

  /**
   Log tamper evidence. Whatever was done to the file, if the verifier accepts it then its signed entries
   are the first of those the host logged, in order and unchanged.
   */
  lemma LogTamperEvident(k: Suite, b: Build, ts: seq<Txn>, content: string, drafts: seq<Manifest>)
    requires Sound(k) && ValidJobs(ts) && Trusted(k, Replay(k, b, ts), content, drafts)
    ensures Prefixes(ReadLog(k, content).value.seen, Replay(k, b, ts).scan.seen.entries)
  {
    var w, lines := Replay(k, b, ts), Lines(content);
    ReplaySane(k, b, ts);
    HonestShape(k, w);
    RecordsAreSafe(k, b, ts);
    var legacy, rs := AcceptedShape(k, lines, |lines|);
    RecordsOfSigned(k, rs);
    assert SignedPart(ReadLog(k, content).value.seen) == SignedEntries(k, rs);
    ExaminedIsPrefix(k, lines, RecordsLogged(w.logged), rs, drafts);
    SignedEntriesPrefix(k, RecordsLogged(w.logged), |rs|);
    SignedEntriesPrefix(k, rs, |rs|);
    PrefixOfEntries(legacy, SignedEntries(k, rs), w.scan.seen.entries);
  }

  lemma CarriedAreSigned(k: Suite, lines: seq<string>, honest: seq<Record>, rs: seq<Record>, drafts: seq<Manifest>)
    requires AllCarried(k, lines, rs) && Unforged(k, lines, honest, drafts)
    ensures AllSigned(k, honest, rs, drafts)
  {
    forall j | 0 < j <= |rs| ensures KeySigned(k, honest, drafts, Link(k, rs[..j])) {
      assert Carried(k, lines, Link(k, rs[..j]));
    }
  }

  // ----- The host's own log meets these assumptions

  ghost predicate IsLink(k: Suite, rs: seq<Record>, digest: string) {
    exists j {:trigger Link(k, rs[..j])} :: 0 < j <= |rs| && digest == Link(k, rs[..j])
  }

  /** Every line of eight fields among the first `n` holds a link of the chain. */
  ghost predicate OnlyLinks(k: Suite, lines: seq<string>, n: nat, rs: seq<Record>)
    requires n <= |lines|
  {
    forall i {:trigger lines[i]} :: 0 <= i < n && |Words(lines[i])| == LOG_FIELDS_SIGNED ==>
      IsLink(k, rs, Words(lines[i])[6])
  }

  lemma LongerIsLink(k: Suite, rs: seq<Record>, record: Record, digest: string)
    ensures IsLink(k, rs, digest) ==> IsLink(k, rs + [record], digest)
    ensures digest == LogDigest(k, record, Link(k, rs)) ==> IsLink(k, rs + [record], digest)
  {
    var more := rs + [record];
    assert more[..|rs|] == rs && more[..|more|] == more;
    assert Link(k, more[..|more|]) == LogDigest(k, record, Link(k, rs));
    if IsLink(k, rs, digest) {
      var j :| 0 < j <= |rs| && digest == Link(k, rs[..j]);
      assert more[..j] == rs[..j];
    }
  }

  lemma {:induction false} AcceptedLinks(k: Suite, lines: seq<string>, n: nat)
      returns (legacy: seq<LogEntry>, rs: seq<Record>)
    requires n <= |lines| && ReadUpTo(k, lines, n).Ok?
    ensures Shaped(k, ReadUpTo(k, lines, n).value, legacy, rs) && OnlyLinks(k, lines, n, rs)
  {
    if n == 0 {
      legacy, rs := [], [];
    } else {
      legacy, rs := AcceptedLinks(k, lines, n - 1);
      var st := ReadUpTo(k, lines, n - 1).value;
      var e := LineEffect(k, st, lines[n - 1], n);
      EffectShaped(k, st, legacy, rs, e);
      match e
      case Blankness =>
      case LegacyEntry(entry) => legacy := legacy + [entry];
      case SignedEntry(record) =>
        OneMoreLink(k, lines, n - 1, rs, record);
        rs := rs + [record];
    }
  }

  lemma OneMoreLink(k: Suite, lines: seq<string>, n: nat, rs: seq<Record>, record: Record)
    requires n < |lines| && OnlyLinks(k, lines, n, rs)
    requires CarriesSignature(k, lines[n], LogDigest(k, record, Link(k, rs)))
    ensures OnlyLinks(k, lines, n + 1, rs + [record])
  {
    forall i | 0 <= i < n + 1 && |Words(lines[i])| == LOG_FIELDS_SIGNED
      ensures IsLink(k, rs + [record], Words(lines[i])[6])
    {
      LongerIsLink(k, rs, record, Words(lines[i])[6]);
    }
  }

  /** An untouched host is within the assumptions: its own log bears no signature but the key's own. */
  lemma OwnLogIsTrusted(k: Suite, b: Build, ts: seq<Txn>, drafts: seq<Manifest>)
    requires Sound(k) && ValidJobs(ts)
    requires var rs := RecordsLogged(Replay(k, b, ts).logged); LogsTell(k, rs, rs, drafts)
    ensures LogText(Replay(k, b, ts).disk.log).Ok?
    ensures Trusted(k, Replay(k, b, ts), LogText(Replay(k, b, ts).disk.log).value, drafts)
  {
    ReplaySane(k, b, ts);
    OwnTextTrusted(k, Replay(k, b, ts), LogText(Replay(k, b, ts).disk.log).value, drafts);
  }

  lemma OwnTextTrusted(k: Suite, w: World, content: string, drafts: seq<Manifest>)
    requires LinesMatch(w.scan.seen.entries, w.logged, w.chain) && ReadLog(k, content) == Ok(w.scan)
    requires LogsTell(k, RecordsLogged(w.logged), RecordsLogged(w.logged), drafts)
    ensures Trusted(k, w, content, drafts)
  {
    var lines := Lines(content);
    var legacy, rs := AcceptedLinks(k, lines, |lines|);
    ShapeMatches(k, w.scan, legacy, rs, w.logged, w.chain);
    RecordsOfSigned(k, rs);
    LinksAreSigned(k, lines, rs, drafts);
    assert w.scan.seen.entries[0..] == w.scan.seen.entries;
  }

  lemma LinksAreSigned(k: Suite, lines: seq<string>, rs: seq<Record>, drafts: seq<Manifest>)
    requires OnlyLinks(k, lines, |lines|, rs)
    ensures Unforged(k, lines, rs, drafts)
  {
    forall d | Carried(k, lines, d) ensures KeySigned(k, rs, drafts, d) {
      var i :| 0 <= i < |lines| && CarriesSignature(k, lines[i], d);
      assert IsLink(k, rs, Words(lines[i])[6]);
    }
  }

  // ----- What a log alone cannot show: that its newest lines are missing

  /** `cut` is this text up to some newline, and reads as the first `n` of these entries. */
  ghost predicate CutAt(k: Suite, cut: string, text: string, entries: seq<LogEntry>, n: nat) {
    && cut <= text && Tail(cut) == "" && n <= |entries|
    && ReadLog(k, cut).Ok? && ReadLog(k, cut).value.seen.entries == entries[..n]
  }

  lemma LongerCut(k: Suite, cut: string, text: string, longer: string, entries: seq<LogEntry>, more: seq<LogEntry>,
                  n: nat)
    requires CutAt(k, cut, text, entries, n) && text <= longer && entries <= more
    ensures CutAt(k, cut, longer, more, n)
  {
    assert entries[..n] == more[..n];
  }

  /** `v` has the log of `w`, or one line more behind it. */
  ghost predicate OneLineMore(w: World, v: World) {
    && LogText(w.disk.log).Ok? && LogText(v.disk.log).Ok? && LogText(w.disk.log).value <= LogText(v.disk.log).value
    && w.scan.seen.entries <= v.scan.seen.entries && |v.scan.seen.entries| <= |w.scan.seen.entries| + 1
  }

  lemma GrowText(k: Suite, w: World, path: Path, m: Manifest, record: Record, text: string, reach: Reach)
    requires LogText(w.disk.log).Ok? && LogText(w.disk.log).value <= text
    ensures OneLineMore(w, Grow(k, w, path, m, record, Ok(text), reach))
  {}

  lemma ExtendText(k: Suite, b: Build, w: World, t: Txn)
    requires Sound(k) && Kept(k, w) && LogReads(k, w.disk.log, w.scan) && ValidJob(t.job)
    ensures OneLineMore(w, Extend(k, b, w, t))
  {
    var m, record, text := ExtendGrows(k, b, w, t);
    GrowText(k, w, SidecarOf(RecordingOf(t.job)), m, record, text, t.reach);
  }

  lemma CutStays(k: Suite, cut: string, w: World, v: World, n: nat)
    requires OneLineMore(w, v) && CutAt(k, cut, LogText(w.disk.log).value, w.scan.seen.entries, n)
    ensures CutAt(k, cut, LogText(v.disk.log).value, v.scan.seen.entries, n)
  {
    LongerCut(k, cut, LogText(w.disk.log).value, LogText(v.disk.log).value, w.scan.seen.entries,
              v.scan.seen.entries, n);
  }

  lemma WholeText(k: Suite, log: FileState, scan: Scan)
    requires LogReads(k, log, scan)
    ensures CutAt(k, LogText(log).value, LogText(log).value, scan.seen.entries, |scan.seen.entries|)
  {
    assert scan.seen.entries[..|scan.seen.entries|] == scan.seen.entries;
  }

  lemma CutLines(k: Suite, cut: string, text: string, entries: seq<LogEntry>, n: nat)
    requires CutAt(k, cut, text, entries, n)
    ensures Lines(cut) <= Lines(text)
  {
    LinesOfConcat(cut, text[|cut|..]);
    assert text == cut + text[|cut|..];
  }

  lemma SomeLogged(k: Suite, b: Build, ts: seq<Txn>)
    requires Replay(k, b, ts).scan.seen.entries != []
    ensures ts != []
  {}

  /**
   The log alone does not show that its newest lines were cut off: the host's own log is accepted up to every
   one of its lines, with exactly the entries up to there.
   */
  lemma {:induction false} EveryCutReads(k: Suite, b: Build, ts: seq<Txn>, n: nat) returns (cut: string)
    requires Sound(k) && ValidJobs(ts) && n <= |Replay(k, b, ts).scan.seen.entries|
    ensures LogText(Replay(k, b, ts).disk.log).Ok?
    ensures CutAt(k, cut, LogText(Replay(k, b, ts).disk.log).value, Replay(k, b, ts).scan.seen.entries, n)
    ensures Lines(cut) <= Lines(LogText(Replay(k, b, ts).disk.log).value)
  {
    var v := Replay(k, b, ts);
    if n == |v.scan.seen.entries| {
      ReplaySane(k, b, ts);
      WholeText(k, v.disk.log, v.scan);
      cut := LogText(v.disk.log).value;
    } else {
      SomeLogged(k, b, ts);
      var init, t := ts[..|ts| - 1], ts[|ts| - 1];
      assert ts == init + [t];
      ReplaySane(k, b, init);
      ExtendText(k, b, Replay(k, b, init), t);
      cut := EveryCutReads(k, b, init, n);
      CutStays(k, cut, Replay(k, b, init), v, n);
    }
    CutLines(k, cut, LogText(v.disk.log).value, v.scan.seen.entries, n);
  }
}
