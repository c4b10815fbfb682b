/** Unsigned lines: a log may start with any number of them, and exactly what such a log can read as. */
module Legacy {
  import opened Wrappers
  import opened Manifests
  import opened Text
  import opened Signing
  import opened ChainLog
  import opened ChainDir
  import opened History
  import opened Quiescence
  import opened Tamper

  // ----- The text of unsigned lines

  /** The fields of this record can be read back from a line. */
  predicate WordRecord(r: Record) {
    IsWord(r.isoTs) && IsWord(r.user) && IsWord(r.sessionId) && IsWord(r.manifestHash)
  }

  ghost predicate WordRecords(rs: seq<Record>) {
    forall r :: r in rs ==> WordRecord(r)
  }

  function UnsignedWords(r: Record): seq<string> {
    [r.isoTs, r.user, r.sessionId, Decimal(r.part), r.manifestHash]
  }

  function UnsignedText(rs: seq<Record>): string {
    if rs == [] then ""
    else UnsignedText(rs[..|rs| - 1]) + (Spaced(UnsignedWords(rs[|rs| - 1])) + "\n")
  }

  function UnsignedEntries(rs: seq<Record>): (es: seq<LogEntry>)
    ensures |es| == |rs| && forall i :: 0 <= i < |es| ==> es[i] == LogEntry(rs[i], None)
  {
    seq(|rs|, i requires 0 <= i < |rs| => LogEntry(rs[i], None))
  }

  /** The verifier's state behind unsigned lines only. */
  function Fore(rs: seq<Record>): Scan {
    Scan(LogVerification(UnsignedEntries(rs), |rs|, 0), GENESIS_PREV)
  }

  lemma UnsignedWordsRead(r: Record)
    requires WordRecord(r)
    ensures var line := Spaced(UnsignedWords(r)); Words(line) == UnsignedWords(r) && Lines(line + "\n") == [line]
  {
    assert IsWord(Decimal(r.part));
    WordsOfSpaced(UnsignedWords(r));
    SpacedShape(UnsignedWords(r));
    OneLine(Spaced(UnsignedWords(r)));
  }

  lemma UnsignedLineReads(k: Suite, rs: seq<Record>, r: Record, lineno: nat)
    requires WordRecord(r)
    ensures ReadLine(k, Fore(rs), Spaced(UnsignedWords(r)), lineno) == Ok(Fore(rs + [r]))
  {
    UnsignedWordsRead(r);
    BlankHasNoWords(Spaced(UnsignedWords(r)));
    ParseOfDecimal(r.part);
    assert UnsignedEntries(rs + [r]) == UnsignedEntries(rs) + [LogEntry(r, None)];
  }

  ghost predicate FiveWords(lines: seq<string>) {
    forall i :: 0 <= i < |lines| ==> |Words(lines[i])| == LOG_FIELDS_LEGACY
  }

  function UnsignedLines(rs: seq<Record>): seq<string> {
    if rs == [] then [] else UnsignedLines(rs[..|rs| - 1]) + [Spaced(UnsignedWords(rs[|rs| - 1]))]
  }

  lemma {:induction false} LinesOfUnsigned(rs: seq<Record>)
    requires WordRecords(rs)
    ensures EndsLine(UnsignedText(rs)) && Lines(UnsignedText(rs)) == UnsignedLines(rs)
  {
    if rs != [] {
      var init, r := rs[..|rs| - 1], rs[|rs| - 1];
      LinesOfUnsigned(init);
      UnsignedWordsRead(r);
      LinesOfConcat(UnsignedText(init), Spaced(UnsignedWords(r)) + "\n");
    }
  }

  lemma {:induction false} UnsignedHaveFive(rs: seq<Record>)
    requires WordRecords(rs)
    ensures FiveWords(UnsignedLines(rs))
  {
    if rs != [] {
      UnsignedHaveFive(rs[..|rs| - 1]);
      UnsignedWordsRead(rs[|rs| - 1]);
    }
  }

  lemma {:induction false} UnsignedLinesRead(k: Suite, rs: seq<Record>)
    requires WordRecords(rs)
    ensures ReadLines(k, UnsignedLines(rs)) == Ok(Fore(rs))
  {
    if rs == [] {
      assert UnsignedEntries([]) == [];
    } else {
      var init, r := rs[..|rs| - 1], rs[|rs| - 1];
      assert rs == init + [r];
      UnsignedLinesRead(k, init);
      ReadOneMore(k, UnsignedLines(init), Spaced(UnsignedWords(r)));
      UnsignedLineReads(k, init, r, |UnsignedLines(init)| + 1);
    }
  }

  /** Unsigned lines verify by themselves, each as the record it was made from. */
  lemma UnsignedReads(k: Suite, rs: seq<Record>)
    requires WordRecords(rs)
    ensures ReadLog(k, UnsignedText(rs)) == Ok(Fore(rs))
    ensures EndsLine(UnsignedText(rs)) && FiveWords(Lines(UnsignedText(rs)))
  {
    LinesOfUnsigned(rs);
    UnsignedHaveFive(rs);
    UnsignedLinesRead(k, rs);
  }

  // ----- Unsigned lines in front change nothing that follows

  /** The state `st`, with these unsigned entries before its own. */
  function Shifted(rs: seq<Record>, st: Scan): Scan {
    Scan(LogVerification(UnsignedEntries(rs) + st.seen.entries, |rs| + st.seen.legacyLines, st.seen.signedLines),
         st.expectedPrev)
  }

  /** The two verdicts are the same, but for the entries in front and the line an error names. */
  predicate SameBehind(rs: seq<Record>, alone: Result<Scan, LogError>, behind: Result<Scan, LogError>) {
    if alone.Ok? then behind == Ok(Shifted(rs, alone.value)) else behind.Err?
  }

  lemma LineBehind(k: Suite, rs: seq<Record>, st: Scan, line: string, alone: nat, behind: nat)
    ensures SameBehind(rs, ReadLine(k, st, line, alone), ReadLine(k, Shifted(rs, st), line, behind))
  {
    var front, entries := UnsignedEntries(rs), st.seen.entries;
    forall e: LogEntry ensures (front + entries) + [e] == front + (entries + [e]) {
    }
  }

  lemma {:induction false} LinesBehind(k: Suite, rs: seq<Record>, front: seq<string>, lines: seq<string>, n: nat)
    requires ReadLines(k, front) == Ok(Fore(rs)) && n <= |lines|
    ensures SameBehind(rs, ReadUpTo(k, lines, n), ReadUpTo(k, front + lines, |front| + n))
  {
    if n == 0 {
      SameUpTo(k, front + lines, front, |front|);
      assert Shifted(rs, START) == Fore(rs);
    } else {
      LinesBehind(k, rs, front, lines, n - 1);
      var st := ReadUpTo(k, lines, n - 1);
      assert (front + lines)[|front| + n - 1] == lines[n - 1];
      if st.Ok? {
        LineBehind(k, rs, st.value, lines[n - 1], n, |front| + n);
      }
    }
  }

  /**
   Any unsigned lines, put in front of any log: the result is accepted if and only if the log was, with the
   invented entries first and everything else as before.
   */
  lemma UnsignedInFront(k: Suite, rs: seq<Record>, content: string)
    requires WordRecords(rs)
    ensures SameBehind(rs, ReadLog(k, content), ReadLog(k, UnsignedText(rs) + content))
  {
    var front, lines := Lines(UnsignedText(rs)), Lines(content);
    UnsignedReads(k, rs);
    LinesOfConcat(UnsignedText(rs), content);
    LinesBehind(k, rs, front, lines, |lines|);
  }

  // ----- Exactly what a log without forged signatures can read as

  lemma FieldsAreWords(line: string)
    requires |Words(line)| >= LOG_FIELDS_LEGACY
    ensures var f := Words(line); forall part: U32 :: WordRecord(Record.Record(f[0], f[1], f[2], part, f[4]))
  {
    WordsAreWords(line);
  }

  lemma LineRecords(k: Suite, st: Scan, line: string, lineno: nat)
    requires ReadLine(k, st, line, lineno).Ok? && WordRecords(RecordsIn(st.seen.entries))
    ensures WordRecords(RecordsIn(ReadLine(k, st, line, lineno).value.seen.entries))
  {
    BlankHasNoWords(line);
    if !Blank(line) {
      FieldsAreWords(line);
      var entries, more := st.seen.entries, ReadLine(k, st, line, lineno).value.seen.entries;
      assert more == entries + [more[|entries|]] && WordRecord(more[|entries|].record);
      assert RecordsIn(more) == RecordsIn(entries) + [more[|entries|].record];
    }
  }

  /** Every entry that is read has fields that can be read. */
  lemma {:induction false} EntriesAreWords(k: Suite, lines: seq<string>, n: nat)
    requires n <= |lines| && ReadUpTo(k, lines, n).Ok?
    ensures WordRecords(RecordsIn(ReadUpTo(k, lines, n).value.seen.entries))
  {
    if n > 0 {
      EntriesAreWords(k, lines, n - 1);
      LineRecords(k, ReadUpTo(k, lines, n - 1).value, lines[n - 1], n);
    }
  }

  /** Some unsigned records, then the first of the host's own entries. */
  ghost predicate ForePrefix(es: seq<LogEntry>, honest: seq<LogEntry>, rs: seq<Record>, n: nat) {
    WordRecords(rs) && n <= |honest| && es == UnsignedEntries(rs) + honest[..n]
  }

  lemma PrefixesAreFore(v: LogVerification, honest: seq<LogEntry>) returns (rs: seq<Record>)
    requires Prefixes(v, honest) && WordRecords(RecordsIn(v.entries))
    ensures ForePrefix(v.entries, honest, rs, v.signedLines)
  {
    rs := RecordsIn(v.entries)[..v.legacyLines];
    forall i | 0 <= i < v.legacyLines ensures v.entries[i] == UnsignedEntries(rs)[i] {
      assert v.entries[i].logHash.None?;
    }
    assert v.entries == v.entries[..v.legacyLines] + v.entries[v.legacyLines..];
    assert v.entries[..v.legacyLines] == UnsignedEntries(rs);
  }

  ghost predicate AllLinked(es: seq<LogEntry>) {
    forall i :: 0 <= i < |es| ==> es[i].logHash.Some?
  }

  /** A cut of the host's log has no unsigned line. */
  lemma CutIsSigned(k: Suite, cut: string, text: string, honest: seq<LogEntry>, n: nat)
    requires AllLinked(honest) && CutAt(k, cut, text, honest, n)
    ensures var v := ReadLog(k, cut).value.seen; v.entries == honest[..n] && v.legacyLines == 0 && v.signedLines == n
  {
    var lines := Lines(cut);
    var legacy, rs := AcceptedShape(k, lines, |lines|);
    SignedEntriesAt(k, rs, 0);
    assert AllLinked(legacy + SignedEntries(k, rs));
    if legacy != [] {
      LegacyShows(legacy, SignedEntries(k, rs));
      assert false;
    }
  }

  lemma FewerLinkTexts(k: Suite, rs: seq<Record>, n: nat)
    requires n <= |rs|
    ensures LinkTexts(k, rs[..n]) <= LinkTexts(k, rs)
  {
    forall i | 0 <= i < n ensures LinkText(k, rs[..n], i) == LinkText(k, rs, i) {
      assert rs[..n][..i] == rs[..i];
    }
    forall t | t in LinkTexts(k, rs[..n]) ensures t in LinkTexts(k, rs) {
      var i :| 0 <= i < n && t == LinkText(k, rs[..n], i);
      assert t == LinkText(k, rs, i);
    }
  }

  lemma FewerTell(k: Suite, rs: seq<Record>, n: nat, drafts: seq<Manifest>)
    requires n <= |rs| && LogsTell(k, rs, rs, drafts)
    ensures LogsTell(k, rs, rs[..n], drafts)
  {
    FewerLinkTexts(k, rs, n);
    var own, fewer := LinkTexts(k, rs), LinkTexts(k, rs[..n]);
    assert own + fewer + Texts(drafts) == own + own + Texts(drafts);
  }

  /** Unsigned lines and lines of the host's own log bear no signature but the key's own. */
  lemma ForeUnforged(k: Suite, front: seq<string>, lines: seq<string>, own: seq<string>, rs: seq<Record>,
                     drafts: seq<Manifest>)
    requires FiveWords(front) && lines <= own && Unforged(k, own, rs, drafts)
    ensures Unforged(k, front + lines, rs, drafts)
  {
    forall d | Carried(k, front + lines, d) ensures KeySigned(k, rs, drafts, d) {
      var i :| 0 <= i < |front + lines| && CarriesSignature(k, (front + lines)[i], d);
      assert i >= |front| ==> own[i - |front|] == (front + lines)[i];
      assert Carried(k, own, d);
    }
  }

  /** What unsigned lines and a cut of the host's log read as. */
  lemma ForeReads(k: Suite, rs: seq<Record>, cut: string, text: string, honest: seq<LogEntry>, n: nat)
    requires WordRecords(rs) && AllLinked(honest) && CutAt(k, cut, text, honest, n)
    ensures var st := ReadLog(k, UnsignedText(rs) + cut);
      && st.Ok? && SignedPart(st.value.seen) == honest[..n] && ForePrefix(st.value.seen.entries, honest, rs, n)
  {
    UnsignedInFront(k, rs, cut);
    CutIsSigned(k, cut, text, honest, n);
    assert (UnsignedEntries(rs) + honest[..n])[|rs|..] == honest[..n];
  }

  lemma ForeSigned(k: Suite, rs: seq<Record>, cut: string, text: string, logged: seq<Record>, drafts: seq<Manifest>)
    requires WordRecords(rs) && Lines(cut) <= Lines(text) && Unforged(k, Lines(text), logged, drafts)
    ensures Unforged(k, Lines(UnsignedText(rs) + cut), logged, drafts)
  {
    UnsignedReads(k, rs);
    LinesOfConcat(UnsignedText(rs), cut);
    ForeUnforged(k, Lines(UnsignedText(rs)), Lines(cut), Lines(text), logged, drafts);
  }

  lemma TrustedBy(k: Suite, w: World, content: string, n: nat, drafts: seq<Manifest>)
    requires LinesMatch(w.scan.seen.entries, w.logged, w.chain) && n <= |w.logged|
    requires ReadLog(k, content).Ok? && SignedPart(ReadLog(k, content).value.seen) == w.scan.seen.entries[..n]
    requires LogsTell(k, RecordsLogged(w.logged), RecordsLogged(w.logged), drafts)
    requires Unforged(k, Lines(content), RecordsLogged(w.logged), drafts)
    ensures Trusted(k, w, content, drafts)
  {
    FewerTell(k, RecordsLogged(w.logged), n, drafts);
    assert RecordsIn(w.scan.seen.entries[..n]) == RecordsLogged(w.logged)[..n];
  }

  lemma ForeTrusted(k: Suite, w: World, rs: seq<Record>, cut: string, text: string, n: nat, drafts: seq<Manifest>)
    requires WordRecords(rs) && LinesMatch(w.scan.seen.entries, w.logged, w.chain)
    requires CutAt(k, cut, text, w.scan.seen.entries, n) && Lines(cut) <= Lines(text)
    requires LogsTell(k, RecordsLogged(w.logged), RecordsLogged(w.logged), drafts)
    requires Unforged(k, Lines(text), RecordsLogged(w.logged), drafts)
    ensures Trusted(k, w, UnsignedText(rs) + cut, drafts)
    ensures ForePrefix(ReadLog(k, UnsignedText(rs) + cut).value.seen.entries, w.scan.seen.entries, rs, n)
  {
    ForeReads(k, rs, cut, text, w.scan.seen.entries, n);
    ForeSigned(k, rs, cut, text, RecordsLogged(w.logged), drafts);
    TrustedBy(k, w, UnsignedText(rs) + cut, n, drafts);
  }

  /**
   Log tamper evidence, exactly. The entries that a log without forged signatures can be read as are these and
   no others: any unsigned records, then the first `n` of those the host logged, for any `n`.
   */
  lemma LogPassesExactly(k: Suite, b: Build, ts: seq<Txn>, drafts: seq<Manifest>, es: seq<LogEntry>)
    requires Sound(k) && ValidJobs(ts)
    requires var logged := RecordsLogged(Replay(k, b, ts).logged); LogsTell(k, logged, logged, drafts)
    ensures ReadsAs(k, Replay(k, b, ts), drafts, es)
      <==> exists rs, n: nat :: ForePrefix(es, Replay(k, b, ts).scan.seen.entries, rs, n)
  {
    var w := Replay(k, b, ts);
    if ReadsAs(k, w, drafts, es) {
      var content :| Trusted(k, w, content, drafts) && ReadLog(k, content).value.seen.entries == es;
      var rs := TrustedIsFore(k, b, ts, content, drafts);
    }
    if rs, n: nat :| ForePrefix(es, w.scan.seen.entries, rs, n) {
      var content := ForeText(k, b, ts, drafts, rs, n);
      assert ReadLog(k, content).value.seen.entries == es;
    }
  }

  lemma TrustedIsFore(k: Suite, b: Build, ts: seq<Txn>, content: string, drafts: seq<Manifest>)
      returns (rs: seq<Record>)
    requires Sound(k) && ValidJobs(ts) && Trusted(k, Replay(k, b, ts), content, drafts)
    ensures var v := ReadLog(k, content).value.seen;
      ForePrefix(v.entries, Replay(k, b, ts).scan.seen.entries, rs, v.signedLines)
  {
    LogTamperEvident(k, b, ts, content, drafts);
    EntriesAreWords(k, Lines(content), |Lines(content)|);
    rs := PrefixesAreFore(ReadLog(k, content).value.seen, Replay(k, b, ts).scan.seen.entries);
  }

  lemma ForeText(k: Suite, b: Build, ts: seq<Txn>, drafts: seq<Manifest>, rs: seq<Record>, n: nat)
      returns (content: string)
    requires Sound(k) && ValidJobs(ts) && WordRecords(rs) && n <= |Replay(k, b, ts).scan.seen.entries|
    requires var logged := RecordsLogged(Replay(k, b, ts).logged); LogsTell(k, logged, logged, drafts)
    ensures Trusted(k, Replay(k, b, ts), content, drafts)
    ensures ForePrefix(ReadLog(k, content).value.seen.entries, Replay(k, b, ts).scan.seen.entries, rs, n)
  {
    var w := Replay(k, b, ts);
    ReplaySane(k, b, ts);
    OwnLogIsTrusted(k, b, ts, drafts);
    var cut := EveryCutReads(k, b, ts, n);
    ForeTrusted(k, w, rs, cut, LogText(w.disk.log).value, n, drafts);
    content := UnsignedText(rs) + cut;
  }

  ghost predicate ReadsAs(k: Suite, w: World, drafts: seq<Manifest>, es: seq<LogEntry>) {
    exists content :: Trusted(k, w, content, drafts) && ReadLog(k, content).value.seen.entries == es
  }
}
