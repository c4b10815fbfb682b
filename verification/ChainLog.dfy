/** The signed log: its text format, its own hash chain, and the verifier that reads it back. */
module ChainLog {
  import opened Wrappers
  import opened Manifests
  import opened Text
  import opened Signing

  const LOG_FIELDS_SIGNED := 8
  const LOG_FIELDS_LEGACY := 5

  datatype LogError =
    | LogUnreadable
    | UnsafeField(name: string)
    | TailFieldCount(fields: nat)
    | FieldCount(line: nat, fields: nat)
    | Downgraded(line: nat)
    | PartNotNumber(line: nat)
    | HashMismatch(line: nat)
    | LineSignature(line: nat)
    | BrokenLink(line: nat)
    | WriteFailed

  /** What one append records. */
  datatype Record = Record(isoTs: string, user: string, sessionId: string, part: U32, manifestHash: string)

  datatype LogEntry = LogEntry(record: Record, logHash: Option<string>)

  datatype LogVerification = LogVerification(entries: seq<LogEntry>, legacyLines: nat, signedLines: nat)

  /** The verifier's state between lines. */
  datatype Scan = Scan(seen: LogVerification, expectedPrev: string)

  const START: Scan := Scan(LogVerification([], 0, 0), GENESIS_PREV)

  /** `tip_manifest_hash`: the newest manifest hash the log claims, signed or not. */
  function TipHash(v: LogVerification): Option<string> {
    if v.entries == [] then None else Some(v.entries[|v.entries| - 1].record.manifestHash)
  }

  // ----- The digest of a line

  function Terminated(fields: seq<string>): string {
    if fields == [] then "" else fields[0] + "\0" + Terminated(fields[1..])
  }

  function DigestFields(r: Record, logPrev: string): seq<string> {
    [r.isoTs, r.user, r.sessionId, Decimal(r.part), r.manifestHash, logPrev]
  }

  /** What is hashed: six fields, each closed by a NUL. */
  function Preimage(r: Record, logPrev: string): string {
    Terminated(DigestFields(r, logPrev))
  }

  function LogDigest(k: Suite, r: Record, logPrev: string): string {
    k.sha(Preimage(r, logPrev))
  }

  // ----- Reading a line

  function ReadLine(k: Suite, st: Scan, line: string, lineno: nat): Result<Scan, LogError> {
    if Blank(line) then Ok(st)
    else
      var f := Words(line);
      if |f| == LOG_FIELDS_LEGACY then
        if st.seen.signedLines > 0 then Err(Downgraded(lineno))
        else
          match ParseU32(f[3])
          case None => Err(PartNotNumber(lineno))
          case Some(part) =>
            var entry := LogEntry(Record(f[0], f[1], f[2], part, f[4]), None);
            Ok(st.(seen := st.seen.(entries := st.seen.entries + [entry], legacyLines := st.seen.legacyLines + 1)))
      else if |f| == LOG_FIELDS_SIGNED then
        match ParseU32(f[3])
        case None => Err(PartNotNumber(lineno))
        case Some(part) =>
          var r := Record(f[0], f[1], f[2], part, f[4]);
          var digest := LogDigest(k, r, f[5]);
          if digest != f[6] then Err(HashMismatch(lineno))
          else if !k.accepts(digest, f[7]) then Err(LineSignature(lineno))
          else if f[5] != st.expectedPrev then Err(BrokenLink(lineno))
          else
            var seen := st.seen.(entries := st.seen.entries + [LogEntry(r, Some(f[6]))],
                                 signedLines := st.seen.signedLines + 1);
            Ok(Scan(seen, f[6]))
      else Err(FieldCount(lineno, |f|))
  }

  /** One line by its words: what is accepted and what it adds, and each error with its own condition. */
  lemma LineMeans(k: Suite, st: Scan, line: string, lineno: nat)
    ensures var f, r := Words(line), ReadLine(k, st, line, lineno);
      if Blank(line) then r == Ok(st)
      else if |f| != 5 && |f| != 8 then r == Err(FieldCount(lineno, |f|))
      else if |f| == 5 && st.seen.signedLines > 0 then r == Err(Downgraded(lineno))
      else if ParseU32(f[3]).None? then r == Err(PartNotNumber(lineno))
      else
        var record := Record(f[0], f[1], f[2], ParseU32(f[3]).value, f[4]);
        if |f| == 5 then
          r == Ok(Scan(LogVerification(st.seen.entries + [LogEntry(record, None)], st.seen.legacyLines + 1,
                                       st.seen.signedLines), st.expectedPrev))
        else if k.sha(Preimage(record, f[5])) != f[6] then r == Err(HashMismatch(lineno))
        else if !k.accepts(f[6], f[7]) then r == Err(LineSignature(lineno))
        else if f[5] != st.expectedPrev then r == Err(BrokenLink(lineno))
        else
          r == Ok(Scan(LogVerification(st.seen.entries + [LogEntry(record, Some(f[6]))], st.seen.legacyLines,
                                       st.seen.signedLines + 1), f[6]))
  {}

  /** The state after the first `n` lines. */
  function ReadUpTo(k: Suite, lines: seq<string>, n: nat): Result<Scan, LogError>
    requires n <= |lines|
  {
    if n == 0 then Ok(START)
    else
      var before := ReadUpTo(k, lines, n - 1);
      if before.Err? then before else ReadLine(k, before.value, lines[n - 1], n)
  }

  function ReadLines(k: Suite, lines: seq<string>): Result<Scan, LogError> {
    ReadUpTo(k, lines, |lines|)
  }

  /** The verdict on a log text. */
  function ReadLog(k: Suite, content: string): Result<Scan, LogError> {
    ReadLines(k, Lines(content))
  }

  lemma {:induction false} ErrorsStick(k: Suite, lines: seq<string>, i: nat, n: nat)
    requires i <= n <= |lines| && ReadUpTo(k, lines, i).Err?
    ensures ReadUpTo(k, lines, n) == ReadUpTo(k, lines, i)
    decreases n
  {
    if i < n {
      ErrorsStick(k, lines, i, n - 1);
    }
  }

  lemma LineVerdict(k: Suite, lines: seq<string>, i: nat, st: Scan)
    requires i < |lines| && ReadUpTo(k, lines, i) == Ok(st)
    ensures var verdict := ReadLine(k, st, lines[i], i + 1);
      ReadUpTo(k, lines, i + 1) == verdict && (verdict.Err? ==> ReadLines(k, lines) == verdict)
  {
    if ReadUpTo(k, lines, i + 1).Err? {
      ErrorsStick(k, lines, i + 1, |lines|);
    }
  }

  // ----- Appending a line

  predicate SafeField(value: string) {
    value != "" && forall i :: 0 <= i < |value| ==> !IsSpace(value[i]) && value[i] != '\0'
  }

  /** The label of the first field that could be read back as more than one. */
  function UnsafeLabel(r: Record): Option<string> {
    if !SafeField(r.isoTs) then Some("timestamp")
    else if !SafeField(r.user) then Some("user")
    else if !SafeField(r.sessionId) then Some("session_id")
    else if !SafeField(r.manifestHash) then Some("manifest_hash")
    else None
  }

  /** `read_log_tip`: the hash of the last line that is not blank, among the first `n`. */
  function TipUpTo(lines: seq<string>, n: nat): Result<string, LogError>
    requires n <= |lines|
  {
    if n == 0 then Ok(GENESIS_PREV)
    else if Blank(lines[n - 1]) then TipUpTo(lines, n - 1)
    else
      var f := Words(lines[n - 1]);
      if |f| == LOG_FIELDS_LEGACY then Ok(GENESIS_PREV)
      else if |f| == LOG_FIELDS_SIGNED then Ok(f[6])
      else Err(TailFieldCount(|f|))
  }

  function ReadTip(lines: seq<string>): Result<string, LogError> {
    TipUpTo(lines, |lines|)
  }

  /** The last line that is not blank decides what an append links to, and whether it is made. */
  lemma {:induction false} TipMeans(lines: seq<string>, i: nat, n: nat)
    requires i < n <= |lines| && !Blank(lines[i]) && forall j :: i < j < n ==> Blank(lines[j])
    ensures var f := Words(lines[i]);
      TipUpTo(lines, n) == if |f| == 5 then Ok(GENESIS_PREV)
                           else if |f| == 8 then Ok(f[6])
                           else Err(TailFieldCount(|f|))
    decreases n
  {
    if i < n - 1 {
      TipMeans(lines, i, n - 1);
    }
  }

  lemma {:induction false} NoTip(lines: seq<string>, n: nat)
    requires n <= |lines| && forall j :: 0 <= j < n ==> Blank(lines[j])
    ensures TipUpTo(lines, n) == Ok(GENESIS_PREV)
  {
    if n > 0 {
      NoTip(lines, n - 1);
    }
  }

  function LineWords(k: Suite, r: Record, logPrev: string): seq<string> {
    var digest := LogDigest(k, r, logPrev);
    [r.isoTs, r.user, r.sessionId, Decimal(r.part), r.manifestHash, logPrev, digest, k.sign(digest)]
  }

  function LogLine(k: Suite, r: Record, logPrev: string): string {
    Spaced(LineWords(k, r, logPrev))
  }

  /** What is hashed, spelled out: six fields, each closed by a NUL. */
  lemma PreimageIs(r: Record, prev: string)
    ensures Preimage(r, prev) == r.isoTs + "\0" + (r.user + "\0" + (r.sessionId + "\0" + (Decimal(r.part) + "\0"
                                 + (r.manifestHash + "\0" + (prev + "\0")))))
  {
    var a, b, c, d, e, f := r.isoTs, r.user, r.sessionId, Decimal(r.part), r.manifestHash, prev;
    OneTerminated(f, []);
    OneTerminated(e, [f]);
    OneTerminated(d, [e, f]);
    OneTerminated(c, [d, e, f]);
    OneTerminated(b, [c, d, e, f]);
    OneTerminated(a, [b, c, d, e, f]);
    assert DigestFields(r, prev) == [a, b, c, d, e, f];
    assert f + "\0" + "" == f + "\0";
  }

  lemma OneTerminated(first: string, fields: seq<string>)
    ensures Terminated([first] + fields) == first + "\0" + Terminated(fields)
  {
    assert ([first] + fields)[1..] == fields;
  }

  /** What is written, spelled out: eight words with single spaces between them. */
  lemma LineIs(k: Suite, r: Record, prev: string)
    ensures var digest := k.sha(Preimage(r, prev));
      LogLine(k, r, prev) == r.isoTs + " " + (r.user + " " + (r.sessionId + " " + (Decimal(r.part) + " "
                             + (r.manifestHash + " " + (prev + " " + (digest + " " + k.sign(digest)))))))
  {
    var a, b, c, d, e, f := r.isoTs, r.user, r.sessionId, Decimal(r.part), r.manifestHash, prev;
    var g := k.sha(Preimage(r, prev));
    var h := k.sign(g);
    OneSpaced(g, [h]);
    OneSpaced(f, [g, h]);
    OneSpaced(e, [f, g, h]);
    OneSpaced(d, [e, f, g, h]);
    OneSpaced(c, [d, e, f, g, h]);
    OneSpaced(b, [c, d, e, f, g, h]);
    OneSpaced(a, [b, c, d, e, f, g, h]);
    assert LineWords(k, r, prev) == [a, b, c, d, e, f, g, h];
  }

  lemma OneSpaced(first: string, words: seq<string>)
    requires words != []
    ensures Spaced([first] + words) == first + " " + Spaced(words)
  {
    assert ([first] + words)[1..] == words;
  }

  /** The log text after one append, or the reason nothing is written. */
  function Append(k: Suite, content: string, r: Record): Result<string, LogError> {
    match UnsafeLabel(r)
    case Some(name) => Err(UnsafeField(name))
    case None =>
      match ReadTip(Lines(content))
      case Err(e) => Err(e)
      case Ok(tip) => Ok(content + (LogLine(k, r, tip) + "\n"))
  }

  // ----- The verifier's expected predecessor is what the next append reads

  lemma {:induction false} UnsignedStartsAtGenesis(k: Suite, lines: seq<string>, n: nat)
    requires n <= |lines| && ReadUpTo(k, lines, n).Ok?
    ensures var st := ReadUpTo(k, lines, n).value;
      (st.seen.signedLines == 0 ==> st.expectedPrev == GENESIS_PREV) && IsWord(st.expectedPrev)
  {
    if n > 0 {
      UnsignedStartsAtGenesis(k, lines, n - 1);
      WordsAreWords(lines[n - 1]);
    } else {
      assert IsWord(GENESIS_PREV);
    }
  }

  lemma {:induction false} TipAgrees(k: Suite, lines: seq<string>, n: nat)
    requires n <= |lines| && ReadUpTo(k, lines, n).Ok?
    ensures TipUpTo(lines, n) == Ok(ReadUpTo(k, lines, n).value.expectedPrev)
  {
    if n > 0 {
      TipAgrees(k, lines, n - 1);
      UnsignedStartsAtGenesis(k, lines, n - 1);
    }
  }

  // ----- A successful append is read back as one more signed entry

  lemma {:induction false} SpacedShape(words: seq<string>)
    requires words != [] && forall w :: w in words ==> IsWord(w)
    ensures var s := Spaced(words); s != [] && !IsSpace(s[0]) && !IsSpace(s[|s| - 1]) && '\n' !in s
  {
    assert IsWord(words[0]);
    if |words| > 1 {
      SpacedShape(words[1..]);
    }
  }

  lemma DigestIsWord(s: string)
    requires IsDigest(s)
    ensures IsWord(s)
  {}

  lemma LineWordsAreWords(k: Suite, r: Record, logPrev: string)
    requires Sound(k) && UnsafeLabel(r).None? && IsWord(logPrev)
    ensures forall w :: w in LineWords(k, r, logPrev) ==> IsWord(w)
    ensures Words(LogLine(k, r, logPrev)) == LineWords(k, r, logPrev)
  {
    DigestIsWord(LogDigest(k, r, logPrev));
    assert IsWord(Decimal(r.part));
    WordsOfSpaced(LineWords(k, r, logPrev));
  }

  function Extended(k: Suite, st: Scan, r: Record): Scan {
    var digest := LogDigest(k, r, st.expectedPrev);
    Scan(LogVerification(st.seen.entries + [LogEntry(r, Some(digest))], st.seen.legacyLines, st.seen.signedLines + 1),
         digest)
  }

  lemma OwnLineReads(k: Suite, st: Scan, r: Record, tail: string, lineno: nat)
    requires Sound(k) && UnsafeLabel(r).None? && IsWord(st.expectedPrev) && Blank(tail)
    ensures ReadLine(k, st, tail + LogLine(k, r, st.expectedPrev), lineno) == Ok(Extended(k, st, r))
  {
    var line := LogLine(k, r, st.expectedPrev);
    LineWordsAreWords(k, r, st.expectedPrev);
    SpacedShape(LineWords(k, r, st.expectedPrev));
    BlankPrefix(tail, line);
    assert (tail + line)[|tail|] == line[0];
    ParseOfDecimal(r.part);
  }

  /** Lines further on do not change what the first `n` mean. */
  lemma {:induction false} SameUpTo(k: Suite, a: seq<string>, b: seq<string>, n: nat)
    requires n <= |a| && n <= |b| && forall i :: 0 <= i < n ==> a[i] == b[i]
    ensures ReadUpTo(k, a, n) == ReadUpTo(k, b, n)
  {
    if n > 0 {
      SameUpTo(k, a, b, n - 1);
    }
  }

  lemma ReadOneMore(k: Suite, body: seq<string>, line: string)
    ensures var before := ReadLines(k, body);
      ReadLines(k, body + [line]) == if before.Err? then before else ReadLine(k, before.value, line, |body| + 1)
  {
    SameUpTo(k, body + [line], body, |body|);
  }

  lemma ScanBeforeTail(k: Suite, content: string)
    requires ReadLog(k, content).Ok?
    ensures ReadLines(k, Lines(Body(content))).Ok?
    ensures Blank(Tail(content)) ==> ReadLines(k, Lines(Body(content))) == ReadLog(k, content)
    ensures !Blank(Tail(content)) ==> |Words(Tail(content))| in {LOG_FIELDS_LEGACY, LOG_FIELDS_SIGNED}
  {
    var body, tail, lines := Lines(Body(content)), Tail(content), Lines(content);
    LinesOfConcat(Body(content), tail);
    LinesOfTail(content);
    if tail == [] {
      assert lines == body;
    } else {
      assert lines == body + [tail];
      ReadOneMore(k, body, tail);
    }
  }

  lemma BlankHasNoWords(s: string)
    ensures Blank(s) ==> Words(s) == []
  {
    if Blank(s) {
      BlankPrefix(s, "");
      assert s + "" == s;
    }
  }

  lemma GluedLineFails(k: Suite, st: Scan, tail: string, line: string, lineno: nat)
    requires |Words(tail)| in {LOG_FIELDS_LEGACY, LOG_FIELDS_SIGNED} && |Words(line)| == LOG_FIELDS_SIGNED
    ensures ReadLine(k, st, tail + line, lineno).Err?
  {
    GluedWordCount(tail, line);
    BlankHasNoWords(tail + line);
  }

  /** Where an append puts its line, and that it links to what the verifier last saw. */
  lemma AppendLines(k: Suite, content: string, r: Record)
    requires Sound(k) && ReadLog(k, content).Ok? && UnsafeLabel(r).None?
    ensures var line := LogLine(k, r, ReadLog(k, content).value.expectedPrev);
      && Append(k, content, r) == Ok(content + (line + "\n"))
      && Words(line) == LineWords(k, r, ReadLog(k, content).value.expectedPrev)
      && Lines(content + (line + "\n")) == Lines(Body(content)) + [Tail(content) + line]
  {
    var st := ReadLog(k, content).value;
    TipAgrees(k, Lines(content), |Lines(content)|);
    UnsignedStartsAtGenesis(k, Lines(content), |Lines(content)|);
    LineWordsAreWords(k, r, st.expectedPrev);
    SpacedShape(LineWords(k, r, st.expectedPrev));
    LinesOfAppend(content, LogLine(k, r, st.expectedPrev));
  }

  /**
   Appending to an accepted log succeeds for every safe record, and the result is accepted with exactly
   that record added if and only if nothing but blanks followed the last newline.
   */
  lemma AppendVerifies(k: Suite, content: string, r: Record)
    requires Sound(k) && ReadLog(k, content).Ok? && UnsafeLabel(r).None?
    ensures Append(k, content, r).Ok?
    ensures var longer := ReadLog(k, Append(k, content, r).value);
      if Blank(Tail(content)) then longer == Ok(Extended(k, ReadLog(k, content).value, r)) else longer.Err?
  {
    var st := ReadLog(k, content).value;
    var line, tail, body := LogLine(k, r, st.expectedPrev), Tail(content), Lines(Body(content));
    AppendLines(k, content, r);
    ScanBeforeTail(k, content);
    ReadOneMore(k, body, tail + line);
    if Blank(tail) {
      UnsignedStartsAtGenesis(k, Lines(content), |Lines(content)|);
      OwnLineReads(k, st, r, tail, |body| + 1);
    } else {
      GluedLineFails(k, ReadLines(k, body).value, tail, line, |body| + 1);
    }
  }

  /** What an append leaves ends in a newline, so it can be appended to again. */
  lemma AppendTerminates(k: Suite, content: string, r: Record)
    requires Append(k, content, r).Ok?
    ensures Tail(Append(k, content, r).value) == ""
  {}

  /** A log text that verifies, up to its last newline. */
  ghost predicate TextReads(k: Suite, content: string, scan: Scan) {
    Tail(content) == "" && ReadLog(k, content) == Ok(scan)
  }

  /** The same for a log that ends in a newline, as every log the recorder wrote does. */
  lemma TextGrows(k: Suite, content: string, scan: Scan, r: Record) returns (longer: string)
    requires Sound(k) && TextReads(k, content, scan) && UnsafeLabel(r).None?
    ensures Append(k, content, r) == Ok(longer) && TextReads(k, longer, Extended(k, scan, r)) && content <= longer
  {
    AppendVerifies(k, content, r);
    AppendTerminates(k, content, r);
    longer := Append(k, content, r).value;
  }

  // ----- The digest preimage is unambiguous

  function Nuls(s: string): nat {
    if s == [] then 0 else (if s[0] == '\0' then 1 else 0) + Nuls(s[1..])
  }

  lemma {:induction false} NulsConcat(a: string, b: string)
    ensures Nuls(a + b) == Nuls(a) + Nuls(b)
  {
    if a == [] {
      assert a + b == b;
    } else {
      assert (a + b)[1..] == a[1..] + b;
      NulsConcat(a[1..], b);
    }
  }

  lemma {:induction false} NulFree(s: string)
    ensures Nuls(s) == 0 <==> '\0' !in s
  {
    if s != [] {
      NulFree(s[1..]);
      assert s == [s[0]] + s[1..];
    }
  }

  lemma {:induction false} TerminatedNuls(fields: seq<string>)
    ensures Nuls(Terminated(fields)) >= |fields|
    ensures Nuls(Terminated(fields)) == |fields| <==> forall f :: f in fields ==> '\0' !in f
  {
    if fields != [] {
      var f, rest := fields[0], Terminated(fields[1..]);
      NulsConcat(f + "\0", rest);
      NulsConcat(f, "\0");
      NulFree(f);
      TerminatedNuls(fields[1..]);
      assert fields == [f] + fields[1..];
    }
  }

  lemma {:induction false} TerminatedUnique(a: seq<string>, b: seq<string>)
    requires |a| == |b| && Terminated(a) == Terminated(b)
    requires forall f :: f in a ==> '\0' !in f
    ensures a == b
  {
    TerminatedNuls(a);
    TerminatedNuls(b);
    if a != [] {
      var x, y := "\0" + Terminated(a[1..]), "\0" + Terminated(b[1..]);
      assert Terminated(a) == a[0] + x && Terminated(b) == b[0] + y;
      assert a[0] in a && b[0] in b;
      SpanUnique(c => c != '\0', a[0], x, b[0], y);
      assert Terminated(a[1..]) == x[1..] && Terminated(b[1..]) == y[1..];
      TerminatedUnique(a[1..], b[1..]);
      assert a == [a[0]] + a[1..] && b == [b[0]] + b[1..];
    }
  }

  predicate NulFreeRecord(r: Record) {
    '\0' !in r.isoTs && '\0' !in r.user && '\0' !in r.sessionId && '\0' !in r.manifestHash
  }

  /** The preimage of NUL-free fields is that of no other record, even of one whose fields hold NUL. */
  lemma PreimageUnambiguous(r: Record, prev: string, other: Record, otherPrev: string)
    requires NulFreeRecord(r) && '\0' !in prev
    requires Preimage(r, prev) == Preimage(other, otherPrev)
    ensures r == other && prev == otherPrev
  {
    var a, b := DigestFields(r, prev), DigestFields(other, otherPrev);
    assert forall i :: 0 <= i < |Decimal(r.part)| ==> IsDigit(Decimal(r.part)[i]);
    TerminatedUnique(a, b);
    assert a[0] == b[0] && a[1] == b[1] && a[2] == b[2] && a[3] == b[3] && a[4] == b[4] && a[5] == b[5];
    NumeralOfDecimal(r.part);
    NumeralOfDecimal(other.part);
  }
}
