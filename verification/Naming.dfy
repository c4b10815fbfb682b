/** The names the verifier goes by, spelled out: what counts as a recording, as a sidecar, and as unsigned. */
module Naming {
  import opened Wrappers
  import opened Manifests
  import opened StreamReader
  import opened Signing
  import opened ChainDir
  import opened History
  import opened Corpus
  import opened Retention

  ghost predicate Ends(name: string, suffix: string) {
    exists stem: string :: name == stem + suffix
  }

  lemma EndsMeans(name: string, suffix: string)
    ensures EndsWith(name, suffix) <==> Ends(name, suffix)
  {
    if EndsWith(name, suffix) {
      assert name == name[..|name| - |suffix|] + suffix;
    }
    if stem: string :| name == stem + suffix {
      assert name[|name| - |suffix|..] == suffix;
    }
  }

  /** A recording's name ends in `.age` or `.cast`; a sidecar's, whatever else it holds, in `.manifest.json`. */
  ghost predicate NamesRecording(name: string) {
    (Ends(name, ".age") || Ends(name, ".cast")) && !Ends(name, ".manifest.json")
  }

  lemma RecordingMeans(name: string)
    ensures IsRecording(name) <==> NamesRecording(name)
    ensures EndsWith(name, SIDECAR) <==> Ends(name, ".manifest.json")
  {
    EndsMeans(name, ".age");
    EndsMeans(name, ".cast");
    EndsMeans(name, ".manifest.json");
  }

  ghost predicate IsFile(root: seq<Child>, p: Place) {
    var n := NodeAt(root, p.dir, p.name);
    n.Some? && n.value.File?
  }

  /** The walk lists, at any depth, exactly the files with these names, and a sidecar with the manifest in it. */
  lemma WalkLists(root: seq<Child>, p: Place)
    requires WellFormed(root) && Walk([], root).Ok? && p.name != ""
    ensures p in Walk([], root).value.recordings <==> IsFile(root, p) && NamesRecording(p.name)
    ensures forall m :: Entry(p, m) in Walk([], root).value.entries <==>
      (IsFile(root, p) && Ends(p.name, ".manifest.json") && NodeAt(root, p.dir, p.name).value.manifest == Some(m))
  {
    WalkComplete([], root, Walk([], root).value, p);
    BelowRoot(root, p);
    RecordingMeans(p.name);
  }

  /** No sidecar was checked against this file. */
  ghost predicate Unclaimed(k: Suite, root: seq<Child>, p: Place)
    requires Walk([], root).Ok?
  {
    forall e :: e in Walk([], root).value.entries ==> CheckerOf(k, root)(e) != Ok(Some(p))
  }

  /** What is reported as unsigned, and nothing else is: each file so named that no sidecar was checked against. */
  lemma UnsignedExactly(k: Suite, root: seq<Child>, checkChain: bool, p: Place)
    requires WellFormed(root) && Walk([], root).Ok? && p.name != ""
    ensures p in Report(k, root, checkChain).unsignedRecordings <==>
      IsFile(root, p) && NamesRecording(p.name) && Unclaimed(k, root, p)
  {
    UnsignedMeans(k, root, checkChain, p);
    RecordingMeans(p.name);
  }

  /** The walk fails exactly at a file named like a sidecar that is no manifest. */
  lemma WalkFailsAt(root: seq<Child>)
    requires WellFormed(root) && Walk([], root).Err?
    ensures Walk([], root).error.NotAManifest? && Ends(Walk([], root).error.at.name, ".manifest.json")
  {
    WalkFails([], root);
    RecordingMeans(Walk([], root).error.at.name);
  }

  // ----- Which recording belongs to a sidecar

  /** The file the sidecar is named after, if it is there; otherwise the one its manifest names, beside it. */
  lemma LocatesRecording(root: seq<Child>, dir: seq<string>, stem: string, m: Manifest)
    ensures var r, own := RecordingFor(root, Place(dir, stem + ".manifest.json"), m), Place(dir, stem);
      && (Present(root, own) ==> r == Some(own))
      && (!Present(root, own) ==>
           match BaseName(m.recordingFile)
           case None => r == None
           case Some(base) => r == if Present(root, Place(dir, base)) then Some(Place(dir, base)) else None)
  {
    assert (stem + ".manifest.json")[..|stem|] == stem;
    assert (stem + ".manifest.json")[|stem|..] == ".manifest.json";
  }

  /** Why one sidecar fails: its own hash or signature, an unreadable recording, or one with other content. */
  lemma EntryFails(k: Suite, root: seq<Child>, e: Entry, recording: Place, why: VerifyError)
    ensures EntryCheck(k, root, e) == Err(BadManifest(e.at, why)) <==> Verify(k, e.m) == Err(why)
    ensures EntryCheck(k, root, e) == Err(CannotRead(recording)) <==>
      && Verify(k, e.m).Ok? && RecordingFor(root, e.at, e.m) == Some(recording)
      && FileSha(k, NodeAt(root, recording.dir, recording.name).value).None?
    ensures EntryCheck(k, root, e) == Err(ContentDiffers(recording)) <==>
      && Verify(k, e.m).Ok? && RecordingFor(root, e.at, e.m) == Some(recording)
      && FileSha(k, NodeAt(root, recording.dir, recording.name).value) !in {None, Some(e.m.recordingSha256)}
  {}

  /** The last component of a path is its name, whatever directories come before it. */
  lemma LastComponent(dir: string, name: string)
    requires '/' !in name && name !in {"", ".", ".."}
    ensures BaseName(dir + "/" + name) == Some(name) && BaseName(name) == Some(name) && BaseName("") == None
  {
    PlainName(name);
    AfterLastSlash(dir, name);
    assert (dir + "/" + name)[|dir + "/" + name| - 1] == name[|name| - 1];
    assert name[|name| - 1] in name;
  }

  lemma {:induction false} AfterLastSlash(dir: string, name: string)
    requires '/' !in name
    ensures AfterSlash(dir + "/" + name) == name
  {
    var s := dir + "/" + name;
    if name != [] {
      var n := |name| - 1;
      assert s[..|s| - 1] == dir + "/" + name[..n] && s[|s| - 1] == name[n] && name[n] in name;
      AfterLastSlash(dir, name[..n]);
    }
  }

  /** A link is read through: a recording may be a link to a file, and a link that leads nowhere is no file. */
  lemma LinksAreFollowed(k: Suite, bytes: Bytes, m: Option<Manifest>, inner: seq<Child>)
    ensures FileSha(k, File(Some(bytes), m)) == FileSha(k, Link(ToFile(Some(bytes)))) == Some(k.shaFile(bytes))
    ensures FileSha(k, File(None, m)) == FileSha(k, Link(ToFile(None))) == FileSha(k, Dir(inner)) == None
    ensures !Exists(None) && !Exists(Some(Link(Nowhere))) && Exists(Some(Link(ToFile(None))))
    ensures Exists(Some(File(None, m))) && Exists(Some(Dir(inner)))
  {}

  // ----- The counts

  /** The first `n` sidecars that no recording was checked for. */
  function Bare(check: Checker, entries: seq<Entry>, n: nat): set<nat>
    requires n <= |entries|
  {
    set i: nat | i < n && !(check(entries[i]).Ok? && check(entries[i]).value.Some?)
  }

  lemma {:induction false} MissingCounts(check: Checker, entries: seq<Entry>, n: nat)
    requires n <= |entries|
    ensures Missing(check, entries, n) == |Bare(check, entries, n)|
  {
    if n == 0 {
      assert Bare(check, entries, 0) == {};
    } else {
      MissingCounts(check, entries, n - 1);
      var before, now := Bare(check, entries, n - 1), Bare(check, entries, n);
      assert now == if Vouches(check, entries[n - 1]) then before else before + {n - 1};
    }
  }

  /** What a report counts: every sidecar found, and those of them without a recording. */
  lemma ReportCounts(k: Suite, root: seq<Child>, checkChain: bool)
    requires Walk([], root).Ok?
    ensures var r, entries := Report(k, root, checkChain), Walk([], root).value.entries;
      && r.manifestsChecked == |entries| && r.chainWalked == checkChain
      && r.recordingsPruned == |Bare(CheckerOf(k, root), entries, |entries|)|
  {
    var entries := Walk([], root).value.entries;
    MissingCounts(CheckerOf(k, root), entries, |entries|);
  }

  // ----- The names recorders give

  const LOWER := "abcdefghijklmnopqrstuvwxyz"
  const UPPER := "ABCDEFGHIJKLMNOPQRSTUVWXYZ"
  const DIGITS := "0123456789"

  lemma LowerMeans(c: char)
    ensures 'a' <= c <= 'z' <==> c in LOWER
  {
    if 'a' <= c <= 'z' {
      assert LOWER[c as int - 'a' as int] == c;
    }
  }

  lemma UpperMeans(c: char)
    ensures 'A' <= c <= 'Z' <==> c in UPPER
  {
    if 'A' <= c <= 'Z' {
      assert UPPER[c as int - 'A' as int] == c;
    }
  }

  lemma DigitMeans(c: char)
    ensures '0' <= c <= '9' <==> c in DIGITS
  {
    if '0' <= c <= '9' {
      assert DIGITS[c as int - '0' as int] == c;
    }
  }

  /** Which user names and session ids are accepted. */
  lemma ValidIdMeans(s: string, maxLength: nat)
    ensures ValidId(s, maxLength) <==>
      0 < |s| <= maxLength && forall c :: c in s ==> c in LOWER || c in UPPER || c in DIGITS || c in "._-"
  {
    forall c ensures IsIdChar(c) <==> c in LOWER || c in UPPER || c in DIGITS || c in "._-" {
      LowerMeans(c);
      UpperMeans(c);
      DigitMeans(c);
    }
    if ValidId(s, maxLength) {
      forall c | c in s ensures IsIdChar(c) {
        var i :| 0 <= i < |s| && s[i] == c;
      }
    }
  }

  /** Which suffixes are: a dot, then 1 to 31 letters, digits and dots, the first of them no dot. */
  lemma ValidSuffixMeans(s: string)
    ensures ValidSuffix("." + s) <==>
      0 < |s| <= 31 && s[0] != '.' && forall c :: c in s ==> c in LOWER || c in UPPER || c in DIGITS || c == '.'
  {
    var t := "." + s;
    forall c ensures IsSuffixChar(c) <==> c in LOWER || c in UPPER || c in DIGITS || c == '.' {
      LowerMeans(c);
      UpperMeans(c);
      DigitMeans(c);
    }
    assert forall i :: 0 <= i < |s| ==> t[i + 1] == s[i];
    if ValidSuffix(t) {
      forall c | c in s ensures IsSuffixChar(c) {
        var i :| 0 <= i < |s| && s[i] == c;
        assert t[i + 1] == c;
      }
    } else if forall c :: c in s ==> IsSuffixChar(c) {
      assert forall i :: 0 < i < |t| ==> t[i] == s[i - 1] && s[i - 1] in s;
    }
  }

  lemma SuffixRead(stem: string, suffix: string, tail: string)
    requires Ends(suffix, tail)
    ensures Ends(stem + suffix, tail)
  {
    var rest: string :| suffix == rest + tail;
    assert stem + suffix == (stem + rest) + tail;
  }

  lemma LastChars(name: string, a: string, b: string)
    requires Ends(name, a) && Ends(name, b) && a != [] && b != []
    ensures a[|a| - 1] == b[|b| - 1]
  {
    var s: string :| name == s + a;
    var t: string :| name == t + b;
    assert (s + a)[|name| - 1] == a[|a| - 1] && (t + b)[|name| - 1] == b[|b| - 1];
  }

  lemma SuffixesInUse(suffix: string) returns (tail: string)
    requires suffix in {".cast", ".cast.age", ".kgv1.age"}
    ensures ValidSuffix(suffix) && Ends(suffix, tail) && tail in {".cast", ".age"}
  {
    var s := suffix[1..];
    assert suffix == "." + s;
    tail := if suffix == ".cast" then ".cast" else ".age";
    assert suffix == suffix[..|suffix| - |tail|] + tail;
  }

  lemma TailNamesRecording(name: string, tail: string)
    requires Ends(name, tail) && tail in {".cast", ".age"}
    ensures IsRecording(name)
  {
    RecordingMeans(name);
    if Ends(name, ".manifest.json") {
      LastChars(name, tail, ".manifest.json");
    }
  }

  /** The suffixes in use are valid, and what a job writes under them counts as a recording. */
  lemma JobsNameRecordings(j: Job)
    requires ValidId(j.username, 64) && ValidId(j.sessionId, 128) && j.suffix in {".cast", ".cast.age", ".kgv1.age"}
    ensures ValidJob(j) && IsRecording(RecordingOf(j).file)
  {
    var tail := SuffixesInUse(j.suffix);
    SuffixRead(j.sessionId + ".part" + Text.Decimal(j.part), j.suffix, tail);
    TailNamesRecording(RecordingOf(j).file, tail);
  }
}
