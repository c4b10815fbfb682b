/** What the walk finds, and why deleting recordings, as retention does, keeps a tree verifiable. */
module Retention {
  import opened Wrappers
  import opened Sequences
  import opened Manifests
  import opened Signing
  import opened Corpus

  // ----- The walk finds every sidecar and every recording, once

  ghost predicate UniqueNames(children: seq<Child>) {
    forall i, j :: 0 <= i < j < |children| ==> children[i].name != children[j].name
  }

  /** What a file system guarantees: names are not empty and differ within each directory. */
  ghost predicate WellFormed(children: seq<Child>)
    decreases children
  {
    && UniqueNames(children)
    && forall c :: c in children ==> c.name != "" && (c.node.Dir? ==> WellFormed(c.node.children))
  }

  /** What lies at `at`, looked up from the directory `prefix`. */
  function Below(prefix: seq<string>, children: seq<Child>, at: Place): Option<Node> {
    if prefix <= at.dir then NodeAt(children, at.dir[|prefix|..], at.name) else None
  }

  predicate Names(prefix: seq<string>, c: Child, at: Place) {
    at == Place(prefix, c.name)
  }

  predicate LeadsTo(prefix: seq<string>, c: Child, at: Place) {
    prefix + [c.name] <= at.dir
  }

  lemma LeadsByName(prefix: seq<string>, c: Child, at: Place)
    ensures LeadsTo(prefix, c, at) ==> |prefix| < |at.dir| && at.dir[|prefix|] == c.name
  {}

  /** A lookup is settled by the first child, or left to the rest. */
  lemma BelowFirst(prefix: seq<string>, children: seq<Child>, at: Place)
    requires children != [] && at.name != ""
    ensures var c := children[0];
      Below(prefix, children, at) ==
        if Names(prefix, c, at) then Some(c.node)
        else if LeadsTo(prefix, c, at) then
          if c.node.Dir? then Below(prefix + [c.name], c.node.children, at) else None
        else Below(prefix, children[1..], at)
  {
    if prefix <= at.dir {
      var rest := at.dir[|prefix|..];
      if rest == [] {
        assert at.dir == prefix;
      } else {
        var c := children[0];
        assert LeadsTo(prefix, c, at) <==> rest[0] == c.name by {
          if rest[0] == c.name {
            assert at.dir == prefix + rest == prefix + [c.name] + rest[1..];
          }
        }
        if LeadsTo(prefix, c, at) {
          assert at.dir[|prefix + [c.name]|..] == rest[1..];
        }
      }
    }
  }

  lemma {:induction false} BelowNone(prefix: seq<string>, children: seq<Child>, at: Place)
    requires at.name != "" && forall c :: c in children ==> !Names(prefix, c, at) && !LeadsTo(prefix, c, at)
    ensures Below(prefix, children, at).None?
  {
    if children != [] {
      BelowFirst(prefix, children, at);
      BelowNone(prefix, children[1..], at);
    }
  }

  /** In a directory with unique names, what the first child settles is not found again. */
  lemma BelowOnce(prefix: seq<string>, children: seq<Child>, at: Place)
    requires children != [] && UniqueNames(children) && at.name != ""
    requires Names(prefix, children[0], at) || LeadsTo(prefix, children[0], at)
    ensures Below(prefix, children[1..], at).None?
  {
    forall c | c in children[1..] ensures !Names(prefix, c, at) && !LeadsTo(prefix, c, at) {
      var i :| 0 <= i < |children[1..]| && children[1..][i] == c;
      assert children[i + 1].name != children[0].name;
      LeadsByName(prefix, c, at);
      LeadsByName(prefix, children[0], at);
    }
    BelowNone(prefix, children[1..], at);
  }

  predicate SidecarNode(n: Option<Node>, name: string, m: Manifest) {
    n.Some? && n.value.File? && n.value.manifest == Some(m) && EndsWith(name, SIDECAR)
  }

  predicate RecordingNode(n: Option<Node>, name: string) {
    n.Some? && n.value.File? && IsRecording(name)
  }

  /** `found` lists exactly the sidecars and recordings that a lookup reaches. */
  ghost predicate Complete(prefix: seq<string>, children: seq<Child>, found: Found, at: Place) {
    && (forall m :: Entry(at, m) in found.entries <==> SidecarNode(Below(prefix, children, at), at.name, m))
    && (at in found.recordings <==> RecordingNode(Below(prefix, children, at), at.name))
  }

  lemma {:induction false} FirstComplete(prefix: seq<string>, c: Child, found: Found, at: Place)
    requires c.name != "" && at.name != "" && (c.node.Dir? ==> WellFormed(c.node.children))
    requires WalkChild(prefix, c) == Ok(found)
    ensures Complete(prefix, [c], found, at)
    decreases c, 0
  {
    BelowFirst(prefix, [c], at);
    if c.node.Dir? {
      WalkComplete(prefix + [c.name], c.node.children, found, at);
      if !LeadsTo(prefix, c, at) {
        assert Below(prefix + [c.name], c.node.children, at).None?;
      }
    }
  }

  lemma {:induction false} WalkComplete(prefix: seq<string>, children: seq<Child>, found: Found, at: Place)
    requires WellFormed(children) && Walk(prefix, children) == Ok(found) && at.name != ""
    ensures Complete(prefix, children, found, at)
    decreases children, 1
  {
    if children == [] {
      BelowNone(prefix, children, at);
    } else {
      var first, rest := WalkChild(prefix, children[0]).value, Walk(prefix, children[1..]).value;
      assert children[0] in children && forall c :: c in children[1..] ==> c in children;
      FirstComplete(prefix, children[0], first, at);
      WalkComplete(prefix, children[1..], rest, at);
      BelowFirst(prefix, [children[0]], at);
      BelowFirst(prefix, children, at);
      BelowNone(prefix, [], at);
      if Names(prefix, children[0], at) || LeadsTo(prefix, children[0], at) {
        BelowOnce(prefix, children, at);
      }
    }
  }

  /** A walk fails only at a file that is named like a sidecar and is not a manifest. */
  lemma {:induction false} WalkFails(prefix: seq<string>, children: seq<Child>)
    requires WellFormed(children) && Walk(prefix, children).Err?
    ensures var e := Walk(prefix, children).error;
      && e.NotAManifest? && e.at.name != "" && EndsWith(e.at.name, SIDECAR)
      && var n := Below(prefix, children, e.at); n.Some? && n.value.File? && n.value.manifest.None?
    decreases children
  {
    var c, e := children[0], Walk(prefix, children).error;
    assert c in children && forall x :: x in children[1..] ==> x in children;
    if WalkChild(prefix, c).Err? {
      if c.node.Dir? {
        WalkFails(prefix + [c.name], c.node.children);
        assert LeadsTo(prefix, c, e.at);
      }
      BelowFirst(prefix, children, e.at);
    } else {
      WalkFails(prefix, children[1..]);
      BelowFirst(prefix, children, e.at);
      if Names(prefix, c, e.at) || LeadsTo(prefix, c, e.at) {
        BelowOnce(prefix, children, e.at);
      }
    }
  }

  function PlacesOf(entries: seq<Entry>): (places: seq<Place>)
    ensures |places| == |entries| && forall i :: 0 <= i < |entries| ==> places[i] == entries[i].at
  {
    seq(|entries|, i requires 0 <= i < |entries| => entries[i].at)
  }

  lemma NamedPlaces(prefix: seq<string>, children: seq<Child>, found: Found)
    requires WellFormed(children) && Walk(prefix, children) == Ok(found)
    ensures forall e :: e in found.entries ==> e.at.name != "" && EndsWith(e.at.name, SIDECAR)
    ensures forall p :: p in found.recordings ==> p.name != "" && IsRecording(p.name)
    decreases children
  {
    if children != [] {
      var c := children[0];
      assert c in children && forall x :: x in children[1..] ==> x in children;
      if c.node.Dir? {
        NamedPlaces(prefix + [c.name], c.node.children, WalkChild(prefix, c).value);
      }
      NamedPlaces(prefix, children[1..], Walk(prefix, children[1..]).value);
    }
  }

  lemma FoundNoMore(prefix: seq<string>, children: seq<Child>, first: Found, rest: Found, at: Place)
    requires WellFormed(children) && children != [] && at.name != ""
    requires WalkChild(prefix, children[0]) == Ok(first) && Walk(prefix, children[1..]) == Ok(rest)
    requires at in PlacesOf(first.entries) || at in first.recordings
    ensures at !in PlacesOf(rest.entries) && at !in rest.recordings
  {
    var c := children[0];
    assert c in children && forall x :: x in children[1..] ==> x in children;
    FirstComplete(prefix, c, first, at);
    BelowFirst(prefix, [c], at);
    BelowNone(prefix, [], at);
    BelowOnce(prefix, children, at);
    WalkComplete(prefix, children[1..], rest, at);
  }

  ghost predicate Once(found: Found) {
    NoDup(PlacesOf(found.entries)) && NoDup(found.recordings)
  }

  ghost predicate Apart(a: Found, b: Found) {
    && (forall at :: at in PlacesOf(a.entries) ==> at !in PlacesOf(b.entries))
    && (forall at :: at in a.recordings ==> at !in b.recordings)
  }

  lemma JoinedOnce(a: Found, b: Found)
    requires Once(a) && Once(b) && Apart(a, b)
    ensures Once(Joined(a, b))
  {
    NoDupConcat(PlacesOf(a.entries), PlacesOf(b.entries));
    NoDupConcat(a.recordings, b.recordings);
    assert PlacesOf(Joined(a, b).entries) == PlacesOf(a.entries) + PlacesOf(b.entries);
  }

  lemma FirstApart(prefix: seq<string>, children: seq<Child>, first: Found, rest: Found)
    requires WellFormed(children) && children != []
    requires WalkChild(prefix, children[0]) == Ok(first) && Walk(prefix, children[1..]) == Ok(rest)
    ensures Apart(first, rest)
  {
    var c := children[0];
    assert c in children;
    assert Walk(prefix, [c]) == Ok(first) by {
      JoinedNothing(first);
      assert [c][1..] == [];
    }
    NamedPlaces(prefix, [c], first);
    forall at | at in PlacesOf(first.entries) ensures at !in PlacesOf(rest.entries) {
      FoundNoMore(prefix, children, first, rest, at);
    }
    forall at | at in first.recordings ensures at !in rest.recordings {
      FoundNoMore(prefix, children, first, rest, at);
    }
  }

  /** A walk meets no file twice. */
  lemma {:induction false} WalkOnce(prefix: seq<string>, children: seq<Child>, found: Found)
    requires WellFormed(children) && Walk(prefix, children) == Ok(found)
    ensures Once(found)
    decreases children
  {
    if children != [] {
      var c := children[0];
      var first, rest := WalkChild(prefix, c).value, Walk(prefix, children[1..]).value;
      assert c in children && forall x :: x in children[1..] ==> x in children;
      if c.node.Dir? {
        WalkOnce(prefix + [c.name], c.node.children, first);
      }
      WalkOnce(prefix, children[1..], rest);
      FirstApart(prefix, children, first, rest);
      JoinedOnce(first, rest);
    }
  }

  // ----- Deleting recordings

  function PruneChild(dir: seq<string>, c: Child, gone: set<Place>): seq<Child>
    decreases c, 0
  {
    match c.node
    case File(_, _) => if Place(dir, c.name) in gone then [] else [c]
    case Dir(inner) => [Child(c.name, Dir(Prune(dir + [c.name], inner, gone)))]
    case Link(_) => [c]
  }

  /** The tree without the files in `gone`. */
  function Prune(dir: seq<string>, children: seq<Child>, gone: set<Place>): seq<Child>
    decreases children, 1
  {
    if children == [] then [] else PruneChild(dir, children[0], gone) + Prune(dir, children[1..], gone)
  }

  function PruneNode(at: Place, n: Option<Node>, gone: set<Place>): Option<Node> {
    if n.None? then None
    else
      match n.value
      case File(_, _) => if at in gone then None else n
      case Dir(inner) => Some(Dir(Prune(at.dir + [at.name], inner, gone)))
      case Link(_) => n
  }

  lemma {:induction false} PruneBelow(prefix: seq<string>, children: seq<Child>, gone: set<Place>, at: Place)
    requires WellFormed(children) && at.name != ""
    ensures Below(prefix, Prune(prefix, children, gone), at) == PruneNode(at, Below(prefix, children, at), gone)
    decreases children
  {
    if children == [] {
      BelowNone(prefix, [], at);
    } else {
      var c, kept := children[0], PruneChild(prefix, children[0], gone);
      assert c in children && forall x :: x in children[1..] ==> x in children;
      BelowFirst(prefix, children, at);
      PruneBelow(prefix, children[1..], gone, at);
      if Names(prefix, c, at) || LeadsTo(prefix, c, at) {
        BelowOnce(prefix, children, at);
      }
      if kept == [] {
        assert kept + Prune(prefix, children[1..], gone) == Prune(prefix, children[1..], gone);
      } else {
        var after := kept + Prune(prefix, children[1..], gone);
        assert after[0].name == c.name && after[1..] == Prune(prefix, children[1..], gone);
        BelowFirst(prefix, after, at);
        if c.node.Dir? {
          PruneBelow(prefix + [c.name], c.node.children, gone, at);
        }
      }
    }
  }

  lemma OutsideOne(p: Place, gone: set<Place>)
    ensures Outside([p], gone) == if p in gone then [] else [p]
  {
    assert [p][..0] == [];
  }

  lemma {:induction false} OutsideConcat(a: seq<Place>, b: seq<Place>, gone: set<Place>)
    ensures Outside(a + b, gone) == Outside(a, gone) + Outside(b, gone)
  {
    if b == [] {
      assert a + b == a;
    } else {
      assert (a + b)[..|a + b| - 1] == a + b[..|b| - 1];
      OutsideConcat(a, b[..|b| - 1], gone);
    }
  }

  lemma {:induction false} OutsideTwice(places: seq<Place>, a: set<Place>, b: set<Place>)
    ensures Outside(Outside(places, a), b) == Outside(places, a + b)
  {
    if places != [] {
      var init, last := places[..|places| - 1], places[|places| - 1];
      OutsideTwice(init, a, b);
      OutsideConcat(Outside(init, a), [last], b);
    }
  }

  ghost predicate NoSidecars(gone: set<Place>) {
    forall p :: p in gone ==> !EndsWith(p.name, SIDECAR)
  }

  /** `found` without the recordings that are gone. */
  function Less(found: Found, gone: set<Place>): Found {
    Found(found.entries, Outside(found.recordings, gone))
  }

  lemma {:induction false} PruneChildWalk(prefix: seq<string>, c: Child, gone: set<Place>, found: Found)
    requires NoSidecars(gone) && WalkChild(prefix, c) == Ok(found)
    ensures Walk(prefix, PruneChild(prefix, c, gone)) == Ok(Less(found, gone))
    decreases c, 0
  {
    if c.node.Dir? {
      PruneWalk(prefix + [c.name], c.node.children, gone, found);
    }
    var kept := PruneChild(prefix, c, gone);
    OutsideOne(Place(prefix, c.name), gone);
    if kept != [] {
      assert kept[1..] == [];
      JoinedNothing(WalkChild(prefix, kept[0]).value);
    }
  }

  lemma WalkConcat(prefix: seq<string>, one: seq<Child>, more: seq<Child>, a: Found, b: Found)
    requires |one| <= 1 && Walk(prefix, one) == Ok(a) && Walk(prefix, more) == Ok(b)
    ensures Walk(prefix, one + more) == Ok(Joined(a, b))
  {
    if one == [] {
      assert one + more == more;
      JoinedNothing(b);
    } else {
      assert one[1..] == [] && (one + more)[0] == one[0] && (one + more)[1..] == more;
      JoinedNothing(WalkChild(prefix, one[0]).value);
    }
  }

  /** The walk over what is left finds every sidecar again, and the recordings that are left. */
  lemma {:induction false} PruneWalk(prefix: seq<string>, children: seq<Child>, gone: set<Place>, found: Found)
    requires NoSidecars(gone) && Walk(prefix, children) == Ok(found)
    ensures Walk(prefix, Prune(prefix, children, gone)) == Ok(Less(found, gone))
    decreases children, 1
  {
    if children != [] {
      var first, rest := WalkChild(prefix, children[0]).value, Walk(prefix, children[1..]).value;
      PruneChildWalk(prefix, children[0], gone, first);
      PruneWalk(prefix, children[1..], gone, rest);
      WalkConcat(prefix, PruneChild(prefix, children[0], gone), Prune(prefix, children[1..], gone),
                 Less(first, gone), Less(rest, gone));
      OutsideConcat(first.recordings, rest.recordings, gone);
    }
  }

  // ----- The verdict after retention

  lemma {:induction false} DirectoryPresent(children: seq<Child>, dir: seq<string>, name: string)
    requires NodeAt(children, dir, name).Some?
    ensures NodeAt(children, dir, "").Some? && NodeAt(children, dir, "").value.Dir?
    decreases |dir|
  {
    if dir != [] {
      DirectoryPresent(ChildAt(children, dir[0]).value.children, dir[1..], name);
    }
  }

  lemma BelowRoot(root: seq<Child>, at: Place)
    ensures Below([], root, at) == NodeAt(root, at.dir, at.name)
  {
    assert at.dir[0..] == at.dir;
  }

  lemma PrunePresent(root: seq<Child>, gone: set<Place>, p: Place)
    requires WellFormed(root) && p.name != ""
    ensures NodeAt(Prune([], root, gone), p.dir, p.name) == PruneNode(p, NodeAt(root, p.dir, p.name), gone)
  {
    PruneBelow([], root, gone, p);
    BelowRoot(root, p);
    BelowRoot(Prune([], root, gone), p);
  }

  /** A sidecar called just `.manifest.json` names its own directory as the recording, and fails. */
  lemma BareSidecarFails(k: Suite, root: seq<Child>, e: Entry)
    requires NodeAt(root, e.at.dir, e.at.name).Some? && e.at.name == SIDECAR && Verify(k, e.m).Ok?
    ensures EntryCheck(k, root, e) == Err(CannotRead(Place(e.at.dir, "")))
  {
    DirectoryPresent(root, e.at.dir, e.at.name);
  }

  lemma FaultOfBare(k: Suite, root: seq<Child>, e: Entry)
    requires NodeAt(root, e.at.dir, e.at.name).Some? && EntryCheck(k, root, e).Ok? && EndsWith(e.at.name, SIDECAR)
    ensures Derived(e.at).name != "" && Derived(e.at).name != e.at.name
  {
    if e.at.name == SIDECAR {
      BareSidecarFails(k, root, e);
    }
  }

  ghost predicate AreFiles(root: seq<Child>, gone: set<Place>) {
    forall p :: p in gone ==> var n := NodeAt(root, p.dir, p.name); n.Some? && n.value.File?
  }

  /** The file that answers for `e` once its own recording is in `gone`: one under the recorded name, if left. */
  function Fallback(root: seq<Child>, gone: set<Place>, e: Entry): Option<Place> {
    var beside := Beside(e.at, e.m);
    if beside.Some? && beside.value != Derived(e.at) && beside.value !in gone && Present(root, beside.value) then beside
    else None
  }

  /** The recording `e` is checked against once `gone` is deleted. */
  function Left(root: seq<Child>, gone: set<Place>, e: Entry): Option<Place> {
    var r := RecordingFor(root, e.at, e.m);
    if r.None? || r.value !in gone then r
    else if r.value == Derived(e.at) then Fallback(root, gone, e)
    else None
  }

  /** Whatever falls in for the deleted recording of `e` has the signed content. */
  predicate Answers(k: Suite, root: seq<Child>, gone: set<Place>, e: Entry) {
    var o := Fallback(root, gone, e);
    Derived(e.at) in gone && o.Some? ==>
      FileSha(k, NodeAt(root, o.value.dir, o.value.name).value) == Some(e.m.recordingSha256)
  }

  lemma RecordingLeft(root: seq<Child>, gone: set<Place>, e: Entry)
    requires WellFormed(root) && AreFiles(root, gone) && EndsWith(e.at.name, SIDECAR) && Derived(e.at).name != ""
    ensures RecordingFor(Prune([], root, gone), e.at, e.m) == Left(root, gone, e)
  {
    PrunePresent(root, gone, Derived(e.at));
    var beside := Beside(e.at, e.m);
    if beside.Some? {
      PrunePresent(root, gone, beside.value);
    }
  }

  lemma ShaLeft(k: Suite, root: seq<Child>, gone: set<Place>, p: Place)
    requires WellFormed(root) && p.name != "" && p !in gone && NodeAt(root, p.dir, p.name).Some?
    ensures var n := NodeAt(Prune([], root, gone), p.dir, p.name);
      n.Some? && FileSha(k, n.value) == FileSha(k, NodeAt(root, p.dir, p.name).value)
  {
    PrunePresent(root, gone, p);
  }

  /**
   One sidecar after a deletion. Where another file bears the name the manifest recorded, as when a collector
   renamed the recording, that file answers for it; the entry passes if and only if what answers does.
   */
  lemma FallbackDecides(k: Suite, root: seq<Child>, gone: set<Place>, e: Entry)
    requires WellFormed(root) && AreFiles(root, gone) && EndsWith(e.at.name, SIDECAR) && Derived(e.at).name != ""
    requires CheckerOf(k, root)(e).Ok?
    ensures var check := CheckerOf(k, Prune([], root, gone))(e);
      (check.Ok? <==> Answers(k, root, gone, e)) && (check.Ok? ==> check.value == Left(root, gone, e))
  {
    RecordingLeft(root, gone, e);
    var left := Left(root, gone, e);
    if left.Some? {
      ShaLeft(k, root, gone, left.value);
    }
    assert Derived(e.at) in gone ==> RecordingFor(root, e.at, e.m) == Some(Derived(e.at));
  }

  lemma StemTells(s: string, t: string, suffix: string)
    requires EndsWith(s, suffix) && EndsWith(t, suffix)
    requires s[..|s| - |suffix|] == t[..|t| - |suffix|]
    ensures s == t
  {
    assert s == s[..|s| - |suffix|] + s[|s| - |suffix|..];
    assert t == t[..|t| - |suffix|] + t[|t| - |suffix|..];
  }

  lemma DerivedTells(a: Place, b: Place)
    requires EndsWith(a.name, SIDECAR) && EndsWith(b.name, SIDECAR)
    ensures Derived(a) == Derived(b) ==> a == b
  {
    if Derived(a) == Derived(b) {
      StemTells(a.name, b.name, SIDECAR);
    }
  }

  lemma GoneAreFiles(root: seq<Child>, found: Found, gone: set<Place>)
    requires WellFormed(root) && Walk([], root) == Ok(found) && forall p :: p in gone ==> p in found.recordings
    ensures AreFiles(root, gone) && NoSidecars(gone)
  {
    NamedPlaces([], root, found);
    forall p | p in gone ensures var n := NodeAt(root, p.dir, p.name); n.Some? && n.value.File? {
      WalkComplete([], root, found, p);
      BelowRoot(root, p);
    }
  }

  lemma EntryIsThere(root: seq<Child>, found: Found, e: Entry)
    requires WellFormed(root) && Walk([], root) == Ok(found) && e in found.entries
    ensures NodeAt(root, e.at.dir, e.at.name).Some? && EndsWith(e.at.name, SIDECAR)
  {
    NamedPlaces([], root, found);
    WalkComplete([], root, found, e.at);
    BelowRoot(root, e.at);
    assert Entry(e.at, e.m) in found.entries;
  }

  lemma EntryDecides(k: Suite, root: seq<Child>, gone: set<Place>, found: Found, e: Entry)
    requires WellFormed(root) && AreFiles(root, gone) && Walk([], root) == Ok(found) && e in found.entries
    requires CheckerOf(k, root)(e).Ok?
    ensures var check := CheckerOf(k, Prune([], root, gone))(e);
      (check.Ok? <==> Answers(k, root, gone, e)) && (check.Ok? ==> check.value == Left(root, gone, e))
  {
    EntryIsThere(root, found, e);
    FaultOfBare(k, root, e);
    FallbackDecides(k, root, gone, e);
  }

  ghost predicate AllAnswer(k: Suite, root: seq<Child>, gone: set<Place>, entries: seq<Entry>) {
    forall i {:trigger Answers(k, root, gone, entries[i])} :: 0 <= i < |entries| ==> Answers(k, root, gone, entries[i])
  }

  /**
   Retention, exactly. Deleting any found recordings of a tree that passes leaves a tree that passes if and
   only if no sidecar falls back on a file with other content. The sidecars found stay the same.
   */
  lemma RetentionExactly(k: Suite, root: seq<Child>, gone: set<Place>, checkChain: bool, head: Option<string>)
    requires WellFormed(root) && Passing(k, root, checkChain, head)
    requires forall p :: p in gone ==> p in Walk([], root).value.recordings
    ensures Walk([], Prune([], root, gone)) == Ok(Less(Walk([], root).value, gone))
    ensures Passing(k, Prune([], root, gone), checkChain, head)
      <==> AllAnswer(k, root, gone, Walk([], root).value.entries)
  {
    var found, after := Walk([], root).value, Prune([], root, gone);
    var entries := found.entries;
    GoneAreFiles(root, found, gone);
    PruneWalk([], root, gone, found);
    forall i | 0 <= i < |entries|
      ensures CheckerOf(k, after)(entries[i]).Ok? <==> Answers(k, root, gone, entries[i])
    {
      assert CheckerOf(k, root)(entries[i]).Ok?;
      EntryDecides(k, root, gone, found, entries[i]);
    }
  }

  // ----- The report after retention

  /** The sidecar at `i` had a recording and has none now. */
  predicate Loses(root: seq<Child>, gone: set<Place>, e: Entry) {
    RecordingFor(root, e.at, e.m).Some? && Left(root, gone, e).None?
  }

  /** The first `n` sidecars that are left without a recording. */
  function Losing(root: seq<Child>, gone: set<Place>, entries: seq<Entry>, n: nat): set<nat>
    requires n <= |entries|
  {
    set i: nat | i < n && Loses(root, gone, entries[i])
  }

  /** The recordings that sidecars are checked against once `gone` is deleted. */
  ghost function LeftPlaces(root: seq<Child>, gone: set<Place>, entries: seq<Entry>): set<Place> {
    set e | e in entries && Left(root, gone, e).Some? :: Left(root, gone, e).value
  }

  lemma {:induction false} VouchedBy(check: Checker, entries: seq<Entry>, n: nat, p: Place)
    requires n <= |entries|
    ensures p in Vouched(check, entries, n) <==> exists i :: 0 <= i < n && check(entries[i]) == Ok(Some(p))
  {
    if n > 0 {
      VouchedBy(check, entries, n - 1, p);
    }
  }

  /** What is reported as unsigned: every recording file, at any depth, that no sidecar was checked against. */
  lemma UnsignedMeans(k: Suite, root: seq<Child>, checkChain: bool, p: Place)
    requires WellFormed(root) && Walk([], root).Ok? && p.name != ""
    ensures p in Report(k, root, checkChain).unsignedRecordings <==>
      && RecordingNode(NodeAt(root, p.dir, p.name), p.name)
      && forall e :: e in Walk([], root).value.entries ==> CheckerOf(k, root)(e) != Ok(Some(p))
  {
    var found, check := Walk([], root).value, CheckerOf(k, root);
    WalkComplete([], root, found, p);
    BelowRoot(root, p);
    VouchedBy(check, found.entries, |found.entries|, p);
    OutsideMeans(found.recordings, Vouched(check, found.entries, |found.entries|), p);
  }

  function VouchedFor(k: Suite, root: seq<Child>): set<Place>
    requires Walk([], root).Ok?
  {
    var entries := Walk([], root).value.entries;
    Vouched(CheckerOf(k, root), entries, |entries|)
  }

  /** The first `n` entries that `before` finds a recording for and `after` does not. */
  function Lost(before: Checker, after: Checker, entries: seq<Entry>, n: nat): set<nat>
    requires n <= |entries|
  {
    set i: nat | i < n && Vouches(before, entries[i]) && !Vouches(after, entries[i])
  }

  lemma LostOneMore(before: Checker, after: Checker, entries: seq<Entry>, n: nat)
    requires n < |entries|
    ensures |Lost(before, after, entries, n + 1)| == |Lost(before, after, entries, n)|
      + if Vouches(before, entries[n]) && !Vouches(after, entries[n]) then 1 else 0
  {
    var fewer, lost := Lost(before, after, entries, n), Lost(before, after, entries, n + 1);
    if Vouches(before, entries[n]) && !Vouches(after, entries[n]) {
      assert lost == fewer + {n};
    } else {
      assert lost == fewer;
    }
  }

  lemma {:induction false} MissingGrows(before: Checker, after: Checker, entries: seq<Entry>, n: nat)
    requires n <= |entries|
    requires forall i :: 0 <= i < |entries| && Vouches(after, entries[i]) ==> Vouches(before, entries[i])
    ensures Missing(after, entries, n) == Missing(before, entries, n) + |Lost(before, after, entries, n)|
  {
    if n > 0 {
      MissingGrows(before, after, entries, n - 1);
      LostOneMore(before, after, entries, n - 1);
    }
  }

  /** `before` and `after` find what the tree holds, with and without `gone`. */
  ghost predicate Finding(root: seq<Child>, gone: set<Place>, before: Checker, after: Checker, entries: seq<Entry>) {
    && (forall i {:trigger before(entries[i])} :: 0 <= i < |entries| ==>
         before(entries[i]) == Ok(RecordingFor(root, entries[i].at, entries[i].m)))
    && forall i {:trigger after(entries[i])} :: 0 <= i < |entries| ==>
         after(entries[i]) == Ok(Left(root, gone, entries[i]))
  }

  lemma LostAreLosing(root: seq<Child>, gone: set<Place>, before: Checker, after: Checker, entries: seq<Entry>)
    requires Finding(root, gone, before, after, entries)
    ensures Lost(before, after, entries, |entries|) == Losing(root, gone, entries, |entries|)
    ensures forall i :: 0 <= i < |entries| && Vouches(after, entries[i]) ==> Vouches(before, entries[i])
  {
    forall i: nat | i < |entries|
      ensures Loses(root, gone, entries[i]) <==> Vouches(before, entries[i]) && !Vouches(after, entries[i])
      ensures Vouches(after, entries[i]) ==> Vouches(before, entries[i])
    {
      assert before(entries[i]) == Ok(RecordingFor(root, entries[i].at, entries[i].m));
      assert after(entries[i]) == Ok(Left(root, gone, entries[i]));
    }
  }

  lemma VouchedAreLeft(root: seq<Child>, gone: set<Place>, before: Checker, after: Checker, entries: seq<Entry>)
    requires Finding(root, gone, before, after, entries)
    ensures Vouched(after, entries, |entries|) == LeftPlaces(root, gone, entries)
  {
    var left := LeftPlaces(root, gone, entries);
    forall p ensures p in Vouched(after, entries, |entries|) <==> p in left {
      VouchedBy(after, entries, |entries|, p);
      if p in left {
        var e :| e in entries && Left(root, gone, e) == Some(p);
        var i :| 0 <= i < |entries| && entries[i] == e;
        assert after(entries[i]) == Ok(Some(p));
      }
      if i :| 0 <= i < |entries| && after(entries[i]) == Ok(Some(p)) {
        assert entries[i] in entries && Left(root, gone, entries[i]) == Some(p);
      }
    }
  }

  lemma FindingHolds(k: Suite, root: seq<Child>, gone: set<Place>, checkChain: bool, head: Option<string>)
    requires WellFormed(root) && Passing(k, root, checkChain, head)
    requires forall p :: p in gone ==> p in Walk([], root).value.recordings
    requires AllAnswer(k, root, gone, Walk([], root).value.entries)
    ensures Finding(root, gone, CheckerOf(k, root), CheckerOf(k, Prune([], root, gone)), Walk([], root).value.entries)
  {
    var found := Walk([], root).value;
    var entries := found.entries;
    GoneAreFiles(root, found, gone);
    forall i | 0 <= i < |entries|
      ensures CheckerOf(k, root)(entries[i]) == Ok(RecordingFor(root, entries[i].at, entries[i].m))
      ensures CheckerOf(k, Prune([], root, gone))(entries[i]) == Ok(Left(root, gone, entries[i]))
    {
      assert CheckerOf(k, root)(entries[i]).Ok? && Answers(k, root, gone, entries[i]);
      EntryDecides(k, root, gone, found, entries[i]);
    }
  }

  /**
   What is then reported: the same sidecars and chain; newly pruned, exactly the sidecars that had a
   recording and are left without one; unsigned, exactly the recordings left that none is checked against.
   */
  lemma RetentionReports(k: Suite, root: seq<Child>, gone: set<Place>, checkChain: bool, head: Option<string>)
    requires WellFormed(root) && Passing(k, root, checkChain, head)
    requires forall p :: p in gone ==> p in Walk([], root).value.recordings
    requires AllAnswer(k, root, gone, Walk([], root).value.entries)
    ensures Walk([], Prune([], root, gone)).Ok?
    ensures var found, before := Walk([], root).value, Report(k, root, checkChain);
      Report(k, Prune([], root, gone), checkChain) == before.(
        recordingsPruned := before.recordingsPruned + |Losing(root, gone, found.entries, |found.entries|)|,
        unsignedRecordings := Outside(found.recordings, gone + LeftPlaces(root, gone, found.entries)))
  {
    var found, after := Walk([], root).value, Prune([], root, gone);
    var entries, check, left := found.entries, CheckerOf(k, root), CheckerOf(k, after);
    RetentionExactly(k, root, gone, checkChain, head);
    FindingHolds(k, root, gone, checkChain, head);
    LostAreLosing(root, gone, check, left, entries);
    VouchedAreLeft(root, gone, check, left, entries);
    MissingGrows(check, left, entries, |entries|);
    OutsideTwice(found.recordings, gone, LeftPlaces(root, gone, entries));
  }

  // ----- The usual case: nothing falls back

  /** No sidecar whose recording goes has another file to fall back on, and none shares it with another. */
  ghost predicate Plain(root: seq<Child>, gone: set<Place>, entries: seq<Entry>) {
    && (forall i {:trigger Left(root, gone, entries[i])} :: 0 <= i < |entries| ==>
         Spared(RecordingFor(root, entries[i].at, entries[i].m), Left(root, gone, entries[i]), gone))
    && forall i, j {:trigger Shares(root, gone, entries[i], entries[j])} :: 0 <= i < j < |entries| ==>
         !Shares(root, gone, entries[i], entries[j])
  }

  /** `after` is `before`, unless it is gone. */
  predicate Spared(before: Option<Place>, after: Option<Place>, gone: set<Place>) {
    after == if before.Some? && before.value in gone then None else before
  }

  predicate Shares(root: seq<Child>, gone: set<Place>, a: Entry, b: Entry) {
    var r := RecordingFor(root, a.at, a.m);
    r.Some? && r.value in gone && r == RecordingFor(root, b.at, b.m)
  }

  lemma PlainAnswers(k: Suite, root: seq<Child>, gone: set<Place>, entries: seq<Entry>)
    requires Plain(root, gone, entries) && AreFiles(root, gone)
    requires forall i :: 0 <= i < |entries| ==> EndsWith(entries[i].at.name, SIDECAR)
    ensures AllAnswer(k, root, gone, entries)
  {
    forall i | 0 <= i < |entries| ensures Answers(k, root, gone, entries[i]) {
      var e := entries[i];
      assert Spared(RecordingFor(root, e.at, e.m), Left(root, gone, e), gone);
      assert Derived(e.at) in gone ==> RecordingFor(root, e.at, e.m) == Some(Derived(e.at));
    }
  }

  lemma CountOneMore(signed: set<Place>, gone: set<Place>, p: Place)
    requires p !in signed
    ensures |(signed + {p}) * gone| == |signed * gone| + if p in gone then 1 else 0
  {
    if p in gone {
      assert (signed + {p}) * gone == signed * gone + {p};
    } else {
      assert (signed + {p}) * gone == signed * gone;
    }
  }

  ghost predicate Sole(check: Checker, gone: set<Place>, entries: seq<Entry>) {
    forall i, j :: 0 <= i < j < |entries| ==>
      !(Vouches(check, entries[i]) && check(entries[i]).value.value in gone && check(entries[i]) == check(entries[j]))
  }

  lemma GoneOneMore(check: Checker, gone: set<Place>, entries: seq<Entry>, n: nat)
    requires n < |entries| && Sole(check, gone, entries)
    ensures |Vouched(check, entries, n + 1) * gone| == |Vouched(check, entries, n) * gone|
      + if Vouches(check, entries[n]) && check(entries[n]).value.value in gone then 1 else 0
  {
    var before, e := Vouched(check, entries, n), entries[n];
    if Vouches(check, e) {
      var p := check(e).value.value;
      VouchedBy(check, entries, n, p);
      if p in gone {
        CountOneMore(before, gone, p);
      } else {
        assert (before + {p}) * gone == before * gone;
      }
    }
  }

  lemma {:induction false} LostAreGone(before: Checker, after: Checker, gone: set<Place>, entries: seq<Entry>, n: nat)
    requires n <= |entries| && Sole(before, gone, entries)
    requires forall i :: 0 <= i < |entries| ==>
      before(entries[i]).Ok? && after(entries[i]).Ok? && Spared(before(entries[i]).value, after(entries[i]).value, gone)
    ensures |Lost(before, after, entries, n)| == |Vouched(before, entries, n) * gone|
  {
    if n > 0 {
      LostAreGone(before, after, gone, entries, n - 1);
      LostOneMore(before, after, entries, n - 1);
      GoneOneMore(before, gone, entries, n - 1);
    }
  }

  lemma PlainLeft(k: Suite, root: seq<Child>, gone: set<Place>, entries: seq<Entry>, before: Checker, after: Checker)
    requires Plain(root, gone, entries) && Finding(root, gone, before, after, entries)
    ensures |Losing(root, gone, entries, |entries|)| == |Vouched(before, entries, |entries|) * gone|
    ensures LeftPlaces(root, gone, entries) == Vouched(before, entries, |entries|) - gone
  {
    forall i | 0 <= i < |entries|
      ensures before(entries[i]).Ok? && after(entries[i]).Ok?
      ensures Spared(before(entries[i]).value, after(entries[i]).value, gone)
    {
      assert Spared(RecordingFor(root, entries[i].at, entries[i].m), Left(root, gone, entries[i]), gone);
    }
    forall i, j | 0 <= i < j < |entries|
      ensures !(Vouches(before, entries[i]) && before(entries[i]).value.value in gone
                && before(entries[i]) == before(entries[j]))
    {
      assert !Shares(root, gone, entries[i], entries[j]);
    }
    LostAreGone(before, after, gone, entries, |entries|);
    LostAreLosing(root, gone, before, after, entries);
    VouchedAreLeft(root, gone, before, after, entries);
    SparedPlaces(before, after, gone, entries);
  }

  lemma SparedPlaces(before: Checker, after: Checker, gone: set<Place>, entries: seq<Entry>)
    requires forall i :: 0 <= i < |entries| ==>
      before(entries[i]).Ok? && after(entries[i]).Ok? && Spared(before(entries[i]).value, after(entries[i]).value, gone)
    ensures Vouched(after, entries, |entries|) == Vouched(before, entries, |entries|) - gone
  {
    forall p
      ensures p in Vouched(after, entries, |entries|) <==> p in Vouched(before, entries, |entries|) && p !in gone
    {
      VouchedBy(after, entries, |entries|, p);
      VouchedBy(before, entries, |entries|, p);
      if i :| 0 <= i < |entries| && before(entries[i]) == Ok(Some(p)) && p !in gone {
        assert after(entries[i]) == Ok(Some(p));
      }
      if i :| 0 <= i < |entries| && after(entries[i]) == Ok(Some(p)) {
        assert before(entries[i]) == Ok(Some(p)) && p !in gone;
      }
    }
  }

  /** Where nothing falls back, the tree passes, and exactly the deleted signed recordings are newly pruned. */
  lemma RetentionPasses(k: Suite, root: seq<Child>, gone: set<Place>, checkChain: bool, head: Option<string>)
    requires WellFormed(root) && Passing(k, root, checkChain, head)
    requires Plain(root, gone, Walk([], root).value.entries)
    requires forall p :: p in gone ==> p in Walk([], root).value.recordings
    ensures var after, before := Prune([], root, gone), Report(k, root, checkChain);
      && Passing(k, after, checkChain, head)
      && Report(k, after, checkChain) == before.(
           recordingsPruned := before.recordingsPruned + |VouchedFor(k, root) * gone|,
           unsignedRecordings := Outside(before.unsignedRecordings, gone))
  {
    var found := Walk([], root).value;
    GoneAreFiles(root, found, gone);
    NamedPlaces([], root, found);
    PlainAnswers(k, root, gone, found.entries);
    RetentionExactly(k, root, gone, checkChain, head);
    RetentionReports(k, root, gone, checkChain, head);
    FindingHolds(k, root, gone, checkChain, head);
    PlainLeft(k, root, gone, found.entries, CheckerOf(k, root), CheckerOf(k, Prune([], root, gone)));
    var vouched := VouchedFor(k, root);
    OutsideTwice(found.recordings, vouched, gone);
    assert gone + (vouched - gone) == vouched + gone;
  }

  /** Where every recording was signed, each deleted one is counted as pruned, and none becomes unsigned. */
  lemma SignedCorpusAges(k: Suite, root: seq<Child>, gone: set<Place>, checkChain: bool, head: Option<string>)
    requires WellFormed(root) && Passing(k, root, checkChain, head)
    requires Report(k, root, checkChain).unsignedRecordings == []
    requires Plain(root, gone, Walk([], root).value.entries)
    requires forall p :: p in gone ==> p in Walk([], root).value.recordings
    ensures var after, before := Prune([], root, gone), Report(k, root, checkChain);
      && Passing(k, after, checkChain, head)
      && Report(k, after, checkChain) == before.(recordingsPruned := before.recordingsPruned + |gone|)
  {
    RetentionPasses(k, root, gone, checkChain, head);
    var vouched := VouchedFor(k, root);
    forall p | p in gone ensures p in vouched {
      OutsideMeans(Walk([], root).value.recordings, vouched, p);
    }
    assert vouched * gone == gone;
  }

  // ----- Trees whose recordings bear the names their manifests record

  /** Without its own recording, the sidecar does not fall back on some other file. */
  predicate OwnName(root: seq<Child>, e: Entry) {
    var beside := Beside(e.at, e.m);
    beside.None? || beside.value == Derived(e.at) || !Present(root, beside.value)
  }

  /** Such trees are plain, whatever is deleted. */
  lemma OwnNamesArePlain(root: seq<Child>, gone: set<Place>, found: Found)
    requires WellFormed(root) && Walk([], root) == Ok(found)
    requires forall e :: e in found.entries ==> OwnName(root, e)
    ensures Plain(root, gone, found.entries)
  {
    var entries := found.entries;
    NamedPlaces([], root, found);
    WalkOnce([], root, found);
    forall i | 0 <= i < |entries|
      ensures Spared(RecordingFor(root, entries[i].at, entries[i].m), Left(root, gone, entries[i]), gone)
      ensures var r := RecordingFor(root, entries[i].at, entries[i].m); r.Some? ==> r.value == Derived(entries[i].at)
    {
      assert OwnName(root, entries[i]);
    }
    forall i, j | 0 <= i < j < |entries| ensures !Shares(root, gone, entries[i], entries[j]) {
      assert PlacesOf(entries)[i] != PlacesOf(entries)[j];
      DerivedTells(entries[i].at, entries[j].at);
    }
  }
}
