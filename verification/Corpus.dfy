/** The recordings tree: what the verifier's walk finds, how it pairs sidecars with recordings, and retention. */
module Corpus {
  import opened Wrappers
  import opened Manifests
  import opened StreamReader
  import opened Signing
  import opened ChainCheck

  /** Where a symbolic link leads. */
  datatype Target = Nowhere | ToDir | ToFile(bytes: Option<Bytes>)

  /** A file has bytes unless it cannot be read, and is a manifest if it parses as one. */
  datatype Node =
    | File(bytes: Option<Bytes>, manifest: Option<Manifest>)
    | Dir(children: seq<Child>)
    | Link(to: Target)

  datatype Child = Child(name: string, node: Node)

  /** A file below the root: the directories on the way, and its name. */
  datatype Place = Place(dir: seq<string>, name: string)

  datatype Entry = Entry(at: Place, m: Manifest)

  datatype Found = Found(entries: seq<Entry>, recordings: seq<Place>)

  datatype Failure =
    | NotAManifest(at: Place)
    | BadManifest(at: Place, why: VerifyError)
    | CannotRead(recording: Place)
    | ContentDiffers(recording: Place)
    | ChainBroken(e: ChainError)

  datatype VerifyResult = VerifyResult(
    manifestsChecked: nat,
    chainWalked: bool,
    recordingsPruned: nat,
    unsignedRecordings: seq<Place>)

  const SIDECAR := ".manifest.json"
  const NOTHING := Found([], [])

  // ----- Names

  predicate EndsWith(s: string, suffix: string) {
    |suffix| <= |s| && s[|s| - |suffix|..] == suffix
  }

  predicate IsRecording(name: string) {
    (EndsWith(name, ".age") || EndsWith(name, ".cast")) && !EndsWith(name, SIDECAR)
  }

  function AfterSlash(s: string): (r: string)
    ensures '/' !in r
  {
    if s == "" || s[|s| - 1] == '/' then "" else AfterSlash(s[..|s| - 1]) + [s[|s| - 1]]
  }

  /** The last component of a path, if it names a file. */
  function BaseName(s: string): (r: Option<string>)
    ensures r.Some? ==> r.value !in {"", ".", ".."} && '/' !in r.value
  {
    if s == "" then None
    else if s[|s| - 1] == '/' || AfterSlash(s) == "." then BaseName(s[..|s| - 1])
    else if AfterSlash(s) == ".." then None
    else Some(AfterSlash(s))
  }

  lemma {:induction false} NoSlash(s: string)
    requires '/' !in s
    ensures AfterSlash(s) == s
  {
    if s != "" {
      NoSlash(s[..|s| - 1]);
    }
  }

  lemma PlainName(s: string)
    requires '/' !in s && s !in {"", ".", ".."}
    ensures BaseName(s) == Some(s)
  {
    NoSlash(s);
  }

  // ----- Lookup by path

  function ChildAt(children: seq<Child>, name: string): Option<Node> {
    if children == [] then None
    else if children[0].name == name then Some(children[0].node)
    else ChildAt(children[1..], name)
  }

  /** What lies at `name` under `dir`; the empty name is the directory itself. */
  function NodeAt(children: seq<Child>, dir: seq<string>, name: string): Option<Node>
    decreases |dir|
  {
    if dir == [] then (if name == "" then Some(Dir(children)) else ChildAt(children, name))
    else
      match ChildAt(children, dir[0])
      case Some(Dir(inner)) => NodeAt(inner, dir[1..], name)
      case _ => None
  }

  /** `Path::exists` follows links. */
  predicate Exists(n: Option<Node>) {
    n.Some? && !(n.value.Link? && n.value.to.Nowhere?)
  }

  predicate Present(root: seq<Child>, p: Place) {
    Exists(NodeAt(root, p.dir, p.name))
  }

  /** The recording's own name: the sidecar's without its suffix. */
  function Derived(at: Place): Place {
    Place(at.dir, if EndsWith(at.name, SIDECAR) then at.name[..|at.name| - |SIDECAR|] else at.name)
  }

  /** Under the name the manifest records, in the sidecar's directory. */
  function Beside(at: Place, m: Manifest): Option<Place> {
    var base := BaseName(m.recordingFile);
    if base.Some? then Some(Place(at.dir, base.value)) else None
  }

  function RecordingFor(root: seq<Child>, at: Place, m: Manifest): (r: Option<Place>)
    ensures r.Some? ==> r.value.dir == at.dir && Present(root, r.value)
  {
    if EndsWith(at.name, SIDECAR) && Present(root, Derived(at)) then Some(Derived(at))
    else
      var beside := Beside(at, m);
      if beside.Some? && Present(root, beside.value) then beside else None
  }

  function FileSha(k: Suite, n: Node): Option<string> {
    match n
    case File(Some(bytes), _) => Some(k.shaFile(bytes))
    case Link(ToFile(Some(bytes))) => Some(k.shaFile(bytes))
    case _ => None
  }

  // ----- The walk

  function Joined(a: Found, b: Found): Found {
    Found(a.entries + b.entries, a.recordings + b.recordings)
  }

  /** A walk that has found `a`, and goes on. */
  function Then(a: Found, more: Result<Found, Failure>): Result<Found, Failure> {
    if more.Err? then more else Ok(Joined(a, more.value))
  }

  function WalkChild(dir: seq<string>, c: Child): Result<Found, Failure>
    decreases c, 0
  {
    match c.node
    case Dir(inner) => Walk(dir + [c.name], inner)
    case File(_, manifest) =>
      if EndsWith(c.name, SIDECAR) then
        if manifest.None? then Err(NotAManifest(Place(dir, c.name)))
        else Ok(Found([Entry(Place(dir, c.name), manifest.value)], []))
      else Ok(Found([], if IsRecording(c.name) then [Place(dir, c.name)] else []))
    case Link(_) => Ok(NOTHING)
  }

  /** Every sidecar and recording below `children`, which lie in `dir`; or the first sidecar that will not load. */
  function Walk(dir: seq<string>, children: seq<Child>): Result<Found, Failure>
    decreases children, 1
  {
    if children == [] then Ok(NOTHING)
    else
      var first := WalkChild(dir, children[0]);
      if first.Err? then first else Then(first.value, Walk(dir, children[1..]))
  }

  lemma JoinedAssociates(a: Found, b: Found, c: Found)
    ensures Joined(Joined(a, b), c) == Joined(a, Joined(b, c))
  {}

  lemma JoinedNothing(a: Found)
    ensures Joined(NOTHING, a) == a && Joined(a, NOTHING) == a
  {}

  class Finder {
    var entries: seq<Entry>
    var recordings: seq<Place>

    constructor ()
      ensures Seen() == NOTHING
    {
      entries, recordings := [], [];
    }

    function Seen(): Found
      reads this
    {
      Found(entries, recordings)
    }

    /** `walk_collect`: links are neither followed nor collected. */
    method WalkCollect(dir: seq<string>, children: seq<Child>) returns (failed: Option<Failure>)
      modifies this
      ensures match Walk(dir, children)
        case Ok(found) => failed.None? && Seen() == Joined(old(Seen()), found)
        case Err(e) => failed == Some(e)
      decreases children
    {
      var i := 0;
      while i < |children|
        invariant 0 <= i <= |children|
        invariant Then(old(Seen()), Walk(dir, children)) == Then(Seen(), Walk(dir, children[i..]))
      {
        var c := children[i];
        ghost var before := Seen();
        assert children[i..][0] == c && children[i..][1..] == children[i + 1..];
        if c.node.Dir? {
          failed := WalkCollect(dir + [c.name], c.node.children);
          if failed.Some? {
            return;
          }
        } else if c.node.File? {
          if EndsWith(c.name, SIDECAR) {
            if c.node.manifest.None? {
              return Some(NotAManifest(Place(dir, c.name)));
            }
            entries := entries + [Entry(Place(dir, c.name), c.node.manifest.value)];
          } else if IsRecording(c.name) {
            recordings := recordings + [Place(dir, c.name)];
          }
        }
        ghost var rest := Walk(dir, children[i + 1..]);
        assert Seen() == Joined(before, WalkChild(dir, c).value);
        if rest.Ok? {
          JoinedAssociates(before, WalkChild(dir, c).value, rest.value);
        }
        i := i + 1;
      }
      return None;
    }
  }

  // ----- Verifying a tree

  /** One entry: its signature, then the bytes it vouches for. The result is its recording, if still there. */
  function EntryCheck(k: Suite, root: seq<Child>, e: Entry): Result<Option<Place>, Failure> {
    var verdict, r := Verify(k, e.m), RecordingFor(root, e.at, e.m);
    if verdict.Err? then Err(BadManifest(e.at, verdict.error))
    else if r.None? then Ok(None)
    else
      var sha := FileSha(k, NodeAt(root, r.value.dir, r.value.name).value);
      if sha.None? then Err(CannotRead(r.value))
      else if sha.value != e.m.recordingSha256 then Err(ContentDiffers(r.value))
      else Ok(r)
  }

  /**
   An entry passes exactly when its stored hash and signature belong to its content and the recording, if
   there is one, has the signed digest; what passes is checked against the recording that was located.
   */
  lemma EntryMeans(k: Suite, root: seq<Child>, e: Entry)
    requires Sound(k)
    ensures var check, r := EntryCheck(k, root, e), RecordingFor(root, e.at, e.m);
      && (check.Ok? ==> check.value == r)
      && (check.Ok? <==>
           && Lowered(e.m.thisManifestHash) == ManifestHash(k, e.m)
           && k.accepts(ManifestHash(k, e.m), e.m.signature)
           && (r.None? || FileSha(k, NodeAt(root, r.value.dir, r.value.name).value) == Some(e.m.recordingSha256)))
  {
    VerifyMeans(k, e.m);
  }

  type Checker = Entry -> Result<Option<Place>, Failure>

  function CheckerOf(k: Suite, root: seq<Child>): Checker {
    e => EntryCheck(k, root, e)
  }

  function ManifestsOf(entries: seq<Entry>): (ms: seq<Manifest>)
    ensures |ms| == |entries| && forall i :: 0 <= i < |ms| ==> ms[i] == entries[i].m
  {
    seq(|entries|, i requires 0 <= i < |entries| => entries[i].m)
  }

  predicate Vouches(check: Checker, e: Entry) {
    check(e).Ok? && check(e).value.Some?
  }

  /** The recordings that the first `n` sidecars vouch for. */
  function Vouched(check: Checker, entries: seq<Entry>, n: nat): set<Place>
    requires n <= |entries|
  {
    if n == 0 then {}
    else
      var before := Vouched(check, entries, n - 1);
      if Vouches(check, entries[n - 1]) then before + {check(entries[n - 1]).value.value} else before
  }

  /** The number of the first `n` sidecars whose recording is gone. */
  function Missing(check: Checker, entries: seq<Entry>, n: nat): nat
    requires n <= |entries|
  {
    if n == 0 then 0
    else
      var before := Missing(check, entries, n - 1);
      if Vouches(check, entries[n - 1]) then before else before + 1
  }

  function Outside(places: seq<Place>, gone: set<Place>): seq<Place> {
    if places == [] then []
    else
      var init, last := places[..|places| - 1], places[|places| - 1];
      if last in gone then Outside(init, gone) else Outside(init, gone) + [last]
  }

  lemma {:induction false} OutsideMeans(places: seq<Place>, gone: set<Place>, p: Place)
    ensures p in Outside(places, gone) <==> p in places && p !in gone
  {
    if places != [] {
      OutsideMeans(places[..|places| - 1], gone, p);
      assert places == places[..|places| - 1] + [places[|places| - 1]];
    }
  }

  ghost predicate Faultless(check: Checker, entries: seq<Entry>) {
    forall i :: 0 <= i < |entries| ==> check(entries[i]).Ok?
  }

  ghost predicate Faulty(check: Checker, entries: seq<Entry>, why: Failure) {
    exists i :: 0 <= i < |entries| && check(entries[i]) == Err(why)
  }

  ghost predicate Passing(k: Suite, root: seq<Child>, checkChain: bool, expectedHead: Option<string>) {
    var found := Walk([], root);
    && found.Ok? && Faultless(CheckerOf(k, root), found.value.entries)
    && (checkChain ==> Accepted(ManifestsOf(found.value.entries), expectedHead))
  }

  /** What a passing tree is reported as. */
  function Report(k: Suite, root: seq<Child>, checkChain: bool): VerifyResult
    requires Walk([], root).Ok?
  {
    var found, check := Walk([], root).value, CheckerOf(k, root);
    var n := |found.entries|;
    VerifyResult(n, checkChain, Missing(check, found.entries, n),
                 Outside(found.recordings, Vouched(check, found.entries, n)))
  }

  ghost predicate Justifies(k: Suite, root: seq<Child>, expectedHead: Option<string>, why: Failure) {
    var found := Walk([], root);
    if found.Err? then found.error == why
    else
      || Faulty(CheckerOf(k, root), found.value.entries, why)
      || (why.ChainBroken? && Explains(why.e, ManifestsOf(found.value.entries), Anchor(expectedHead)))
  }

  /** `verify_recursive`. */
  method VerifyRecursive(k: Suite, root: seq<Child>, checkChain: bool, expectedHead: Option<string>)
      returns (r: Result<VerifyResult, Failure>)
    ensures r.Ok? <==> Passing(k, root, checkChain, expectedHead)
    ensures r.Ok? ==> r.value == Report(k, root, checkChain)
    ensures r.Err? ==> Justifies(k, root, expectedHead, r.error)
  {
    var finder := new Finder();
    var failed := finder.WalkCollect([], root);
    if failed.Some? {
      return Err(failed.value);
    }
    var entries, recordings := finder.entries, finder.recordings;
    JoinedNothing(Walk([], root).value);
    var fault, pruned, signed := VerifyEntries(CheckerOf(k, root), entries);
    if fault.Some? {
      return Err(fault.value);
    }
    var unsigned := UnsignedAmong(recordings, signed);
    if checkChain {
      var chain := CheckSingleChain(ManifestsOf(entries), expectedHead);
      if chain.Err? {
        return Err(ChainBroken(chain.error));
      }
    }
    return Ok(VerifyResult(|entries|, checkChain, pruned, unsigned));
  }

  method UnsignedAmong(recordings: seq<Place>, signed: set<Place>) returns (unsigned: seq<Place>)
    ensures unsigned == Outside(recordings, signed)
  {
    unsigned := [];
    var i := 0;
    while i < |recordings|
      invariant 0 <= i <= |recordings| && unsigned == Outside(recordings[..i], signed)
    {
      assert recordings[..i + 1][..i] == recordings[..i];
      if recordings[i] !in signed {
        unsigned := unsigned + [recordings[i]];
      }
      i := i + 1;
    }
    assert recordings[..i] == recordings;
  }

  method VerifyEntries(check: Checker, entries: seq<Entry>)
      returns (fault: Option<Failure>, pruned: nat, signed: set<Place>)
    ensures fault.None? <==> Faultless(check, entries)
    ensures fault.Some? ==> Faulty(check, entries, fault.value)
    ensures fault.None? ==> pruned == Missing(check, entries, |entries|) && signed == Vouched(check, entries, |entries|)
  {
    pruned, signed := 0, {};
    var i := 0;
    while i < |entries|
      invariant 0 <= i <= |entries| && forall j :: 0 <= j < i ==> check(entries[j]).Ok?
      invariant pruned == Missing(check, entries, i) && signed == Vouched(check, entries, i)
    {
      var recording := check(entries[i]);
      if recording.Err? {
        return Some(recording.error), pruned, signed;
      }
      if recording.value.Some? {
        signed := signed + {recording.value.value};
      } else {
        pruned := pruned + 1;
      }
      i := i + 1;
    }
    return None, pruned, signed;
  }
}
