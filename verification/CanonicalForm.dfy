/** What the canonical text of a manifest says, as any reader of JSON finds it: which value stands under which name. */
module CanonicalForm {
  import opened Wrappers
  import opened Manifests
  import opened Text
  import opened JsonText
  import opened Canonical

  // ----- Looking into what was read

  /** The integer a numeral stands for, if it is one. */
  function IntegerOf(t: string): Option<int> {
    if t != [] && AllDigits(t) then var n: int := Numeral(t); Some(n)
    else if |t| > 1 && t[0] == '-' && AllDigits(t[1..]) then var n: int := Numeral(t[1..]); Some(-n)
    else None
  }

  function NamesOf(members: seq<Member>): (names: seq<string>)
    ensures |names| == |members| && forall i :: 0 <= i < |names| ==> names[i] == members[i].key
  {
    seq(|members|, i requires 0 <= i < |members| => members[i].key)
  }

  predicate IsInteger(v: Json, n: int) {
    v.Bare? && IntegerOf(v.token) == Some(n)
  }

  /** A float stands as its number; one that has no number, as null. */
  predicate IsFloat(v: Json, f: Float) {
    v == Bare(if f.Finite? then TokenOf(f.text) else "null")
  }

  predicate IsOption(v: Json, o: Option<U32>) {
    if o.Some? then IsInteger(v, o.value) else v == Bare("null")
  }

  predicate TextUnder(members: seq<Member>, name: string, text: string) {
    exists i {:trigger members[i]} :: 0 <= i < |members| && members[i].key == name && members[i].value == Str(text)
  }

  predicate NumberUnder(members: seq<Member>, name: string, n: int) {
    exists i {:trigger members[i]} :: 0 <= i < |members| && members[i].key == name && IsInteger(members[i].value, n)
  }

  predicate OptionUnder(members: seq<Member>, name: string, o: Option<U32>) {
    exists i {:trigger members[i]} :: 0 <= i < |members| && members[i].key == name && IsOption(members[i].value, o)
  }

  predicate FloatUnder(members: seq<Member>, name: string, f: Float) {
    exists i {:trigger members[i]} :: 0 <= i < |members| && members[i].key == name && IsFloat(members[i].value, f)
  }

  predicate ChunksUnder(members: seq<Member>, name: string, chunks: seq<Chunk>) {
    exists i {:trigger members[i]} ::
      0 <= i < |members| && members[i].key == name && AreChunks(members[i].value, chunks)
  }

  function TokenOf(t: NumberText): Token {
    assert t[0] in t;
    t
  }

  /** In strictly ascending order. */
  predicate Ascending(names: seq<string>) {
    forall i :: 0 < i < |names| ==> TextBefore(names[i - 1], names[i])
  }

  // ----- The names

  // The names of a manifest, five at a time.
  const AUDIT_TO_ENDED: seq<string> := ["audit_session_id", "boot_id", "chunks", "end_reason", "ended"]
  const EPITROPOS_TO_KATAGRAPHO: seq<string> :=
    ["epitropos_commit", "epitropos_version", "exit_code", "host", "katagrapho_commit"]
  const KATAGRAPHO_TO_SHA256: seq<string> :=
    ["katagrapho_version", "part", "prev_manifest_hash", "recording_file", "recording_sha256"]
  const SIZE_TO_V: seq<string> := ["recording_size", "session_id", "started", "user", "v"]
  const MANIFEST_NAMES: seq<string> :=
    (AUDIT_TO_ENDED + EPITROPOS_TO_KATAGRAPHO) + (KATAGRAPHO_TO_SHA256 + SIZE_TO_V)

  const CHUNK_NAMES: seq<string> := ["bytes", "elapsed", "messages", "seq", "sha256"]

  lemma {:induction false} NotBeforeItself(a: string)
    ensures !TextBefore(a, a)
  {
    if a != [] {
      NotBeforeItself(a[1..]);
    }
  }

  /** Two names that first differ at `k`, where the first has the smaller character. */
  predicate PartAt(a: string, b: string, k: nat) {
    k < |a| && k < |b| && a[k] < b[k] && forall j :: 0 <= j < k ==> a[j] == b[j]
  }

  lemma PartedAscend(a: string, b: string, k: nat)
    requires PartAt(a, b, k)
    ensures TextBefore(a, b)
  {
    assert a == a[..k] + a[k..] && b == b[..k] + b[k..] && a[..k] == b[..k];
    TextBeforeAppend(a[..k], a[k..], b[..k], b[k..]);
  }

  lemma FiveAscend(a: string, b: string, c: string, d: string, e: string, k0: nat, k1: nat, k2: nat, k3: nat)
    requires PartAt(a, b, k0) && PartAt(b, c, k1) && PartAt(c, d, k2) && PartAt(d, e, k3)
    ensures Ascending([a, b, c, d, e])
  {
    PartedAscend(a, b, k0);
    PartedAscend(b, c, k1);
    PartedAscend(c, d, k2);
    PartedAscend(d, e, k3);
  }

  lemma BothAscend(a: seq<string>, last: string, b: seq<string>, first: string, k: nat)
    requires Ascending(a) && Ascending(b) && a != [] && b != []
    requires a[|a| - 1] == last && b[0] == first && PartAt(last, first, k)
    ensures Ascending(a + b)
  {
    PartedAscend(last, first, k);
    var names := a + b;
    forall i | 0 < i < |names| ensures TextBefore(names[i - 1], names[i]) {
      if i < |a| {
        assert names[i - 1] == a[i - 1] && names[i] == a[i];
      } else if i > |a| {
        assert names[i - 1] == b[i - 1 - |a|] && names[i] == b[i - |a|];
      }
    }
  }

  lemma ChunkNamesAscend()
    ensures Ascending(CHUNK_NAMES)
  {
    FiveAscend("bytes", "elapsed", "messages", "seq", "sha256", 0, 0, 0, 1);
  }

  lemma FirstNamesAscend()
    ensures Ascending(AUDIT_TO_ENDED + EPITROPOS_TO_KATAGRAPHO)
  {
    FiveAscend("audit_session_id", "boot_id", "chunks", "end_reason", "ended", 0, 0, 0, 3);
    FiveAscend("epitropos_commit", "epitropos_version", "exit_code", "host", "katagrapho_commit", 10, 1, 0, 0);
    BothAscend(AUDIT_TO_ENDED, "ended", EPITROPOS_TO_KATAGRAPHO, "epitropos_commit", 1);
  }

  lemma LastFivesAscend()
    ensures Ascending(KATAGRAPHO_TO_SHA256) && Ascending(SIZE_TO_V)
  {
    FiveAscend("katagrapho_version", "part", "prev_manifest_hash", "recording_file", "recording_sha256",
               0, 1, 0, 10);
    FiveAscend("recording_size", "session_id", "started", "user", "v", 0, 1, 0, 0);
  }

  lemma LastNamesAscend()
    ensures Ascending(KATAGRAPHO_TO_SHA256 + SIZE_TO_V)
  {
    LastFivesAscend();
    BothAscend(KATAGRAPHO_TO_SHA256, "recording_sha256", SIZE_TO_V, "recording_size", 11);
  }

  lemma ManifestNamesAscend()
    ensures Ascending(MANIFEST_NAMES)
  {
    FirstNamesAscend();
    LastNamesAscend();
    BothAscend(AUDIT_TO_ENDED + EPITROPOS_TO_KATAGRAPHO, "katagrapho_commit", KATAGRAPHO_TO_SHA256 + SIZE_TO_V,
               "katagrapho_version", 11);
  }

  lemma {:induction false} AscendingBefore(names: seq<string>, j: nat, i: nat)
    requires Ascending(names) && j < i < |names|
    ensures TextBefore(names[j], names[i])
    decreases i
  {
    if j < i - 1 {
      AscendingBefore(names, j, i - 1);
      BeforeChains(names[j], names[i - 1], names[i]);
    }
  }

  lemma {:induction false} BeforeChains(a: string, b: string, c: string)
    requires TextBefore(a, b) && TextBefore(b, c)
    ensures TextBefore(a, c)
  {
    if a != [] && a[0] == b[0] && b[0] == c[0] {
      BeforeChains(a[1..], b[1..], c[1..]);
    }
  }

  /** So each name stands once. */
  lemma NamesDiffer(names: seq<string>, i: nat, j: nat)
    requires Ascending(names) && i < j < |names|
    ensures names[i] != names[j]
  {
    AscendingBefore(names, i, j);
    NotBeforeItself(names[i]);
  }

  // ----- The numbers

  lemma IntegerReads(n: int)
    ensures IntegerOf(Canonical.Number(n)) == Some(n)
  {
    NumeralOfDecimal(if n < 0 then -n else n);
    if n < 0 {
      var t := Canonical.Number(n);
      assert t[1..] == Decimal(-n) && !IsDigit(t[0]);
    }
  }

  // ----- What is read

  /** The members of a chunk object: its five names, each with this chunk's own value. */
  predicate SaysChunk(members: seq<Member>, c: Chunk) {
    && NamesOf(members) == CHUNK_NAMES
    && NumberUnder(members, "bytes", c.bytes)
    && FloatUnder(members, "elapsed", c.elapsed)
    && NumberUnder(members, "messages", c.messages)
    && NumberUnder(members, "seq", c.seqNo)
    && TextUnder(members, "sha256", c.sha256)
  }

  predicate IsChunk(v: Json, c: Chunk) {
    v.Obj? && SaysChunk(v.members, c)
  }

  predicate AreChunks(v: Json, chunks: seq<Chunk>) {
    v.Arr? && |v.items| == |chunks| && forall i :: 0 <= i < |chunks| ==> IsChunk(v.items[i], chunks[i])
  }

  /** The members of the whole object: the twenty names, each with the manifest's own value. */
  predicate SaysManifest(members: seq<Member>, m: Manifest) {
    && NamesOf(members) == MANIFEST_NAMES
    && OptionUnder(members, "audit_session_id", m.auditSessionId)
    && TextUnder(members, "boot_id", m.bootId)
    && ChunksUnder(members, "chunks", m.chunks)
    && TextUnder(members, "end_reason", m.endReason)
    && FloatUnder(members, "ended", m.ended)
    && TextUnder(members, "epitropos_commit", m.epitroposCommit)
    && TextUnder(members, "epitropos_version", m.epitroposVersion)
    && NumberUnder(members, "exit_code", m.exitCode)
    && TextUnder(members, "host", m.host)
    && TextUnder(members, "katagrapho_commit", m.katagraphoCommit)
    && TextUnder(members, "katagrapho_version", m.katagraphoVersion)
    && NumberUnder(members, "part", m.part)
    && TextUnder(members, "prev_manifest_hash", m.prevManifestHash)
    && TextUnder(members, "recording_file", m.recordingFile)
    && TextUnder(members, "recording_sha256", m.recordingSha256)
    && NumberUnder(members, "recording_size", m.recordingSize)
    && TextUnder(members, "session_id", m.sessionId)
    && FloatUnder(members, "started", m.started)
    && TextUnder(members, "user", m.user)
    && TextUnder(members, "v", m.v)
  }

  lemma ChunkSays(c: Chunk)
    ensures IsChunk(ChunkObject(c), c)
  {
    var members := ChunkObject(c).members;
    assert NamesOf(members) == CHUNK_NAMES;
    IntegerReads(c.bytes);
    IntegerReads(c.messages);
    IntegerReads(c.seqNo);
    assert members[0].key == "bytes" && members[1].key == "elapsed" && members[2].key == "messages";
    assert members[3].key == "seq" && members[4].key == "sha256";
  }

  lemma FieldsHaveNames(m: Manifest)
    ensures NamesOf(Fields(m)) == MANIFEST_NAMES
  {}

  lemma ChunksSay(m: Manifest)
    ensures ChunksUnder(Fields(m), "chunks", m.chunks)
  {
    forall i | 0 <= i < |m.chunks| ensures IsChunk(ChunkObjects(m.chunks)[i], m.chunks[i]) {
      ChunkSays(m.chunks[i]);
    }
    assert Fields(m)[2].key == "chunks";
  }

  lemma TextsSay(m: Manifest)
    ensures TextUnder(Fields(m), "boot_id", m.bootId) && TextUnder(Fields(m), "end_reason", m.endReason)
    ensures TextUnder(Fields(m), "epitropos_commit", m.epitroposCommit)
    ensures TextUnder(Fields(m), "epitropos_version", m.epitroposVersion) && TextUnder(Fields(m), "host", m.host)
    ensures TextUnder(Fields(m), "katagrapho_commit", m.katagraphoCommit)
  {
    var members := Fields(m);
    assert members[1].key == "boot_id" && members[3].key == "end_reason" && members[5].key == "epitropos_commit";
    assert members[6].key == "epitropos_version" && members[8].key == "host" && members[9].key == "katagrapho_commit";
  }

  lemma MoreTextsSay(m: Manifest)
    ensures TextUnder(Fields(m), "katagrapho_version", m.katagraphoVersion)
    ensures TextUnder(Fields(m), "prev_manifest_hash", m.prevManifestHash)
    ensures TextUnder(Fields(m), "recording_file", m.recordingFile)
    ensures TextUnder(Fields(m), "recording_sha256", m.recordingSha256)
    ensures TextUnder(Fields(m), "session_id", m.sessionId) && TextUnder(Fields(m), "user", m.user)
    ensures TextUnder(Fields(m), "v", m.v)
  {
    var members := Fields(m);
    assert members[10].key == "katagrapho_version" && members[12].key == "prev_manifest_hash";
    assert members[13].key == "recording_file" && members[14].key == "recording_sha256";
    assert members[16].key == "session_id" && members[18].key == "user" && members[19].key == "v";
  }

  lemma NumbersSay(m: Manifest)
    ensures NumberUnder(Fields(m), "exit_code", m.exitCode) && NumberUnder(Fields(m), "part", m.part)
    ensures NumberUnder(Fields(m), "recording_size", m.recordingSize)
  {
    IntegerReads(m.exitCode);
    IntegerReads(m.part);
    IntegerReads(m.recordingSize);
    var members := Fields(m);
    assert members[7].key == "exit_code" && members[11].key == "part" && members[15].key == "recording_size";
  }

  lemma OthersSay(m: Manifest)
    ensures OptionUnder(Fields(m), "audit_session_id", m.auditSessionId)
    ensures FloatUnder(Fields(m), "ended", m.ended) && FloatUnder(Fields(m), "started", m.started)
  {
    if m.auditSessionId.Some? {
      IntegerReads(m.auditSessionId.value);
    }
    var members := Fields(m);
    assert members[0].key == "audit_session_id" && members[4].key == "ended" && members[17].key == "started";
  }

  lemma FieldsSay(m: Manifest)
    ensures SaysManifest(Fields(m), m)
  {
    FieldsHaveNames(m);
    ChunksSay(m);
    TextsSay(m);
    MoreTextsSay(m);
    NumbersSay(m);
    OthersSay(m);
  }

  /**
   The canonical text is one JSON object. Read by the grammar of RFC 8259, it has exactly the twenty names of
   the format, in strictly ascending order, and under each the field of that name.
   */
  lemma CanonicalReads(m: Manifest)
    ensures var r := ReadValue(CanonicalText(m));
      r.Got? && r.rest == "" && r.value.Obj? && SaysManifest(r.value.members, m)
    ensures Ascending(MANIFEST_NAMES) && Ascending(CHUNK_NAMES)
  {
    assert CanonicalText(m) + "" == CanonicalText(m);
    ReadsBack(Obj(Fields(m)), "");
    FieldsSay(m);
    ManifestNamesAscend();
    ChunkNamesAscend();
  }
}
