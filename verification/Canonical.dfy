/** The canonical text of a manifest: what is hashed, signed and recomputed by the verifier. */
module Canonical {
  import opened Wrappers
  import opened Manifests
  import opened Text
  import opened JsonText

  // ----- The canonical object, keys in alphabetical order

  function Number(n: int): Token {
    if n < 0 then "-" + Decimal(-n) else Decimal(n)
  }

  /** A float that is not finite has no JSON number, and prints as `null`. */
  function FloatToken(f: Float): Token {
    if f.Finite? then f.text else "null"
  }

  function OptionToken(o: Option<U32>): Token {
    if o.Some? then Number(o.value) else "null"
  }

  // Each name is checked once, here, to hold no quote.
  const BYTES: Key := "bytes"
  const ELAPSED: Key := "elapsed"
  const MESSAGES: Key := "messages"
  const SEQ: Key := "seq"
  const SHA256: Key := "sha256"
  const AUDIT_SESSION_ID: Key := "audit_session_id"
  const BOOT_ID: Key := "boot_id"
  const CHUNKS: Key := "chunks"
  const END_REASON: Key := "end_reason"
  const ENDED: Key := "ended"
  const EPITROPOS_COMMIT: Key := "epitropos_commit"
  const EPITROPOS_VERSION: Key := "epitropos_version"
  const EXIT_CODE: Key := "exit_code"
  const HOST: Key := "host"
  const KATAGRAPHO_COMMIT: Key := "katagrapho_commit"
  const KATAGRAPHO_VERSION: Key := "katagrapho_version"
  const PART: Key := "part"
  const PREV_MANIFEST_HASH: Key := "prev_manifest_hash"
  const RECORDING_FILE: Key := "recording_file"
  const RECORDING_SHA256: Key := "recording_sha256"
  const RECORDING_SIZE: Key := "recording_size"
  const SESSION_ID: Key := "session_id"
  const STARTED: Key := "started"
  const USER: Key := "user"
  const VERSION: Key := "v"

  function ChunkObject(c: Chunk): Json {
    Obj([Member(BYTES, Bare(Number(c.bytes))),
         Member(ELAPSED, Bare(FloatToken(c.elapsed))),
         Member(MESSAGES, Bare(Number(c.messages))),
         Member(SEQ, Bare(Number(c.seqNo))),
         Member(SHA256, Str(c.sha256))])
  }

  function ChunkObjects(chunks: seq<Chunk>): seq<Json> {
    seq(|chunks|, i requires 0 <= i < |chunks| => ChunkObject(chunks[i]))
  }

  function Fields(m: Manifest): seq<Member> {
    [Member(AUDIT_SESSION_ID, Bare(OptionToken(m.auditSessionId))),
     Member(BOOT_ID, Str(m.bootId)),
     Member(CHUNKS, Arr(ChunkObjects(m.chunks))),
     Member(END_REASON, Str(m.endReason)),
     Member(ENDED, Bare(FloatToken(m.ended))),
     Member(EPITROPOS_COMMIT, Str(m.epitroposCommit)),
     Member(EPITROPOS_VERSION, Str(m.epitroposVersion)),
     Member(EXIT_CODE, Bare(Number(m.exitCode))),
     Member(HOST, Str(m.host)),
     Member(KATAGRAPHO_COMMIT, Str(m.katagraphoCommit)),
     Member(KATAGRAPHO_VERSION, Str(m.katagraphoVersion)),
     Member(PART, Bare(Number(m.part))),
     Member(PREV_MANIFEST_HASH, Str(m.prevManifestHash)),
     Member(RECORDING_FILE, Str(m.recordingFile)),
     Member(RECORDING_SHA256, Str(m.recordingSha256)),
     Member(RECORDING_SIZE, Bare(Number(m.recordingSize))),
     Member(SESSION_ID, Str(m.sessionId)),
     Member(STARTED, Bare(FloatToken(m.started))),
     Member(USER, Str(m.user)),
     Member(VERSION, Str(m.v))]
  }

  function CanonicalText(m: Manifest): string {
    Render(Obj(Fields(m)))
  }

  // ----- The two loops that build it

  /** `enc_chunks`: the chunk objects, pushed one by one between brackets. */
  method EncodeList(items: seq<Json>) returns (out: string)
    ensures out == Render(Arr(items))
  {
    out := "[";
    var i := 0;
    while i < |items|
      invariant 0 <= i <= |items|
      invariant out + (if i == 0 then Items(items) else MoreItems(items[i..])) == "[" + Items(items)
    {
      ghost var before, rest := out, MoreItems(items[i + 1..]);
      assert items[i..][1..] == items[i + 1..];
      var text := Render(items[i]);
      if i > 0 {
        out := out + ",";
        SeparatorStep(before, text, rest);
      }
      ConcatAssoc(out, text, rest);
      out := out + text;
      i := i + 1;
    }
    assert items[i..] == [];
    out := out + "]";
  }

  lemma SeparatorStep(before: string, text: string, rest: string)
    ensures before + ("," + text + rest) == (before + ",") + (text + rest)
  {}

  /** `canonical_bytes_for_hashing`, once the fields are listed: each is pushed behind its quoted key. */
  method EncodeObject(fields: seq<Member>) returns (out: string)
    ensures out == Render(Obj(fields))
  {
    out := "{";
    var i := 0;
    while i < |fields|
      invariant 0 <= i <= |fields|
      invariant out + (if i == 0 then Members(fields) else MoreMembers(fields[i..])) == "{" + Members(fields)
    {
      ghost var before, rest := out, MoreMembers(fields[i + 1..]);
      assert fields[i..][1..] == fields[i + 1..];
      var value := fields[i].value;
      var text := "";
      if value.Arr? {
        text := EncodeList(value.items);
      } else {
        text := Render(value);
      }
      ghost var member := RenderMember(fields[i]);
      if i > 0 {
        out := out + ",";
        SeparatorStep(before, member, rest);
      }
      ConcatAssoc(out, member, rest);
      MemberStep(out, fields[i]);
      out := out + "\"" + fields[i].key + "\":" + text;
      i := i + 1;
    }
    assert fields[i..] == [];
    out := out + "}";
  }

  lemma MemberStep(out: string, m: Member)
    ensures out + RenderMember(m) == out + "\"" + m.key + "\":" + Render(m.value)
  {}

  method CanonicalBytes(m: Manifest) returns (out: string)
    ensures out == CanonicalText(m)
  {
    out := EncodeObject(Fields(m));
  }

  // ----- The canonical text identifies the signed fields

  /** Floats agree when they print alike: equal, or both without a JSON number. */
  predicate SameFloat(a: Float, b: Float) {
    a == b || (!a.Finite? && !b.Finite?)
  }

  predicate SameChunk(a: Chunk, b: Chunk) {
    a.seqNo == b.seqNo && a.bytes == b.bytes && a.messages == b.messages && SameFloat(a.elapsed, b.elapsed)
    && a.sha256 == b.sha256
  }

  predicate SameChunks(a: seq<Chunk>, b: seq<Chunk>) {
    |a| == |b| && forall i :: 0 <= i < |a| ==> SameChunk(a[i], b[i])
  }

  /** All twenty signed fields agree. The hash, key id and signature are not among them. */
  predicate SameSigned(a: Manifest, b: Manifest) {
    && a.v == b.v && a.sessionId == b.sessionId && a.part == b.part && a.user == b.user && a.host == b.host
    && a.bootId == b.bootId && a.auditSessionId == b.auditSessionId
    && SameFloat(a.started, b.started) && SameFloat(a.ended, b.ended)
    && a.katagraphoVersion == b.katagraphoVersion && a.katagraphoCommit == b.katagraphoCommit
    && a.epitroposVersion == b.epitroposVersion && a.epitroposCommit == b.epitroposCommit
    && a.recordingFile == b.recordingFile && a.recordingSize == b.recordingSize
    && a.recordingSha256 == b.recordingSha256 && SameChunks(a.chunks, b.chunks)
    && a.endReason == b.endReason && a.exitCode == b.exitCode && a.prevManifestHash == b.prevManifestHash
  }

  lemma NumberInjective(a: int, b: int)
    ensures Number(a) == Number(b) <==> a == b
  {
    if Number(a) == Number(b) {
      assert (a < 0) == (Number(a)[0] == '-') && (b < 0) == (Number(b)[0] == '-');
      var x, y := if a < 0 then -a else a, if b < 0 then -b else b;
      assert Decimal(x) == if a < 0 then Number(a)[1..] else Number(a);
      assert Decimal(y) == if b < 0 then Number(b)[1..] else Number(b);
      NumeralOfDecimal(x);
      NumeralOfDecimal(y);
    }
  }

  lemma OptionInjective(a: Option<U32>, b: Option<U32>)
    ensures OptionToken(a) == OptionToken(b) <==> a == b
  {
    if a.Some? && b.Some? {
      NumberInjective(a.value, b.value);
    } else {
      assert a.Some? ==> IsDigit(OptionToken(a)[0]);
      assert b.Some? ==> IsDigit(OptionToken(b)[0]);
      assert !IsDigit("null"[0]);
    }
  }

  lemma FloatAgreement(a: Float, b: Float)
    ensures FloatToken(a) == FloatToken(b) <==> SameFloat(a, b)
  {
    assert !IsNumberChar("null"[0]);
    assert a.Finite? ==> a.text[0] in a.text;
    assert b.Finite? ==> b.text[0] in b.text;
  }

  lemma ChunkAgreement(a: Chunk, b: Chunk)
    ensures ChunkObject(a) == ChunkObject(b) <==> SameChunk(a, b)
  {
    NumberInjective(a.bytes, b.bytes);
    NumberInjective(a.messages, b.messages);
    NumberInjective(a.seqNo, b.seqNo);
    FloatAgreement(a.elapsed, b.elapsed);
    var x, y := ChunkObject(a).members, ChunkObject(b).members;
    if x == y {
      assert x[0] == y[0] && x[1] == y[1] && x[2] == y[2] && x[3] == y[3] && x[4] == y[4];
    }
  }

  lemma ChunksAgreement(a: seq<Chunk>, b: seq<Chunk>)
    ensures ChunkObjects(a) == ChunkObjects(b) <==> SameChunks(a, b)
  {
    var x, y := ChunkObjects(a), ChunkObjects(b);
    forall i | 0 <= i < |a| && i < |b| ensures x[i] == y[i] <==> SameChunk(a[i], b[i]) {
      ChunkAgreement(a[i], b[i]);
    }
    if x == y {
      assert |a| == |x| && |b| == |y|;
      forall i | 0 <= i < |a| ensures SameChunk(a[i], b[i]) {
        assert x[i] == y[i];
      }
    }
  }

  lemma FieldsAgree(a: Manifest, b: Manifest)
    requires Fields(a) == Fields(b)
    ensures SameSigned(a, b)
  {
    NumbersAgree(a, b);
    var x, y := Fields(a), Fields(b);
    assert x[0] == y[0] && x[1] == y[1] && x[2] == y[2] && x[3] == y[3] && x[4] == y[4];
    assert x[5] == y[5] && x[6] == y[6] && x[7] == y[7] && x[8] == y[8] && x[9] == y[9];
    assert x[10] == y[10] && x[11] == y[11] && x[12] == y[12] && x[13] == y[13] && x[14] == y[14];
    assert x[15] == y[15] && x[16] == y[16] && x[17] == y[17] && x[18] == y[18] && x[19] == y[19];
  }

  lemma NumbersAgree(a: Manifest, b: Manifest)
    ensures OptionToken(a.auditSessionId) == OptionToken(b.auditSessionId) <==> a.auditSessionId == b.auditSessionId
    ensures ChunkObjects(a.chunks) == ChunkObjects(b.chunks) <==> SameChunks(a.chunks, b.chunks)
    ensures FloatToken(a.ended) == FloatToken(b.ended) <==> SameFloat(a.ended, b.ended)
    ensures FloatToken(a.started) == FloatToken(b.started) <==> SameFloat(a.started, b.started)
    ensures Number(a.exitCode) == Number(b.exitCode) <==> a.exitCode == b.exitCode
    ensures Number(a.part) == Number(b.part) <==> a.part == b.part
    ensures Number(a.recordingSize) == Number(b.recordingSize) <==> a.recordingSize == b.recordingSize
  {
    OptionInjective(a.auditSessionId, b.auditSessionId);
    ChunksAgreement(a.chunks, b.chunks);
    FloatAgreement(a.ended, b.ended);
    FloatAgreement(a.started, b.started);
    NumberInjective(a.exitCode, b.exitCode);
    NumberInjective(a.part, b.part);
    NumberInjective(a.recordingSize, b.recordingSize);
  }

  /** The canonical text is the same exactly when every signed field is. */
  lemma CanonicalInjective(a: Manifest, b: Manifest)
    ensures CanonicalText(a) == CanonicalText(b) <==> SameSigned(a, b)
  {
    RenderInjective(Obj(Fields(a)), Obj(Fields(b)));
    if SameSigned(a, b) {
      NumbersAgree(a, b);
    }
    if Fields(a) == Fields(b) {
      FieldsAgree(a, b);
    }
  }

  /** On finite floats agreement is equality, so the text determines the manifest up to its signature. */
  ghost predicate FiniteFloats(m: Manifest) {
    m.started.Finite? && m.ended.Finite? && forall c :: c in m.chunks ==> c.elapsed.Finite?
  }

  function Unsigned(m: Manifest): Manifest {
    m.(thisManifestHash := "", keyId := "", signature := "")
  }

  lemma CanonicalDetermines(a: Manifest, b: Manifest)
    requires FiniteFloats(a) && FiniteFloats(b)
    ensures CanonicalText(a) == CanonicalText(b) <==> Unsigned(a) == Unsigned(b)
  {
    CanonicalInjective(a, b);
    if SameSigned(a, b) {
      forall i | 0 <= i < |a.chunks| ensures a.chunks[i] == b.chunks[i] {
        assert a.chunks[i] in a.chunks && b.chunks[i] in b.chunks;
      }
    }
  }

  /** An object text ends in its brace. */
  lemma CanonicalEnds(m: Manifest)
    ensures CanonicalText(m)[|CanonicalText(m)| - 1] == '}'
  {}
}
