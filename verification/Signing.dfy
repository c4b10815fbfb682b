/**
 Hashing and signing a manifest, and checking it again.

 SHA-256, ed25519 and base64 are parameters. What a proof needs of them is stated where it is used:
 `Sound` is correctness, and collision or forgery is always excluded for named texts only, because no
 hash onto 64 characters is injective on all texts.
 */
module Signing {
  import opened Wrappers
  import opened Manifests
  import opened Text
  import opened Canonical
  import opened StreamReader

  /** One signing key with its hash: `sha` and `shaFile` give hexadecimal digests, `sign` base64 text. */
  datatype Suite = Suite(
    sha: string -> string,
    shaFile: Bytes -> string,
    sign: string -> string,
    accepts: (string, string) -> bool,
    keyId: string)

  predicate IsLowerHex(c: char) {
    '0' <= c <= '9' || 'a' <= c <= 'f'
  }

  predicate IsHex(c: char) {
    IsLowerHex(c) || 'A' <= c <= 'F'
  }

  predicate IsDigest(s: string) {
    |s| == 64 && forall i :: 0 <= i < |s| ==> IsLowerHex(s[i])
  }

  /** Digests are 64 lower-case hex digits, and a signature is one word that verifies. */
  ghost predicate Sound(k: Suite) {
    (forall x :: IsDigest(k.sha(x))) && forall d :: IsWord(k.sign(d)) && k.accepts(d, k.sign(d))
  }

  /** Some suite is sound. */
  lemma SomeSuiteIsSound() returns (k: Suite)
    ensures Sound(k)
  {
    k := Suite(_ => GENESIS_PREV, _ => GENESIS_PREV, _ => "s", (_, _) => true, "");
    assert IsDigest(GENESIS_PREV) && IsWord("s");
  }

  function LowerHex(c: char): char {
    if 'A' <= c <= 'F' then (c as int + 32) as char else c
  }

  /** The bytes a hexadecimal text stands for, as lower-case text: decoding ignores case. */
  function Lowered(s: string): (t: string)
    ensures |t| == |s| && forall i :: 0 <= i < |s| ==> t[i] == LowerHex(s[i])
  {
    seq(|s|, i requires 0 <= i < |s| => LowerHex(s[i]))
  }

  predicate DecodesAsHex(s: string) {
    |s| % 2 == 0 && forall i :: 0 <= i < |s| ==> IsHex(s[i])
  }

  datatype VerifyError = HashNotHex | HashWrongLength | ContentMismatch | BadSignature

  function ManifestHash(k: Suite, m: Manifest): string {
    k.sha(CanonicalText(m))
  }

  function Signed(k: Suite, m: Manifest): Manifest {
    m.(thisManifestHash := ManifestHash(k, m), keyId := k.keyId, signature := k.sign(ManifestHash(k, m)))
  }

  /** A manifest under construction, which `sign` completes in place. */
  class Draft {
    var manifest: Manifest

    constructor (m: Manifest)
      ensures manifest == m
    {
      manifest := m;
    }

    method Sign(k: Suite) returns (digest: string)
      modifies this
      ensures manifest == Signed(k, old(manifest)) && digest == manifest.thisManifestHash
      ensures Sound(k) ==> Verify(k, manifest).Ok?
    {
      var text := CanonicalBytes(manifest);
      digest := k.sha(text);
      var sig := k.sign(digest);
      manifest := manifest.(thisManifestHash := digest);
      manifest := manifest.(keyId := k.keyId);
      manifest := manifest.(signature := sig);
      if Sound(k) {
        SignedVerifies(k, old(manifest));
      }
    }
  }

  /** `Manifest::verify`: the stored hash is recomputed, then the signature is checked over it. */
  function Verify(k: Suite, m: Manifest): Result<(), VerifyError> {
    var recomputed := ManifestHash(k, m);
    if !DecodesAsHex(m.thisManifestHash) then Err(HashNotHex)
    else if |m.thisManifestHash| != 64 then Err(HashWrongLength)
    else if Lowered(m.thisManifestHash) != recomputed then Err(ContentMismatch)
    else if !k.accepts(recomputed, m.signature) then Err(BadSignature)
    else Ok(())
  }

  lemma LowerHexChar(c: char)
    ensures IsLowerHex(c) ==> LowerHex(c) == c
    ensures IsLowerHex(LowerHex(c)) ==> IsHex(c)
  {}

  lemma LoweredDigest(s: string)
    ensures IsDigest(s) ==> Lowered(s) == s
    ensures IsDigest(Lowered(s)) ==> DecodesAsHex(s) && |s| == 64
  {
    var t := Lowered(s);
    forall i | 0 <= i < |s| ensures (IsLowerHex(s[i]) ==> t[i] == s[i]) && (IsLowerHex(t[i]) ==> IsHex(s[i])) {
      LowerHexChar(s[i]);
    }
    if IsDigest(s) {
      assert t == s;
    }
  }

  /** Each failure, in the order of the tests: no hex text, another length, another content, no valid signature. */
  lemma VerifyFails(k: Suite, m: Manifest)
    ensures var s, hash := m.thisManifestHash, ManifestHash(k, m);
      var hex := |s| % 2 == 0 && forall c :: c in s ==> '0' <= c <= '9' || 'a' <= c <= 'f' || 'A' <= c <= 'F';
      && (Verify(k, m) == Err(HashNotHex) <==> !hex)
      && (Verify(k, m) == Err(HashWrongLength) <==> hex && |s| != 64)
      && (Verify(k, m) == Err(ContentMismatch) <==> hex && |s| == 64 && Lowered(s) != hash)
      && (Verify(k, m) == Err(BadSignature)
          <==> hex && |s| == 64 && Lowered(s) == hash && !k.accepts(hash, m.signature))
  {
    var s := m.thisManifestHash;
    assert forall i :: 0 <= i < |s| ==> s[i] in s;
  }

  /** Lowering turns `A` to `F` into `a` to `f` and leaves every other character alone. */
  lemma LoweredMeans(s: string, i: nat)
    requires i < |s|
    ensures s[i] !in "ABCDEF" ==> Lowered(s)[i] == s[i]
    ensures forall d :: 0 <= d < 6 && s[i] == "ABCDEF"[d] ==> Lowered(s)[i] == "abcdef"[d]
  {
    if 'A' <= s[i] <= 'F' {
      assert "ABCDEF"[s[i] as int - 'A' as int] == s[i];
    }
  }

  /** Verification succeeds exactly when hash and signature both belong to the twenty signed fields. */
  lemma VerifyMeans(k: Suite, m: Manifest)
    requires Sound(k)
    ensures Verify(k, m).Ok? <==>
      Lowered(m.thisManifestHash) == ManifestHash(k, m) && k.accepts(ManifestHash(k, m), m.signature)
  {
    LoweredDigest(m.thisManifestHash);
  }

  lemma SignedVerifies(k: Suite, m: Manifest)
    requires Sound(k)
    ensures Verify(k, Signed(k, m)).Ok?
    ensures ManifestHash(k, Signed(k, m)) == ManifestHash(k, m)
  {
    CanonicalInjective(m, Signed(k, m));
    VerifyMeans(k, Signed(k, m));
    LoweredDigest(ManifestHash(k, m));
  }

  /** No two of these texts have the same digest. */
  ghost predicate NoCollision(k: Suite, texts: set<string>) {
    forall a, b :: a in texts && b in texts && k.sha(a) == k.sha(b) ==> a == b
  }

  /** None of these texts has the digest that stands for "no predecessor". */
  ghost predicate NoneGenesis(k: Suite, texts: set<string>) {
    forall a :: a in texts ==> k.sha(a) != GENESIS_PREV
  }
}
