/** The manifest record: what the recorder signs for one part of a session. */
module Manifests {
  import opened Wrappers

  function Zeros(n: nat): (s: string)
    ensures |s| == n && forall i :: 0 <= i < n ==> s[i] == '0'
  {
    if n == 0 then "" else Zeros(n - 1) + "0"
  }

  /** The `prev` of the first manifest, and the tip of a log with no signed line. */
  const GENESIS_PREV: string := Zeros(64)

  type U32 = n: int | 0 <= n < 0x1_0000_0000
  type U64 = n: int | 0 <= n < 0x1_0000_0000_0000_0000
  type I32 = n: int | -0x8000_0000 <= n < 0x8000_0000

  predicate IsNumberChar(c: char) {
    '0' <= c <= '9' || c == '.' || c == 'e' || c == 'E' || c == '+' || c == '-'
  }

  /** The shortest text of a finite float: how it is chosen is not modelled, only its alphabet. */
  type NumberText = s: string | s != [] && forall c :: c in s ==> IsNumberChar(c) witness "0.0"

  /** A 64-bit float, a finite one identified with its printed text. */
  datatype Float = Finite(text: NumberText) | NaN | Infinity(negative: bool)

  datatype Chunk = Chunk(seqNo: U64, bytes: U64, messages: U64, elapsed: Float, sha256: string)

  datatype Manifest = Manifest(
    v: string,
    sessionId: string,
    part: U32,
    user: string,
    host: string,
    bootId: string,
    auditSessionId: Option<U32>,
    started: Float,
    ended: Float,
    katagraphoVersion: string,
    katagraphoCommit: string,
    epitroposVersion: string,
    epitroposCommit: string,
    recordingFile: string,
    recordingSize: U64,
    recordingSha256: string,
    chunks: seq<Chunk>,
    endReason: string,
    exitCode: I32,
    prevManifestHash: string,
    thisManifestHash: string,
    keyId: string,
    signature: string)
}
