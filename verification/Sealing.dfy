/**
  Content sealing (crypto.rs, pipeline.rs): length-prefixed encodings, per-file subkeys,
  counter nonces and the authenticated place of every chunk.

  HKDF (RFC 5869, section 2) and AES-GCM are free constructors: equal keys mean equal
  salt and info, and a sealed chunk opens only under the key, nonce and additional data
  it was sealed with.
 */
module Sealing {
  import opened Wrappers
  import opened Bytes

  type Str = seq<byte>

  datatype Key = Hkdf(salt: Str, info: Str)

  datatype Sealed = Gcm(key: Key, nonce: Str, aad: Str, plain: Str)

  datatype Error = BadChunkSize | IndexAboveBound | IndexOutsideFile | BadTag | BadCompression

  datatype KeyScheme = V1 | V2

  const MAX_CHUNK_INDEX: nat := 0xffff_ffff

  function Ascii(s: string): Str {
    seq(|s|, i requires 0 <= i < |s| => s[i] as int % 256)
  }

  const SUBKEY_INFO: Str := Ascii("p2pnas/file-subkey/v1")
  const HKDF_SALT_V2: Str := Ascii("p2pnas/hkdf-salt/v2")
  const FILE_SUBKEY_DOMAIN_V2: Str := Ascii("p2pnas/file-subkey/v2")
  const CHUNK_AAD_DOMAIN_V2: Str := Ascii("p2pnas/chunk-aad/v2")

  // ── Length-prefixed concatenation ──────────────────────────────────────────

  function LpPart(part: Str): Str {
    Be(|part|, 8) + part
  }

  function Lp(parts: seq<Str>): Str {
    if parts == [] then [] else LpPart(parts[0]) + Lp(parts[1..])
  }

  /** Lengths fit the 64-bit prefix. */
  ghost predicate Fits(parts: seq<Str>) {
    forall k :: 0 <= k < |parts| ==> |parts[k]| < U64
  }

  lemma {:induction false} LpSnoc(parts: seq<Str>, last: Str)
    ensures Lp(parts + [last]) == Lp(parts) + LpPart(last)
  {
    if parts == [] {
      assert parts + [last] == [last];
      assert Lp([last]) == LpPart(last) + Lp([]);
    } else {
      LpSnoc(parts[1..], last);
      assert (parts + [last])[1..] == parts[1..] + [last];
    }
  }

  method LpConcat(parts: seq<Str>) returns (out: Str)
    ensures out == Lp(parts)
  {
    out := [];
    for k := 0 to |parts|
      invariant out == Lp(parts[..k])
    {
      LpSnoc(parts[..k], parts[k]);
      assert parts[..k + 1] == parts[..k] + [parts[k]];
      out := out + Be(|parts[k]|, 8);
      out := out + parts[k];
    }
    assert parts[..|parts|] == parts;
  }

  lemma LpPartSplits(p: Str, rest: Str, q: Str, more: Str)
    requires |p| < U64 && |q| < U64 && LpPart(p) + rest == LpPart(q) + more
    ensures p == q && rest == more
  {
    assert LpPart(p) + rest == Be(|p|, 8) + (p + rest);
    assert LpPart(q) + more == Be(|q|, 8) + (q + more);
    SplitEqual(Be(|p|, 8), p + rest, Be(|q|, 8), q + more);
    Be8(|p|);
    Be8(|q|);
    SplitEqual(p, rest, q, more);
  }

  /** Different lists of parts, of whatever number, never encode alike. */
  lemma {:induction false} LpInjective(a: seq<Str>, b: seq<Str>)
    requires Fits(a) && Fits(b) && Lp(a) == Lp(b)
    ensures a == b
  {
    if a != [] && b != [] {
      LpPartSplits(a[0], Lp(a[1..]), b[0], Lp(b[1..]));
      LpInjective(a[1..], b[1..]);
      assert a == [a[0]] + a[1..] && b == [b[0]] + b[1..];
    }
  }

  // ── Keys, nonces and additional data ───────────────────────────────────────

  function FileSubkey(scheme: KeyScheme, user: Str, file: Str): Key {
    match scheme
    case V1 => Hkdf(SUBKEY_INFO, file)
    case V2 => Hkdf(HKDF_SALT_V2, Lp([FILE_SUBKEY_DOMAIN_V2, user, file]))
  }

  function NonceFor(index: nat): (n: Str)
    ensures |n| == 12
  {
    [0, 0, 0, 0] + Be(index, 8)
  }

  lemma NonceInjective(i: nat, j: nat)
    requires i < U64 && j < U64 && NonceFor(i) == NonceFor(j)
    ensures i == j
  {
    SplitEqual([0, 0, 0, 0], Be(i, 8), [0, 0, 0, 0], Be(j, 8));
    Be8(i);
    Be8(j);
  }

  lemma SaltsDiffer()
    ensures SUBKEY_INFO != HKDF_SALT_V2
  {
    assert |SUBKEY_INFO| == 21 && |HKDF_SALT_V2| == 19;
  }

  lemma DomainsFit()
    ensures |FILE_SUBKEY_DOMAIN_V2| == 21 && |CHUNK_AAD_DOMAIN_V2| == 19
  {
  }

  /** Owner and file are both bound into a v2 subkey, and no v1 subkey is a v2 one. */
  lemma SubkeyInjective(user: Str, file: Str, scheme': KeyScheme, user': Str, file': Str)
    requires |user| < U64 && |file| < U64 && |user'| < U64 && |file'| < U64
    ensures FileSubkey(V2, user, file) == FileSubkey(scheme', user', file') <==> scheme' == V2 && user == user' && file == file'
  {
    SaltsDiffer();
    DomainsFit();
    var a, b := [FILE_SUBKEY_DOMAIN_V2, user, file], [FILE_SUBKEY_DOMAIN_V2, user', file'];
    if Lp(a) == Lp(b) {
      LpInjective(a, b);
      assert a[1] == b[1] && a[2] == b[2];
    }
  }

  datatype ChunkAad = ChunkAad(scheme: KeyScheme, user: Str, file: Str, count: nat, index: nat)

  function SchemeByte(s: KeyScheme): byte {
    match s
    case V1 => 1
    case V2 => 2
  }

  function AadParts(a: ChunkAad): seq<Str> {
    [CHUNK_AAD_DOMAIN_V2, [SchemeByte(a.scheme)], a.user, a.file, Be(a.count, 8), Be(a.index, 8)]
  }

  function EncodeAad(a: ChunkAad): Str {
    Lp(AadParts(a))
  }

  datatype FileCipher = FileCipher(scheme: KeyScheme, key: Key, aadPrefix: Str, count: nat)

  function NewCipher(scheme: KeyScheme, user: Str, file: Str, count: nat): FileCipher {
    var prefix := match scheme
      case V1 => []
      case V2 => Lp([CHUNK_AAD_DOMAIN_V2, [SchemeByte(scheme)], user, file, Be(count, 8)]);
    FileCipher(scheme, FileSubkey(scheme, user, file), prefix, count)
  }

  function AadFor(c: FileCipher, index: nat): Str {
    match c.scheme
    case V1 => []
    case V2 => c.aadPrefix + LpPart(Be(index, 8))
  }

  /** The precomputed prefix plus the index is the canonical encoding, at every index. */
  lemma AadIsCanonical(user: Str, file: Str, count: nat, index: nat)
    ensures AadFor(NewCipher(V2, user, file, count), index) == EncodeAad(ChunkAad(V2, user, file, count, index))
  {
    var front: seq<Str> := [CHUNK_AAD_DOMAIN_V2, [2], user, file, Be(count, 8)];
    LpSnoc(front, Be(index, 8));
    assert front + [Be(index, 8)] == AadParts(ChunkAad(V2, user, file, count, index));
  }

  ghost predicate AadFits(a: ChunkAad) {
    |a.user| < U64 && |a.file| < U64 && a.count < U64 && a.index < U64
  }

  lemma AadInjective(a: ChunkAad, b: ChunkAad)
    requires AadFits(a) && AadFits(b) && EncodeAad(a) == EncodeAad(b)
    ensures a == b
  {
    DomainsFit();
    var p, q := AadParts(a), AadParts(b);
    LpInjective(p, q);
    assert p[1] == q[1] && p[2] == q[2] && p[3] == q[3] && p[4] == q[4] && p[5] == q[5];
    Be8(a.count);
    Be8(b.count);
    Be8(a.index);
    Be8(b.index);
  }

  // ── Sealing and opening one chunk ──────────────────────────────────────────

  function SealChunk(c: FileCipher, plain: Str, index: nat): Result<Sealed, Error> {
    if index > MAX_CHUNK_INDEX then Err(IndexAboveBound)
    else Ok(Gcm(c.key, NonceFor(index), AadFor(c, index), plain))
  }

  function OpenChunk(c: FileCipher, index: nat, s: Sealed): Result<Str, Error> {
    if c.scheme == V2 && index >= c.count then Err(IndexOutsideFile)
    else if s.key == c.key && s.nonce == NonceFor(index) && s.aad == AadFor(c, index) then Ok(s.plain)
    else Err(BadTag)
  }

  /** A v2 chunk opens exactly under its own owner, file, chunk count and index. */
  lemma OpensOnlyInItsPlace(a: ChunkAad, plain: Str, b: ChunkAad)
    requires AadFits(a) && AadFits(b) && a.scheme == V2 && a.index <= MAX_CHUNK_INDEX
    ensures var s := SealChunk(NewCipher(V2, a.user, a.file, a.count), plain, a.index);
      && s.Ok?
      && (OpenChunk(NewCipher(b.scheme, b.user, b.file, b.count), b.index, s.value) == Ok(plain) <==> a == b && a.index < a.count)
      && (OpenChunk(NewCipher(b.scheme, b.user, b.file, b.count), b.index, s.value).Ok? ==> a == b)
  {
    AadIsCanonical(a.user, a.file, a.count, a.index);
    SubkeyInjective(a.user, a.file, b.scheme, b.user, b.file);
    if b.scheme == V2 {
      AadIsCanonical(b.user, b.file, b.count, b.index);
      if EncodeAad(a) == EncodeAad(b) {
        AadInjective(a, b);
      }
    }
  }

  /** A legacy chunk is bound to its file and index only: any owner and any chunk count
      open it. */
  lemma LegacyOpensIff(user: Str, file: Str, count: nat, index: nat, plain: Str, user': Str, file': Str, count': nat, index': nat)
    requires index <= MAX_CHUNK_INDEX && index' < U64
    ensures OpenChunk(NewCipher(V1, user', file', count'), index', SealChunk(NewCipher(V1, user, file, count), plain, index).value) == Ok(plain)
       <==> file == file' && index == index'
  {
    if NonceFor(index) == NonceFor(index') {
      NonceInjective(index, index');
    }
  }
}
