/**
  The upload pipeline (pipeline.rs) and the read loop that reverses it (service.rs): cut
  a file into chunks, compress each if that pays, seal each in its place.

  Compression is a parameter with the law that restoring undoes it.
 */
module Pipeline {
  import opened Wrappers
  import opened Bytes
  import opened Sealing
  import E = Erasure

  datatype Packed = Packed(bytes: Str, isCompressed: bool)

  datatype Codec = Codec(compress: Str -> Packed, restore: Packed -> Option<Str>)

  ghost predicate Faithful(codec: Codec) {
    forall d :: codec.restore(codec.compress(d)) == Some(d)
  }

  // ── Chunking ───────────────────────────────────────────────────────────────

  function ChunkCountFor(len: nat, size: nat): Result<nat, Error> {
    if size == 0 then Err(BadChunkSize) else Ok(E.DivCeil(len, size))
  }

  function Chunks(data: Str, size: nat): seq<Str>
    requires size > 0
    decreases |data|
  {
    if data == [] then []
    else if |data| <= size then [data]
    else [data[..size]] + Chunks(data[size..], size)
  }

  function Flatten(chunks: seq<Str>): Str {
    if chunks == [] then [] else chunks[0] + Flatten(chunks[1..])
  }

  lemma MultipleBound(k: int, d: int)
    requires d > 0
    ensures k > 0 ==> k * d >= d
    ensures k < 0 ==> k * d <= -d
  {
  }

  lemma DivisionIs(n: nat, d: nat, q: nat, r: nat)
    requires d > 0 && n == q * d + r && r < d
    ensures n / d == q && n % d == r
  {
    var k: int := n / d - q;
    assert n == (n / d) * d + n % d;
    assert k * d == r - n % d;
    MultipleBound(k, d);
  }

  lemma DivCeilStep(n: nat, d: nat)
    requires 0 < d < n
    ensures E.DivCeil(n, d) == 1 + E.DivCeil(n - d, d)
  {
    var q, r := (n - 1) / d, (n - 1) % d;
    assert n + d - 1 == (q + 1) * d + r;
    DivisionIs(n + d - 1, d, q + 1, r);
  }

  /** The closed form agrees with the cutting, and nothing is lost by cutting. */
  lemma {:induction false} ChunkCountAgrees(data: Str, size: nat)
    requires size > 0
    ensures ChunkCountFor(|data|, size) == Ok(|Chunks(data, size)|)
    ensures Flatten(Chunks(data, size)) == data
    ensures forall k :: 0 <= k < |Chunks(data, size)| ==> 0 < |Chunks(data, size)[k]| <= size
    decreases |data|
  {
    if data == [] {
      DivisionIs(size - 1, size, 0, size - 1);
    } else if |data| <= size {
      DivisionIs(|data| + size - 1, size, 1, |data| - 1);
      assert Flatten([data]) == data + Flatten([]);
    } else {
      ChunkCountAgrees(data[size..], size);
      DivCeilStep(|data|, size);
      assert Chunks(data, size)[1..] == Chunks(data[size..], size);
    }
  }

  // ── Sealing a file ─────────────────────────────────────────────────────────

  datatype ProcessedChunk = ProcessedChunk(index: nat, nonce: Str, isCompressed: bool, plaintextLen: nat, cipher: Sealed)

  function ProcessChunk(codec: Codec, c: FileCipher, chunk: Str, index: nat): ProcessedChunk {
    var p := codec.compress(chunk);
    ProcessedChunk(index, NonceFor(index), p.isCompressed, |chunk|, Gcm(c.key, NonceFor(index), AadFor(c, index), p.bytes))
  }

  /** `out` is `chunks`, each sealed in its place. */
  ghost predicate SealedChunks(codec: Codec, chunks: seq<Str>, scheme: KeyScheme, user: Str, file: Str, out: seq<ProcessedChunk>) {
    && |out| == |chunks|
    && forall k :: 0 <= k < |out| ==> out[k] == ProcessChunk(codec, NewCipher(scheme, user, file, |chunks|), chunks[k], k)
  }

  /** The chunks of one file as they are stored. */
  ghost predicate SealedFile(codec: Codec, data: Str, scheme: KeyScheme, user: Str, file: Str, size: nat, out: seq<ProcessedChunk>)
    requires size > 0
  {
    SealedChunks(codec, Chunks(data, size), scheme, user, file, out)
  }

  method ProcessWithScheme(codec: Codec, data: Str, scheme: KeyScheme, user: Str, file: Str, size: nat)
    returns (r: Result<seq<ProcessedChunk>, Error>)
    ensures size == 0 <==> r == Err(BadChunkSize)
    ensures size > 0 ==> (r.Ok? <==> |Chunks(data, size)| <= MAX_CHUNK_INDEX + 1)
    ensures size > 0 && r.Ok? ==> SealedFile(codec, data, scheme, user, file, size, r.value)
    ensures size > 0 && r.Ok? ==> forall k :: 0 <= k < |r.value| ==>
              k < |Chunks(data, size)| && r.value[k].index == k && r.value[k].plaintextLen == |Chunks(data, size)[k]|
  {
    var count := ChunkCountFor(|data|, size);
    if count.Err? {
      return Err(count.error);
    }
    ChunkCountAgrees(data, size);
    var cipher := NewCipher(scheme, user, file, count.value);
    var chunks := Chunks(data, size);
    var out: seq<ProcessedChunk> := [];
    for index := 0 to |chunks|
      invariant |out| == index && index <= MAX_CHUNK_INDEX + 1
      invariant forall k :: 0 <= k < index ==> out[k] == ProcessChunk(codec, cipher, chunks[k], k)
    {
      var p := codec.compress(chunks[index]);
      var s := SealChunk(cipher, p.bytes, index);
      if s.Err? {
        return Err(s.error);
      }
      out := out + [ProcessedChunk(index, NonceFor(index), p.isCompressed, |chunks[index]|, s.value)];
    }
    r := Ok(out);
  }

  // ── Reading it back ────────────────────────────────────────────────────────

  function OpenOne(codec: Codec, c: FileCipher, p: ProcessedChunk): Result<Str, Error> {
    match OpenChunk(c, p.index, p.cipher)
    case Err(e) => Err(e)
    case Ok(plain) =>
      match codec.restore(Packed(plain, p.isCompressed))
      case None => Err(BadCompression)
      case Some(d) => Ok(d)
  }

  function OpenAll(codec: Codec, c: FileCipher, ps: seq<ProcessedChunk>): Result<Str, Error> {
    if ps == [] then Ok([])
    else
      match OpenAll(codec, c, ps[..|ps| - 1])
      case Err(e) => Err(e)
      case Ok(front) =>
        match OpenOne(codec, c, ps[|ps| - 1])
        case Err(e) => Err(e)
        case Ok(d) => Ok(front + d)
  }

  /** The read loop over a file's stored chunk rows, under the chunk count its row claims. */
  method ReadFile(codec: Codec, scheme: KeyScheme, user: Str, file: Str, count: nat, ps: seq<ProcessedChunk>)
    returns (r: Result<Str, Error>)
    ensures r == OpenAll(codec, NewCipher(scheme, user, file, count), ps)
  {
    var cipher := NewCipher(scheme, user, file, count);
    var out: Str := [];
    for k := 0 to |ps|
      invariant OpenAll(codec, cipher, ps[..k]) == Ok(out)
    {
      assert ps[..k + 1][..k] == ps[..k];
      var d := OpenOne(codec, cipher, ps[k]);
      if d.Err? {
        OpenAllFails(codec, cipher, ps, k + 1);
        return Err(d.error);
      }
      out := out + d.value;
    }
    assert ps[..|ps|] == ps;
    r := Ok(out);
  }

  /** A failure in a prefix is the failure of the whole. */
  lemma {:induction false} OpenAllFails(codec: Codec, c: FileCipher, ps: seq<ProcessedChunk>, k: nat)
    requires k <= |ps| && OpenAll(codec, c, ps[..k]).Err?
    ensures OpenAll(codec, c, ps) == OpenAll(codec, c, ps[..k])
  {
    if k == |ps| {
      assert ps[..k] == ps;
    } else {
      assert ps[..|ps| - 1][..k] == ps[..k];
      OpenAllFails(codec, c, ps[..|ps| - 1], k);
    }
  }

  lemma {:induction false} FlattenSnoc(front: seq<Str>, last: Str)
    ensures Flatten(front + [last]) == Flatten(front) + last
  {
    if front == [] {
      assert front + [last] == [last];
      assert Flatten([last]) == last + Flatten([]);
    } else {
      FlattenSnoc(front[1..], last);
      assert (front + [last])[1..] == front[1..] + [last];
    }
  }

  /** One stored chunk reads back under the claimed count exactly when that is the true
      one. */
  lemma ReadsOneIff(codec: Codec, chunk: Str, user: Str, file: Str, total: nat, count: nat, k: nat)
    requires Faithful(codec) && |user| < U64 && |file| < U64 && count < U64 && k < total <= MAX_CHUNK_INDEX + 1
    ensures var p := ProcessChunk(codec, NewCipher(V2, user, file, total), chunk, k);
      var r := OpenOne(codec, NewCipher(V2, user, file, count), p);
      ReadsAs(r, count == total, chunk)
  {
    OpensOnlyInItsPlace(ChunkAad(V2, user, file, total, k), codec.compress(chunk).bytes, ChunkAad(V2, user, file, count, k));
    assert codec.restore(codec.compress(chunk)) == Some(chunk);
  }

  ghost predicate ReadsAs(r: Result<Str, Error>, ok: bool, bytes: Str) {
    (r.Ok? <==> ok) && (ok ==> r == Ok(bytes))
  }

  lemma OneMoreReads(codec: Codec, c: FileCipher, front: seq<ProcessedChunk>, last: ProcessedChunk, all: seq<ProcessedChunk>,
                     chunks: seq<Str>, chunk: Str, whole: seq<Str>, ok: bool)
    requires all == front + [last] && whole == chunks + [chunk]
    requires ReadsAs(OpenOne(codec, c, last), ok, chunk)
    requires ok ==> OpenAll(codec, c, front) == Ok(Flatten(chunks))
    ensures ReadsAs(OpenAll(codec, c, all), ok, Flatten(whole))
  {
    OpenAllSnoc(codec, c, front, last, all);
    FlattenSnoc(chunks, chunk);
  }

  lemma {:induction false} ReadsEach(codec: Codec, c: FileCipher, out: seq<ProcessedChunk>, chunks: seq<Str>, ok: bool, m: nat)
    requires |out| == |chunks| && m <= |out|
    requires forall k :: 0 <= k < |out| ==> ReadsAs(OpenOne(codec, c, out[k]), ok, chunks[k])
    ensures ReadsAs(OpenAll(codec, c, out[..m]), m == 0 || ok, Flatten(chunks[..m]))
  {
    if m > 0 {
      var k := m - 1;
      ReadsEach(codec, c, out, chunks, ok, k);
      OneMoreReads(codec, c, out[..k], out[k], out[..m], chunks[..k], chunks[k], chunks[..m], ok);
    }
  }

  ghost predicate Picks(pick: seq<nat>, n: nat) {
    forall k :: 0 <= k < |pick| ==> pick[k] < n
  }

  /** Some of the entries, in any order. */
  ghost function Select<T>(all: seq<T>, pick: seq<nat>): seq<T>
    requires Picks(pick, |all|)
  {
    seq(|pick|, k requires 0 <= k < |pick| => all[pick[k]])
  }

  /** Reading any selection of a stored file's chunk rows under a claimed count: it succeeds
      exactly when the claimed count is the true one (or nothing is read at all), and then
      yields exactly the selected chunks. */
  lemma ReadsSelectionIff(codec: Codec, chunks: seq<Str>, user: Str, file: Str, out: seq<ProcessedChunk>, count: nat, pick: seq<nat>)
    requires Faithful(codec) && SealedChunks(codec, chunks, V2, user, file, out) && Picks(pick, |out|)
    requires |user| < U64 && |file| < U64 && |out| <= MAX_CHUNK_INDEX + 1 && count < U64
    ensures ReadsAs(OpenAll(codec, NewCipher(V2, user, file, count), Select(out, pick)), pick == [] || count == |out|,
                    Flatten(Select(chunks, pick)))
  {
    var c := NewCipher(V2, user, file, count);
    var rows, parts := Select(out, pick), Select(chunks, pick);
    forall k | 0 <= k < |rows| ensures ReadsAs(OpenOne(codec, c, rows[k]), count == |out|, parts[k]) {
      ReadsOneIff(codec, chunks[pick[k]], user, file, |out|, count, pick[k]);
    }
    ReadsEach(codec, c, rows, parts, count == |out|, |rows|);
    assert rows[..|rows|] == rows && parts[..|rows|] == parts;
  }

  lemma OpenAllSnoc(codec: Codec, c: FileCipher, front: seq<ProcessedChunk>, last: ProcessedChunk, all: seq<ProcessedChunk>)
    requires all == front + [last]
    ensures var f, l := OpenAll(codec, c, front), OpenOne(codec, c, last);
      (OpenAll(codec, c, all).Ok? <==> f.Ok? && l.Ok?) && (f.Ok? && l.Ok? ==> OpenAll(codec, c, all) == Ok(f.value + l.value))
  {
    assert all[..|all| - 1] == front;
  }

  /** Uploading and reading back is the identity. */
  lemma RoundTrip(codec: Codec, data: Str, user: Str, file: Str, size: nat, out: seq<ProcessedChunk>)
    requires Faithful(codec) && size > 0 && SealedFile(codec, data, V2, user, file, size, out)
    requires |user| < U64 && |file| < U64 && |out| <= MAX_CHUNK_INDEX + 1
    ensures OpenAll(codec, NewCipher(V2, user, file, |out|), out) == Ok(data)
  {
    var every := seq(|out|, k => k);
    ReadsSelectionIff(codec, Chunks(data, size), user, file, out, |out|, every);
    ChunkCountAgrees(data, size);
    assert Select(out, every) == out && Select(Chunks(data, size), every) == Chunks(data, size);
  }

  /** Losing chunk rows, at the end, in the middle or all of them, is noticed exactly when
      some row is left and the claimed count is not the true one: rows lost on their own
      leave a shorter file that reads without error. */
  lemma LossNoticedIff(codec: Codec, data: Str, user: Str, file: Str, size: nat, out: seq<ProcessedChunk>, count: nat, pick: seq<nat>)
    requires Faithful(codec) && size > 0 && SealedFile(codec, data, V2, user, file, size, out)
    requires |user| < U64 && |file| < U64 && |out| <= MAX_CHUNK_INDEX + 1 && count < U64
    requires Picks(pick, |out|) && Ascending(pick) && |pick| < |out|
    ensures var r := OpenAll(codec, NewCipher(V2, user, file, count), Select(out, pick));
      (r.Err? <==> pick != [] && count != |out|) && (r.Ok? ==> |r.value| < |data|)
  {
    var chunks := Chunks(data, size);
    ReadsSelectionIff(codec, chunks, user, file, out, count, pick);
    ChunkCountAgrees(data, size);
    FewerIsShorter(chunks, pick);
  }

  /** The rows that are left keep their order. */
  ghost predicate Ascending(pick: seq<nat>) {
    forall a, b :: 0 <= a < b < |pick| ==> pick[a] < pick[b]
  }

  lemma {:induction false} FewerIsShorter(chunks: seq<Str>, pick: seq<nat>)
    requires Picks(pick, |chunks|) && Ascending(pick) && forall k :: 0 <= k < |chunks| ==> |chunks[k]| > 0
    ensures |Flatten(Select(chunks, pick))| <= |Flatten(chunks)|
    ensures |pick| < |chunks| ==> |Flatten(Select(chunks, pick))| < |Flatten(chunks)|
    decreases |chunks|
  {
    if chunks != [] {
      var n, p := |chunks| - 1, |pick| - 1;
      assert chunks == chunks[..n] + [chunks[n]];
      FlattenSnoc(chunks[..n], chunks[n]);
      if pick != [] && pick[p] == n {
        FewerIsShorter(chunks[..n], pick[..p]);
        assert Select(chunks, pick) == Select(chunks[..n], pick[..p]) + [chunks[n]];
        FlattenSnoc(Select(chunks[..n], pick[..p]), chunks[n]);
      } else {
        FewerIsShorter(chunks[..n], pick);
        assert Select(chunks, pick) == Select(chunks[..n], pick);
      }
    }
  }

  /** Nobody else's identity, no other file id and no legacy reader opens a v2 file. */
  lemma StrangerReadsNothing(codec: Codec, data: Str, user: Str, file: Str, size: nat, out: seq<ProcessedChunk>,
                             scheme': KeyScheme, user': Str, file': Str, count': nat)
    requires size > 0 && SealedFile(codec, data, V2, user, file, size, out) && 0 < |out| <= MAX_CHUNK_INDEX + 1
    requires |user| < U64 && |file| < U64 && |user'| < U64 && |file'| < U64 && count' < U64
    requires (scheme', user', file') != (V2, user, file)
    ensures OpenAll(codec, NewCipher(scheme', user', file', count'), out).Err?
  {
    var c := NewCipher(scheme', user', file', count');
    OpensOnlyInItsPlace(ChunkAad(V2, user, file, |out|, 0), codec.compress(Chunks(data, size)[0]).bytes,
                        ChunkAad(scheme', user', file', count', 0));
    assert OpenAll(codec, c, []) == Ok([]);
    assert out[..1][..0] == [] && out[..1][0] == out[0];
    assert OpenAll(codec, c, out[..1]).Err?;
    OpenAllFails(codec, c, out, 1);
  }

  // ── One (key, nonce) pair, one plaintext ───────────────────────────────────

  /** One pass over one file version: an upload, a pack or a compaction. */
  datatype Write = Write(user: Str, file: Str, data: Str)

  /** Every pass mints its own file id. */
  ghost predicate FreshIds(run: seq<Write>) {
    forall a, b :: 0 <= a < b < |run| ==> run[a].file != run[b].file
  }

  ghost predicate WriteFits(w: Write, size: nat)
    requires size > 0
  {
    |w.user| < U64 && |w.file| < U64 && |Chunks(w.data, size)| <= U64
  }

  /** In a run of any length, no two sealings share a key and a nonce: chunk `k` of pass
      `a` and chunk `l` of pass `b` use the same pair only if they are the same chunk
      (the uniqueness requirement of section 8 of NIST SP 800-38D). */
  lemma NoPairReused(codec: Codec, run: seq<Write>, size: nat, a: nat, k: nat, b: nat, l: nat, outA: seq<ProcessedChunk>, outB: seq<ProcessedChunk>)
    requires size > 0 && FreshIds(run) && a < |run| && b < |run| && WriteFits(run[a], size) && WriteFits(run[b], size)
    requires SealedFile(codec, run[a].data, V2, run[a].user, run[a].file, size, outA) && k < |outA|
    requires SealedFile(codec, run[b].data, V2, run[b].user, run[b].file, size, outB) && l < |outB|
    ensures outA[k].cipher.key == outB[l].cipher.key && outA[k].cipher.nonce == outB[l].cipher.nonce ==>
      a == b && k == l && outA[k] == outB[l]
  {
    SubkeyInjective(run[a].user, run[a].file, V2, run[b].user, run[b].file);
    if NonceFor(k) == NonceFor(l) {
      NonceInjective(k, l);
    }
  }
}