/**
  Erasure coding (erasure.rs): a sealed buffer is striped over ten data shards and
  protected by four parity shards.

  The Reed-Solomon library itself is a parameter.  All that is used of it is its law:
  any ten of the fourteen shards determine the ten data shards.
 */
module Erasure {
  import opened Wrappers
  import opened Bytes

  const DATA_SHARDS: nat := 10
  const PARITY_SHARDS: nat := 4
  const TOTAL_SHARDS: nat := 14
  const STORAGE_BLOCK_SIZE: nat := 4096

  type Shard = seq<byte>

  /** Why a reconstruction can be refused. */
  datatype ErasureError = DecodeFailed | MissingAfterDecode

  /** `parity` maps ten data shards to four; `decode` gets the surviving data shards and
      the surviving parity shards by index and returns the missing data shards. */
  datatype Code = Code(
    parity: seq<Shard> -> seq<Shard>,
    decode: (map<nat, Shard>, map<nat, Shard>) -> Option<map<nat, Shard>>)

  predicate Uniform(shards: seq<Shard>, len: nat) {
    forall i :: 0 <= i < |shards| ==> |shards[i]| == len
  }

  /** `some` are shards of `all`, at their own indices. */
  predicate Among(some: map<nat, Shard>, all: seq<Shard>) {
    forall i :: i in some ==> i < |all| && some[i] == all[i]
  }

  ghost predicate SameLength(m: map<nat, Shard>, len: nat) {
    forall i :: i in m ==> |m[i]| == len
  }

  /** Shard lengths the library takes: 64, 128, 192 and so on. */
  predicate Admissible(len: nat) {
    len > 0 && len % 64 == 0
  }

  /** The law of the code. */
  ghost predicate Lawful(code: Code) {
    && (forall data, len :: |data| == DATA_SHARDS && Uniform(data, len) && Admissible(len) ==>
          |code.parity(data)| == PARITY_SHARDS && Uniform(code.parity(data), len))
    && (forall data, len, original, recovery ::
          |data| == DATA_SHARDS && Uniform(data, len) && Admissible(len)
          && Among(original, data) && Among(recovery, code.parity(data)) && |original| + |recovery| >= DATA_SHARDS ==>
          && code.decode(original, recovery).Some?
          && (forall i :: 0 <= i < DATA_SHARDS && i !in original ==>
                i in code.decode(original, recovery).value && code.decode(original, recovery).value[i] == data[i]))
    && (forall original, recovery :: code.decode(original, recovery).Some? ==>
          && |original| + |recovery| >= DATA_SHARDS
          && exists len :: SameLength(original, len) && SameLength(recovery, len)
                        && SameLength(code.decode(original, recovery).value, len))
  }

  // ── Geometry ───────────────────────────────────────────────────────────────

  function DivCeil(n: nat, d: nat): nat
    requires d > 0
  {
    (n + d - 1) / d
  }

  /** The shard length: at least 64 bytes, in steps of 64. */
  function ShardLen(cipherLen: nat): (sl: nat)
    ensures sl >= 64 && sl % 64 == 0 && sl * DATA_SHARDS >= cipherLen
    ensures sl == 64 || (sl - 64) * DATA_SHARDS < cipherLen
  {
    var per := DivCeil(cipherLen, DATA_SHARDS);
    DivCeil(if per < 64 then 64 else per, 64) * 64
  }

  /** The bytes one shard file occupies on disk, in whole blocks. */
  function ShardDiskCost(len: nat): (cost: nat)
    ensures cost % STORAGE_BLOCK_SIZE == 0 && len <= cost < len + STORAGE_BLOCK_SIZE
  {
    DivCeil(len, STORAGE_BLOCK_SIZE) * STORAGE_BLOCK_SIZE
  }

  function ByteAt(cipher: seq<byte>, k: nat): byte {
    if k < |cipher| then cipher[k] else 0
  }

  function Stretch(cipher: seq<byte>, start: nat, len: nat): (s: seq<byte>)
    ensures |s| == len
  {
    seq<byte>(len, k requires 0 <= k => ByteAt(cipher, start + k))
  }

  /** Simple striping: pad with zeros, cut into ten equal shards. */
  function Stripe(cipher: seq<byte>): (s: seq<Shard>)
    ensures |s| == DATA_SHARDS && Uniform(s, ShardLen(|cipher|))
  {
    var sl := ShardLen(|cipher|);
    seq(DATA_SHARDS, i requires 0 <= i => Stretch(cipher, i * sl, sl))
  }

  /** All fourteen shards of a sealed buffer. */
  function Shards(code: Code, cipher: seq<byte>): seq<Shard> {
    Stripe(cipher) + code.parity(Stripe(cipher))
  }

  lemma ShardsShape(code: Code, cipher: seq<byte>)
    requires Lawful(code)
    ensures |Shards(code, cipher)| == TOTAL_SHARDS && Uniform(Shards(code, cipher), ShardLen(|cipher|))
  {
    assert Uniform(Stripe(cipher), ShardLen(|cipher|)) && Admissible(ShardLen(|cipher|));
    assert |code.parity(Stripe(cipher))| == PARITY_SHARDS;
    assert Uniform(code.parity(Stripe(cipher)), ShardLen(|cipher|));
  }

  // ── Striping, the plain and the zero-copy way ──────────────────────────────

  lemma MulMono(a: nat, b: nat, c: nat)
    ensures a <= b ==> a * c <= b * c
  {
    if a <= b {
      assert (b - a) * c >= 0;
      assert b * c == a * c + (b - a) * c;
    }
  }

  lemma SlicePos(i: nat, sl: nat)
    requires i < DATA_SHARDS
    ensures 0 <= i * sl <= (i + 1) * sl <= DATA_SHARDS * sl && (i + 1) * sl == i * sl + sl
  {
    MulMono(i + 1, DATA_SHARDS, sl);
  }

  /** Copy into a zeroed buffer, then cut it up. */
  method DataShards(cipher: seq<byte>) returns (shards: seq<Shard>, sl: nat)
    ensures sl == ShardLen(|cipher|) && shards == Stripe(cipher)
  {
    sl := ShardLen(|cipher|);
    var padded := new byte[sl * DATA_SHARDS](_ => 0);
    for k := 0 to |cipher|
      invariant forall j :: 0 <= j < padded.Length ==> padded[j] == ByteAt(cipher[..k], j)
    {
      padded[k] := cipher[k];
    }
    assert cipher[..|cipher|] == cipher;
    shards := [];
    for i := 0 to DATA_SHARDS
      invariant shards == Stripe(cipher)[..i]
      invariant forall j :: 0 <= j < padded.Length ==> padded[j] == ByteAt(cipher, j)
    {
      SlicePos(i, sl);
      assert padded[i * sl..(i + 1) * sl] == Stretch(cipher, i * sl, sl);
      shards := shards + [padded[i * sl..(i + 1) * sl]];
    }
  }

  /** A data shard borrowed from the sealed buffer: short or absent at the end. */
  function DataShard(cipher: seq<byte>, sl: nat, i: nat): Option<seq<byte>> {
    MulMono(i, i + 1, sl);
    var start, end := i * sl, (i + 1) * sl;
    if start >= |cipher| then None
    else Some(cipher[start..if end < |cipher| then end else |cipher|])
  }

  /** Pad a possibly short slice with zeros to the shard length. */
  method PadShard(slice: seq<byte>, sl: nat) returns (r: seq<byte>)
    requires |slice| <= sl
    ensures r == Stretch(slice, 0, sl)
  {
    if |slice| == sl {
      return slice;
    }
    var v := new byte[sl](_ => 0);
    for k := 0 to |slice|
      invariant forall j :: 0 <= j < sl ==> v[j] == ByteAt(slice[..k], j)
    {
      v[k] := slice[k];
    }
    assert slice[..|slice|] == slice;
    r := v[..];
  }

  /** A slice of the buffer, padded, is the stretch it starts, up to where it ends. */
  lemma PaddedSlice(cipher: seq<byte>, start: nat, len: nat)
    requires start <= |cipher|
    ensures var end := if start + len < |cipher| then start + len else |cipher|;
            |cipher[start..end]| <= len && Stretch(cipher[start..end], 0, len) == Stretch(cipher, start, len)
  {
    var end := if start + len < |cipher| then start + len else |cipher|;
    var a, b := Stretch(cipher[start..end], 0, len), Stretch(cipher, start, len);
    forall k | 0 <= k < len ensures a[k] == b[k] {
      assert a[k] == ByteAt(cipher[start..end], 0 + k) && b[k] == ByteAt(cipher, start + k);
    }
  }

  lemma BeyondTheEnd(cipher: seq<byte>, start: nat, len: nat)
    requires start >= |cipher|
    ensures Stretch([], 0, len) == Stretch(cipher, start, len)
  {
    var a, b := Stretch([], 0, len), Stretch(cipher, start, len);
    forall k | 0 <= k < len ensures a[k] == b[k] {
      assert a[k] == ByteAt([], 0 + k) && b[k] == ByteAt(cipher, start + k);
    }
  }

  /** Borrowing and padding gives the very shard that plain striping gives. */
  lemma BorrowedShard(cipher: seq<byte>, i: nat)
    requires i < DATA_SHARDS
    ensures var sl := ShardLen(|cipher|); var s := DataShard(cipher, sl, i);
            var slice := if s.Some? then s.value else [];
            |slice| <= sl && Stretch(slice, 0, sl) == Stripe(cipher)[i]
  {
    var sl := ShardLen(|cipher|);
    SlicePos(i, sl);
    if i * sl < |cipher| {
      PaddedSlice(cipher, i * sl, sl);
    } else {
      BeyondTheEnd(cipher, i * sl, sl);
    }
  }

  /** Only the parity is computed; the data shards handed to the code are slices of the
      sealed buffer, one padded remainder and zeros. */
  method EncodeRecovery(code: Code, cipher: seq<byte>) returns (sl: nat, recovery: seq<Shard>)
    ensures sl == ShardLen(|cipher|) && recovery == code.parity(Stripe(cipher))
  {
    sl := ShardLen(|cipher|);
    var full := |cipher| / sl;
    FullShards(|cipher|, sl, full);
    var rem := |cipher| - full * sl;
    var zero := Stretch([], 0, sl);
    var partial := Stretch(cipher[full * sl..], 0, sl);
    var originals: seq<Shard> := [];
    for i := 0 to DATA_SHARDS
      invariant originals == Stripe(cipher)[..i]
    {
      WhichShard(cipher, sl, full, i);
      assert Stripe(cipher)[i] == Stretch(cipher, i * sl, sl);
      var shard :=
        if i < full then cipher[i * sl..(i + 1) * sl]
        else if i == full && rem > 0 then partial
        else zero;
      originals := originals + [shard];
    }
    assert originals == Stripe(cipher);
    recovery := code.parity(originals);
  }

  lemma FullShards(n: nat, sl: nat, full: nat)
    requires sl > 0 && n <= sl * DATA_SHARDS && full == n / sl
    ensures full * sl <= n < full * sl + sl && full <= DATA_SHARDS
  {
    assert n == full * sl + n % sl;
    MulMono(DATA_SHARDS + 1, full, sl);
  }

  lemma WhichShard(cipher: seq<byte>, sl: nat, full: nat, i: nat)
    requires full * sl <= |cipher| < full * sl + sl
    ensures 0 <= i * sl <= (i + 1) * sl
    ensures i < full ==> (i + 1) * sl <= |cipher| && cipher[i * sl..(i + 1) * sl] == Stretch(cipher, i * sl, sl)
    ensures i == full ==> Stretch(cipher[full * sl..], 0, sl) == Stretch(cipher, i * sl, sl)
    ensures i > full || (i == full && full * sl == |cipher|) ==> Stretch([], 0, sl) == Stretch(cipher, i * sl, sl)
  {
    assert (i + 1) * sl == i * sl + sl && (full + 1) * sl == full * sl + sl;
    MulMono(i + 1, full, sl);
    MulMono(full + 1, i, sl);
    ShardAt(cipher, i * sl, sl);
  }

  lemma ShardAt(cipher: seq<byte>, start: nat, sl: nat)
    ensures start + sl <= |cipher| ==> cipher[start..start + sl] == Stretch(cipher, start, sl)
    ensures start <= |cipher| < start + sl ==> Stretch(cipher[start..], 0, sl) == Stretch(cipher, start, sl)
    ensures start >= |cipher| ==> Stretch([], 0, sl) == Stretch(cipher, start, sl)
  {
    if start <= |cipher| {
      PaddedSlice(cipher, start, sl);
      assert cipher[start..] == cipher[start..|cipher|];
    }
    if start + sl <= |cipher| {
      forall k | 0 <= k < sl ensures cipher[start..start + sl][k] == Stretch(cipher, start, sl)[k] {
      }
    }
    if start >= |cipher| {
      BeyondTheEnd(cipher, start, sl);
    }
  }

  method Encode(code: Code, cipher: seq<byte>) returns (shards: seq<Shard>)
    ensures shards == Shards(code, cipher)
  {
    var data, _ := DataShards(cipher);
    shards := data + code.parity(data);
  }

  /** What a chunk's fourteen shard rows are written with: the padded slices, the parity
      and their digests. */
  method WriteChunkRows(code: Code, cipher: seq<byte>) returns (stored: seq<Shard>, digests: seq<Digest>)
    requires Lawful(code)
    ensures stored == Shards(code, cipher)
    ensures |digests| == TOTAL_SHARDS && forall i :: 0 <= i < TOTAL_SHARDS ==> digests[i] == Blake3(stored[i])
  {
    ShardsShape(code, cipher);
    var sl, recovery := EncodeRecovery(code, cipher);
    stored, digests := [], [];
    for i := 0 to TOTAL_SHARDS
      invariant stored == Shards(code, cipher)[..i] && |digests| == i
      invariant forall j :: 0 <= j < i ==> digests[j] == Blake3(stored[j])
    {
      var bytes;
      if i < DATA_SHARDS {
        var s := DataShard(cipher, sl, i);
        BorrowedShard(cipher, i);
        bytes := PadShard(if s.Some? then s.value else [], sl);
      } else {
        bytes := recovery[i - DATA_SHARDS];
      }
      stored := stored + [bytes];
      digests := digests + [Blake3(bytes)];
    }
  }

  // ── Reconstruction ─────────────────────────────────────────────────────────

  /** Every shard held is the one originally written at its index. */
  ghost predicate Genuine(code: Code, cipher: seq<byte>, present: seq<Option<Shard>>) {
    && |present| == TOTAL_SHARDS == |Shards(code, cipher)|
    && forall i :: 0 <= i < TOTAL_SHARDS && present[i].Some? ==> present[i].value == Shards(code, cipher)[i]
  }

  function Held(present: seq<Option<Shard>>): nat {
    if present == [] then 0
    else Held(present[..|present| - 1]) + (if present[|present| - 1].Some? then 1 else 0)
  }

  function Join(shards: seq<Shard>): seq<byte> {
    if shards == [] then [] else Join(shards[..|shards| - 1]) + shards[|shards| - 1]
  }

  function Truncate(s: seq<byte>, n: nat): seq<byte> {
    if n < |s| then s[..n] else s
  }

  lemma {:induction false} JoinPrefix(cipher: seq<byte>, n: nat)
    requires n <= DATA_SHARDS
    ensures Join(Stripe(cipher)[..n]) == Stretch(cipher, 0, n * ShardLen(|cipher|))
  {
    var sl := ShardLen(|cipher|);
    if n > 0 {
      JoinPrefix(cipher, n - 1);
      SlicePos(n - 1, sl);
      var s := Stripe(cipher);
      assert s[..n][..n - 1] == s[..n - 1];
      assert Stretch(cipher, 0, n * sl) == Stretch(cipher, 0, (n - 1) * sl) + Stretch(cipher, (n - 1) * sl, sl);
    }
  }

  /** Joining the stripes and trimming the padding gives the buffer back. */
  lemma JoinStripe(cipher: seq<byte>)
    ensures Truncate(Join(Stripe(cipher)), |cipher|) == cipher
  {
    JoinPrefix(cipher, DATA_SHARDS);
    var s := Stripe(cipher);
    assert s[..DATA_SHARDS] == s;
  }

  predicate AllDataHeld(present: seq<Option<Shard>>)
    requires |present| == TOTAL_SHARDS
  {
    forall i :: 0 <= i < DATA_SHARDS ==> present[i].Some?
  }

  /** The shards held among `present[lo..hi]`, renumbered from zero. */
  function HeldMap(present: seq<Option<Shard>>, lo: nat, hi: nat): map<nat, Shard>
    requires lo <= hi <= |present|
  {
    map i: nat | i < hi - lo && HeldAt(present, lo, i) :: present[lo + i].value
  }

  predicate HeldAt(present: seq<Option<Shard>>, lo: nat, i: nat) {
    lo + i < |present| && present[lo + i].Some?
  }

  lemma {:induction false} HeldMapSize(present: seq<Option<Shard>>, lo: nat, hi: nat)
    requires lo <= hi <= |present|
    ensures |HeldMap(present, lo, hi)| == Held(present[..hi]) - Held(present[..lo])
    decreases hi
  {
    if lo < hi {
      HeldMapSize(present, lo, hi - 1);
      var m, m' := HeldMap(present, lo, hi - 1), HeldMap(present, lo, hi);
      assert present[..hi][..hi - 1] == present[..hi - 1];
      assert HeldAt(present, lo, hi - 1 - lo) <==> present[hi - 1].Some?;
      if present[hi - 1].Some? {
        assert m' == m[hi - 1 - lo := present[hi - 1].value];
      } else {
        assert m' == m;
      }
    } else {
      assert HeldMap(present, lo, hi) == map[];
    }
  }

  /** The data shards, the held ones as they are and the others as restored. */
  function Patched(present: seq<Option<Shard>>, restored: map<nat, Shard>, i: nat): Option<Shard>
    requires |present| == TOTAL_SHARDS && i < DATA_SHARDS
  {
    if present[i].Some? then present[i] else if i in restored then Some(restored[i]) else None
  }

  lemma PatchedIsStripe(code: Code, cipher: seq<byte>, present: seq<Option<Shard>>, restored: map<nat, Shard>, i: nat)
    requires Lawful(code) && Genuine(code, cipher, present) && i < DATA_SHARDS
    requires GivesBack(Some(restored), HeldMap(present, 0, DATA_SHARDS), cipher)
    ensures Patched(present, restored, i) == Some(Stripe(cipher)[i])
  {
    if present[i].Some? {
      assert present[i].value == Shards(code, cipher)[i];
    } else {
      assert !HeldAt(present, 0, i);
    }
  }

  lemma HeldSplit(present: seq<Option<Shard>>)
    requires |present| == TOTAL_SHARDS
    ensures |HeldMap(present, 0, DATA_SHARDS)| + |HeldMap(present, DATA_SHARDS, TOTAL_SHARDS)| == Held(present)
  {
    HeldMapSize(present, 0, DATA_SHARDS);
    HeldMapSize(present, DATA_SHARDS, TOTAL_SHARDS);
    assert present[..TOTAL_SHARDS] == present && present[..0] == [];
  }

  /** Hand the survivors to the code and put data shard after data shard together. */
  method Decode(code: Code, present: seq<Option<Shard>>) returns (r: Result<seq<Shard>, ErasureError>)
    requires |present| == TOTAL_SHARDS && Lawful(code)
    ensures Held(present) < DATA_SHARDS ==> r.Err?
    ensures r.Ok? ==> |r.value| == DATA_SHARDS && exists len :: Uniform(r.value, len)
    ensures forall cipher :: Genuine(code, cipher, present) && Held(present) >= DATA_SHARDS ==> r == Ok(Stripe(cipher))
  {
    HeldSplit(present);
    forall cipher | Genuine(code, cipher, present) && Held(present) >= DATA_SHARDS
      ensures GivesBack(code.decode(HeldMap(present, 0, DATA_SHARDS), HeldMap(present, DATA_SHARDS, TOTAL_SHARDS)),
                        HeldMap(present, 0, DATA_SHARDS), cipher)
    {
      GenuineDecodes(code, cipher, present);
    }
    var restored := code.decode(HeldMap(present, 0, DATA_SHARDS), HeldMap(present, DATA_SHARDS, TOTAL_SHARDS));
    if restored.None? {
      return Err(DecodeFailed);
    }
    ghost var len :| SameLength(HeldMap(present, 0, DATA_SHARDS), len) && SameLength(restored.value, len);
    r := PutTogether(code, present, restored.value, len);
  }

  /** All the pieces have one length, so every shard fills exactly its slot. */
  method PutTogether(ghost code: Code, present: seq<Option<Shard>>, restored: map<nat, Shard>, ghost len: nat)
    returns (r: Result<seq<Shard>, ErasureError>)
    requires |present| == TOTAL_SHARDS && Lawful(code)
    requires SameLength(HeldMap(present, 0, DATA_SHARDS), len) && SameLength(restored, len)
    ensures r.Ok? ==> |r.value| == DATA_SHARDS && Uniform(r.value, len)
    ensures forall cipher :: Genuine(code, cipher, present) && GivesBack(Some(restored), HeldMap(present, 0, DATA_SHARDS), cipher)
              ==> r == Ok(Stripe(cipher))
  {
    var shards: seq<Shard> := [];
    for i := 0 to DATA_SHARDS
      invariant |shards| == i && Uniform(shards, len)
      invariant forall j :: 0 <= j < i ==> Patched(present, restored, j) == Some(shards[j])
    {
      var shard := Patched(present, restored, i);
      assert present[i].Some? ==> HeldAt(present, 0, i) && i in HeldMap(present, 0, DATA_SHARDS);
      if shard.None? {
        forall cipher | Genuine(code, cipher, present)
          ensures !GivesBack(Some(restored), HeldMap(present, 0, DATA_SHARDS), cipher)
        {
          if GivesBack(Some(restored), HeldMap(present, 0, DATA_SHARDS), cipher) {
            PatchedIsStripe(code, cipher, present, restored, i);
          }
        }
        return Err(MissingAfterDecode);
      }
      shards := shards + [shard.value];
    }
    forall cipher | Genuine(code, cipher, present) && GivesBack(Some(restored), HeldMap(present, 0, DATA_SHARDS), cipher)
      ensures shards == Stripe(cipher)
    {
      forall j | 0 <= j < DATA_SHARDS ensures shards[j] == Stripe(cipher)[j] {
        PatchedIsStripe(code, cipher, present, restored, j);
      }
    }
    r := Ok(shards);
  }

  ghost predicate GivesBack(restored: Option<map<nat, Shard>>, original: map<nat, Shard>, cipher: seq<byte>) {
    restored.Some? && forall i :: 0 <= i < DATA_SHARDS && i !in original ==>
      i in restored.value && restored.value[i] == Stripe(cipher)[i]
  }

  lemma LawApplied(code: Code, data: seq<Shard>, len: nat, original: map<nat, Shard>, recovery: map<nat, Shard>)
    requires Lawful(code) && |data| == DATA_SHARDS && Uniform(data, len) && Admissible(len)
    requires Among(original, data) && Among(recovery, code.parity(data)) && |original| + |recovery| >= DATA_SHARDS
    ensures code.decode(original, recovery).Some?
    ensures forall i :: 0 <= i < DATA_SHARDS && i !in original ==>
              i in code.decode(original, recovery).value && code.decode(original, recovery).value[i] == data[i]
  {
  }

  lemma HeldAmong(code: Code, cipher: seq<byte>, present: seq<Option<Shard>>)
    requires Lawful(code) && Genuine(code, cipher, present)
    ensures Among(HeldMap(present, 0, DATA_SHARDS), Stripe(cipher))
    ensures Among(HeldMap(present, DATA_SHARDS, TOTAL_SHARDS), code.parity(Stripe(cipher)))
  {
    var original, recovery := HeldMap(present, 0, DATA_SHARDS), HeldMap(present, DATA_SHARDS, TOTAL_SHARDS);
    var data := Stripe(cipher);
    ShardsShape(code, cipher);
    forall i | i in original ensures i < |data| && original[i] == data[i] {
      assert present[i].value == Shards(code, cipher)[i];
    }
    forall i | i in recovery ensures i < |code.parity(data)| && recovery[i] == code.parity(data)[i] {
      assert present[DATA_SHARDS + i].value == Shards(code, cipher)[DATA_SHARDS + i];
    }
  }

  lemma GenuineDecodes(code: Code, cipher: seq<byte>, present: seq<Option<Shard>>)
    requires Lawful(code) && Genuine(code, cipher, present) && Held(present) >= DATA_SHARDS
    ensures var original := HeldMap(present, 0, DATA_SHARDS);
            GivesBack(code.decode(original, HeldMap(present, DATA_SHARDS, TOTAL_SHARDS)), original, cipher)
  {
    var original, recovery := HeldMap(present, 0, DATA_SHARDS), HeldMap(present, DATA_SHARDS, TOTAL_SHARDS);
    HeldSplit(present);
    HeldAmong(code, cipher, present);
    LawApplied(code, Stripe(cipher), ShardLen(|cipher|), original, recovery);
  }

  /**
    Any ten genuine shards give the sealed buffer back, by the fast path when all data
    shards are there and by decoding otherwise; with fewer than ten the result is an
    error.
   */
  method Reconstruct(code: Code, present: seq<Option<Shard>>, cipherLen: nat) returns (r: Result<seq<byte>, ErasureError>)
    requires |present| == TOTAL_SHARDS && Lawful(code)
    ensures Held(present) < DATA_SHARDS ==> r.Err?
    ensures forall cipher :: Genuine(code, cipher, present) && Held(present) >= DATA_SHARDS && |cipher| == cipherLen ==>
              r == Ok(cipher)
  {
    forall cipher | |cipher| == cipherLen ensures Truncate(Join(Stripe(cipher)), cipherLen) == cipher {
      JoinStripe(cipher);
    }
    var data;
    if AllDataHeld(present) {
      FastPathHeld(present);
      data := seq(DATA_SHARDS, i requires 0 <= i < DATA_SHARDS => present[i].value);
      forall cipher | Genuine(code, cipher, present) ensures data == Stripe(cipher) {
        ShardsShape(code, cipher);
      }
    } else {
      var decoded := Decode(code, present);
      if decoded.Err? {
        return Err(decoded.error);
      }
      data := decoded.value;
    }
    var out: seq<byte> := [];
    for i := 0 to DATA_SHARDS
      invariant out == Join(data[..i])
    {
      assert data[..i + 1][..i] == data[..i];
      out := out + data[i];
    }
    assert data[..DATA_SHARDS] == data;
    r := Ok(Truncate(out, cipherLen));
  }

  lemma {:induction false} HeldFrom(present: seq<Option<Shard>>, n: nat)
    requires n <= |present| && forall i :: 0 <= i < n ==> present[i].Some?
    ensures Held(present[..n]) == n
  {
    if n > 0 {
      HeldFrom(present, n - 1);
      assert present[..n][..n - 1] == present[..n - 1];
    }
  }

  lemma FastPathHeld(present: seq<Option<Shard>>)
    requires |present| == TOTAL_SHARDS && AllDataHeld(present)
    ensures Held(present) >= DATA_SHARDS
  {
    HeldFrom(present, DATA_SHARDS);
    HeldMapSize(present, DATA_SHARDS, TOTAL_SHARDS);
    assert present[..TOTAL_SHARDS] == present;
  }

  /** Regeneration from any ten genuine shards yields all fourteen, byte for byte as
      first written, so every digest recorded for them stays valid. */
  method RegenChunkShards(code: Code, present: seq<Option<Shard>>, cipherLen: nat) returns (r: Result<seq<Shard>, ErasureError>)
    requires |present| == TOTAL_SHARDS && Lawful(code)
    ensures Held(present) < DATA_SHARDS ==> r.Err?
    ensures r.Ok? ==> |r.value| == TOTAL_SHARDS
    ensures forall cipher :: Genuine(code, cipher, present) && Held(present) >= DATA_SHARDS && |cipher| == cipherLen ==>
              r == Ok(Shards(code, cipher))
  {
    var cipher := Reconstruct(code, present, cipherLen);
    if cipher.Err? {
      return Err(cipher.error);
    }
    ShardsShape(code, cipher.value);
    var shards := Encode(code, cipher.value);
    r := Ok(shards);
  }

  // ── Gathering shards for a read ────────────────────────────────────────────

  ghost function HeldSet(present: seq<Option<Shard>>): set<nat> {
    set i: nat | i < |present| && present[i].Some?
  }

  lemma {:induction false} HeldCounts(present: seq<Option<Shard>>)
    ensures Held(present) == |HeldSet(present)|
  {
    if present != [] {
      var n := |present| - 1;
      var init := present[..n];
      HeldCounts(init);
      assert HeldSet(present) == if present[n].Some? then HeldSet(init) + {n} else HeldSet(init);
    }
  }

  /** The shard indices that some answer carried bytes for. */
  ghost function Answered(arrivals: seq<(nat, Option<Shard>)>): set<nat> {
    set k | 0 <= k < |arrivals| && arrivals[k].1.Some? && arrivals[k].0 < TOTAL_SHARDS :: arrivals[k].0
  }

  lemma HeldAfter(present: seq<Option<Shard>>, i: nat, s: Shard)
    requires i < |present| && present[i].None?
    ensures Held(present[i := Some(s)]) == Held(present) + 1
  {
    HeldCounts(present);
    HeldCounts(present[i := Some(s)]);
    assert HeldSet(present[i := Some(s)]) == HeldSet(present) + {i};
  }

  /** All fourteen are requested and the first ten distinct answers win, in whatever
      order they arrive.  Ten answered indices are enough to stop with ten shards. */
  method FetchChunkShards(arrivals: seq<(nat, Option<Shard>)>) returns (present: seq<Option<Shard>>)
    ensures |present| == TOTAL_SHARDS && Held(present) <= DATA_SHARDS
    ensures forall i :: 0 <= i < TOTAL_SHARDS && present[i].Some? ==> (i, present[i]) in arrivals
    ensures |Answered(arrivals)| >= DATA_SHARDS ==> Held(present) == DATA_SHARDS
    ensures |Answered(arrivals)| < DATA_SHARDS ==> HeldSet(present) == Answered(arrivals)
  {
    present := seq(TOTAL_SHARDS, _ => None);
    var got := 0;
    HeldCounts(present);
    assert HeldSet(present) == {};
    var k := 0;
    while k < |arrivals| && got < DATA_SHARDS
      invariant 0 <= k <= |arrivals| && |present| == TOTAL_SHARDS
      invariant got == Held(present) <= DATA_SHARDS
      invariant forall i :: 0 <= i < TOTAL_SHARDS && present[i].Some? ==> (i, present[i]) in arrivals
      invariant HeldSet(present) == Answered(arrivals[..k])
    {
      var (idx, bytes) := arrivals[k];
      AnsweredSnoc(arrivals, k);
      if bytes.Some? && idx < TOTAL_SHARDS && present[idx].None? {
        HeldAfter(present, idx, bytes.value);
        present := present[idx := bytes];
        got := got + 1;
      }
      k := k + 1;
    }
    HeldCounts(present);
    AnsweredMore(arrivals, k);
  }

  lemma AnsweredSnoc(arrivals: seq<(nat, Option<Shard>)>, k: nat)
    requires k < |arrivals|
    ensures Answered(arrivals[..k + 1]) == Answered(arrivals[..k]) +
              if arrivals[k].1.Some? && arrivals[k].0 < TOTAL_SHARDS then {arrivals[k].0} else {}
  {
    var a, b := arrivals[..k], arrivals[..k + 1];
    forall i | i in Answered(a) ensures i in Answered(b) {
      var j :| 0 <= j < |a| && a[j].1.Some? && a[j].0 < TOTAL_SHARDS && a[j].0 == i;
      assert b[j] == a[j];
    }
    forall i | i in Answered(b) ensures i in Answered(a) || (arrivals[k].1.Some? && arrivals[k].0 == i) {
      var j :| 0 <= j < |b| && b[j].1.Some? && b[j].0 < TOTAL_SHARDS && b[j].0 == i;
      if j < k {
        assert a[j] == b[j] && i in Answered(a);
      }
    }
    assert b[k] == arrivals[k];
  }

  lemma AnsweredMore(arrivals: seq<(nat, Option<Shard>)>, k: nat)
    requires k <= |arrivals|
    ensures |Answered(arrivals[..k])| <= |Answered(arrivals)|
    ensures k == |arrivals| ==> Answered(arrivals[..k]) == Answered(arrivals)
  {
    assert k == |arrivals| ==> arrivals[..k] == arrivals;
    forall i | i in Answered(arrivals[..k]) ensures i in Answered(arrivals) {
      var j :| 0 <= j < k && arrivals[..k][j].1.Some? && arrivals[..k][j].0 < TOTAL_SHARDS && arrivals[..k][j].0 == i;
      assert arrivals[j] == arrivals[..k][j];
    }
    var a, b := Answered(arrivals[..k]), Answered(arrivals);
    assert b == a + (b - a);
  }
}
