/**
  The automatic manifest backup (backup.rs): self-describing shard envelopes, and the
  reassembly of the sealed blob from whatever envelopes peers return.
 */
module Backup {
  import opened Wrappers
  import opened Bytes
  import opened Erasure

  /** The ASCII bytes "KBP2PMS1". */
  const MS_MAGIC: seq<byte> := [0x4b, 0x42, 0x50, 0x32, 0x50, 0x4d, 0x53, 0x31]
  const MS_FORMAT: byte := 1
  const BLOB_HASH_LEN: nat := 16
  const MS_HEADER: nat := 46

  datatype BackupShard = BackupShard(version: nat, index: nat, blobLen: nat, hash: seq<byte>, data: Shard)

  datatype BackupError =
    | TooShort | NotABackupShard | IndexOutOfRange | EmptyBlob | LengthMismatch
    | NotEnough | NotEnoughConsistent | NoValidBlob

  // ── Envelopes ──────────────────────────────────────────────────────────────

  /** The stored form; the payload length goes through a 32-bit cast. */
  function Envelope(s: BackupShard): seq<byte>
    requires s.index < TOTAL_SHARDS
  {
    MS_MAGIC + [MS_FORMAT] + Be(s.version, 8) + [s.index] + Be(|s.data|, 4) + Be(s.blobLen, 8) + s.hash + s.data
  }

  function DecodeEnvelope(bytes: seq<byte>): Result<BackupShard, BackupError> {
    if |bytes| < MS_HEADER then Err(TooShort)
    else if bytes[..8] != MS_MAGIC || bytes[8] != MS_FORMAT then Err(NotABackupShard)
    else if bytes[17] >= TOTAL_SHARDS then Err(IndexOutOfRange)
    else if FromBe(bytes[22..30]) == 0 then Err(EmptyBlob)
    else if |bytes| - MS_HEADER != FromBe(bytes[18..22]) then Err(LengthMismatch)
    else Ok(BackupShard(FromBe(bytes[9..17]), bytes[17], FromBe(bytes[22..30]), bytes[30..46], bytes[46..]))
  }

  /** A shard as the writer makes it: fields within their widths. */
  predicate Writable(s: BackupShard) {
    s.version < U64 && s.index < TOTAL_SHARDS && s.blobLen < U64 && |s.hash| == BLOB_HASH_LEN
  }

  lemma EnvelopeFields(s: BackupShard)
    requires Writable(s)
    ensures var e := Envelope(s);
      && |e| == MS_HEADER + |s.data| && e[..8] == MS_MAGIC && e[8] == MS_FORMAT
      && e[9..17] == Be(s.version, 8) && e[17] == s.index && e[18..22] == Be(|s.data|, 4)
      && e[22..30] == Be(s.blobLen, 8) && e[30..46] == s.hash && e[46..] == s.data
  {
  }

  lemma {:induction false} BeTruncates(n: nat, w: nat)
    ensures FromBe(Be(n, w)) < Pow256(w)
  {
    FromBeBound(Be(n, w));
  }

  /** Decoding inverts encoding exactly when the blob is not empty and the payload fits
      the 32-bit length field; otherwise the envelope is refused, never misread. */
  lemma DecodeInvertsEncodeIff(s: BackupShard)
    requires Writable(s)
    ensures DecodeEnvelope(Envelope(s)) == Ok(s) <==> s.blobLen > 0 && |s.data| < U32
    ensures DecodeEnvelope(Envelope(s)).Ok? ==> DecodeEnvelope(Envelope(s)) == Ok(s)
  {
    EnvelopeFields(s);
    Be8(s.version);
    Be8(s.blobLen);
    Widths();
    if |s.data| < U32 {
      Be4(|s.data|);
    } else {
      BeTruncates(|s.data|, 4);
    }
  }

  /** Whatever decodes is the envelope of what it decodes to. */
  lemma EncodeInvertsDecode(bytes: seq<byte>)
    requires DecodeEnvelope(bytes).Ok?
    ensures Writable(DecodeEnvelope(bytes).value) && Envelope(DecodeEnvelope(bytes).value) == bytes
  {
    Widths();
    FromBeBound(bytes[9..17]);
    FromBeBound(bytes[18..22]);
    FromBeBound(bytes[22..30]);
    var s := DecodeEnvelope(bytes).value;
    EnvelopeFields(s);
    var e := Envelope(s);
    Rejoin(bytes, e, 30, 46);
    Rejoin(bytes, e, 22, 30);
    Rejoin(bytes, e, 18, 22);
    assert bytes[17..18] == e[17..18];
    Rejoin(bytes, e, 17, 18);
    Rejoin(bytes, e, 9, 17);
    assert bytes[8..9] == e[8..9];
    Rejoin(bytes, e, 8, 9);
    Rejoin(bytes, e, 0, 8);
    assert bytes[0..] == bytes && e[0..] == e;
  }

  /** One envelope per erasure shard, all carrying the blob's length and hash. */
  method EncodeBackupShards(code: Code, hash: seq<byte> -> seq<byte>, version: nat, blob: seq<byte>)
    returns (out: seq<BackupShard>)
    requires Lawful(code)
    ensures |out| == TOTAL_SHARDS
    ensures forall i :: 0 <= i < TOTAL_SHARDS ==>
              out[i] == BackupShard(version, i, |blob|, hash(blob), Shards(code, blob)[i])
  {
    ShardsShape(code, blob);
    var shards := Encode(code, blob);
    var h := hash(blob);
    out := [];
    for i := 0 to |shards|
      invariant |out| == i
      invariant forall j :: 0 <= j < i ==> out[j] == BackupShard(version, j, |blob|, h, Shards(code, blob)[j])
    {
      out := out + [BackupShard(version, i, |blob|, h, shards[i])];
    }
  }

  // ── The majority geometry ──────────────────────────────────────────────────

  datatype Geometry = Geometry(blobLen: nat, hash: seq<byte>)

  function GeometryOf(s: BackupShard): Geometry {
    Geometry(s.blobLen, s.hash)
  }

  function Votes(shards: seq<BackupShard>, g: Geometry): nat {
    if shards == [] then 0
    else Votes(shards[..|shards| - 1], g) + (if GeometryOf(shards[|shards| - 1]) == g then 1 else 0)
  }

  lemma {:induction false} VotesPositive(shards: seq<BackupShard>, i: nat)
    requires i < |shards|
    ensures Votes(shards, GeometryOf(shards[i])) > 0
  {
    if i < |shards| - 1 {
      VotesPositive(shards[..|shards| - 1], i);
    }
  }

  lemma {:induction false} NoVotes(shards: seq<BackupShard>, g: Geometry)
    requires forall i :: 0 <= i < |shards| ==> GeometryOf(shards[i]) != g
    ensures Votes(shards, g) == 0
  {
    if shards != [] {
      NoVotes(shards[..|shards| - 1], g);
    }
  }

  ghost predicate Counted(s: BackupShard, tally: seq<(Geometry, nat)>) {
    exists k :: 0 <= k < |tally| && tally[k].0 == GeometryOf(s)
  }

  /** The tally lists every geometry once, with its number of votes. */
  ghost predicate Tallied(shards: seq<BackupShard>, tally: seq<(Geometry, nat)>) {
    && (forall k :: 0 <= k < |tally| ==> tally[k].1 == Votes(shards, tally[k].0))
    && (forall i :: 0 <= i < |shards| ==> Counted(shards[i], tally))
    && (forall j, k :: 0 <= j < k < |tally| ==> tally[j].0 != tally[k].0)
  }

  method CountOne(shards: seq<BackupShard>, n: nat, tally: seq<(Geometry, nat)>) returns (tally': seq<(Geometry, nat)>)
    requires n < |shards| && Tallied(shards[..n], tally)
    ensures Tallied(shards[..n + 1], tally')
  {
    var g := GeometryOf(shards[n]);
    assert shards[..n + 1][..n] == shards[..n];
    var k := 0;
    while k < |tally| && tally[k].0 != g
      invariant 0 <= k <= |tally| && forall j :: 0 <= j < k ==> tally[j].0 != g
    {
      k := k + 1;
    }
    if k < |tally| {
      tally' := tally[k := (g, tally[k].1 + 1)];
    } else {
      forall i | 0 <= i < n ensures GeometryOf(shards[..n][i]) != g {
        assert Counted(shards[..n][i], tally);
      }
      NoVotes(shards[..n], g);
      tally' := tally + [(g, 1)];
    }
    var seen := shards[..n + 1];
    forall i | 0 <= i < |seen| ensures Counted(seen[i], tally') {
      if i < n {
        assert seen[i] == shards[..n][i] && Counted(shards[..n][i], tally);
        var j :| 0 <= j < |tally| && tally[j].0 == GeometryOf(seen[i]);
        assert tally'[j].0 == GeometryOf(seen[i]);
      } else {
        assert tally'[k].0 == g;
      }
    }
  }

  /** The geometry most envelopes agree on (the last counted, among equals). */
  method Majority(shards: seq<BackupShard>) returns (g: Geometry)
    requires shards != []
    ensures forall h :: Votes(shards, h) <= Votes(shards, g)
    ensures Votes(shards, g) > 0
  {
    var tally: seq<(Geometry, nat)> := [];
    for n := 0 to |shards|
      invariant Tallied(shards[..n], tally)
    {
      tally := CountOne(shards, n, tally);
    }
    assert shards[..|shards|] == shards;
    VotesPositive(shards, 0);
    assert Counted(shards[0], tally);
    var best := 0;
    for k := 1 to |tally|
      invariant 0 <= best < k && forall j :: 0 <= j < k ==> tally[j].1 <= tally[best].1
    {
      if tally[k].1 >= tally[best].1 {
        best := k;
      }
    }
    g := tally[best].0;
    forall h ensures Votes(shards, h) <= Votes(shards, g) {
      if i :| 0 <= i < |shards| && GeometryOf(shards[i]) == h {
        assert Counted(shards[i], tally);
      } else {
        NoVotes(shards, h);
      }
    }
  }

  // ── Reassembly ─────────────────────────────────────────────────────────────

  predicate Matches(s: BackupShard, g: Geometry) {
    s.index < TOTAL_SHARDS && GeometryOf(s) == g
  }

  ghost predicate AllOfLength(shards: seq<BackupShard>, g: Geometry, len: nat) {
    forall k :: 0 <= k < |shards| && Matches(shards[k], g) ==> |shards[k].data| == len
  }

  /** Slot `i` holds the payload of an agreeing envelope for `i`. */
  ghost predicate FilledFrom(shards: seq<BackupShard>, g: Geometry, i: nat, slot: Option<Shard>) {
    slot.Some? ==> exists k :: 0 <= k < |shards| && Matches(shards[k], g) && shards[k].index == i && slot == Some(shards[k].data)
  }

  ghost predicate Filled(shards: seq<BackupShard>, g: Geometry, present: seq<Option<Shard>>) {
    |present| == TOTAL_SHARDS && forall i :: 0 <= i < TOTAL_SHARDS ==> FilledFrom(shards, g, i, present[i])
  }

  ghost predicate Covers(shards: seq<BackupShard>, n: nat, g: Geometry, present: seq<Option<Shard>>)
    requires n <= |shards| && |present| == TOTAL_SHARDS
  {
    forall k :: 0 <= k < n && Matches(shards[k], g) ==> present[shards[k].index].Some?
  }

  /** Keep the first agreeing shard of each index, all of the length of the first one. */
  method KeepConsistent(shards: seq<BackupShard>, g: Geometry, ghost len: nat) returns (present: seq<Option<Shard>>, kept: nat)
    ensures Filled(shards, g, present) && kept == Held(present)
    ensures len > 0 && AllOfLength(shards, g, len) ==> Covers(shards, |shards|, g, present)
  {
    present := seq(TOTAL_SHARDS, _ => None);
    HeldCounts(present);
    assert HeldSet(present) == {};
    var shardLen := 0;
    kept := 0;
    for n := 0 to |shards|
      invariant Filled(shards, g, present) && kept == Held(present)
      invariant len > 0 && AllOfLength(shards, g, len) ==> (shardLen == 0 || shardLen == len) && Covers(shards, n, g, present)
    {
      var s := shards[n];
      if Matches(s, g) {
        if shardLen == 0 {
          shardLen := |s.data|;
        }
        if |s.data| == shardLen && present[s.index].None? {
          HeldAfter(present, s.index, s.data);
          assert FilledFrom(shards, g, s.index, Some(s.data));
          present := present[s.index := Some(s.data)];
          kept := kept + 1;
        }
      }
    }
  }

  /** Reconstruct once and keep the outcome only when its hash is the wanted one. */
  method TryRebuild(code: Code, hash: seq<byte> -> seq<byte>, present: seq<Option<Shard>>, g: Geometry)
    returns (r: Option<seq<byte>>)
    requires Lawful(code) && |present| == TOTAL_SHARDS
    ensures r.Some? ==> hash(r.value) == g.hash
    ensures forall blob :: Genuine(code, blob, present) && Held(present) >= DATA_SHARDS && g == Geometry(|blob|, hash(blob)) ==>
              r == Some(blob)
  {
    var blob := Reconstruct(code, present, g.blobLen);
    if blob.Ok? && hash(blob.value) == g.hash {
      return Some(blob.value);
    }
    r := None;
  }

  /** The payload is not the one that was written for `blob`. */
  ghost predicate Altered(code: Code, blob: seq<byte>, s: BackupShard) {
    s.index < |Shards(code, blob)| && s.data != Shards(code, blob)[s.index]
  }

  ghost function Indices(shards: seq<BackupShard>, g: Geometry): set<nat> {
    set k | 0 <= k < |shards| && Matches(shards[k], g) :: shards[k].index
  }

  /** An agreeing envelope with an altered payload. */
  ghost predicate BadCopy(code: Code, blob: seq<byte>, s: BackupShard, g: Geometry) {
    Matches(s, g) && Altered(code, blob, s)
  }

  /** No other bytes hash like the blob. */
  ghost predicate Collisionless(hash: seq<byte> -> seq<byte>, blob: seq<byte>) {
    forall b :: hash(b) == hash(blob) ==> b == blob
  }

  /** The envelopes that name this length and hash. */
  ghost function Voters(shards: seq<BackupShard>, len: nat, h: seq<byte>): set<nat> {
    set k: nat | k < |shards| && shards[k].blobLen == len && shards[k].hash == h
  }

  /** An envelope that names the blob's length and hash and a valid index. */
  ghost predicate OwnCopy(hash: seq<byte> -> seq<byte>, blob: seq<byte>, s: BackupShard) {
    s.index < TOTAL_SHARDS && s.blobLen == |blob| && s.hash == hash(blob)
  }

  ghost function OwnIndices(hash: seq<byte> -> seq<byte>, blob: seq<byte>, shards: seq<BackupShard>): set<nat> {
    set k | 0 <= k < |shards| && OwnCopy(hash, blob, shards[k]) :: shards[k].index
  }

  /** What the fetched envelopes must be for the blob to come back: more of them name its
      length and hash than any other, the payloads of those have the right length, and
      either none is altered and ten indices are covered, or copies of one index are and
      eleven are. */
  ghost predicate Recoverable(code: Code, hash: seq<byte> -> seq<byte>, blob: seq<byte>, shards: seq<BackupShard>) {
    && Collisionless(hash, blob)
    && (forall len: nat, h: seq<byte> :: (len, h) != (|blob|, hash(blob)) ==> |Voters(shards, len, h)| < |Voters(shards, |blob|, hash(blob))|)
    && (forall k :: 0 <= k < |shards| && OwnCopy(hash, blob, shards[k]) ==> |shards[k].data| == ShardLen(|blob|))
    && (forall j, k | 0 <= j < |shards| && 0 <= k < |shards| && OwnCopy(hash, blob, shards[j]) && OwnCopy(hash, blob, shards[k]) ::
          Altered(code, blob, shards[j]) && Altered(code, blob, shards[k]) ==> shards[j].index == shards[k].index)
    && |OwnIndices(hash, blob, shards)| >= DATA_SHARDS
    && (forall k :: 0 <= k < |shards| && OwnCopy(hash, blob, shards[k]) && Altered(code, blob, shards[k]) ==>
          |OwnIndices(hash, blob, shards)| > DATA_SHARDS)
  }

  lemma {:induction false} VotesAreVoters(shards: seq<BackupShard>, g: Geometry)
    ensures Votes(shards, g) == |Voters(shards, g.blobLen, g.hash)|
  {
    if shards == [] {
      assert Voters(shards, g.blobLen, g.hash) == {};
    } else {
      var n := |shards| - 1;
      VotesAreVoters(shards[..n], g);
      var before, now := Voters(shards[..n], g.blobLen, g.hash), Voters(shards, g.blobLen, g.hash);
      assert now == if GeometryOf(shards[n]) == g then before + {n} else before;
    }
  }

  lemma RecoverableIsOutvoted(code: Code, hash: seq<byte> -> seq<byte>, blob: seq<byte>, shards: seq<BackupShard>)
    requires Recoverable(code, hash, blob, shards)
    ensures Outvotes(code, hash, blob, shards)
  {
    var g := Geometry(|blob|, hash(blob));
    forall h | h != g ensures Votes(shards, h) < Votes(shards, g) {
      VotesAreVoters(shards, h);
      VotesAreVoters(shards, g);
    }
    forall k | 0 <= k < |shards| ensures Matches(shards[k], g) <==> OwnCopy(hash, blob, shards[k]) {
    }
    assert Indices(shards, g) == OwnIndices(hash, blob, shards);
  }

  /** Any genuine envelopes of a blob that cover ten indices, in any order, any number of
      times each and of whatever backup versions, bring it back. */
  lemma GenuineIsRecoverable(code: Code, hash: seq<byte> -> seq<byte>, blob: seq<byte>, shards: seq<BackupShard>)
    requires Lawful(code) && Collisionless(hash, blob)
    requires forall k :: 0 <= k < |shards| ==>
               shards[k].index < TOTAL_SHARDS == |Shards(code, blob)|
               && shards[k] == BackupShard(shards[k].version, shards[k].index, |blob|, hash(blob), Shards(code, blob)[shards[k].index])
    requires |set k | 0 <= k < |shards| :: shards[k].index| >= DATA_SHARDS
    ensures Recoverable(code, hash, blob, shards)
  {
    ShardsShape(code, blob);
    assert OwnIndices(hash, blob, shards) == set k | 0 <= k < |shards| :: shards[k].index;
    var own := Voters(shards, |blob|, hash(blob));
    forall len: nat, h: seq<byte> | (len, h) != (|blob|, hash(blob)) ensures |Voters(shards, len, h)| < |own| {
      assert Voters(shards, len, h) == {};
      assert shards != [];
      assert 0 in own;
    }
  }

  ghost predicate Outvotes(code: Code, hash: seq<byte> -> seq<byte>, blob: seq<byte>, shards: seq<BackupShard>) {
    var g := Geometry(|blob|, hash(blob));
    && Collisionless(hash, blob)
    && (forall h :: h != g ==> Votes(shards, h) < Votes(shards, g))
    && AllOfLength(shards, g, ShardLen(|blob|))
    && (forall j, k | 0 <= j < |shards| && 0 <= k < |shards| ::
          BadCopy(code, blob, shards[j], g) && BadCopy(code, blob, shards[k], g) ==> shards[j].index == shards[k].index)
    && |Indices(shards, g)| >= DATA_SHARDS
    && (forall k :: 0 <= k < |shards| && BadCopy(code, blob, shards[k], g) ==> |Indices(shards, g)| > DATA_SHARDS)
  }

  /** All kept slots are genuine, except possibly slot `bad`. */
  ghost predicate GenuineBut(code: Code, blob: seq<byte>, present: seq<Option<Shard>>, bad: nat) {
    && |present| == TOTAL_SHARDS == |Shards(code, blob)|
    && forall i :: 0 <= i < TOTAL_SHARDS && i != bad && present[i].Some? ==> present[i].value == Shards(code, blob)[i]
  }

  /** What is left of recoverable envelopes: ten genuine slots, or eleven with one bad. */
  ghost predicate Rebuildable(code: Code, blob: seq<byte>, present: seq<Option<Shard>>) {
    || (Genuine(code, blob, present) && Held(present) >= DATA_SHARDS)
    || exists bad :: OneBad(code, blob, present, bad)
  }

  ghost predicate OneBad(code: Code, blob: seq<byte>, present: seq<Option<Shard>>, bad: nat) {
    bad < |present| && present[bad].Some? && GenuineBut(code, blob, present, bad) && Held(present) > DATA_SHARDS
  }

  lemma KeptIsRebuildable(code: Code, hash: seq<byte> -> seq<byte>, blob: seq<byte>, shards: seq<BackupShard>, present: seq<Option<Shard>>)
    requires Lawful(code) && Outvotes(code, hash, blob, shards)
    requires var g := Geometry(|blob|, hash(blob)); Filled(shards, g, present) && Covers(shards, |shards|, g, present)
    ensures Rebuildable(code, blob, present)
  {
    var g := Geometry(|blob|, hash(blob));
    ShardsShape(code, blob);
    HeldCounts(present);
    SlotsAreIndices(shards, g, present);
    if !Genuine(code, blob, present) {
      var bad :| 0 <= bad < TOTAL_SHARDS && present[bad].Some? && present[bad].value != Shards(code, blob)[bad];
      assert FilledFrom(shards, g, bad, present[bad]);
      var k :| 0 <= k < |shards| && Matches(shards[k], g) && shards[k].index == bad && present[bad] == Some(shards[k].data);
      assert BadCopy(code, blob, shards[k], g);
      forall i | 0 <= i < TOTAL_SHARDS && i != bad && present[i].Some? ensures present[i].value == Shards(code, blob)[i] {
        assert FilledFrom(shards, g, i, present[i]);
        var j :| 0 <= j < |shards| && Matches(shards[j], g) && shards[j].index == i && present[i] == Some(shards[j].data);
        assert !BadCopy(code, blob, shards[j], g);
      }
      assert OneBad(code, blob, present, bad);
    }
  }

  lemma SlotsAreIndices(shards: seq<BackupShard>, g: Geometry, present: seq<Option<Shard>>)
    requires Filled(shards, g, present) && Covers(shards, |shards|, g, present)
    ensures HeldSet(present) == Indices(shards, g)
  {
    forall i | i in HeldSet(present) ensures i in Indices(shards, g) {
      assert FilledFrom(shards, g, i, present[i]);
    }
  }

  lemma WithoutBad(code: Code, blob: seq<byte>, present: seq<Option<Shard>>, bad: nat)
    requires bad < TOTAL_SHARDS && |present| == TOTAL_SHARDS && present[bad].Some?
    requires GenuineBut(code, blob, present, bad) && Held(present) > DATA_SHARDS
    ensures Genuine(code, blob, present[bad := None]) && Held(present[bad := None]) >= DATA_SHARDS
  {
    HeldAfter(present[bad := None], bad, present[bad].value);
    assert present[bad := None][bad := present[bad]] == present;
  }

  /** `blob` is what the geometry asks for and nothing else hashes like it. */
  ghost predicate Wanted(hash: seq<byte> -> seq<byte>, g: Geometry, blob: seq<byte>) {
    g == Geometry(|blob|, hash(blob)) && Collisionless(hash, blob)
  }

  /** Leave each held slot out in turn. */
  method RebuildWithoutOne(code: Code, hash: seq<byte> -> seq<byte>, present: seq<Option<Shard>>, g: Geometry)
    returns (r: Option<seq<byte>>)
    requires Lawful(code) && |present| == TOTAL_SHARDS
    ensures r.Some? ==> hash(r.value) == g.hash
    ensures r.None? ==> forall blob, bad: nat :: Wanted(hash, g, blob) ==> !OneBad(code, blob, present, bad)
  {
    r := None;
    for i := 0 to TOTAL_SHARDS
      invariant r.None?
      invariant forall blob, bad: nat :: Wanted(hash, g, blob) && bad < i ==> !OneBad(code, blob, present, bad)
    {
      if present[i].Some? {
        r := TryRebuild(code, hash, present[i := None], g);
        if r.Some? {
          return;
        }
        forall blob | Wanted(hash, g, blob) && OneBad(code, blob, present, i) ensures false {
          WithoutBad(code, blob, present, i);
        }
      }
    }
  }

  /** Try all of it, then, with a shard to spare, leave each slot out in turn. */
  method RebuildTolerant(code: Code, hash: seq<byte> -> seq<byte>, present: seq<Option<Shard>>, kept: nat, g: Geometry)
    returns (r: Option<seq<byte>>)
    requires Lawful(code) && |present| == TOTAL_SHARDS && kept == Held(present)
    ensures r.Some? ==> hash(r.value) == g.hash
    ensures forall blob :: Wanted(hash, g, blob) && Rebuildable(code, blob, present) ==> r == Some(blob)
  {
    r := TryRebuild(code, hash, present, g);
    if r.None? && kept > DATA_SHARDS {
      r := RebuildWithoutOne(code, hash, present, g);
    }
  }

  /**
    Rebuild the sealed blob.  Whatever comes back matches a geometry that no other
    outvotes; and from recoverable envelopes, in any order, it is the blob itself.
   */
  method ReassembleManifestBackup(code: Code, hash: seq<byte> -> seq<byte>, shards: seq<BackupShard>)
    returns (r: Result<seq<byte>, BackupError>)
    requires Lawful(code)
    ensures r == Err(NotEnough) <==> |shards| < DATA_SHARDS
    ensures r.Ok? ==> exists len, h :: hash(r.value) == h && forall l, o :: |Voters(shards, l, o)| <= |Voters(shards, len, h)|
    ensures forall blob :: Recoverable(code, hash, blob, shards) ==> r == Ok(blob)
  {
    forall blob | Recoverable(code, hash, blob, shards) ensures |shards| >= DATA_SHARDS && Outvotes(code, hash, blob, shards) {
      RecoverableIsOutvoted(code, hash, blob, shards);
      IndicesBound(shards, Geometry(|blob|, hash(blob)));
    }
    if |shards| < DATA_SHARDS {
      return Err(NotEnough);
    }
    var g := Majority(shards);
    forall l, o ensures |Voters(shards, l, o)| <= |Voters(shards, g.blobLen, g.hash)| {
      VotesAreVoters(shards, Geometry(l, o));
      VotesAreVoters(shards, g);
    }
    var present, kept := KeepConsistent(shards, g, ShardLen(g.blobLen));
    forall blob | Recoverable(code, hash, blob, shards)
      ensures Wanted(hash, g, blob) && Rebuildable(code, blob, present) && Held(present) >= DATA_SHARDS
    {
      assert g == Geometry(|blob|, hash(blob));
      KeptIsRebuildable(code, hash, blob, shards, present);
    }
    if kept < DATA_SHARDS {
      return Err(NotEnoughConsistent);
    }
    var blob := RebuildTolerant(code, hash, present, kept, g);
    if blob.None? {
      return Err(NoValidBlob);
    }
    r := Ok(blob.value);
  }

  lemma {:induction false} IndicesBound(shards: seq<BackupShard>, g: Geometry)
    ensures |Indices(shards, g)| <= |shards|
  {
    if shards == [] {
      assert Indices(shards, g) == {};
    } else {
      var init, last := shards[..|shards| - 1], shards[|shards| - 1];
      IndicesBound(init, g);
      forall i | i in Indices(shards, g) ensures i in Indices(init, g) + {last.index} {
        var k :| 0 <= k < |shards| && Matches(shards[k], g) && shards[k].index == i;
        if k < |init| {
          assert init[k] == shards[k] && i in Indices(init, g);
        }
      }
      var a, b := Indices(shards, g), Indices(init, g) + {last.index};
      assert b == a + (b - a);
    }
  }
}
