/**
  Every run of the manifest: uploads, trash, restore, rename, purge, retention,
  packing and compaction in any order, with packing and compaction working from
  reads made at earlier and possibly stale moments.

  The result: whatever the interleaving, each transaction either rolls back or
  leaves every surviving file id reading back the bytes first stored under it.
 */
module Lifecycle {
  import opened Wrappers
  import opened Bytes
  import opened PackFormat
  import opened Manifest
  import Retention

  /** `uploaded` remembers the bytes each minted id was created for and `packs` which
      of them are containers.  `seen` and `plains` are the rows and plaintexts some
      caller has read so far and may still be holding. */
  datatype World = World(
    t: Tables,
    uploaded: map<FileId, seq<byte>>,
    packs: set<FileId>,
    seen: set<(FileId, FileRow)>,
    plains: set<(FileId, seq<byte>)>)

  const EMPTY := World(Tables(map[], map[]), map[], {}, {}, {})

  datatype Command =
    | Upload(user: User, path: string, data: seq<byte>, id: FileId, now: Time, stored: nat, chunks: nat)
    | MoveToTrash(user: User, id: FileId, now: Time)
    | StampLate(user: User, id: FileId, now: Time)
    | BringBack(user: User, id: FileId, newPath: Option<string>, now: Time)
    | MoveFile(user: User, from: string, to: string)
    | Destroy(user: User, id: FileId)
    | EmptyTrash(user: User)
    | RunSweep(policy: Retention.Policy, now: Time)
    | ObserveRow(id: FileId)
    | ReadOwnChunks(id: FileId)
    | ReadDroppedChunks(id: FileId)
    | PackUp(user: User, entries: seq<PackEntry>, id: FileId, now: Time, stored: nat, chunks: nat)
    | Repack(user: User, source: FileId, entries: seq<PackEntry>, id: FileId, now: Time, stored: nat, chunks: nat)

  // ── What must hold ─────────────────────────────────────────────────────────

  /** A retired row parks its path, a container keeps its hidden one. */
  predicate ShapeOk(row: FileRow, id: FileId, isPack: bool) {
    && (isPack ==> row.IsLive() && row.path == PackKey(id) && row.retiredPath.None? && row.pack.None?)
    && (!isPack && row.IsLive() ==> row.path.UserPath? && row.retiredPath.None?)
    && (!isPack && !row.IsLive() ==>
          row.path == RetiredKey(id) && row.retiredPath.Some? && row.retiredPath.value.UserPath?)
  }

  /** The range `r` of its container spells the bytes stored as `id`. */
  predicate SlicesTo(up: map<FileId, seq<byte>>, r: PackRef, id: FileId) {
    r.pack in up && id in up && MemberSlice(up[r.pack], r.off, r.len) == Ok(up[id])
  }

  predicate ContentOk(t: Tables, up: map<FileId, seq<byte>>, packs: set<FileId>, id: FileId)
    requires id in t.files
  {
    var row := t.files[id];
    && id in up && row.size == |up[id]| && row.digest == Blake3(up[id])
    && (row.pack.None? ==> Body(t, id) == up[id])
    && (row.pack.Some? ==>
          var p := row.pack.value.pack;
          p in packs && p in t.files && t.files[p].user == row.user && SlicesTo(up, row.pack.value, id))
  }

  ghost predicate UniquePaths(t: Tables) {
    forall a, b :: a in t.files && b in t.files && a != b ==>
      t.files[a].user != t.files[b].user || t.files[a].path != t.files[b].path
  }

  /** Chunks belong to a row that still reads them. */
  ghost predicate ChunksOwned(t: Tables) {
    forall id :: id in t.bodies ==> id in t.files && t.files[id].pack.None?
  }

  ghost predicate Consistent(t: Tables, up: map<FileId, seq<byte>>, packs: set<FileId>) {
    && packs <= up.Keys
    && ChunksOwned(t)
    && (forall id :: id in t.files ==> ShapeOk(t.files[id], id, id in packs))
    && (forall id :: id in t.files ==> ContentOk(t, up, packs, id))
    && UniquePaths(t)
  }

  /** Whatever was read at some point is still true of the ids it speaks about: a row's
      pack range spells its bytes, and a plaintext is the one stored under its id, or
      empty when the chunks had gone by the time they were read. */
  ghost predicate HonestReads(w: World) {
    && (forall id, row :: (id, row) in w.seen && row.pack.Some? ==> SlicesTo(w.uploaded, row.pack.value, id))
    && (forall id, d :: (id, d) in w.plains ==> id in w.uploaded && (d == w.uploaded[id] || d == []))
  }

  ghost predicate Inv(w: World) {
    Consistent(w.t, w.uploaded, w.packs) && HonestReads(w)
  }

  // ── What a command may do ──────────────────────────────────────────────────

  /** An entry for a pack: read whole from its own chunks, or sliced out of a
      container; the row, the plaintext and the commit may be three different moments. */
  ghost predicate Gathered(w: World, e: PackEntry) {
    || (e.id, e.data) in w.plains
    || exists row, plain :: Sliced(w, e, row, plain)
  }

  ghost predicate Sliced(w: World, e: PackEntry, row: FileRow, plain: seq<byte>) {
    && (e.id, row) in w.seen && row.pack.Some?
    && (row.pack.value.pack, plain) in w.plains
    && MemberSlice(plain, row.pack.value.off, row.pack.value.len) == Ok(e.data)
  }

  /** Ids are minted fresh, users name their own files rather than containers, and pack
      entries come from reads. */
  ghost predicate Enabled(w: World, c: Command) {
    match c
    case Upload(_, _, _, id, _, _, _) => id !in w.uploaded
    case MoveToTrash(_, id, _) => id !in w.packs
    case StampLate(user, id, _) => id !in w.packs && SeenLive(w, user, id)
    case BringBack(_, id, _, _) => id !in w.packs
    case MoveFile(_, _, _) => true
    case Destroy(_, id) => id !in w.packs
    case EmptyTrash(_) => true
    case RunSweep(_, _) => true
    case ObserveRow(id) => id in w.t.files
    case ReadOwnChunks(id) => id in w.t.files && w.t.files[id].pack.None?
    case ReadDroppedChunks(id) => id in w.uploaded
    case PackUp(_, entries, id, _, _, _) => id !in w.uploaded && Usable(w, entries)
    case Repack(_, _, entries, id, _, _, _) => id !in w.uploaded && Usable(w, entries)
  }

  /** Some caller has found this user's row live at some moment. */
  ghost predicate SeenLive(w: World, user: User, id: FileId) {
    exists row :: (id, row) in w.seen && row.user == user && row.IsLive()
  }

  ghost predicate Usable(w: World, entries: seq<PackEntry>) {
    forall i :: 0 <= i < |entries| ==> Gathered(w, entries[i]) && entries[i].id !in w.packs
  }

  function Settle(w: World, r: Result<Tables, Error>): World {
    if r.Ok? then w.(t := r.value) else w
  }

  function SettleNew(w: World, r: Result<Tables, Error>, id: FileId, bytes: seq<byte>, isPack: bool): World {
    if r.Ok? then
      w.(t := r.value, uploaded := w.uploaded[id := bytes], packs := if isPack then w.packs + {id} else w.packs)
    else w
  }

  ghost function Next(w: World, c: Command): World
    requires Enabled(w, c)
  {
    match c
    case Upload(user, path, data, id, now, stored, chunks) =>
      SettleNew(w, Push(w.t, user, path, data, id, now, stored, chunks), id, data, false)
    case MoveToTrash(user, id, now) => Settle(w, Trash(w.t, user, id, now))
    case StampLate(user, id, now) => w.(t := StampTrashed(w.t, user, id, now))
    case BringBack(user, id, newPath, now) => Settle(w, Restore(w.t, user, id, newPath, now))
    case MoveFile(user, from, to) => Settle(w, Rename(w.t, user, from, to))
    case Destroy(user, id) => Settle(w, Purge(w.t, user, id))
    case EmptyTrash(user) => Settle(w, Ok(Drop(w.t, Trashed(w.t, user))))
    case RunSweep(policy, now) => Settle(w, Ok(Retention.Sweep(w.t, policy, now)))
    case ObserveRow(id) => w.(seen := w.seen + {(id, w.t.files[id])})
    case ReadOwnChunks(id) => w.(plains := w.plains + {(id, Body(w.t, id))})
    case ReadDroppedChunks(id) => w.(plains := w.plains + {(id, [])})
    case PackUp(user, entries, id, now, stored, chunks) =>
      SettleNew(w, Pack(w.t, user, entries, id, now, stored, chunks), id, PackPlain(entries), true)
    case Repack(user, source, entries, id, now, stored, chunks) =>
      var r := Compact(w.t, user, source, entries, id, now, stored, chunks);
      if entries == [] then Settle(w, r) else SettleNew(w, r, id, PackPlain(entries), true)
  }

  // ── Single-row and row-set changes ─────────────────────────────────────────

  /** Changing only where a file is listed keeps everything, as long as the path is free. */
  lemma RelistKeeps(t: Tables, up: map<FileId, seq<byte>>, packs: set<FileId>, id: FileId, row: FileRow)
    requires Consistent(t, up, packs) && id in t.files && id !in packs && ShapeOk(row, id, false)
    requires row.user == t.files[id].user && row.size == t.files[id].size
    requires row.digest == t.files[id].digest && row.pack == t.files[id].pack
    requires forall b :: b in t.files && b != id && t.files[b].user == row.user ==> t.files[b].path != row.path
    ensures Consistent(SetRow(t, id, row), up, packs)
  {
    var t' := SetRow(t, id, row);
    forall b | b in t'.files ensures ContentOk(t', up, packs, b) {
      assert ContentOk(t, up, packs, b);
    }
  }

  lemma RetireKeeps(t: Tables, up: map<FileId, seq<byte>>, packs: set<FileId>, id: FileId, row: FileRow)
    requires Consistent(t, up, packs) && id in t.files && id !in packs && t.files[id].IsLive()
    requires exists now :: row == TrashedRow(id, t.files[id], now) || row == SupersededRow(id, t.files[id], now)
    ensures Consistent(SetRow(t, id, row), up, packs)
  {
    forall b | b in t.files && b != id ensures t.files[b].path != RetiredKey(id) {
      assert ShapeOk(t.files[b], b, b in packs);
    }
    RelistKeeps(t, up, packs, id, row);
  }

  /** A trash stamp on a row in any state moves at most its path to the parked key. */
  lemma StampKeeps(t: Tables, up: map<FileId, seq<byte>>, packs: set<FileId>, user: User, id: FileId, now: Time)
    requires Consistent(t, up, packs) && id !in packs
    ensures Consistent(StampTrashed(t, user, id, now), up, packs)
  {
    if GetFile(t, user, id).Some? {
      assert ShapeOk(t.files[id], id, false);
      forall b | b in t.files && b != id ensures t.files[b].path != RetiredKey(id) {
        assert ShapeOk(t.files[b], b, b in packs);
      }
      RelistKeeps(t, up, packs, id, TrashedRow(id, t.files[id], now));
    }
  }

  /** Stepping the occupant aside frees the path and loses nothing. */
  lemma VacateKeeps(t: Tables, up: map<FileId, seq<byte>>, packs: set<FileId>, user: User, key: PathKey, now: Time)
    requires Consistent(t, up, packs) && key.UserPath?
    ensures var t' := Vacate(t, user, key, now);
      && Consistent(t', up, packs) && t'.files.Keys == t.files.Keys && t'.bodies == t.bodies
      && (forall b :: b in t'.files && t'.files[b].user == user ==> t'.files[b].path != key)
      && (forall b :: b in t.files && !t.files[b].IsLive() ==> t'.files[b] == t.files[b])
  {
    var t' := Vacate(t, user, key, now);
    forall b | b in t.files && t.files[b].user == user && t.files[b].path == key
      ensures Occupies(t, user, key, b)
    {
      assert ShapeOk(t.files[b], b, b in packs);
    }
    var o := Occupant(t, user, key);
    if o.Some? {
      assert ShapeOk(t.files[o.value], o.value, o.value in packs);
      RetireKeeps(t, up, packs, o.value, t'.files[o.value]);
    }
  }

  /** A new row with its own bytes, at a path nobody holds. */
  lemma AddKeeps(t: Tables, up: map<FileId, seq<byte>>, packs: set<FileId>, id: FileId, row: FileRow,
                 data: seq<byte>, isPack: bool)
    requires Consistent(t, up, packs) && id !in t.files && id !in up
    requires ShapeOk(row, id, isPack) && row.pack.None? && row.size == |data| && row.digest == Blake3(data)
    requires forall b :: b in t.files && t.files[b].user == row.user ==> t.files[b].path != row.path
    ensures Consistent(Tables(t.files[id := row], t.bodies[id := data]), up[id := data],
                       if isPack then packs + {id} else packs)
  {
    var t' := Tables(t.files[id := row], t.bodies[id := data]);
    var packs' := if isPack then packs + {id} else packs;
    forall b | b in t'.files ensures ContentOk(t', up[id := data], packs', b) && ShapeOk(t'.files[b], b, b in packs') {
      if b != id {
        assert ContentOk(t, up, packs, b);
      }
    }
  }

  /** Rows may go as long as no survivor's bytes live inside them. */
  lemma DropKeeps(t: Tables, up: map<FileId, seq<byte>>, packs: set<FileId>, ids: set<FileId>)
    requires Consistent(t, up, packs)
    requires forall b :: b in t.files && b !in ids && t.files[b].pack.Some? ==> t.files[b].pack.value.pack !in ids
    ensures Consistent(Drop(t, ids), up, packs)
  {
    var t' := Drop(t, ids);
    forall b | b in t'.files ensures ContentOk(t', up, packs, b) {
      assert ContentOk(t, up, packs, b);
    }
  }

  // ── Packing ────────────────────────────────────────────────────────────────

  /** However stale the reads were, data that passes the size check IS the stored data. */
  lemma StaleReadsHarmless(w: World, e: PackEntry)
    requires Inv(w) && Gathered(w, e) && e.id in w.t.files && w.t.files[e.id].size == |e.data|
    ensures e.id in w.uploaded && e.data == w.uploaded[e.id]
  {
    assert ContentOk(w.t, w.uploaded, w.packs, e.id);
    if (e.id, e.data) !in w.plains {
      var row, plain :| Sliced(w, e, row, plain);
      assert SlicesTo(w.uploaded, row.pack.value, e.id);
    }
  }

  /** Every entry is one of the files stored here, byte for byte. */
  ghost predicate TrueEntries(up: map<FileId, seq<byte>>, packs: set<FileId>, entries: seq<PackEntry>) {
    forall i :: 0 <= i < |entries| ==>
      entries[i].id in up && entries[i].id !in packs && entries[i].data == up[entries[i].id]
  }

  lemma MemberSlices(up: map<FileId, seq<byte>>, entries: seq<PackEntry>, id: FileId, i: nat)
    requires i < |entries| && entries[i].id in up && entries[i].id != id && entries[i].data == up[entries[i].id]
    ensures SlicesTo(up[id := PackPlain(entries)], PackRef(id, RangeOf(entries, i).off, RangeOf(entries, i).len), entries[i].id)
  {
    RangeIsMember(entries, Trailer(IndexOf(entries)), i);
    var g := Ranges(entries)[i];
    assert MemberSlice(PackPlain(entries), g.off, g.len) == Ok(entries[i].data);
  }

  ghost predicate Untouched(t: Tables, t1: Tables, b: FileId)
    requires b in t.files && b in t1.files
  {
    t1.files[b] == t.files[b] && Body(t1, b) == Body(t, b)
  }

  ghost predicate Repointed(t: Tables, t1: Tables, up: map<FileId, seq<byte>>, packs: set<FileId>,
                            user: User, id: FileId, b: FileId)
    requires b in t.files && b in t1.files
  {
    && b !in packs && t.files[b].user == user
    && t1.files[b].pack.Some? && t1.files[b].pack.value.pack == id
    && t1.files[b] == t.files[b].(pack := t1.files[b].pack, chunkCount := 0, stored := 0)
    && SlicesTo(up, t1.files[b].pack.value, b)
    && b !in t1.bodies
  }

  /** After the pass a row is either untouched, or an entry that now reads its own range. */
  lemma AssignedRow(t: Tables, t1: Tables, up: map<FileId, seq<byte>>, packs: set<FileId>, user: User,
                    from: Option<FileId>, entries: seq<PackEntry>, id: FileId, b: FileId)
    requires Consistent(t, up, packs) && TrueEntries(up, packs, entries) && id !in up && b in t.files
    requires Assigned(t, t1, user, from, entries, Ranges(entries), id, |entries|)
    ensures Untouched(t, t1, b) || Repointed(t, t1, up[id := PackPlain(entries)], packs, user, id, b)
  {
    assert entries[..|entries|] == entries;
    if b in EntryIds(entries) {
      var i :| 0 <= i < |entries| && entries[i].id == b;
      assert Assignable(t, user, from, entries[i]);
      MemberSlices(up, entries, id, i);
    }
  }

  /** `t2` is `t1` with the container row and its chunks added. */
  ghost predicate WithContainer(t1: Tables, t2: Tables, up: map<FileId, seq<byte>>, up2: map<FileId, seq<byte>>,
                                id: FileId, row: FileRow, plain: seq<byte>)
  {
    t2.files == t1.files[id := row] && t2.bodies == t1.bodies[id := plain] && up2 == up[id := plain]
  }

  lemma RepointedRowOk(t: Tables, t1: Tables, t2: Tables, up: map<FileId, seq<byte>>, up2: map<FileId, seq<byte>>,
                       packs: set<FileId>, user: User, id: FileId, row: FileRow, plain: seq<byte>, b: FileId)
    requires Consistent(t, up, packs) && id !in t.files && id !in up && t1.files.Keys == t.files.Keys
    requires WithContainer(t1, t2, up, up2, id, row, plain) && row.user == user && b in t.files
    requires forall x :: x in t.files ==> Untouched(t, t1, x) || Repointed(t, t1, up2, packs, user, id, x)
    ensures ContentOk(t2, up2, packs + {id}, b)
    ensures ShapeOk(t2.files[b], b, b in packs + {id})
    ensures t2.files[b].user == t.files[b].user && t2.files[b].path == t.files[b].path != PackKey(id)
  {
    assert ContentOk(t, up, packs, b) && ShapeOk(t.files[b], b, b in packs);
    assert Untouched(t, t1, b) || Repointed(t, t1, up2, packs, user, id, b);
    if t.files[b].pack.Some? {
      var p := t.files[b].pack.value.pack;
      assert Untouched(t, t1, p) || Repointed(t, t1, up2, packs, user, id, p);
    }
  }

  lemma PathsStayUnique(t: Tables, t2: Tables, id: FileId)
    requires UniquePaths(t) && t2.files.Keys == t.files.Keys + {id} && id !in t.files
    requires forall b :: b in t.files ==> t2.files[b].user == t.files[b].user && t2.files[b].path == t.files[b].path
    requires forall b :: b in t.files ==> t2.files[b].path != t2.files[id].path
    ensures UniquePaths(t2)
  {
  }

  lemma ChunksStayOwned(t: Tables, t1: Tables, t2: Tables, up: map<FileId, seq<byte>>, up2: map<FileId, seq<byte>>,
                        packs: set<FileId>, user: User, id: FileId, row: FileRow, plain: seq<byte>)
    requires ChunksOwned(t) && t1.files.Keys == t.files.Keys && t1.bodies.Keys <= t.bodies.Keys
    requires WithContainer(t1, t2, up, up2, id, row, plain) && row.pack.None?
    requires forall x :: x in t.files ==> Untouched(t, t1, x) || Repointed(t, t1, up2, packs, user, id, x)
    ensures ChunksOwned(t2)
  {
    forall b | b in t2.bodies && b != id ensures b in t2.files && t2.files[b].pack.None? {
      assert b in t.files && Untouched(t, t1, b);
    }
  }

  /** The container's own row after the commit. */
  lemma ContainerRowOk(t1: Tables, t2: Tables, up: map<FileId, seq<byte>>, up2: map<FileId, seq<byte>>,
                       packs: set<FileId>, id: FileId, row: FileRow, plain: seq<byte>)
    requires WithContainer(t1, t2, up, up2, id, row, plain)
    requires ShapeOk(row, id, true) && row.size == |plain| && row.digest == Blake3(plain)
    ensures id in t2.files && t2.files[id] == row && ContentOk(t2, up2, packs + {id}, id) && ShapeOk(t2.files[id], id, id in packs + {id})
  {
  }

  lemma RepointedRowsOk(t: Tables, t1: Tables, t2: Tables, up: map<FileId, seq<byte>>, up2: map<FileId, seq<byte>>,
                        packs: set<FileId>, user: User, id: FileId, row: FileRow, plain: seq<byte>)
    requires Consistent(t, up, packs) && id !in t.files && id !in up && t1.files.Keys == t.files.Keys
    requires WithContainer(t1, t2, up, up2, id, row, plain) && t1.bodies.Keys <= t.bodies.Keys
    requires row.user == user && ShapeOk(row, id, true) && row.size == |plain| && row.digest == Blake3(plain)
    requires forall x :: x in t.files ==> Untouched(t, t1, x) || Repointed(t, t1, up2, packs, user, id, x)
    ensures forall b :: b in t.files ==> ContentOk(t2, up2, packs + {id}, b) && ShapeOk(t2.files[b], b, b in packs + {id})
    ensures forall b :: b in t.files ==> t2.files[b].user == t.files[b].user && t2.files[b].path == t.files[b].path != PackKey(id)
  {
    forall b | b in t.files
      ensures ContentOk(t2, up2, packs + {id}, b)
      ensures ShapeOk(t2.files[b], b, b in packs + {id})
      ensures t2.files[b].user == t.files[b].user && t2.files[b].path == t.files[b].path != PackKey(id)
    {
      RepointedRowOk(t, t1, t2, up, up2, packs, user, id, row, plain, b);
    }
  }

  /** Re-pointing rows at a container that spells them, in one go. */
  lemma RepointKeeps(t: Tables, t1: Tables, t2: Tables, up: map<FileId, seq<byte>>, up2: map<FileId, seq<byte>>,
                     packs: set<FileId>, user: User, id: FileId, row: FileRow, plain: seq<byte>)
    requires Consistent(t, up, packs) && id !in t.files && id !in up && t1.files.Keys == t.files.Keys
    requires WithContainer(t1, t2, up, up2, id, row, plain) && t1.bodies.Keys <= t.bodies.Keys
    requires row.user == user && ShapeOk(row, id, true) && row.size == |plain| && row.digest == Blake3(plain)
    requires forall x :: x in t.files ==> Untouched(t, t1, x) || Repointed(t, t1, up2, packs, user, id, x)
    ensures Consistent(t2, up2, packs + {id})
  {
    RepointedRowsOk(t, t1, t2, up, up2, packs, user, id, row, plain);
    ContainerRowOk(t1, t2, up, up2, packs, id, row, plain);
    PathsStayUnique(t, t2, id);
    ChunksStayOwned(t, t1, t2, up, up2, packs, user, id, row, plain);
  }

  lemma AssignKeeps(t: Tables, t1: Tables, t2: Tables, up: map<FileId, seq<byte>>, up2: map<FileId, seq<byte>>,
                    packs: set<FileId>, user: User, from: Option<FileId>, entries: seq<PackEntry>, id: FileId, row: FileRow)
    requires Consistent(t, up, packs) && id !in t.files && id !in up
    requires TrueEntries(up, packs, entries)
    requires Assigned(t, t1, user, from, entries, Ranges(entries), id, |entries|)
    requires WithContainer(t1, t2, up, up2, id, row, PackPlain(entries))
    requires row.user == user && ShapeOk(row, id, true)
    requires row.size == |PackPlain(entries)| && row.digest == Blake3(PackPlain(entries))
    ensures Consistent(t2, up2, packs + {id})
  {
    forall b | b in t.files
      ensures Untouched(t, t1, b) || Repointed(t, t1, up2, packs, user, id, b)
    {
      AssignedRow(t, t1, up, packs, user, from, entries, id, b);
    }
    RepointKeeps(t, t1, t2, up, up2, packs, user, id, row, PackPlain(entries));
  }

  lemma PackKeeps(w: World, c: Command)
    requires Inv(w) && c.PackUp? && Enabled(w, c)
    ensures Consistent(Next(w, c).t, Next(w, c).uploaded, Next(w, c).packs)
  {
    var r := Pack(w.t, c.user, c.entries, c.id, c.now, c.stored, c.chunks);
    if r.Ok? {
      var t1 := AssignFirst(w.t, c.user, None, c.entries, Ranges(c.entries), c.id, |c.entries|).value;
      AssignFirstEffect(w.t, c.user, None, c.entries, Ranges(c.entries), c.id, |c.entries|);
      EntriesAreTrue(w, c.user, None, c.entries, t1, c.id);
      AssignKeeps(w.t, t1, r.value, w.uploaded, w.uploaded[c.id := PackPlain(c.entries)], w.packs, c.user, None,
                  c.entries, c.id, r.value.files[c.id]);
    }
  }

  lemma EntriesAreTrue(w: World, user: User, from: Option<FileId>, entries: seq<PackEntry>, t1: Tables, id: FileId)
    requires Inv(w) && Usable(w, entries) && Assigned(w.t, t1, user, from, entries, Ranges(entries), id, |entries|)
    ensures TrueEntries(w.uploaded, w.packs, entries)
  {
    forall i | 0 <= i < |entries|
      ensures entries[i].id in w.uploaded && entries[i].id !in w.packs && entries[i].data == w.uploaded[entries[i].id]
    {
      assert Assignable(w.t, user, from, entries[i]);
      StaleReadsHarmless(w, entries[i]);
    }
  }

  /** No survivor's bytes are left in the container that compaction drops. */
  lemma NobodyLeftBehind(t: Tables, t1: Tables, up: map<FileId, seq<byte>>, packs: set<FileId>, user: User,
                         source: FileId, entries: seq<PackEntry>, id: FileId, b: FileId)
    requires Consistent(t, up, packs) && GetFile(t, user, source).Some? && id != source
    requires Members(t, user, source) <= EntryIds(entries)
    requires Assigned(t, t1, user, Some(source), entries, Ranges(entries), id, |entries|)
    requires b in t1.files && t1.files[b].pack.Some?
    ensures t1.files[b].pack.value.pack != source
  {
    assert entries[..|entries|] == entries;
    if b in EntryIds(entries) {
      AssignedIds(t, t1, user, Some(source), entries, Ranges(entries), id, |entries|);
    } else {
      assert ContentOk(t, up, packs, b) && t1.files[b] == t.files[b];
      assert b !in Members(t, user, source);
    }
  }

  lemma DropMemberlessKeeps(t: Tables, up: map<FileId, seq<byte>>, packs: set<FileId>, user: User, source: FileId)
    requires Consistent(t, up, packs) && GetFile(t, user, source).Some? && Members(t, user, source) == {}
    ensures Consistent(Drop(t, {source}), up, packs)
  {
    forall b | b in t.files && t.files[b].pack.Some? ensures t.files[b].pack.value.pack != source {
      assert ContentOk(t, up, packs, b) && b !in Members(t, user, source);
    }
    DropKeeps(t, up, packs, {source});
  }

  lemma DropRewrittenKeeps(t: Tables, t1: Tables, t2: Tables, up: map<FileId, seq<byte>>, packs: set<FileId>,
                           up2: map<FileId, seq<byte>>, packs2: set<FileId>, user: User,
                           source: FileId, entries: seq<PackEntry>, id: FileId)
    requires Consistent(t, up, packs) && GetFile(t, user, source).Some? && id != source
    requires Members(t, user, source) <= EntryIds(entries)
    requires Assigned(t, t1, user, Some(source), entries, Ranges(entries), id, |entries|)
    requires Consistent(t2, up2, packs2)
    requires forall b :: b in t2.files && t2.files[b].pack.Some? ==> b in t1.files && t2.files[b] == t1.files[b]
    ensures Consistent(Drop(t2, {source}), up2, packs2)
  {
    forall b | b in t2.files && t2.files[b].pack.Some? ensures t2.files[b].pack.value.pack != source {
      NobodyLeftBehind(t, t1, up, packs, user, source, entries, id, b);
    }
    DropKeeps(t2, up2, packs2, {source});
  }

  lemma RewriteKeeps(w: World, user: User, source: FileId, entries: seq<PackEntry>, id: FileId, row: FileRow, t1: Tables, t2: Tables)
    requires Inv(w) && id !in w.uploaded && Usable(w, entries) && GetFile(w.t, user, source).Some?
    requires Members(w.t, user, source) <= EntryIds(entries)
    requires AssignFirst(w.t, user, Some(source), entries, Ranges(entries), id, |entries|) == Ok(t1)
    requires row.user == user && ShapeOk(row, id, true) && id !in w.t.files
    requires row.size == |PackPlain(entries)| && row.digest == Blake3(PackPlain(entries))
    requires WithContainer(t1, t2, w.uploaded, w.uploaded[id := PackPlain(entries)], id, row, PackPlain(entries))
    ensures Consistent(Drop(t2, {source}), w.uploaded[id := PackPlain(entries)], w.packs + {id})
  {
    var up2 := w.uploaded[id := PackPlain(entries)];
    assert source in w.uploaded by {
      assert ContentOk(w.t, w.uploaded, w.packs, source);
    }
    AssignFirstEffect(w.t, user, Some(source), entries, Ranges(entries), id, |entries|);
    EntriesAreTrue(w, user, Some(source), entries, t1, id);
    AssignKeeps(w.t, t1, t2, w.uploaded, up2, w.packs, user, Some(source), entries, id, row);
    DropRewrittenKeeps(w.t, t1, t2, w.uploaded, w.packs, up2, w.packs + {id}, user, source, entries, id);
  }

  lemma RepackKeeps(w: World, c: Command)
    requires Inv(w) && c.Repack? && Enabled(w, c)
    ensures Consistent(Next(w, c).t, Next(w, c).uploaded, Next(w, c).packs)
  {
    var r := Compact(w.t, c.user, c.source, c.entries, c.id, c.now, c.stored, c.chunks);
    if r.Ok? && c.entries == [] {
      DropMemberlessKeeps(w.t, w.uploaded, w.packs, c.user, c.source);
    } else if r.Ok? {
      var t1 := AssignFirst(w.t, c.user, Some(c.source), c.entries, Ranges(c.entries), c.id, |c.entries|).value;
      var row := ContainerRow(c.user, c.id, PackPlain(c.entries), c.now, c.stored, c.chunks);
      AssignFirstEffect(w.t, c.user, Some(c.source), c.entries, Ranges(c.entries), c.id, |c.entries|);
      RewriteKeeps(w, c.user, c.source, c.entries, c.id, row, t1,
                   Tables(t1.files[c.id := row], t1.bodies[c.id := PackPlain(c.entries)]));
    }
  }

  // ── One step, and all runs ─────────────────────────────────────────────────

  lemma ListingKeeps(w: World, c: Command)
    requires Inv(w) && Enabled(w, c)
    requires c.Upload? || c.MoveToTrash? || c.StampLate? || c.BringBack? || c.MoveFile?
    ensures Consistent(Next(w, c).t, Next(w, c).uploaded, Next(w, c).packs)
  {
    match c
    case Upload(user, path, data, id, now, stored, chunks) =>
      VacateKeeps(w.t, w.uploaded, w.packs, user, UserPath(path), now);
      var r := Push(w.t, user, path, data, id, now, stored, chunks);
      if r.Ok? {
        AddKeeps(Vacate(w.t, user, UserPath(path), now), w.uploaded, w.packs, id, r.value.files[id], data, false);
      }
    case MoveToTrash(user, id, now) =>
      var r := Trash(w.t, user, id, now);
      if r.Ok? && r.value != w.t {
        RetireKeeps(w.t, w.uploaded, w.packs, id, r.value.files[id]);
      }
    case StampLate(user, id, now) => StampKeeps(w.t, w.uploaded, w.packs, user, id, now);
    case BringBack(user, id, newPath, now) =>
      if Restore(w.t, user, id, newPath, now).Ok? {
        var row := w.t.files[id];
        assert ShapeOk(row, id, id in w.packs);
        var target := TrimKey(if newPath.Some? then UserPath(newPath.value) else row.VisiblePath());
        VacateKeeps(w.t, w.uploaded, w.packs, user, target, now);
        RelistKeeps(Vacate(w.t, user, target, now), w.uploaded, w.packs, id, RestoredRow(row, target));
      }
    case MoveFile(user, from, to) =>
      var r := Rename(w.t, user, from, to);
      if r.Ok? {
        var id := Occupant(w.t, user, UserPath(TrimSlashes(from))).value;
        assert ShapeOk(w.t.files[id], id, id in w.packs);
        RelistKeeps(w.t, w.uploaded, w.packs, id, r.value.files[id]);
      }
  }

  /** The rows a removing command takes. */
  ghost function Gone(w: World, c: Command): set<FileId> {
    match c
    case Destroy(_, id) => {id}
    case EmptyTrash(user) => Trashed(w.t, user)
    case RunSweep(policy, now) => Retention.Expired(w.t, policy, now)
    case _ => {}
  }

  /** No removing command names a container that something points into. */
  lemma GoneSparesContainers(w: World, c: Command, b: FileId)
    requires Inv(w) && Enabled(w, c) && (c.Destroy? || c.EmptyTrash? || c.RunSweep?)
    requires b in w.t.files && w.t.files[b].pack.Some?
    ensures w.t.files[b].pack.value.pack !in Gone(w, c)
  {
    assert ContentOk(w.t, w.uploaded, w.packs, b);
    var p := w.t.files[b].pack.value.pack;
    assert ShapeOk(w.t.files[p], p, true);
  }

  lemma RemovalKeeps(w: World, c: Command)
    requires Inv(w) && Enabled(w, c) && (c.Destroy? || c.EmptyTrash? || c.RunSweep?)
    ensures Consistent(Next(w, c).t, Next(w, c).uploaded, Next(w, c).packs)
  {
    forall b | b in w.t.files && w.t.files[b].pack.Some? ensures w.t.files[b].pack.value.pack !in Gone(w, c) {
      GoneSparesContainers(w, c, b);
    }
    DropKeeps(w.t, w.uploaded, w.packs, Gone(w, c));
  }

  /** Minted ids keep their bytes, so earlier reads stay honest. */
  lemma ReadsStayHonest(w: World, c: Command)
    requires Inv(w) && Enabled(w, c)
    ensures HonestReads(Next(w, c))
  {
    var w' := Next(w, c);
    forall id, row | (id, row) in w'.seen && row.pack.Some? ensures SlicesTo(w'.uploaded, row.pack.value, id) {
      if (id, row) !in w.seen {
        assert ContentOk(w.t, w.uploaded, w.packs, id);
      } else {
        assert SlicesTo(w.uploaded, row.pack.value, id);
      }
    }
    forall id, d | (id, d) in w'.plains ensures id in w'.uploaded && (d == w'.uploaded[id] || d == []) {
      if (id, d) !in w.plains && c.ReadOwnChunks? {
        assert ContentOk(w.t, w.uploaded, w.packs, id);
      }
    }
  }

  /** Every command keeps the invariant, and never re-mints an id. */
  lemma StepKeeps(w: World, c: Command)
    requires Inv(w) && Enabled(w, c)
    ensures Inv(Next(w, c))
    ensures forall id :: id in w.uploaded ==> id in Next(w, c).uploaded && Next(w, c).uploaded[id] == w.uploaded[id]
  {
    ReadsStayHonest(w, c);
    if c.PackUp? {
      PackKeeps(w, c);
    } else if c.Repack? {
      RepackKeeps(w, c);
    } else if c.Destroy? || c.EmptyTrash? || c.RunSweep? {
      RemovalKeeps(w, c);
    } else if !(c.ObserveRow? || c.ReadOwnChunks? || c.ReadDroppedChunks?) {
      ListingKeeps(w, c);
    }
  }

  /** A run: commands applied one after the other, each enabled where it happens. */
  ghost predicate Runs(w: World, cs: seq<Command>, w': World)
    decreases |cs|
  {
    if cs == [] then w' == w
    else Enabled(w, cs[0]) && Runs(Next(w, cs[0]), cs[1..], w')
  }

  lemma {:induction false} RunKeeps(w: World, cs: seq<Command>, w': World)
    requires Inv(w) && Runs(w, cs, w')
    ensures Inv(w')
    ensures forall id :: id in w.uploaded ==> id in w'.uploaded && w'.uploaded[id] == w.uploaded[id]
    decreases |cs|
  {
    if cs != [] {
      StepKeeps(w, cs[0]);
      RunKeeps(Next(w, cs[0]), cs[1..], w');
    }
  }

  /** In a consistent manifest every row reads back the bytes of its id. */
  lemma ReadsBack(t: Tables, up: map<FileId, seq<byte>>, packs: set<FileId>, id: FileId)
    requires Consistent(t, up, packs) && id in t.files
    ensures Pull(t, t.files[id].user, id) == Ok(up[id])
  {
    assert ContentOk(t, up, packs, id);
    if t.files[id].pack.Some? {
      var p := t.files[id].pack.value.pack;
      assert ContentOk(t, up, packs, p) && ShapeOk(t.files[p], p, true);
    }
  }

  predicate LiveTogether(t: Tables, a: FileId, b: FileId)
    requires a in t.files && b in t.files
  {
    t.files[a].IsLive() && t.files[b].IsLive() && t.files[a].user == t.files[b].user
  }

  /**
    The main theorem.  Run any commands from the empty node.  A file whose bytes were
    stored under `id` at some moment of the run reads back exactly those bytes at any
    later moment, if its row is still there; and no two rows of one user are live at
    the same path.
   */
  lemma EveryRunReadsBack(cs: seq<Command>, w: World, more: seq<Command>, w': World, id: FileId)
    requires Runs(EMPTY, cs, w) && Runs(w, more, w') && id in w.uploaded && id in w'.t.files
    ensures Pull(w'.t, w'.t.files[id].user, id) == Ok(w.uploaded[id])
    ensures forall b :: b in w'.t.files && b != id && LiveTogether(w'.t, b, id) ==>
              w'.t.files[b].VisiblePath() != w'.t.files[id].VisiblePath()
  {
    RunKeeps(EMPTY, cs, w);
    RunKeeps(w, more, w');
    ReadsBack(w'.t, w'.uploaded, w'.packs, id);
    forall b | b in w'.t.files && w'.t.files[b].IsLive() ensures w'.t.files[b].retiredPath.None? {
      assert ShapeOk(w'.t.files[b], b, b in w'.packs);
    }
  }

  /** An upload answered "unchanged" names a file that already reads back as the upload. */
  lemma UnchangedIsStored(w: World, user: User, path: string, data: seq<byte>, id: FileId)
    requires Inv(w) && Unchanged(w.t, user, path, data, id)
    ensures Pull(w.t, user, id) == Ok(data)
  {
    assert ContentOk(w.t, w.uploaded, w.packs, id);
    ReadsBack(w.t, w.uploaded, w.packs, id);
  }

  // ── Where the service calls are not one transaction ────────────────────────

  /** Reading the row and reading its chunks are two statements.  Chunks read later than
      a self-contained row still give the file exactly if the row is still there and
      still self-contained, or the file is empty; otherwise they give nothing at all. */
  lemma LateChunkRead(w: World, id: FileId)
    requires Inv(w) && id in w.uploaded
    ensures Body(w.t, id) == w.uploaded[id]
       <==> w.uploaded[id] == [] || (id in w.t.files && w.t.files[id].pack.None?)
    ensures Body(w.t, id) != w.uploaded[id] ==> Body(w.t, id) == []
  {
    if id in w.t.files {
      assert ContentOk(w.t, w.uploaded, w.packs, id);
    }
  }
}
