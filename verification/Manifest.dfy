/**
  The manifest tables (manifest.rs) and what each service transaction (service.rs)
  does to them, as functions on table values.  An `Err` result is a rolled-back
  transaction: the caller keeps the tables it had.

  `bodies` stands for the chunk and shard rows: it maps a file id to the plaintext
  its own chunks decode to.
 */
module Manifest {
  import opened Wrappers
  import opened Bytes
  import opened PackFormat

  type FileId = seq<byte>
  type User = string
  type Time = nat

  /** The `path` column: a path the user sees, or one of the two hidden keys. */
  datatype PathKey = UserPath(path: string) | RetiredKey(id: FileId) | PackKey(id: FileId)

  datatype PackRef = PackRef(pack: FileId, off: int, len: int)

  datatype FileRow = FileRow(
    user: User, path: PathKey, retiredPath: Option<PathKey>,
    size: nat, stored: nat, chunkCount: nat, created: Time,
    deleted: Option<Time>, superseded: Option<Time>,
    lineage: FileId, digest: Digest, pack: Option<PackRef>)
  {
    predicate IsLive() { deleted.None? && superseded.None? }

    function VisiblePath(): PathKey {
      if retiredPath.Some? then retiredPath.value else path
    }

    predicate IsPack() { VisiblePath().PackKey? }

    function PackId(): Option<FileId> {
      if pack.Some? then Some(pack.value.pack) else None
    }
  }

  datatype Tables = Tables(files: map<FileId, FileRow>, bodies: map<FileId, seq<byte>>)

  datatype Error = NotFound | Integrity | Constraint

  function GetFile(t: Tables, user: User, id: FileId): Option<FileRow> {
    if id in t.files && t.files[id].user == user then Some(t.files[id]) else None
  }

  /** `id` is the live file at `key`; pack containers are not addressable by path. */
  predicate Occupies(t: Tables, user: User, key: PathKey, id: FileId) {
    && id in t.files && t.files[id].user == user && t.files[id].path == key
    && t.files[id].IsLive() && !key.PackKey?
  }

  ghost function Occupant(t: Tables, user: User, key: PathKey): (o: Option<FileId>)
    ensures o.Some? ==> Occupies(t, user, key, o.value)
    ensures o.None? ==> forall id :: !Occupies(t, user, key, id)
  {
    if exists id :: Occupies(t, user, key, id) then
      var id :| Occupies(t, user, key, id);
      Some(id)
    else None
  }

  function Body(t: Tables, id: FileId): seq<byte> {
    if id in t.bodies then t.bodies[id] else []
  }

  /** The bytes of a file: its own chunks, or its range of its container. */
  function Pull(t: Tables, user: User, id: FileId): Result<seq<byte>, Error> {
    match GetFile(t, user, id)
    case None => Err(NotFound)
    case Some(row) =>
      if row.pack.None? then Ok(Body(t, id))
      else
        match GetFile(t, user, row.pack.value.pack)
        case None => Err(Integrity)
        case Some(container) =>
          if container.pack.Some? then Err(Integrity)
          else
            match MemberSlice(Body(t, row.pack.value.pack), row.pack.value.off, row.pack.value.len)
            case Ok(bytes) => Ok(bytes)
            case Err(_) => Err(Integrity)
  }

  // ── Retiring and restoring ─────────────────────────────────────────────────

  function TrashedRow(id: FileId, row: FileRow, now: Time): FileRow {
    if row.deleted.Some? then row
    else row.(deleted := Some(now), retiredPath := Some(row.VisiblePath()), path := RetiredKey(id))
  }

  function SupersededRow(id: FileId, row: FileRow, now: Time): FileRow {
    if row.superseded.Some? then row
    else row.(superseded := Some(now), retiredPath := Some(row.VisiblePath()), path := RetiredKey(id))
  }

  function RestoredRow(row: FileRow, key: PathKey): FileRow {
    row.(deleted := None, superseded := None, retiredPath := None, path := key)
  }

  function SetRow(t: Tables, id: FileId, row: FileRow): Tables {
    t.(files := t.files[id := row])
  }

  /** Step aside whatever is live at `key`. */
  ghost function Vacate(t: Tables, user: User, key: PathKey, now: Time): Tables {
    match Occupant(t, user, key)
    case None => t
    case Some(prev) => SetRow(t, prev, SupersededRow(prev, t.files[prev], now))
  }

  /** Without the slashes at either end. */
  function TrimSlashes(p: string): (r: string)
    ensures r != "" ==> r[0] != '/' && r[|r| - 1] != '/'
    decreases |p|
  {
    if p != "" && p[0] == '/' then TrimSlashes(p[1..])
    else if p != "" && p[|p| - 1] == '/' then TrimSlashes(p[..|p| - 1])
    else p
  }

  /** Only slashes are taken away, and only at the ends. */
  lemma {:induction false} TrimsOnlySlashes(p: string) returns (i: nat, j: nat)
    ensures i <= j <= |p| && TrimSlashes(p) == p[i..j]
    ensures forall k :: 0 <= k < i || j <= k < |p| ==> p[k] == '/'
    decreases |p|
  {
    if p != "" && p[0] == '/' {
      var x, y := TrimsOnlySlashes(p[1..]);
      i, j := x + 1, y + 1;
      assert p == ['/'] + p[1..];
    } else if p != "" && p[|p| - 1] == '/' {
      i, j := TrimsOnlySlashes(p[..|p| - 1]);
      assert p == p[..|p| - 1] + ['/'];
    } else {
      i, j := 0, |p|;
    }
  }

  function TrimKey(k: PathKey): PathKey {
    if k.UserPath? then UserPath(TrimSlashes(k.path)) else k
  }

  // ── Transactions ───────────────────────────────────────────────────────────

  /** A fresh upload takes the path over; the previous file there becomes a version. */
  ghost function Push(t: Tables, user: User, path: string, data: seq<byte>, id: FileId,
                      now: Time, stored: nat, chunks: nat): Result<Tables, Error>
  {
    var prev := Occupant(t, user, UserPath(path));
    var t1 := Vacate(t, user, UserPath(path), now);
    if id in t.files then Err(Constraint)
    else
      var row := FileRow(user, UserPath(path), None, |data|, stored, chunks, now, None, None,
                         if prev.Some? then t.files[prev.value].lineage else id, Blake3(data), None);
      Ok(Tables(t1.files[id := row], t1.bodies[id := data]))
  }

  /** The early exit of an upload: the live file at the path already holds these bytes. */
  ghost predicate Unchanged(t: Tables, user: User, path: string, data: seq<byte>, id: FileId) {
    && Occupies(t, user, UserPath(path), id)
    && t.files[id].size == |data| && t.files[id].digest == Blake3(data)
  }

  function Trash(t: Tables, user: User, id: FileId, now: Time): Result<Tables, Error> {
    match GetFile(t, user, id)
    case None => Err(NotFound)
    case Some(row) =>
      if row.deleted.Some? then Ok(t)
      else if row.superseded.Some? then Err(NotFound)
      else Ok(SetRow(t, id, TrashedRow(id, row, now)))
  }

  /** The second statement of a trash call: stamp the row unless it is in the trash already,
      whatever else happened to it since the first one looked. */
  function StampTrashed(t: Tables, user: User, id: FileId, now: Time): Tables {
    if GetFile(t, user, id).Some? then SetRow(t, id, TrashedRow(id, t.files[id], now)) else t
  }

  ghost function Restore(t: Tables, user: User, id: FileId, newPath: Option<string>, now: Time): Result<Tables, Error> {
    match GetFile(t, user, id)
    case None => Err(NotFound)
    case Some(row) =>
      var target := TrimKey(if newPath.Some? then UserPath(newPath.value) else row.VisiblePath());
      if row.IsLive() || target == UserPath("") then Err(NotFound)
      else
        var t1 := Vacate(t, user, target, now);
        Ok(SetRow(t1, id, RestoredRow(row, target)))
  }

  /** Single-file rename; `UNIQUE (user, path)` rejects an occupied destination. */
  ghost function Rename(t: Tables, user: User, from: string, to: string): Result<Tables, Error> {
    var src, dst := UserPath(TrimSlashes(from)), UserPath(TrimSlashes(to));
    var o := Occupant(t, user, src);
    if src.path == "" || dst.path == "" || src == dst || o.None? then Err(NotFound)
    else if exists other :: other in t.files && t.files[other].user == user && t.files[other].path == dst then Err(Constraint)
    else Ok(SetRow(t, o.value, t.files[o.value].(path := dst)))
  }

  /** Delete a set of rows; their chunks and shards cascade. */
  function Drop(t: Tables, ids: set<FileId>): Tables {
    Tables(t.files - ids, t.bodies - ids)
  }

  function Purge(t: Tables, user: User, id: FileId): Result<Tables, Error> {
    if GetFile(t, user, id).None? then Err(NotFound) else Ok(Drop(t, {id}))
  }

  function Trashed(t: Tables, user: User): set<FileId> {
    set id | id in t.files && t.files[id].user == user && t.files[id].deleted.Some? && !t.files[id].IsPack()
  }

  // ── Packing ────────────────────────────────────────────────────────────────

  function MemberRow(row: FileRow, pack: FileId, range: Range): FileRow {
    row.(pack := Some(PackRef(pack, range.off, range.len)), chunkCount := 0, stored := 0)
  }

  /** The row is where the caller read it from and still the size it read. */
  predicate Assignable(t: Tables, user: User, from: Option<FileId>, e: PackEntry) {
    GetFile(t, user, e.id).Some? && t.files[e.id].PackId() == from && t.files[e.id].size == |e.data|
  }

  /** Point the first `k` entries at `pack`, checking each row inside the transaction.
      `from` is the container they must come from: none when packing self-contained
      files, whose own chunks are then dropped. */
  function AssignFirst(t: Tables, user: User, from: Option<FileId>, entries: seq<PackEntry>, ranges: seq<Range>,
                       pack: FileId, k: nat): Result<Tables, Error>
    requires k <= |entries| == |ranges|
    decreases k
  {
    if k == 0 then Ok(t)
    else
      match AssignFirst(t, user, from, entries, ranges, pack, k - 1)
      case Err(e) => Err(e)
      case Ok(t1) =>
        var e := entries[k - 1];
        if !Assignable(t1, user, from, e) then Err(Integrity)
        else Ok(Tables(t1.files[e.id := MemberRow(t1.files[e.id], pack, ranges[k - 1])],
                       if from.None? then t1.bodies - {e.id} else t1.bodies))
  }

  function PackPlain(entries: seq<PackEntry>): seq<byte> {
    Payload(entries) + Trailer(IndexOf(entries))
  }

  predicate Buildable(entries: seq<PackEntry>) {
    (forall i :: 0 <= i < |entries| ==> |entries[i].id| < U32) && |Index(IndexOf(entries))| < U32
  }

  function ContainerRow(user: User, id: FileId, plain: seq<byte>, now: Time, stored: nat, chunks: nat): FileRow {
    FileRow(user, PackKey(id), None, |plain|, stored, chunks, now, None, None, id, Blake3(plain), None)
  }

  function AddContainer(t: Tables, user: User, id: FileId, plain: seq<byte>, now: Time, stored: nat, chunks: nat)
    : Result<Tables, Error>
  {
    if id in t.files then Err(Constraint)
    else Ok(Tables(t.files[id := ContainerRow(user, id, plain, now, stored, chunks)], t.bodies[id := plain]))
  }

  function Pack(t: Tables, user: User, entries: seq<PackEntry>, id: FileId, now: Time, stored: nat, chunks: nat)
    : Result<Tables, Error>
  {
    if entries == [] || !Buildable(entries) then Err(Integrity)
    else
      match AssignFirst(t, user, None, entries, Ranges(entries), id, |entries|)
      case Err(e) => Err(e)
      case Ok(t1) => AddContainer(t1, user, id, PackPlain(entries), now, stored, chunks)
  }

  /** Every row still pointing at the container, whatever its state. */
  function Members(t: Tables, user: User, pack: FileId): set<FileId> {
    set id | id in t.files && t.files[id].user == user && t.files[id].PackId() == Some(pack)
  }

  function EntryIds(entries: seq<PackEntry>): set<FileId> {
    set i | 0 <= i < |entries| :: entries[i].id
  }

  function Compact(t: Tables, user: User, source: FileId, survivors: seq<PackEntry>, id: FileId,
                   now: Time, stored: nat, chunks: nat): Result<Tables, Error>
  {
    match GetFile(t, user, source)
    case None => Err(NotFound)
    case Some(container) =>
      if !container.IsPack() || !(Members(t, user, source) <= EntryIds(survivors)) then Err(Integrity)
      else if survivors == [] then Ok(Drop(t, {source}))
      else if !Buildable(survivors) then Err(Integrity)
      else
        match AssignFirst(t, user, Some(source), survivors, Ranges(survivors), id, |survivors|)
        case Err(e) => Err(e)
        case Ok(t1) =>
          match AddContainer(t1, user, id, PackPlain(survivors), now, stored, chunks)
          case Err(e) => Err(e)
          case Ok(t2) => Ok(Drop(t2, {source}))
  }

  /** What a successful pass over the first `k` entries did: they were distinct rows of
      the expected origin, each now points at its own range, and nothing else moved. */
  ghost predicate Assigned(t: Tables, t': Tables, user: User, from: Option<FileId>, entries: seq<PackEntry>,
                           ranges: seq<Range>, pack: FileId, k: nat)
    requires k <= |entries| == |ranges|
  {
    && t'.files.Keys == t.files.Keys
    && (forall i :: 0 <= i < k ==> Assignable(t, user, from, entries[i]))
    && (forall i :: 0 <= i < k ==> t'.files[entries[i].id] == MemberRow(t.files[entries[i].id], pack, ranges[i]))
    && (forall i, j :: 0 <= i < j < k ==> entries[i].id != entries[j].id)
    && (forall id :: id in t.files && id !in EntryIds(entries[..k]) ==> t'.files[id] == t.files[id])
    && t'.bodies == (if from.None? then t.bodies - EntryIds(entries[..k]) else t.bodies)
  }

  lemma EntryIdsStep(entries: seq<PackEntry>, k: nat)
    requires 0 < k <= |entries|
    ensures EntryIds(entries[..k]) == EntryIds(entries[..k - 1]) + {entries[k - 1].id}
    ensures forall i :: 0 <= i < k - 1 ==> entries[i].id in EntryIds(entries[..k - 1])
  {
    forall i | 0 <= i < k - 1 ensures entries[i].id in EntryIds(entries[..k - 1]) {
      assert entries[..k - 1][i] == entries[i];
    }
    forall id | id in EntryIds(entries[..k]) ensures id in EntryIds(entries[..k - 1]) + {entries[k - 1].id} {
      var i :| 0 <= i < k && entries[..k][i].id == id;
      assert entries[..k][i] == entries[i];
    }
    assert entries[..k][k - 1] == entries[k - 1];
    forall id | id in EntryIds(entries[..k - 1]) ensures id in EntryIds(entries[..k]) {
      var i :| 0 <= i < k - 1 && entries[..k - 1][i].id == id;
      assert entries[..k][i] == entries[..k - 1][i];
    }
  }

  lemma AssignedIds(t: Tables, t': Tables, user: User, from: Option<FileId>, entries: seq<PackEntry>,
                    ranges: seq<Range>, pack: FileId, k: nat)
    requires k <= |entries| == |ranges| && Assigned(t, t', user, from, entries, ranges, pack, k)
    ensures forall id :: id in EntryIds(entries[..k]) ==> id in t'.files && t'.files[id].PackId() == Some(pack)
  {
    forall id | id in EntryIds(entries[..k]) ensures id in t'.files && t'.files[id].PackId() == Some(pack) {
      var i :| 0 <= i < k && entries[..k][i].id == id;
      assert entries[i].id == id && Assignable(t, user, from, entries[i]);
    }
  }

  lemma EntriesStayDistinct(entries: seq<PackEntry>, k: nat)
    requires k < |entries| && entries[k].id !in EntryIds(entries[..k])
    ensures forall i :: 0 <= i < k ==> entries[i].id != entries[k].id
  {
    EntryIdsStep(entries, k + 1);
  }

  lemma AssignedRows(t: Tables, t1: Tables, t2: Tables, user: User, from: Option<FileId>, entries: seq<PackEntry>,
                     ranges: seq<Range>, pack: FileId, k: nat, i: nat)
    requires i <= k < |entries| == |ranges|
    requires Assigned(t, t1, user, from, entries, ranges, pack, k)
    requires entries[k].id !in EntryIds(entries[..k]) && Assignable(t1, user, from, entries[k])
    requires i < k ==> entries[i].id != entries[k].id
    requires t2.files == t1.files[entries[k].id := MemberRow(t1.files[entries[k].id], pack, ranges[k])]
    ensures Assignable(t, user, from, entries[i]) && t2.files[entries[i].id] == MemberRow(t.files[entries[i].id], pack, ranges[i])
  {
  }

  lemma AssignedStep(t: Tables, t1: Tables, t2: Tables, user: User, from: Option<FileId>, entries: seq<PackEntry>,
                     ranges: seq<Range>, pack: FileId, k: nat)
    requires k < |entries| == |ranges|
    requires Assigned(t, t1, user, from, entries, ranges, pack, k)
    requires entries[k].id !in EntryIds(entries[..k]) && Assignable(t1, user, from, entries[k])
    requires t2.files == t1.files[entries[k].id := MemberRow(t1.files[entries[k].id], pack, ranges[k])]
    requires t2.bodies == if from.None? then t1.bodies - {entries[k].id} else t1.bodies
    ensures Assigned(t, t2, user, from, entries, ranges, pack, k + 1)
  {
    EntriesStayDistinct(entries, k);
    forall i | 0 <= i < k + 1
      ensures Assignable(t, user, from, entries[i]) && t2.files[entries[i].id] == MemberRow(t.files[entries[i].id], pack, ranges[i])
    {
      AssignedRows(t, t1, t2, user, from, entries, ranges, pack, k, i);
    }
    EntryIdsStep(entries, k + 1);
    RemoveTwice(t.bodies, EntryIds(entries[..k]), entries[k].id);
    assert EntryIds(entries[..k + 1]) == EntryIds(entries[..k]) + {entries[k].id};
  }

  lemma RemoveTwice<K, V>(m: map<K, V>, s: set<K>, k: K)
    ensures (m - s) - {k} == m - (s + {k})
  {
  }

  /** A row this transaction already assigned no longer passes the check. */
  lemma NotYetAssigned(t: Tables, t1: Tables, user: User, from: Option<FileId>, entries: seq<PackEntry>,
                       ranges: seq<Range>, pack: FileId, k: nat)
    requires k < |entries| == |ranges| && from != Some(pack)
    requires Assigned(t, t1, user, from, entries, ranges, pack, k) && Assignable(t1, user, from, entries[k])
    ensures entries[k].id !in EntryIds(entries[..k])
  {
    AssignedIds(t, t1, user, from, entries, ranges, pack, k);
  }

  lemma AssignFirstUnfolds(t: Tables, t2: Tables, user: User, from: Option<FileId>, entries: seq<PackEntry>,
                           ranges: seq<Range>, pack: FileId, k: nat) returns (t1: Tables)
    requires k < |entries| == |ranges| && AssignFirst(t, user, from, entries, ranges, pack, k + 1) == Ok(t2)
    ensures AssignFirst(t, user, from, entries, ranges, pack, k) == Ok(t1) && Assignable(t1, user, from, entries[k])
    ensures t2.files == t1.files[entries[k].id := MemberRow(t1.files[entries[k].id], pack, ranges[k])]
    ensures t2.bodies == if from.None? then t1.bodies - {entries[k].id} else t1.bodies
  {
    t1 := AssignFirst(t, user, from, entries, ranges, pack, k).value;
  }

  lemma {:induction false} AssignFirstEffect(t: Tables, user: User, from: Option<FileId>, entries: seq<PackEntry>,
                                            ranges: seq<Range>, pack: FileId, k: nat)
    requires k <= |entries| == |ranges| && from != Some(pack)
    requires AssignFirst(t, user, from, entries, ranges, pack, k).Ok?
    ensures Assigned(t, AssignFirst(t, user, from, entries, ranges, pack, k).value, user, from, entries, ranges, pack, k)
  {
    if k > 0 {
      var t2 := AssignFirst(t, user, from, entries, ranges, pack, k).value;
      var t1 := AssignFirstUnfolds(t, t2, user, from, entries, ranges, pack, k - 1);
      AssignFirstEffect(t, user, from, entries, ranges, pack, k - 1);
      NotYetAssigned(t, t1, user, from, entries, ranges, pack, k - 1);
      AssignedStep(t, t1, t2, user, from, entries, ranges, pack, k - 1);
    }
  }
}
