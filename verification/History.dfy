/**
  Version histories (service.rs `push`, `restore`, `purge_retired`): which row belongs to
  which lineage, for how long a lineage keeps its old versions, and what trash and restore
  undo of each other.
 */
module History {
  import opened Wrappers
  import opened Bytes
  import opened PackFormat
  import opened Manifest
  import opened Lifecycle
  import opened SplitCalls
  import opened Retention

  // ── What no command changes ────────────────────────────────────────────────

  /** What a row is about, wherever it is listed and wherever its bytes lie. */
  ghost predicate SameFile(a: FileRow, b: FileRow) {
    a.user == b.user && a.size == b.size && a.created == b.created && a.lineage == b.lineage && a.digest == b.digest
  }

  lemma VacateKeepsFiles(t: Tables, user: User, key: PathKey, now: Time, id: FileId)
    requires id in t.files
    ensures id in Vacate(t, user, key, now).files && SameFile(Vacate(t, user, key, now).files[id], t.files[id])
    ensures Vacate(t, user, key, now).files[id] != t.files[id] ==> Occupant(t, user, key) == Some(id)
  {
  }

  lemma {:induction false} AssignKeepsFiles(t: Tables, user: User, from: Option<FileId>, entries: seq<PackEntry>, ranges: seq<Range>,
                                           pack: FileId, k: nat, id: FileId)
    requires k <= |entries| == |ranges| && AssignFirst(t, user, from, entries, ranges, pack, k).Ok?
    ensures var t' := AssignFirst(t, user, from, entries, ranges, pack, k).value;
      t'.files.Keys == t.files.Keys && (id in t.files ==> SameFile(t'.files[id], t.files[id]) && SameStamps(t'.files[id], t.files[id]))
  {
    if k > 0 {
      AssignKeepsFiles(t, user, from, entries, ranges, pack, k - 1, id);
    }
  }

  ghost predicate SameStamps(a: FileRow, b: FileRow) {
    a.deleted == b.deleted && a.superseded == b.superseded
  }

  /** The path a restore brings its row back to. */
  function Target(row: FileRow, newPath: Option<string>): PathKey {
    TrimKey(if newPath.Some? then UserPath(newPath.value) else row.VisiblePath())
  }

  lemma PackingKeepsFiles(w: World, c: Command, id: FileId)
    requires Enabled(w, c) && (c.PackUp? || c.Repack?) && id in w.t.files && id in Next(w, c).t.files
    ensures SameFile(Next(w, c).t.files[id], w.t.files[id]) && SameStamps(Next(w, c).t.files[id], w.t.files[id])
  {
    if c.PackUp? {
      if Pack(w.t, c.user, c.entries, c.id, c.now, c.stored, c.chunks).Ok? {
        AssignKeepsFiles(w.t, c.user, None, c.entries, Ranges(c.entries), c.id, |c.entries|, id);
      }
    } else if c.entries != [] && Compact(w.t, c.user, c.source, c.entries, c.id, c.now, c.stored, c.chunks).Ok? {
      AssignKeepsFiles(w.t, c.user, Some(c.source), c.entries, Ranges(c.entries), c.id, |c.entries|, id);
    }
  }

  /** No command changes whose a row is, its size and digest, its time of creation or its
      lineage. */
  lemma StepKeepsFile(w: World, c: Command, id: FileId)
    requires Enabled(w, c) && id in w.t.files && id in Next(w, c).t.files
    ensures SameFile(Next(w, c).t.files[id], w.t.files[id])
  {
    if c.PackUp? || c.Repack? {
      PackingKeepsFiles(w, c, id);
    } else if c.Upload? {
      VacateKeepsFiles(w.t, c.user, UserPath(c.path), c.now, id);
    } else if c.BringBack? {
      RestoreKeepsFiles(w.t, c.user, c.id, c.newPath, c.now, id);
    }
  }

  lemma RestoreKeepsFiles(t: Tables, user: User, b: FileId, newPath: Option<string>, now: Time, id: FileId)
    requires id in t.files
    ensures var r := Restore(t, user, b, newPath, now); r.Ok? ==> id in r.value.files && SameFile(r.value.files[id], t.files[id])
  {
    if Restore(t, user, b, newPath, now).Ok? {
      VacateKeepsFiles(t, user, Target(t.files[b], newPath), now, id);
    }
  }

  // ── One user's commands and another's files ────────────────────────────────

  /** Who gave the command; nobody in particular for the sweep and for reads. */
  function Giver(c: Command): Option<User> {
    match c
    case Upload(user, _, _, _, _, _, _) => Some(user)
    case MoveToTrash(user, _, _) => Some(user)
    case StampLate(user, _, _) => Some(user)
    case BringBack(user, _, _, _) => Some(user)
    case MoveFile(user, _, _) => Some(user)
    case Destroy(user, _) => Some(user)
    case EmptyTrash(user) => Some(user)
    case PackUp(user, _, _, _, _, _) => Some(user)
    case Repack(user, _, _, _, _, _, _) => Some(user)
    case _ => None
  }

  ghost predicate Spared(t: Tables, n: Tables, id: FileId) {
    id in t.files ==> id in n.files && n.files[id] == t.files[id] && Body(n, id) == Body(t, id)
  }

  lemma {:induction false} AssignSpares(t: Tables, user: User, from: Option<FileId>, entries: seq<PackEntry>, ranges: seq<Range>,
                                       pack: FileId, k: nat, id: FileId)
    requires k <= |entries| == |ranges| && AssignFirst(t, user, from, entries, ranges, pack, k).Ok?
    requires id in t.files && t.files[id].user != user
    ensures Body(AssignFirst(t, user, from, entries, ranges, pack, k).value, id) == Body(t, id)
    ensures id in AssignFirst(t, user, from, entries, ranges, pack, k).value.files
    ensures AssignFirst(t, user, from, entries, ranges, pack, k).value.files[id] == t.files[id]
  {
    if k > 0 {
      AssignSpares(t, user, from, entries, ranges, pack, k - 1, id);
    }
  }

  lemma PackSpares(t: Tables, user: User, entries: seq<PackEntry>, nid: FileId, now: Time, stored: nat, chunks: nat, id: FileId)
    requires Pack(t, user, entries, nid, now, stored, chunks).Ok? && id in t.files && t.files[id].user != user
    ensures Spared(t, Pack(t, user, entries, nid, now, stored, chunks).value, id)
  {
    AssignSpares(t, user, None, entries, Ranges(entries), nid, |entries|, id);
  }

  lemma CompactSpares(t: Tables, user: User, source: FileId, entries: seq<PackEntry>, nid: FileId, now: Time, stored: nat, chunks: nat,
                      id: FileId)
    requires Compact(t, user, source, entries, nid, now, stored, chunks).Ok? && id in t.files && t.files[id].user != user
    ensures Spared(t, Compact(t, user, source, entries, nid, now, stored, chunks).value, id)
  {
    if entries != [] {
      AssignSpares(t, user, Some(source), entries, Ranges(entries), nid, |entries|, id);
    }
  }

  lemma PackingSpares(w: World, c: Command, id: FileId)
    requires Enabled(w, c) && (c.PackUp? || c.Repack?) && id in w.t.files && w.t.files[id].user != c.user
    ensures Spared(w.t, Next(w, c).t, id)
  {
    if c.PackUp? {
      if Pack(w.t, c.user, c.entries, c.id, c.now, c.stored, c.chunks).Ok? {
        PackSpares(w.t, c.user, c.entries, c.id, c.now, c.stored, c.chunks, id);
      }
    } else if Compact(w.t, c.user, c.source, c.entries, c.id, c.now, c.stored, c.chunks).Ok? {
      CompactSpares(w.t, c.user, c.source, c.entries, c.id, c.now, c.stored, c.chunks, id);
    }
  }

  lemma VacateSpares(t: Tables, user: User, key: PathKey, now: Time, id: FileId)
    requires id in t.files && t.files[id].user != user
    ensures Spared(t, Vacate(t, user, key, now), id)
  {
  }

  /** No command of one user touches a row or the bytes of another. */
  lemma OthersUntouched(w: World, c: Command, id: FileId)
    requires Enabled(w, c) && id in w.t.files && Giver(c).Some? && w.t.files[id].user != Giver(c).value
    ensures Spared(w.t, Next(w, c).t, id)
  {
    match c
    case Upload(user, path, _, _, now, _, _) => VacateSpares(w.t, user, UserPath(path), now, id);
    case BringBack(user, b, newPath, now) =>
      if Restore(w.t, user, b, newPath, now).Ok? {
        VacateSpares(w.t, user, Target(w.t.files[b], newPath), now, id);
      }
    case PackUp(_, _, _, _, _, _) => PackingSpares(w, c, id);
    case Repack(_, _, _, _, _, _, _) => PackingSpares(w, c, id);
    case _ =>
  }

  /** Whoever loses a row: purging it, emptying the trash it is in, a sweep it is due for, or
      the compaction of a container.  No other command removes anything. */
  ghost predicate MayLose(w: World, c: Command, id: FileId)
    requires id in w.t.files
  {
    var row := w.t.files[id];
    match c
    case Destroy(user, b) => b == id && row.user == user
    case EmptyTrash(user) => row.user == user && row.deleted.Some?
    case RunSweep(policy, now) => id in Expired(w.t, policy, now)
    case Repack(user, source, _, _, _, _, _) => source == id && row.user == user && row.VisiblePath().PackKey?
    case _ => false
  }

  lemma StepLoses(w: World, c: Command, id: FileId)
    requires Enabled(w, c) && id in w.t.files && id !in Next(w, c).t.files
    ensures MayLose(w, c, id)
  {
    match c
    case Upload(user, path, _, _, now, _, _) => VacateKeys(w.t, user, UserPath(path), now);
    case BringBack(user, b, newPath, now) =>
      if Restore(w.t, user, b, newPath, now).Ok? {
        VacateKeys(w.t, user, Target(w.t.files[b], newPath), now);
      }
    case PackUp(user, entries, nid, now, stored, chunks) =>
      if Pack(w.t, user, entries, nid, now, stored, chunks).Ok? {
        AssignKeepsFiles(w.t, user, None, entries, Ranges(entries), nid, |entries|, id);
      }
    case Repack(user, source, entries, nid, now, stored, chunks) =>
      if entries != [] && Compact(w.t, user, source, entries, nid, now, stored, chunks).Ok? {
        AssignKeepsFiles(w.t, user, Some(source), entries, Ranges(entries), nid, |entries|, id);
      }
    case _ =>
  }

  // ── Lineages ───────────────────────────────────────────────────────────────

  /** A lineage is named after the first file of its history. */
  ghost predicate LineagesMinted(w: World) {
    forall id :: id in w.t.files ==> w.t.files[id].lineage in w.uploaded
  }

  lemma NewRowsLineage(w: World, c: Command, id: FileId)
    requires Enabled(w, c) && LineagesMinted(w) && id in Next(w, c).t.files && id !in w.t.files
    ensures Next(w, c).t.files[id].lineage in Next(w, c).uploaded
  {
    match c
    case Upload(user, path, data, nid, now, stored, chunks) =>
      VacateKeys(w.t, user, UserPath(path), now);
    case BringBack(user, b, newPath, now) =>
      if Restore(w.t, user, b, newPath, now).Ok? {
        VacateKeys(w.t, user, Target(w.t.files[b], newPath), now);
      }
    case PackUp(user, entries, nid, now, stored, chunks) =>
      if Pack(w.t, user, entries, nid, now, stored, chunks).Ok? {
        AssignKeepsFiles(w.t, user, None, entries, Ranges(entries), nid, |entries|, id);
      }
    case Repack(user, source, entries, nid, now, stored, chunks) =>
      if entries != [] && Compact(w.t, user, source, entries, nid, now, stored, chunks).Ok? {
        AssignKeepsFiles(w.t, user, Some(source), entries, Ranges(entries), nid, |entries|, id);
      }
    case _ =>
  }

  lemma UploadedGrows(w: World, c: Command, id: FileId)
    requires Enabled(w, c) && id in w.uploaded
    ensures id in Next(w, c).uploaded
  {
  }

  lemma StepKeepsMinted(w: World, c: Command)
    requires Enabled(w, c) && LineagesMinted(w)
    ensures LineagesMinted(Next(w, c))
  {
    forall id | id in Next(w, c).t.files ensures Next(w, c).t.files[id].lineage in Next(w, c).uploaded {
      if id in w.t.files {
        StepKeepsFile(w, c, id);
        UploadedGrows(w, c, w.t.files[id].lineage);
      } else {
        NewRowsLineage(w, c, id);
      }
    }
  }

  /** The upload `id` is current at its path.  The file it replaced is a version of the same
      history, and no stray; where it replaced none, it begins a history of its own. */
  ghost predicate Continues(before: Tables, after: Tables, user: User, path: string, id: FileId, now: Time) {
    && Occupies(after, user, UserPath(path), id) && after.files[id].created == now
    && (forall prev :: Occupant(before, user, UserPath(path)) == Some(prev) ==>
          && prev in after.files && after.files[prev].superseded == Some(now)
          && after.files[prev].VisiblePath() == before.files[prev].VisiblePath()
          && SameLineage(after, prev, id) && prev !in Orphans(after))
    && (Occupant(before, user, UserPath(path)).None? ==>
          forall b :: b in after.files && b != id ==> after.files[b].lineage != after.files[id].lineage)
  }

  lemma UploadContinues(w: World, user: User, path: string, data: seq<byte>, id: FileId, now: Time, stored: nat, chunks: nat)
    requires LineagesMinted(w) && id !in w.uploaded && id !in w.t.files
    ensures Continues(w.t, Next(w, Upload(user, path, data, id, now, stored, chunks)).t, user, path, id, now)
  {
    var n := Next(w, Upload(user, path, data, id, now, stored, chunks)).t;
    var prev := Occupant(w.t, user, UserPath(path));
    if prev.Some? {
      assert SameLineage(n, id, prev.value) && n.files[id].superseded.None?;
    } else {
      forall b | b in n.files && b != id ensures n.files[b].lineage != n.files[id].lineage {
        assert w.t.files[b].lineage in w.uploaded;
      }
    }
  }

  // ── How long a history is kept ─────────────────────────────────────────────

  /** `l` is current or in the trash and holds this history together. */
  ghost predicate AnchorRow(t: Tables, l: FileId, user: User, lineage: FileId) {
    l in t.files && t.files[l].user == user && t.files[l].lineage == lineage && t.files[l].superseded.None?
  }

  ghost predicate Anchors(t: Tables, user: User, lineage: FileId) {
    exists l :: AnchorRow(t, l, user, lineage)
  }

  /** The command takes such a row away: for good, or by restoring a file of another history
      over it. */
  ghost predicate Unanchors(w: World, c: Command, user: User, lineage: FileId)
    requires Enabled(w, c)
  {
    exists l :: AnchorRow(w.t, l, user, lineage) &&
      (l !in Next(w, c).t.files
       || (c.BringBack? && c.id in w.t.files && Next(w, c).t.files[l].superseded.Some? && !SameLineage(w.t, l, c.id)))
  }

  /** A row is superseded by an upload to its path or a restore to it, and the newcomer is
      not. */
  lemma SupersededBy(w: World, c: Command, l: FileId)
    requires Enabled(w, c) && l in w.t.files && w.t.files[l].superseded.None?
    requires l in Next(w, c).t.files && Next(w, c).t.files[l].superseded.Some?
    ensures (c.Upload? && c.id in Next(w, c).t.files && c.id !in w.t.files) || (c.BringBack? && c.id in w.t.files)
    ensures c.id in Next(w, c).t.files && Next(w, c).t.files[c.id].superseded.None?
    ensures c.Upload? ==> SameLineage(Next(w, c).t, c.id, l)
  {
    match c
    case Upload(user, path, _, _, now, _, _) => VacateKeepsFiles(w.t, user, UserPath(path), now, l);
    case BringBack(user, b, newPath, now) =>
      if Restore(w.t, user, b, newPath, now).Ok? {
        VacateKeepsFiles(w.t, user, Target(w.t.files[b], newPath), now, l);
      }
    case PackUp(_, _, _, _, _, _) => PackingKeepsFiles(w, c, l);
    case Repack(_, _, _, _, _, _, _) => PackingKeepsFiles(w, c, l);
    case _ =>
  }

  lemma AnchorStep(w: World, c: Command, user: User, lineage: FileId)
    requires Enabled(w, c) && Anchors(w.t, user, lineage) && !Unanchors(w, c, user, lineage)
    ensures Anchors(Next(w, c).t, user, lineage)
  {
    var l :| AnchorRow(w.t, l, user, lineage);
    var n := Next(w, c).t;
    assert l in n.files;
    StepKeepsFile(w, c, l);
    if n.files[l].superseded.None? {
      assert AnchorRow(n, l, user, lineage);
    } else {
      SupersededBy(w, c, l);
      if c.BringBack? {
        StepKeepsFile(w, c, c.id);
      }
      assert AnchorRow(n, c.id, user, lineage);
    }
  }

  /** Over every run: as long as no command takes its last current or trashed row away, no
      version of a history is an orphan, so a sweep takes it for age or number only. */
  lemma {:induction false} HistoryKept(ws: seq<World>, cs: seq<Command>, m: nat, n: nat, user: User, lineage: FileId)
    requires Trace(ws, cs) && m <= n <= |cs| && Anchors(ws[m].t, user, lineage)
    requires forall k :: m <= k < n ==> !Unanchors(ws[k], cs[k], user, lineage)
    ensures Anchors(ws[n].t, user, lineage)
    ensures Versions(ws[n].t, user, lineage) !! Orphans(ws[n].t)
    decreases n - m
  {
    if m < n {
      AnchorStep(ws[m], cs[m], user, lineage);
      HistoryKept(ws, cs, m + 1, n, user, lineage);
    } else {
      var l :| AnchorRow(ws[n].t, l, user, lineage);
      forall v | v in Versions(ws[n].t, user, lineage) ensures v !in Orphans(ws[n].t) {
        assert SameLineage(ws[n].t, l, v);
      }
    }
  }

  // ── Restoring over a file ──────────────────────────────────────────────────

  /** A restore to an occupied path hands the occupant to the next sweep, whatever its age,
      exactly when the two are of different histories and nothing else of the occupant's is
      current or in the trash. */
  lemma RestoreOrphansIff(t: Tables, user: User, id: FileId, newPath: Option<string>, now: Time, prev: FileId)
    requires Restore(t, user, id, newPath, now).Ok? && Occupant(t, user, Target(t.files[id], newPath)) == Some(prev)
    ensures prev in Orphans(Restore(t, user, id, newPath, now).value) <==>
      !SameLineage(t, prev, id) && forall l :: AnchorRow(t, l, user, t.files[prev].lineage) ==> l == prev
  {
    var n := Restore(t, user, id, newPath, now).value;
    assert prev != id && n.files[prev].superseded == Some(now) && n.files[id].superseded.None?;
    if SameLineage(t, prev, id) {
      assert SameLineage(n, id, prev);
    } else if l :| AnchorRow(t, l, user, t.files[prev].lineage) && l != prev {
      assert SameLineage(n, l, prev) && n.files[l].superseded.None?;
    } else if Anchored(n, prev) {
      var l :| l in n.files && SameLineage(n, l, prev) && n.files[l].superseded.None?;
      assert AnchorRow(t, l, user, t.files[prev].lineage);
    }
  }

  /** A file has been trashed and another uploaded to the path it left. */
  lemma TrashedAndReplaced(user: User, path: string, first: seq<byte>, second: seq<byte>, a: FileId, b: FileId, x: Cost, y: Cost)
    returns (w: World)
    requires a != b
    ensures Reached(w) && w.packs == {} && w.t.files.Keys == {a, b} && Occupies(w.t, user, UserPath(path), b)
    ensures w.t.files[b].lineage == b && w.t.files[a].lineage == a && w.t.files[a].user == user
    ensures w.t.files[a].deleted.Some? && w.t.files[a].VisiblePath() == UserPath(path)
    ensures b in w.uploaded && w.uploaded[b] == second
  {
    var w1 := FirstUpload(user, path, first, a, x);
    var trash := MoveToTrash(user, a, 2);
    ReachedNext(w1, trash);
    var w2 := Next(w1, trash);
    assert w2.t.files[a] == TrashedRow(a, w1.t.files[a], 2);
    assert w2.t.files.Keys == {a} && Occupant(w2.t, user, UserPath(path)).None?;
    w := UploadAndRead(w2, user, path, second, b, 3, y);
  }

  /** `b` is the current file at its path, and restoring `a` there dooms it under any policy. */
  ghost predicate RestoreDooms(w: World, user: User, path: string, a: FileId, b: FileId, now: Time) {
    && Occupies(w.t, user, UserPath(path), b) && Enabled(w, BringBack(user, a, None, now))
    && var n := Next(w, BringBack(user, a, None, now)).t;
       Occupies(n, user, UserPath(path), a) && b in n.files && forall policy, later :: b !in Sweep(n, policy, later).files
  }

  /** It happens: a file is trashed, another is uploaded to the path it left, and the first
      is restored there.  Under any policy the next sweep destroys the second. */
  lemma RestoreCostsOccupant(user: User, path: string, first: seq<byte>, second: seq<byte>, a: FileId, b: FileId, x: Cost, y: Cost)
    requires a != b && TrimSlashes(path) == path && path != ""
    ensures exists w :: Reached(w) && Pull(w.t, user, b) == Ok(second) && RestoreDooms(w, user, path, a, b, 4)
  {
    var w := TrashedAndReplaced(user, path, first, second, a, b, x, y);
    ReachedIsConsistent(w);
    ReadsBack(w.t, w.uploaded, w.packs, b);
    assert Occupant(w.t, user, UserPath(path)) == Some(b);
    RestoreOrphansIff(w.t, user, a, None, 4, b);
    assert RestoreDooms(w, user, path, a, b, 4);
  }

  // ── Renaming ───────────────────────────────────────────────────────────────

  /** Renaming a file and renaming it back leaves everything as it was. */
  lemma RenameThenBack(t: Tables, user: User, from: string, to: string)
    requires UniquePaths(t) && Rename(t, user, from, to).Ok?
    ensures var t1 := Rename(t, user, from, to).value;
      && (forall o :: Occupies(t, user, UserPath(TrimSlashes(from)), o) ==> Occupies(t1, user, UserPath(TrimSlashes(to)), o))
      && Rename(t1, user, to, from) == Ok(t)
  {
    var t1 := Rename(t, user, from, to).value;
    var o := Occupant(t, user, UserPath(TrimSlashes(from))).value;
    assert Occupies(t1, user, UserPath(TrimSlashes(to)), o);
    forall b | Occupies(t1, user, UserPath(TrimSlashes(to)), b) ensures b == o {
    }
    assert t1.files[o := t.files[o]] == t.files;
  }

  // ── Trash and restore ──────────────────────────────────────────────────────

  /** Trashing a live file and restoring it with nothing in between puts everything back
      exactly when its path neither begins nor ends with a slash. */
  lemma TrashThenRestoreIff(t: Tables, user: User, id: FileId, path: string, now: Time, later: Time)
    requires UniquePaths(t) && id in t.files && t.files[id].user == user && t.files[id].IsLive()
    requires t.files[id].path == UserPath(path) && t.files[id].retiredPath.None?
    ensures Trash(t, user, id, now).Ok?
    ensures var t1 := Trash(t, user, id, now).value;
      && t1.files[id].deleted == Some(now) && !Occupies(t1, user, UserPath(path), id)
      && (Restore(t1, user, id, None, later) == Ok(t) <==> TrimSlashes(path) == path && path != "")
  {
    var t1 := Trash(t, user, id, now).value;
    if TrimSlashes(path) == path && path != "" {
      assert Occupant(t1, user, UserPath(path)).None?;
      assert RestoredRow(t1.files[id], UserPath(path)) == t.files[id];
      assert t1.files[id := t.files[id]] == t.files;
    } else if Restore(t1, user, id, None, later).Ok? {
      assert Restore(t1, user, id, None, later).value.files[id].path == TrimKey(UserPath(path));
    }
  }

  lemma OneOccupant(w: World, user: User, path: string, data: seq<byte>, prev: FileId, id: FileId, now: Time, cost: Cost)
    requires UniquePaths(w.t) && id !in w.uploaded && id !in w.t.files && Occupant(w.t, user, UserPath(path)) == Some(prev)
    ensures Occupant(Next(w, Upload(user, path, data, id, now, cost.stored, cost.chunks)).t, user, UserPath(path)) == Some(id)
  {
    var t := Next(w, Upload(user, path, data, id, now, cost.stored, cost.chunks)).t;
    assert Occupies(t, user, UserPath(path), id);
    forall o | Occupies(t, user, UserPath(path), o) ensures o == id {
    }
  }

  /** Restoring an overwritten version makes it current again as it was and the newer one a
      version of the same history in its turn. */
  lemma OverwriteThenRestore(w: World, user: User, path: string, data: seq<byte>, prev: FileId, id: FileId, now: Time, later: Time, cost: Cost)
    requires UniquePaths(w.t) && id !in w.uploaded && id !in w.t.files && Occupant(w.t, user, UserPath(path)) == Some(prev)
    requires ShapeOk(w.t.files[prev], prev, false) && TrimSlashes(path) == path && path != ""
    ensures var t := Next(w, Upload(user, path, data, id, now, cost.stored, cost.chunks)).t;
      var r := Restore(t, user, prev, None, later);
      && r.Ok? && r.value.files[prev] == w.t.files[prev] && r.value.bodies == t.bodies
      && r.value.files[id] == SupersededRow(id, t.files[id], later) && SameLineage(r.value, prev, id)
  {
    var t := Next(w, Upload(user, path, data, id, now, cost.stored, cost.chunks)).t;
    OneOccupant(w, user, path, data, prev, id, now, cost);
  }
}
