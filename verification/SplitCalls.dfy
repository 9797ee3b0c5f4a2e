/**
  Where a service call is two statements (service.rs `trash`, `pull_plan`): what other
  calls in between can do to it.
 */
module SplitCalls {
  import opened Wrappers
  import opened Bytes
  import opened PackFormat
  import opened Manifest
  import opened Lifecycle

  ghost predicate BothStamps(t: Tables, id: FileId) {
    id in t.files && t.files[id].deleted.Some? && t.files[id].superseded.Some?
  }

  /** The second statement of a trash call reaches a row that has been superseded since
      the first one found it live. */
  ghost predicate Strikes(w: World, c: Command, id: FileId) {
    && c.StampLate? && c.id == id && GetFile(w.t, c.user, id).Some?
    && w.t.files[id].deleted.None? && w.t.files[id].superseded.Some?
  }

  ghost predicate Restores(w: World, c: Command, id: FileId) {
    c.BringBack? && c.id == id && Restore(w.t, c.user, id, c.newPath, c.now).Ok?
  }

  lemma VacateStamps(t: Tables, user: User, key: PathKey, now: Time, id: FileId)
    requires id in t.files
    ensures id in Vacate(t, user, key, now).files && (BothStamps(Vacate(t, user, key, now), id) <==> BothStamps(t, id))
  {
  }

  lemma {:induction false} PackStamps(t: Tables, user: User, from: Option<FileId>, entries: seq<PackEntry>, pack: FileId, k: nat, id: FileId)
    requires k <= |entries| && AssignFirst(t, user, from, entries, Ranges(entries), pack, k).Ok?
    ensures var t' := AssignFirst(t, user, from, entries, Ranges(entries), pack, k).value;
      t'.files.Keys == t.files.Keys && (BothStamps(t', id) <==> BothStamps(t, id))
  {
    if k > 0 {
      PackStamps(t, user, from, entries, pack, k - 1, id);
    }
  }

  lemma UploadStamps(t: Tables, user: User, path: string, data: seq<byte>, nid: FileId, now: Time, stored: nat, chunks: nat, id: FileId)
    requires id in t.files && Push(t, user, path, data, nid, now, stored, chunks).Ok?
    ensures BothStamps(Push(t, user, path, data, nid, now, stored, chunks).value, id) <==> BothStamps(t, id)
  {
    VacateStamps(t, user, UserPath(path), now, id);
  }

  lemma RestoreStamps(t: Tables, user: User, b: FileId, newPath: Option<string>, now: Time, id: FileId)
    requires id in t.files && Restore(t, user, b, newPath, now).Ok?
    ensures BothStamps(Restore(t, user, b, newPath, now).value, id) <==> BothStamps(t, id) && b != id
  {
    VacateStamps(t, user, TrimKey(if newPath.Some? then UserPath(newPath.value) else t.files[b].VisiblePath()), now, id);
  }

  lemma ListingStamps(w: World, c: Command, id: FileId)
    requires Enabled(w, c) && id in w.t.files && id in Next(w, c).t.files
    requires c.Upload? || c.MoveToTrash? || c.StampLate? || c.BringBack? || c.MoveFile?
    ensures BothStamps(Next(w, c).t, id) <==> Strikes(w, c, id) || (BothStamps(w.t, id) && !Restores(w, c, id))
  {
    match c
    case Upload(user, path, data, nid, now, stored, chunks) =>
      if Push(w.t, user, path, data, nid, now, stored, chunks).Ok? {
        UploadStamps(w.t, user, path, data, nid, now, stored, chunks, id);
      }
    case BringBack(user, b, newPath, now) =>
      if Restore(w.t, user, b, newPath, now).Ok? {
        RestoreStamps(w.t, user, b, newPath, now, id);
      }
    case _ =>
  }

  lemma PackUpStamps(t: Tables, user: User, entries: seq<PackEntry>, nid: FileId, now: Time, stored: nat, chunks: nat, id: FileId)
    requires Pack(t, user, entries, nid, now, stored, chunks).Ok? && id in t.files
    ensures BothStamps(Pack(t, user, entries, nid, now, stored, chunks).value, id) <==> BothStamps(t, id)
  {
    PackStamps(t, user, None, entries, nid, |entries|, id);
  }

  lemma CompactStamps(t: Tables, user: User, source: FileId, entries: seq<PackEntry>, nid: FileId, now: Time, stored: nat, chunks: nat, id: FileId)
    requires Compact(t, user, source, entries, nid, now, stored, chunks).Ok? && id in t.files
    requires id in Compact(t, user, source, entries, nid, now, stored, chunks).value.files
    ensures BothStamps(Compact(t, user, source, entries, nid, now, stored, chunks).value, id) <==> BothStamps(t, id)
  {
    if entries != [] {
      PackStamps(t, user, Some(source), entries, nid, |entries|, id);
    }
  }

  lemma PackingStamps(w: World, c: Command, id: FileId)
    requires Enabled(w, c) && id in w.t.files && id in Next(w, c).t.files && (c.PackUp? || c.Repack?)
    ensures BothStamps(Next(w, c).t, id) <==> BothStamps(w.t, id)
  {
    if c.PackUp? {
      if Pack(w.t, c.user, c.entries, c.id, c.now, c.stored, c.chunks).Ok? {
        PackUpStamps(w.t, c.user, c.entries, c.id, c.now, c.stored, c.chunks, id);
      }
    } else if Compact(w.t, c.user, c.source, c.entries, c.id, c.now, c.stored, c.chunks).Ok? {
      CompactStamps(w.t, c.user, c.source, c.entries, c.id, c.now, c.stored, c.chunks, id);
    }
  }

  /** How one command changes whether a row bears both stamps. */
  lemma StampStep(w: World, c: Command, id: FileId)
    requires Enabled(w, c) && id in w.t.files && id in Next(w, c).t.files
    ensures BothStamps(Next(w, c).t, id) <==> Strikes(w, c, id) || (BothStamps(w.t, id) && !Restores(w, c, id))
  {
    if c.PackUp? || c.Repack? {
      PackingStamps(w, c, id);
    } else if c.Upload? || c.MoveToTrash? || c.StampLate? || c.BringBack? || c.MoveFile? {
      ListingStamps(w, c, id);
    }
  }

  lemma VacateKeys(t: Tables, user: User, key: PathKey, now: Time)
    ensures Vacate(t, user, key, now).files.Keys == t.files.Keys
  {
  }

  /** A row that was not there before is a freshly minted one, unstamped. */
  lemma NewRow(w: World, c: Command, id: FileId)
    requires Enabled(w, c) && id in Next(w, c).t.files && id !in w.t.files
    ensures id !in w.uploaded && !BothStamps(Next(w, c).t, id)
  {
    match c
    case Upload(user, path, _, _, now, _, _) => VacateKeys(w.t, user, UserPath(path), now);
    case BringBack(user, b, newPath, now) =>
      if Restore(w.t, user, b, newPath, now).Ok? {
        VacateKeys(w.t, user, TrimKey(if newPath.Some? then UserPath(newPath.value) else w.t.files[b].VisiblePath()), now);
      }
    case PackUp(user, entries, nid, now, stored, chunks) =>
      if Pack(w.t, user, entries, nid, now, stored, chunks).Ok? {
        PackStamps(w.t, user, None, entries, nid, |entries|, id);
      }
    case Repack(user, source, entries, nid, now, stored, chunks) =>
      if entries != [] && Compact(w.t, user, source, entries, nid, now, stored, chunks).Ok? {
        PackStamps(w.t, user, Some(source), entries, nid, |entries|, id);
      }
    case _ =>
  }

  /** The worlds a run passes through. */
  ghost predicate Trace(ws: seq<World>, cs: seq<Command>) {
    && |ws| == |cs| + 1 && ws[0] == EMPTY
    && forall k :: 0 <= k < |cs| ==> Enabled(ws[k], cs[k]) && ws[k + 1] == Next(ws[k], cs[k])
  }

  lemma {:induction false} TraceKeeps(ws: seq<World>, cs: seq<Command>, n: nat)
    requires Trace(ws, cs) && n <= |cs|
    ensures Inv(ws[n])
    ensures forall k, id :: 0 <= k <= n && id in ws[k].uploaded ==> id in ws[n].uploaded
  {
    if n > 0 {
      TraceKeeps(ws, cs, n - 1);
      StepKeeps(ws[n - 1], cs[n - 1]);
    }
  }

  /** A late stamp hit the row while it was superseded, and no restore came after it. */
  ghost predicate StruckSince(ws: seq<World>, cs: seq<Command>, n: nat, id: FileId)
    requires |ws| == |cs| + 1 && n <= |cs|
  {
    exists k :: 0 <= k < n && Strikes(ws[k], cs[k], id) && NotRestored(ws, cs, k + 1, n, id)
  }

  ghost predicate NotRestored(ws: seq<World>, cs: seq<Command>, from: nat, n: nat, id: FileId)
    requires |ws| == |cs| + 1 && n <= |cs|
  {
    forall j :: from <= j < n ==> !Restores(ws[j], cs[j], id)
  }

  lemma StruckStep(ws: seq<World>, cs: seq<Command>, n: nat, id: FileId)
    requires |ws| == |cs| + 1 && n < |cs|
    ensures StruckSince(ws, cs, n + 1, id) <==>
              Strikes(ws[n], cs[n], id) || (StruckSince(ws, cs, n, id) && !Restores(ws[n], cs[n], id))
  {
    if StruckSince(ws, cs, n + 1, id) && !Strikes(ws[n], cs[n], id) {
      var k :| 0 <= k < n + 1 && Strikes(ws[k], cs[k], id) && NotRestored(ws, cs, k + 1, n + 1, id);
      assert NotRestored(ws, cs, k + 1, n, id);
    }
    if Strikes(ws[n], cs[n], id) {
      assert NotRestored(ws, cs, n + 1, n + 1, id);
    } else if StruckSince(ws, cs, n, id) && !Restores(ws[n], cs[n], id) {
      var k :| 0 <= k < n && Strikes(ws[k], cs[k], id) && NotRestored(ws, cs, k + 1, n, id);
      assert NotRestored(ws, cs, k + 1, n + 1, id);
    }
  }

  /** A row in the tables was minted. */
  lemma RowsMinted(w: World, id: FileId)
    requires Inv(w)
    ensures id in w.t.files ==> id in w.uploaded
  {
    if id in w.t.files {
      assert ContentOk(w.t, w.uploaded, w.packs, id);
    }
  }

  /** What strikes an id finds its row. */
  lemma {:induction false} StruckWasMinted(ws: seq<World>, cs: seq<Command>, n: nat, id: FileId)
    requires Trace(ws, cs) && n <= |cs| && StruckSince(ws, cs, n, id)
    ensures id in ws[n].uploaded
  {
    var k :| 0 <= k < n && Strikes(ws[k], cs[k], id) && NotRestored(ws, cs, k + 1, n, id);
    TraceKeeps(ws, cs, k);
    RowsMinted(ws[k], id);
    TraceKeeps(ws, cs, n);
  }

  /** One more command, given what holds of the row before it. */
  lemma StampAfter(w: World, c: Command, id: FileId, struck: bool)
    requires Enabled(w, c) && id in Next(w, c).t.files && (struck ==> id in w.uploaded)
    requires id in w.t.files ==> (BothStamps(w.t, id) <==> struck)
    ensures BothStamps(Next(w, c).t, id) <==> Strikes(w, c, id) || (struck && !Restores(w, c, id))
  {
    if id in w.t.files {
      StampStep(w, c, id);
    } else {
      NewRow(w, c, id);
    }
  }

  /** In every run: a row bears both stamps exactly if the second statement of a trash call
      hit it while it was superseded and it has not been restored since. */
  lemma {:induction false} BothStampsIff(ws: seq<World>, cs: seq<Command>, n: nat, id: FileId)
    requires Trace(ws, cs) && n <= |cs| && id in ws[n].t.files
    ensures BothStamps(ws[n].t, id) <==> StruckSince(ws, cs, n, id)
  {
    if n > 0 {
      var m := n - 1;
      if id in ws[m].t.files {
        BothStampsIff(ws, cs, m, id);
      }
      if StruckSince(ws, cs, m, id) {
        StruckWasMinted(ws, cs, m, id);
      }
      StampAfter(ws[m], cs[m], id, StruckSince(ws, cs, m, id));
      StruckStep(ws, cs, m, id);
    }
  }

  /** Where trash calls are not split, no row ever bears both stamps. */
  lemma NoLateStampNoDouble(ws: seq<World>, cs: seq<Command>, id: FileId)
    requires Trace(ws, cs) && forall k :: 0 <= k < |cs| ==> !cs[k].StampLate?
    ensures !BothStamps(ws[|cs|].t, id)
  {
    if id in ws[|cs|].t.files {
      BothStampsIff(ws, cs, |cs|, id);
    }
  }

  // ── Runs in which the split calls go wrong ─────────────────────────────────

  /** Some run ends here. */
  ghost predicate Reached(w: World) {
    exists ws: seq<World>, cs: seq<Command> :: Trace(ws, cs) && ws[|cs|] == w
  }

  lemma ReachedFirst()
    ensures Reached(EMPTY)
  {
    assert Trace([EMPTY], []);
  }

  lemma ReachedNext(w: World, c: Command)
    requires Reached(w) && Enabled(w, c)
    ensures Reached(Next(w, c))
  {
    var ws: seq<World>, cs: seq<Command> :| Trace(ws, cs) && ws[|cs|] == w;
    var ws', cs' := ws + [Next(w, c)], cs + [c];
    assert Trace(ws', cs') && ws'[|cs'|] == Next(w, c);
  }

  /** What a write reports: disk cost and chunk rows. */
  datatype Cost = Cost(stored: nat, chunks: nat)

  /** An upload to a path, after which somebody has read the row and somebody the chunks. */
  lemma UploadAndRead(w: World, user: User, path: string, data: seq<byte>, id: FileId, now: Time, cost: Cost) returns (n: World)
    requires Reached(w) && id !in w.uploaded && id !in w.t.files
    ensures Reached(n) && Push(w.t, user, path, data, id, now, cost.stored, cost.chunks) == Ok(n.t)
    ensures n.uploaded == w.uploaded[id := data] && n.packs == w.packs
    ensures n.seen == w.seen + {(id, n.t.files[id])} && n.plains == w.plains + {(id, data)}
  {
    var c := Upload(user, path, data, id, now, cost.stored, cost.chunks);
    ReachedNext(w, c);
    var w1 := Next(w, c);
    ReachedNext(w1, ObserveRow(id));
    var w2 := Next(w1, ObserveRow(id));
    ReachedNext(w2, ReadOwnChunks(id));
    n := Next(w2, ReadOwnChunks(id));
  }

  lemma FirstUpload(user: User, path: string, data: seq<byte>, a: FileId, cost: Cost) returns (w: World)
    ensures Reached(w) && w.t.files.Keys == {a} && Occupies(w.t, user, UserPath(path), a)
    ensures w.t.files[a].pack.None? && w.t.files[a].size == |data| && w.t.files[a].path == UserPath(path)
    ensures w.t.files[a].retiredPath.None? && w.t.files[a].lineage == a
    ensures w.uploaded == map[a := data] && w.packs == {} && (a, w.t.files[a]) in w.seen && (a, data) in w.plains
  {
    ReachedFirst();
    w := UploadAndRead(EMPTY, user, path, data, a, 1, cost);
  }

  /** An upload to the same path between the two statements of a trash call. */
  lemma TrashRacesUpload(user: User, path: string, first: seq<byte>, second: seq<byte>, a: FileId, b: FileId, x: Cost, y: Cost)
    requires a != b
    ensures exists w :: Reached(w) && BothStamps(w.t, a)
  {
    var w1 := FirstUpload(user, path, first, a, x);
    var w2 := UploadAndRead(w1, user, path, second, b, 2, y);
    assert w2.t.files[a].superseded == Some(2) && (a, w1.t.files[a]) in w2.seen;
    assert SeenLive(w2, user, a);
    ReachedNext(w2, StampLate(user, a, 3));
    assert BothStamps(Next(w2, StampLate(user, a, 3)).t, a);
  }

  lemma TwoEntriesFit(e: PackEntry, f: PackEntry)
    requires |e.id| == 32 && |f.id| == 32
    ensures Buildable([e, f])
  {
    var es := IndexOf([e, f]);
    assert |Record(es[0])| == 52 && |Record(es[1])| == 52;
    assert Index(es) == Record(es[0]) + Index(es[1..]);
    assert Index(es[1..]) == Record(es[1]) + Index([]);
  }

  /** Two files at different paths, both read. */
  lemma TwoUploads(user: User, path: string, other: string, data: seq<byte>, more: seq<byte>, a: FileId, b: FileId, x: Cost, y: Cost)
    returns (w: World)
    requires path != other && a != b
    ensures Reached(w) && w.t.files.Keys == {a, b} && w.uploaded.Keys == {a, b} && w.packs == {}
    ensures w.uploaded[a] == data && (a, w.t.files[a]) in w.seen && (a, data) in w.plains && (b, more) in w.plains
    ensures Assignable(w.t, user, None, PackEntry(a, data)) && Assignable(w.t, user, None, PackEntry(b, more))
  {
    var w1 := FirstUpload(user, path, data, a, x);
    w := UploadAndRead(w1, user, other, more, b, 2, y);
    assert Occupant(w1.t, user, UserPath(other)).None?;
    assert w.t.files[a] == w1.t.files[a];
  }

  /** Two distinct assignable rows go into a new container. */
  lemma PackTwo(t: Tables, user: User, e: PackEntry, f: PackEntry, p: FileId, now: Time, cost: Cost) returns (n: Tables)
    requires e.id != f.id && |e.id| == 32 && |f.id| == 32 && p !in t.files
    requires Assignable(t, user, None, e) && Assignable(t, user, None, f)
    ensures Pack(t, user, [e, f], p, now, cost.stored, cost.chunks) == Ok(n)
    ensures n.files.Keys == t.files.Keys + {p} && n.files[e.id].user == user && e.id !in n.bodies
  {
    TwoEntriesFit(e, f);
    var es, rs := [e, f], Ranges([e, f]);
    assert AssignFirst(t, user, None, es, rs, p, 0) == Ok(t);
    var r1 := AssignFirst(t, user, None, es, rs, p, 1);
    assert r1.Ok? && Assignable(r1.value, user, None, f);
    assert AssignFirst(t, user, None, es, rs, p, 2).Ok?;
    n := Pack(t, user, es, p, now, cost.stored, cost.chunks).value;
  }

  /** A packing between the two statements of a read: the row was self-contained when it was
      read, the file is still there, and yet its chunks read as nothing. */
  lemma PackedAwayReadsEmpty(user: User, path: string, other: string, data: seq<byte>, more: seq<byte>,
                             a: FileId, b: FileId, p: FileId, x: Cost, y: Cost, z: Cost)
    requires path != other && a != b && p != a && p != b && data != [] && |a| == 32 && |b| == 32
    ensures exists w, row :: Reached(w) && (a, row) in w.seen && row.user == user && row.pack.None?
                          && a in w.t.files && Pull(w.t, user, a) == Ok(data) && Body(w.t, a) == []
  {
    var w1 := TwoUploads(user, path, other, data, more, a, b, x, y);
    var e, f := PackEntry(a, data), PackEntry(b, more);
    var c := PackUp(user, [e, f], p, 3, z.stored, z.chunks);
    assert Gathered(w1, e) && Gathered(w1, f);
    ReachedNext(w1, c);
    var t := PackTwo(w1.t, user, e, f, p, 3, z);
    var w2 := Next(w1, c);
    assert w2.t == t && (a, w1.t.files[a]) in w2.seen;
    ReachedIsConsistent(w2);
    ReadsBack(w2.t, w2.uploaded, w2.packs, a);
  }

  lemma ReachedIsConsistent(w: World)
    requires Reached(w)
    ensures Inv(w)
  {
    var ws: seq<World>, cs: seq<Command> :| Trace(ws, cs) && ws[|cs|] == w;
    TraceKeeps(ws, cs, |cs|);
  }
}
