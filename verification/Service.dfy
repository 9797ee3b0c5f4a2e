/**
  The store service (service.rs) as an object that updates its tables in place.  Each
  method carries out one service call and is proved to take exactly the step the
  lifecycle model allows; a failed transaction leaves the tables alone.
 */
module Service {
  import opened Wrappers
  import opened Bytes
  import opened PackFormat
  import opened Manifest
  import opened Lifecycle
  import Retention
  import History

  /** `fileId` now holds the upload; `alreadyStored` if it did before. */
  datatype PushOutcome = PushOutcome(fileId: FileId, alreadyStored: bool)

  class ManifestStore {
    var files: map<FileId, FileRow>
    var bodies: map<FileId, seq<byte>>
    /** The history this store has been through. */
    ghost var w: World

    ghost predicate Valid()
      reads this
    {
      Inv(w) && History.LineagesMinted(w) && w.t == Tables(files, bodies)
    }

    constructor ()
      ensures Valid() && w == EMPTY
    {
      files, bodies, w := map[], map[], EMPTY;
    }

    /** Apply a command whose effect on the tables has been computed. */
    method Commit(t: Tables, ghost c: Command)
      requires Valid() && Enabled(w, c) && Next(w, c).t == t
      modifies this
      ensures Valid() && w == Next(old(w), c)
    {
      StepKeeps(w, c);
      History.StepKeepsMinted(w, c);
      files, bodies := t.files, t.bodies;
      w := Next(w, c);
    }

    method FindByPath(user: User, key: PathKey) returns (o: Option<FileId>)
      requires Valid()
      ensures o == Occupant(w.t, user, key)
    {
      var t := Tables(files, bodies);
      if id :| id in files && Occupies(t, user, key, id) {
        assert forall b :: Occupies(t, user, key, b) ==> b == id by {
          assert UniquePaths(w.t);
        }
        o := Some(id);
      } else {
        assert forall b :: !Occupies(t, user, key, b);
        o := None;
      }
    }

    method StepAside(user: User, key: PathKey, now: Time) returns (t: Tables, prev: Option<FileId>)
      requires Valid()
      ensures prev == Occupant(w.t, user, key) && t == Vacate(w.t, user, key, now)
    {
      t := Tables(files, bodies);
      prev := FindByPath(user, key);
      if prev.Some? {
        t := SetRow(t, prev.value, SupersededRow(prev.value, files[prev.value], now));
      }
    }

    /** Upload.  Identical bytes at the path are recognised and cost nothing; otherwise
        a fresh id takes the path over and its predecessor is kept as a version. */
    method Push(user: User, path: string, data: seq<byte>, id: FileId, now: Time, stored: nat, chunks: nat)
      returns (r: Result<PushOutcome, Error>)
      requires Valid() && id !in w.uploaded
      modifies this
      ensures Valid()
      ensures r.Ok? && Pull(w.t, user, r.value.fileId) == Ok(data)
      ensures r.value.alreadyStored <==> exists prev :: Unchanged(old(w.t), user, path, data, prev)
      ensures r.value.alreadyStored ==> w == old(w)
      ensures !r.value.alreadyStored ==> w == Next(old(w), Upload(user, path, data, id, now, stored, chunks))
      ensures !r.value.alreadyStored ==> id in files && files[id].size == |data| && files[id].stored == stored && files[id].chunkCount == chunks
      ensures !r.value.alreadyStored ==> r.value.fileId == id && History.Continues(old(w.t), w.t, user, path, id, now)
    {
      var prev := FindByPath(user, UserPath(path));
      assert forall b :: Unchanged(w.t, user, path, data, b) ==> prev == Some(b) by {
        assert UniquePaths(w.t);
      }
      if prev.Some? && files[prev.value].size == |data| && files[prev.value].digest == Blake3(data) {
        assert Unchanged(w.t, user, path, data, prev.value);
        UnchangedIsStored(w, user, path, data, prev.value);
        return Ok(PushOutcome(prev.value, true));
      }
      ghost var c := Upload(user, path, data, id, now, stored, chunks);
      var t, before := StepAside(user, UserPath(path), now);
      assert id !in files by { RowsAreMinted(w); }
      var lineage := if before.Some? then files[before.value].lineage else id;
      var row := FileRow(user, UserPath(path), None, |data|, stored, chunks, now, None, None, lineage, Blake3(data), None);
      History.UploadContinues(w, user, path, data, id, now, stored, chunks);
      Commit(Tables(t.files[id := row], t.bodies[id := data]), c);
      ReadsBack(w.t, w.uploaded, w.packs, id);
      r := Ok(PushOutcome(id, false));
    }

    method MoveToTrash(user: User, id: FileId, now: Time) returns (r: Result<(), Error>)
      requires Valid() && id !in w.packs
      modifies this
      ensures Valid() && w == Next(old(w), Command.MoveToTrash(user, id, now))
      ensures r.Ok? <==> GetFile(old(w.t), user, id).Some? && (old(w.t).files[id].deleted.Some? || old(w.t).files[id].superseded.None?)
      ensures r.Ok? ==> id in files && files[id].deleted.Some?
    {
      var t := Tables(files, bodies);
      var res := Trash(t, user, id, now);
      Commit(if res.Ok? then res.value else t, Command.MoveToTrash(user, id, now));
      r := if res.Ok? then Ok(()) else Err(res.error);
    }

    method Restore(user: User, id: FileId, newPath: Option<string>, now: Time) returns (r: Result<(), Error>)
      requires Valid() && id !in w.packs
      modifies this
      ensures Valid() && w == Next(old(w), BringBack(user, id, newPath, now))
      ensures r.Ok? <==> Manifest.Restore(old(w.t), user, id, newPath, now).Ok?
      ensures r.Ok? ==> id in files && files[id].IsLive()
    {
      ghost var c := BringBack(user, id, newPath, now);
      if !(id in files && files[id].user == user) || files[id].IsLive() {
        Commit(Tables(files, bodies), c);
        return Err(NotFound);
      }
      var row := files[id];
      var target := TrimKey(if newPath.Some? then UserPath(newPath.value) else row.VisiblePath());
      if target == UserPath("") {
        Commit(Tables(files, bodies), c);
        return Err(NotFound);
      }
      var t, _ := StepAside(user, target, now);
      Commit(SetRow(t, id, RestoredRow(row, target)), c);
      r := Ok(());
    }

    /** The second statement of a trash call on its own, after a look that found the row live. */
    method StampTrash(user: User, id: FileId, now: Time)
      requires Valid() && Enabled(w, StampLate(user, id, now))
      modifies this
      ensures Valid() && w == Next(old(w), StampLate(user, id, now))
      ensures GetFile(old(w.t), user, id).Some? ==> id in files && files[id].deleted.Some?
    {
      Commit(StampTrashed(Tables(files, bodies), user, id, now), StampLate(user, id, now));
    }

    /** The second statement of a purge: drop the row if it is still there, and do not say
        whether it was. */
    method DeleteRow(user: User, id: FileId)
      requires Valid() && id !in w.packs
      modifies this
      ensures Valid() && w == Next(old(w), Destroy(user, id)) && GetFile(w.t, user, id).None?
    {
      var t := Tables(files, bodies);
      Commit(if GetFile(t, user, id).Some? then Drop(t, {id}) else t, Destroy(user, id));
    }

    /** Look the row up, then delete it; nothing happens in between. */
    method PurgeFile(user: User, id: FileId) returns (r: Result<FileRow, Error>)
      requires Valid() && id !in w.packs
      modifies this
      ensures Valid() && w == Next(old(w), Destroy(user, id))
      ensures r.Ok? <==> GetFile(old(w.t), user, id).Some?
      ensures r.Ok? ==> r.value == old(w.t).files[id] && id !in files && id !in bodies
    {
      var row := GetFile(Tables(files, bodies), user, id);
      DeleteRow(user, id);
      r := if row.Some? then Ok(row.value) else Err(NotFound);
    }

    method PurgeTrash(user: User) returns (count: nat)
      requires Valid()
      modifies this
      ensures Valid() && w == Next(old(w), EmptyTrash(user)) && count == |Trashed(old(w.t), user)|
      ensures forall id :: id in files <==> id in old(files) && (old(files)[id].user == user ==> old(files)[id].deleted.None?)
      ensures forall id :: id in files ==> files[id] == old(files)[id]
    {
      assert forall id :: id in files && files[id].deleted.Some? ==> !files[id].IsPack() by {
        forall id | id in files && files[id].deleted.Some? ensures !files[id].IsPack() {
          assert ShapeOk(w.t.files[id], id, id in w.packs);
        }
      }
      var t;
      t, count := DropEach(Tables(files, bodies), Trashed(Tables(files, bodies), user));
      Commit(t, EmptyTrash(user));
    }

    method SweepRetired(policy: Retention.Policy, now: Time) returns (freed: map<User, Retention.Freed>, count: nat)
      requires Valid()
      modifies this
      ensures Valid() && w == Next(old(w), RunSweep(policy, now))
      ensures Retention.Refunds(old(w.t), Retention.Expired(old(w.t), policy, now), freed)
      ensures count == |Retention.Expired(old(w.t), policy, now)|
    {
      var t;
      t, freed, count := Retention.PurgeRetired(Tables(files, bodies), policy, now);
      Commit(t, RunSweep(policy, now));
    }

    /** The transaction body shared by packing and compaction: re-check every row and
        point it at its range, adding up the storage it gives back. */
    method AssignAll(user: User, from: Option<FileId>, entries: seq<PackEntry>, ranges: seq<Range>, pack: FileId)
      returns (r: Result<Tables, Error>, freed: nat)
      requires Valid() && |entries| == |ranges|
      ensures r == AssignFirst(w.t, user, from, entries, ranges, pack, |entries|)
      ensures r.Ok? && from != Some(pack) ==> freed == StoredSum(w.t, entries)
    {
      var t := Tables(files, bodies);
      freed := 0;
      for k := 0 to |entries|
        invariant AssignFirst(w.t, user, from, entries, ranges, pack, k) == Ok(t)
        invariant from != Some(pack) ==> freed == StoredSum(w.t, entries[..k])
      {
        var e := entries[k];
        if !Assignable(t, user, from, e) {
          AssignFailsForGood(w.t, user, from, entries, ranges, pack, k + 1);
          return Err(Integrity), freed;
        }
        if from != Some(pack) {
          FreedOneMore(w.t, t, user, from, entries, ranges, pack, k);
        }
        freed := freed + t.files[e.id].stored;
        t := Tables(t.files[e.id := MemberRow(t.files[e.id], pack, ranges[k])],
                    if from.None? then t.bodies - {e.id} else t.bodies);
      }
      assert entries[..|entries|] == entries;
      r := Ok(t);
    }

    /** Gather the entries in a fresh container; on any failed check nothing changes. */
    method PackFiles(user: User, entries: seq<PackEntry>, id: FileId, now: Time, stored: nat, chunks: nat)
      returns (r: Result<nat, Error>)
      requires Valid() && id !in w.uploaded && Usable(w, entries)
      modifies this
      ensures Valid() && w == Next(old(w), PackUp(user, entries, id, now, stored, chunks))
      ensures r.Ok? <==> Pack(old(w.t), user, entries, id, now, stored, chunks).Ok?
      ensures r.Ok? ==> r.value == StoredSum(old(w.t), entries)
    {
      ghost var c := PackUp(user, entries, id, now, stored, chunks);
      var built := BuildPack(entries);
      if entries == [] || built.Err? {
        Commit(Tables(files, bodies), c);
        return Err(Integrity);
      }
      var t, freed := AssignAll(user, None, entries, built.value.1, id);
      if t.Err? {
        Commit(Tables(files, bodies), c);
        return Err(t.error);
      }
      var t2 := AddContainer(t.value, user, id, built.value.0, now, stored, chunks);
      Commit(if t2.Ok? then t2.value else Tables(files, bodies), c);
      r := if t2.Ok? then Ok(freed) else Err(t2.error);
    }

    /** Rewrite a container around every row that still points into it, or purge it. */
    method CompactPack(user: User, source: FileId, entries: seq<PackEntry>, id: FileId, now: Time, stored: nat, chunks: nat)
      returns (r: Result<nat, Error>)
      requires Valid() && id !in w.uploaded && Usable(w, entries)
      modifies this
      ensures Valid() && w == Next(old(w), Repack(user, source, entries, id, now, stored, chunks))
      ensures r.Ok? <==> Compact(old(w.t), user, source, entries, id, now, stored, chunks).Ok?
      ensures r.Ok? ==> r.value == old(w.t).files[source].stored
    {
      ghost var c := Repack(user, source, entries, id, now, stored, chunks);
      var t := Tables(files, bodies);
      var container := GetFile(t, user, source);
      if container.None? {
        Commit(t, c);
        return Err(NotFound);
      }
      if !container.value.IsPack() || !(Members(t, user, source) <= EntryIds(entries)) {
        Commit(t, c);
        return Err(Integrity);
      }
      if entries == [] {
        Commit(Drop(t, {source}), c);
        return Ok(container.value.stored);
      }
      var built := BuildPack(entries);
      if built.Err? {
        Commit(t, c);
        return Err(Integrity);
      }
      var t1, _ := AssignAll(user, Some(source), entries, built.value.1, id);
      if t1.Err? {
        Commit(t, c);
        return Err(t1.error);
      }
      var t2 := AddContainer(t1.value, user, id, built.value.0, now, stored, chunks);
      Commit(if t2.Ok? then Drop(t2.value, {source}) else t, c);
      r := if t2.Ok? then Ok(container.value.stored) else Err(t2.error);
    }
  }

  /** Delete rows one by one inside a transaction. */
  method DropEach(t: Tables, rows: set<FileId>) returns (t': Tables, count: nat)
    ensures t' == Drop(t, rows) && count == |rows|
  {
    t', count := t, 0;
    var left := rows;
    assert Drop(t, rows - left) == t;
    while left != {}
      invariant left <= rows && t' == Drop(t, rows - left) && count + |left| == |rows|
      decreases left
    {
      var id :| id in left;
      Retention.DropOneMore(t, rows - left, id);
      assert rows - (left - {id}) == rows - left + {id};
      t' := Drop(t', {id});
      left := left - {id};
      count := count + 1;
    }
    assert rows - {} == rows;
  }

  lemma RowsAreMinted(w: World)
    requires Inv(w)
    ensures w.t.files.Keys <= w.uploaded.Keys
  {
    forall id | id in w.t.files ensures id in w.uploaded {
      assert ContentOk(w.t, w.uploaded, w.packs, id);
    }
  }

  /** What the listed rows cost on disk before they move. */
  function StoredSum(t: Tables, entries: seq<PackEntry>): nat {
    if entries == [] then 0
    else
      var e := entries[|entries| - 1];
      StoredSum(t, entries[..|entries| - 1]) + (if e.id in t.files then t.files[e.id].stored else 0)
  }

  /** The next row still has the storage it had before the transaction. */
  lemma FreedOneMore(t0: Tables, t: Tables, user: User, from: Option<FileId>, entries: seq<PackEntry>, ranges: seq<Range>,
                     pack: FileId, k: nat)
    requires k < |entries| == |ranges| && from != Some(pack)
    requires AssignFirst(t0, user, from, entries, ranges, pack, k) == Ok(t) && Assignable(t, user, from, entries[k])
    ensures StoredSum(t0, entries[..k + 1]) == StoredSum(t0, entries[..k]) + t.files[entries[k].id].stored
  {
    AssignFirstEffect(t0, user, from, entries, ranges, pack, k);
    AssignedIds(t0, t, user, from, entries, ranges, pack, k);
    assert t.files[entries[k].id] == t0.files[entries[k].id];
    assert entries[..k + 1][..k] == entries[..k] && entries[..k + 1][k] == entries[k];
  }

  /** Once a row fails its check, the whole pass fails. */
  lemma {:induction false} AssignFailsForGood(t: Tables, user: User, from: Option<FileId>, entries: seq<PackEntry>,
                                             ranges: seq<Range>, pack: FileId, k: nat)
    requires k <= |entries| == |ranges|
    requires AssignFirst(t, user, from, entries, ranges, pack, k) == Err(Integrity)
    ensures AssignFirst(t, user, from, entries, ranges, pack, |entries|) == Err(Integrity)
    decreases |entries| - k
  {
    if k < |entries| {
      AssignFailsForGood(t, user, from, entries, ranges, pack, k + 1);
    }
  }

  // ── Grouping files into packs ──────────────────────────────────────────────

  function SizeSum(group: seq<FileRow>): nat {
    if group == [] then 0 else SizeSum(group[..|group| - 1]) + group[|group| - 1].size
  }

  function Flatten(groups: seq<seq<FileRow>>): seq<FileRow> {
    if groups == [] then [] else Flatten(groups[..|groups| - 1]) + groups[|groups| - 1]
  }

  /** A group that was closed: it holds something, and fits the target unless one file
      alone is already too big. */
  predicate Closed(group: seq<FileRow>, target: nat) {
    |group| >= 1 && (|group| >= 2 ==> SizeSum(group) <= target)
  }

  /** No group could have taken the file that opens the next one. */
  predicate Tight(groups: seq<seq<FileRow>>, target: nat) {
    forall g :: 0 <= g < |groups| - 1 ==> TightPair(groups[g], groups[g + 1], target)
  }

  predicate TightPair(group: seq<FileRow>, next: seq<FileRow>, target: nat) {
    next != [] && SizeSum(group) + next[0].size > target
  }

  lemma CloseGroup(groups: seq<seq<FileRow>>, group: seq<FileRow>, target: nat)
    requires Tight(groups, target) && (groups != [] ==> TightPair(groups[|groups| - 1], group, target))
    ensures Flatten(groups + [group]) == Flatten(groups) + group
    ensures Tight(groups + [group], target)
  {
    assert (groups + [group])[..|groups|] == groups;
  }

  lemma GrowGroup(group: seq<FileRow>, f: FileRow)
    ensures SizeSum(group + [f]) == SizeSum(group) + f.size
  {
    assert (group + [f])[..|group|] == group;
  }

  /** The first `i` files are in the closed groups and, last, in the open one. */
  ghost predicate Grouping(files: seq<FileRow>, i: nat, groups: seq<seq<FileRow>>, group: seq<FileRow>, target: nat)
    requires i <= |files|
  {
    && Flatten(groups) + group == files[..i]
    && (i > 0 ==> Closed(group, target))
    && (forall g :: 0 <= g < |groups| ==> Closed(groups[g], target))
    && Tight(groups, target)
    && (groups != [] ==> i > 0 && TightPair(groups[|groups| - 1], group, target))
  }

  lemma JoinGroup(files: seq<FileRow>, i: nat, groups: seq<seq<FileRow>>, group: seq<FileRow>, target: nat)
    requires i < |files| && Grouping(files, i, groups, group, target)
    requires group == [] || SizeSum(group) + files[i].size <= target
    ensures Grouping(files, i + 1, groups, group + [files[i]], target)
  {
    GrowGroup(group, files[i]);
    assert files[..i + 1] == (Flatten(groups) + group) + [files[i]];
  }

  lemma OpenGroup(files: seq<FileRow>, i: nat, groups: seq<seq<FileRow>>, group: seq<FileRow>, target: nat)
    requires i < |files| && Grouping(files, i, groups, group, target)
    requires group != [] && SizeSum(group) + files[i].size > target
    ensures Grouping(files, i + 1, groups + [group], [files[i]], target)
  {
    CloseGroup(groups, group, target);
    assert files[..i + 1] == (Flatten(groups) + group) + [files[i]];
  }

  ghost predicate Grouped(files: seq<FileRow>, groups: seq<seq<FileRow>>, target: nat) {
    && Flatten(groups) == files
    && (forall g :: 0 <= g < |groups| ==> Closed(groups[g], target))
    && Tight(groups, target)
  }

  lemma FinishGroups(files: seq<FileRow>, groups: seq<seq<FileRow>>, group: seq<FileRow>, target: nat)
    requires Grouping(files, |files|, groups, group, target)
    ensures Grouped(files, if group != [] then groups + [group] else groups, target)
  {
    assert files[..|files|] == files;
    if group != [] {
      CloseGroup(groups, group, target);
    } else {
      assert Flatten(groups) + [] == Flatten(groups);
    }
  }

  /** Cut the candidates, in their order, into consecutive loads. */
  method GroupFiles(files: seq<FileRow>, target: nat) returns (groups: seq<seq<FileRow>>)
    ensures Grouped(files, groups, target)
  {
    groups := [];
    var group: seq<FileRow> := [];
    var bytes := 0;
    for i := 0 to |files|
      invariant Grouping(files, i, groups, group, target) && bytes == SizeSum(group)
    {
      var f := files[i];
      if group != [] && bytes + f.size > target {
        OpenGroup(files, i, groups, group, target);
        groups := groups + [group];
        group := [];
        bytes := 0;
      } else {
        JoinGroup(files, i, groups, group, target);
      }
      GrowGroup(group, f);
      assert [] + [f] == [f];
      bytes := bytes + f.size;
      group := group + [f];
    }
    FinishGroups(files, groups, group, target);
    if group != [] {
      groups := groups + [group];
    }
  }

  /** The loads worth packing: at least two files each, and never above the target. */
  method PlanPacks(files: seq<FileRow>, target: nat) returns (packs: seq<seq<FileRow>>)
    ensures forall p :: 0 <= p < |packs| ==> |packs[p]| >= 2 && SizeSum(packs[p]) <= target
    ensures exists groups :: Grouped(files, groups, target) && packs == LongGroups(groups)
  {
    var groups := GroupFiles(files, target);
    packs := [];
    for g := 0 to |groups|
      invariant packs == LongGroups(groups[..g])
      invariant forall p :: 0 <= p < |packs| ==> |packs[p]| >= 2 && SizeSum(packs[p]) <= target
    {
      assert groups[..g + 1][..g] == groups[..g];
      if |groups[g]| >= 2 {
        packs := packs + [groups[g]];
      }
    }
    assert groups[..|groups|] == groups;
  }

  function LongGroups(groups: seq<seq<FileRow>>): seq<seq<FileRow>> {
    if groups == [] then []
    else
      var last := groups[|groups| - 1];
      LongGroups(groups[..|groups| - 1]) + (if |last| >= 2 then [last] else [])
  }
}
