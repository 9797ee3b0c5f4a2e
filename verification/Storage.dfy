/**
  What the rows of the manifest take up on disk (service.rs `PackResult`): the amounts
  packing and compaction report are the changes of the sum over all rows.
 */
module Storage {
  import opened Wrappers
  import opened Bytes
  import opened PackFormat
  import opened Manifest
  import opened Lifecycle
  import opened Service
  import Sums

  function StoredOf(): FileRow -> int {
    (r: FileRow) => r.stored
  }

  ghost function TotalStored(t: Tables): int {
    Sums.Weigh(t.files, StoredOf())
  }

  /** A member of a container takes up nothing of its own. */
  ghost predicate MembersWeightless(t: Tables) {
    forall id :: id in t.files && t.files[id].pack.Some? ==> t.files[id].stored == 0 && t.files[id].chunkCount == 0
  }

  lemma {:induction false} AssignWeightless(t: Tables, user: User, from: Option<FileId>, entries: seq<PackEntry>, ranges: seq<Range>,
                                           pack: FileId, k: nat)
    requires k <= |entries| == |ranges| && AssignFirst(t, user, from, entries, ranges, pack, k).Ok? && MembersWeightless(t)
    ensures MembersWeightless(AssignFirst(t, user, from, entries, ranges, pack, k).value)
  {
    if k > 0 {
      AssignWeightless(t, user, from, entries, ranges, pack, k - 1);
    }
  }

  lemma PackingWeightless(w: World, c: Command)
    requires Enabled(w, c) && MembersWeightless(w.t) && (c.PackUp? || c.Repack?)
    ensures MembersWeightless(Next(w, c).t)
  {
    if c.PackUp? {
      if Pack(w.t, c.user, c.entries, c.id, c.now, c.stored, c.chunks).Ok? {
        AssignWeightless(w.t, c.user, None, c.entries, Ranges(c.entries), c.id, |c.entries|);
      }
    } else if c.entries != [] && Compact(w.t, c.user, c.source, c.entries, c.id, c.now, c.stored, c.chunks).Ok? {
      AssignWeightless(w.t, c.user, Some(c.source), c.entries, Ranges(c.entries), c.id, |c.entries|);
    }
  }

  lemma StepWeightless(w: World, c: Command)
    requires Enabled(w, c) && MembersWeightless(w.t)
    ensures MembersWeightless(Next(w, c).t)
  {
    if c.PackUp? || c.Repack? {
      PackingWeightless(w, c);
    }
  }

  lemma {:induction false} AssignFrees(t: Tables, user: User, from: Option<FileId>, entries: seq<PackEntry>, ranges: seq<Range>,
                                      pack: FileId, k: nat)
    requires k <= |entries| == |ranges| && from != Some(pack) && AssignFirst(t, user, from, entries, ranges, pack, k).Ok?
    ensures TotalStored(AssignFirst(t, user, from, entries, ranges, pack, k).value) == TotalStored(t) - StoredSum(t, entries[..k])
  {
    if k > 0 {
      AssignFrees(t, user, from, entries, ranges, pack, k - 1);
      var t1, e := AssignFirst(t, user, from, entries, ranges, pack, k - 1).value, entries[k - 1];
      FreedOneMore(t, t1, user, from, entries, ranges, pack, k - 1);
      var row := MemberRow(t1.files[e.id], pack, ranges[k - 1]);
      Sums.WeighRemove(t1.files, StoredOf(), e.id);
      Sums.WeighRemove(t1.files[e.id := row], StoredOf(), e.id);
      assert t1.files[e.id := row] - {e.id} == t1.files - {e.id};
    }
  }

  lemma AddsContainer(t: Tables, user: User, id: FileId, plain: seq<byte>, now: Time, stored: nat, chunks: nat)
    requires AddContainer(t, user, id, plain, now, stored, chunks).Ok?
    ensures TotalStored(AddContainer(t, user, id, plain, now, stored, chunks).value) == TotalStored(t) + stored
  {
    Sums.WeighInsert(t.files, StoredOf(), id, ContainerRow(user, id, plain, now, stored, chunks));
  }

  /** Packing changes the sum by the new container less what the packed files gave back. */
  lemma PackMovesStored(t: Tables, user: User, entries: seq<PackEntry>, id: FileId, now: Time, stored: nat, chunks: nat)
    requires Pack(t, user, entries, id, now, stored, chunks).Ok?
    ensures TotalStored(Pack(t, user, entries, id, now, stored, chunks).value) == TotalStored(t) - StoredSum(t, entries) + stored
  {
    AssignFrees(t, user, None, entries, Ranges(entries), id, |entries|);
    assert entries[..|entries|] == entries;
    AddsContainer(AssignFirst(t, user, None, entries, Ranges(entries), id, |entries|).value, user, id, PackPlain(entries), now, stored, chunks);
  }

  lemma {:induction false} MembersFreeNothing(t: Tables, user: User, source: FileId, entries: seq<PackEntry>)
    requires MembersWeightless(t) && forall i :: 0 <= i < |entries| ==> Assignable(t, user, Some(source), entries[i])
    ensures StoredSum(t, entries) == 0
  {
    if entries != [] {
      MembersFreeNothing(t, user, source, entries[..|entries| - 1]);
      assert Assignable(t, user, Some(source), entries[|entries| - 1]);
    }
  }

  /** Compaction changes it by the new container, if there is one, less the old one. */
  lemma CompactMovesStored(t: Tables, user: User, source: FileId, entries: seq<PackEntry>, id: FileId, now: Time, stored: nat, chunks: nat)
    requires MembersWeightless(t) && source != id && Compact(t, user, source, entries, id, now, stored, chunks).Ok?
    ensures TotalStored(Compact(t, user, source, entries, id, now, stored, chunks).value)
         == TotalStored(t) - t.files[source].stored + if entries == [] then 0 else stored
  {
    if entries == [] {
      Sums.WeighRemove(t.files, StoredOf(), source);
    } else {
      var t1 := AssignFirst(t, user, Some(source), entries, Ranges(entries), id, |entries|).value;
      AssignFrees(t, user, Some(source), entries, Ranges(entries), id, |entries|);
      AssignFirstEffect(t, user, Some(source), entries, Ranges(entries), id, |entries|);
      MembersFreeNothing(t, user, source, entries);
      assert entries[..|entries|] == entries;
      var t2 := AddContainer(t1, user, id, PackPlain(entries), now, stored, chunks).value;
      AddsContainer(t1, user, id, PackPlain(entries), now, stored, chunks);
      SourceKept(t, user, source, entries, id);
      Sums.WeighRemove(t2.files, StoredOf(), source);
    }
  }

  lemma SourceKept(t: Tables, user: User, source: FileId, entries: seq<PackEntry>, id: FileId)
    requires AssignFirst(t, user, Some(source), entries, Ranges(entries), id, |entries|).Ok? && source in t.files && source != id
    requires MembersWeightless(t)
    ensures var t1 := AssignFirst(t, user, Some(source), entries, Ranges(entries), id, |entries|).value;
      source in t1.files && t1.files[source].stored == t.files[source].stored
  {
    AssignFirstEffect(t, user, Some(source), entries, Ranges(entries), id, |entries|);
    assert entries[..|entries|] == entries;
    if source in EntryIds(entries) {
      var i :| 0 <= i < |entries| && entries[i].id == source;
      assert Assignable(t, user, Some(source), entries[i]);
    }
  }
}
