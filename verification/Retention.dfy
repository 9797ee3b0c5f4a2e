/** The retention sweep (service.rs `purge_retired`, manifest.rs candidate queries). */
module Retention {
  import opened Wrappers
  import opened Bytes
  import opened Manifest
  import opened Sums

  datatype Policy = Policy(trashDays: int, versionDays: int, keepVersions: int)

  const DAY: nat := 86_400

  /** `days` ago, clamped to [0, a century]. */
  function Cutoff(now: Time, days: int): Time {
    var d := (if days < 0 then 0 else if days > 36_500 then 36_500 else days) * DAY;
    if d > now then 0 else now - d
  }

  function TrashedBefore(t: Tables, cutoff: Time): set<FileId> {
    set id | id in t.files && t.files[id].deleted.Some? && t.files[id].deleted.value < cutoff
  }

  function Superseded(t: Tables): set<FileId> {
    set id | id in t.files && t.files[id].superseded.Some?
  }

  function SupersededBefore(t: Tables, cutoff: Time): set<FileId> {
    set id | id in Superseded(t) && t.files[id].superseded.value < cutoff
  }

  predicate SameLineage(t: Tables, a: FileId, b: FileId)
    requires a in t.files && b in t.files
  {
    t.files[a].user == t.files[b].user && t.files[a].lineage == t.files[b].lineage
  }

  predicate LexLess(a: seq<byte>, b: seq<byte>) {
    b != [] && (a == [] || a[0] < b[0] || (a[0] == b[0] && LexLess(a[1..], b[1..])))
  }

  /** The order of a version history: newest first, ties by file id. */
  predicate Newer(t: Tables, a: FileId, b: FileId)
    requires a in t.files && b in t.files
  {
    || t.files[a].created > t.files[b].created
    || (t.files[a].created == t.files[b].created && LexLess(b, a))
  }

  /** The old versions ranked before `id` in its own history. */
  function NewerVersions(t: Tables, id: FileId): set<FileId>
    requires id in t.files
  {
    set v | v in Superseded(t) && SameLineage(t, v, id) && Newer(t, v, id)
  }

  function SupersededBeyond(t: Tables, keep: nat): set<FileId> {
    set id | id in Superseded(t) && |NewerVersions(t, id)| + 1 > keep
  }

  /** Some row of the lineage is current or in the trash, so its history can be restored. */
  predicate Anchored(t: Tables, id: FileId)
    requires id in t.files
  {
    exists l :: l in t.files && SameLineage(t, l, id) && t.files[l].superseded.None?
  }

  function Orphans(t: Tables): set<FileId> {
    set id | id in Superseded(t) && !Anchored(t, id)
  }

  function Keep(p: Policy): nat {
    if p.keepVersions < 0 then 0 else p.keepVersions
  }

  function Expired(t: Tables, p: Policy, now: Time): set<FileId> {
    TrashedBefore(t, Cutoff(now, p.trashDays))
    + SupersededBefore(t, Cutoff(now, p.versionDays))
    + SupersededBeyond(t, Keep(p))
    + Orphans(t)
  }

  function Sweep(t: Tables, p: Policy, now: Time): Tables {
    Drop(t, Expired(t, p, now))
  }

  /** A live row is never swept, however many versions or whatever the policy. */
  lemma NeverLive(t: Tables, p: Policy, now: Time, id: FileId)
    requires id in t.files && t.files[id].IsLive()
    ensures id in Sweep(t, p, now).files && Sweep(t, p, now).files[id] == t.files[id]
  {
  }

  // ── Which versions go ──────────────────────────────────────────────────────

  /** `a` sorts before `b`: it is a proper prefix, or smaller at the first difference. */
  ghost predicate SortsBefore(a: seq<byte>, b: seq<byte>) {
    exists k :: 0 <= k <= |a| && k <= |b| && a[..k] == b[..k] && (if k < |a| then k < |b| && a[k] < b[k] else k < |b|)
  }

  lemma {:induction false} LexLessIff(a: seq<byte>, b: seq<byte>)
    ensures LexLess(a, b) <==> SortsBefore(a, b)
    decreases |a|
  {
    if a == [] {
      assert b != [] ==> a[..0] == b[..0];
    } else if b != [] {
      if a[0] == b[0] {
        LexLessIff(a[1..], b[1..]);
        if SortsBefore(a[1..], b[1..]) {
          var k :| 0 <= k <= |a| - 1 && k <= |b| - 1 && a[1..][..k] == b[1..][..k]
                   && (if k < |a| - 1 then k < |b| - 1 && a[1..][k] < b[1..][k] else k < |b| - 1);
          assert a[..k + 1] == [a[0]] + a[1..][..k] && b[..k + 1] == [b[0]] + b[1..][..k];
        }
        if SortsBefore(a, b) {
          var k :| 0 <= k <= |a| && k <= |b| && a[..k] == b[..k] && (if k < |a| then k < |b| && a[k] < b[k] else k < |b|);
          assert a[1..][..k - 1] == a[..k][1..] && b[1..][..k - 1] == b[..k][1..];
        }
      } else {
        assert a[..0] == b[..0];
        if SortsBefore(a, b) {
          var k :| 0 <= k <= |a| && k <= |b| && a[..k] == b[..k] && (if k < |a| then k < |b| && a[k] < b[k] else k < |b|);
          assert k > 0 ==> a[..k][0] == b[..k][0];
        }
      }
    }
  }

  lemma {:induction false} LexTotal(a: seq<byte>, b: seq<byte>)
    ensures LexLess(a, b) || LexLess(b, a) || a == b
    ensures !(LexLess(a, b) && LexLess(b, a))
    ensures !LexLess(a, a)
    decreases |a|
  {
    if a != [] {
      LexTotal(a[1..], a[1..]);
      if b != [] && a[0] == b[0] {
        LexTotal(a[1..], b[1..]);
        assert a == [a[0]] + a[1..] && b == [b[0]] + b[1..];
      }
    }
  }

  lemma {:induction false} LexTrans(a: seq<byte>, b: seq<byte>, c: seq<byte>)
    requires LexLess(a, b) && LexLess(b, c)
    ensures LexLess(a, c)
    decreases |a|
  {
    if a != [] && a[0] == b[0] && b[0] == c[0] {
      LexTrans(a[1..], b[1..], c[1..]);
    }
  }

  /** A version history is a strict order. */
  lemma NewerOrders(t: Tables, a: FileId, b: FileId, c: FileId)
    requires a in t.files && b in t.files && c in t.files
    ensures !Newer(t, a, a) && (a != b ==> Newer(t, a, b) || Newer(t, b, a)) && !(Newer(t, a, b) && Newer(t, b, a))
    ensures Newer(t, a, b) && Newer(t, b, c) ==> Newer(t, a, c)
  {
    LexTotal(a, b);
    LexTotal(a, a);
    if LexLess(b, a) && LexLess(c, b) {
      LexTrans(c, b, a);
    }
  }

  /** Of two old versions of one file, the one that goes for the number of versions is the
      older: created earlier, or at the same time under an id that sorts before. */
  lemma OldestGoFirst(t: Tables, keep: nat, a: FileId, b: FileId)
    requires a in Superseded(t) && b in Superseded(t) && SameLineage(t, a, b)
    requires a in SupersededBeyond(t, keep) && b !in SupersededBeyond(t, keep)
    ensures t.files[a].created <= t.files[b].created
    ensures t.files[a].created == t.files[b].created ==> SortsBefore(a, b)
  {
    NewerOrders(t, a, b, a);
    LexLessIff(a, b);
    if Newer(t, a, b) {
      forall v | v in NewerVersions(t, a) ensures v in NewerVersions(t, b) {
        NewerOrders(t, v, a, b);
      }
      SubsetSize(NewerVersions(t, a), NewerVersions(t, b));
    }
  }

  /** The old versions of one file. */
  function Versions(t: Tables, user: User, lineage: FileId): set<FileId> {
    set v | v in Superseded(t) && t.files[v].user == user && t.files[v].lineage == lineage
  }

  function Above(t: Tables, s: set<FileId>, id: FileId): set<FileId>
    requires s <= t.files.Keys && id in t.files
  {
    set v | v in s && Newer(t, v, id)
  }

  function FirstOf(t: Tables, s: set<FileId>, keep: nat): set<FileId>
    requires s <= t.files.Keys
  {
    set v | v in s && |Above(t, s, v)| < keep
  }

  lemma {:induction false} OldestOf(t: Tables, s: set<FileId>) returns (o: FileId)
    requires s <= t.files.Keys && s != {}
    ensures o in s && forall v :: v in s && v != o ==> Newer(t, v, o)
    decreases s
  {
    o :| o in s;
    if s != {o} {
      var p := OldestOf(t, s - {o});
      NewerOrders(t, o, p, o);
      if Newer(t, o, p) {
        o := p;
      } else {
        forall v | v in s && v != o ensures Newer(t, v, o) {
          NewerOrders(t, v, p, o);
        }
      }
    }
  }

  /** Of any set of versions exactly the first `keep`, or all, are among its first `keep`. */
  lemma {:induction false} FirstSize(t: Tables, s: set<FileId>, keep: nat)
    requires s <= t.files.Keys
    ensures |FirstOf(t, s, keep)| == if |s| < keep then |s| else keep
    decreases s
  {
    if s == {} {
      assert FirstOf(t, s, keep) == {};
    } else {
      var o := OldestOf(t, s);
      var rest := s - {o};
      FirstSize(t, rest, keep);
      NewerOrders(t, o, o, o);
      assert Above(t, s, o) == rest;
      forall v | v in rest ensures Above(t, s, v) == Above(t, rest, v) {
        NewerOrders(t, v, o, v);
      }
      assert FirstOf(t, s, keep) == FirstOf(t, rest, keep) + if |rest| < keep then {o} else {};
    }
  }

  /** Counting versions leaves every file exactly `keep` of its old versions, or all of them
      if there are no more. */
  lemma KeepsExactly(t: Tables, user: User, lineage: FileId, keep: nat)
    ensures |Versions(t, user, lineage) - SupersededBeyond(t, keep)|
         == if |Versions(t, user, lineage)| < keep then |Versions(t, user, lineage)| else keep
  {
    var vs := Versions(t, user, lineage);
    FirstSize(t, vs, keep);
    forall v | v in vs ensures NewerVersions(t, v) == Above(t, vs, v) {
    }
    assert vs - SupersededBeyond(t, keep) == FirstOf(t, vs, keep);
  }

  /** A sweep in terms of days: a row stays if and only if it is live, or in the trash for no
      more than `trashDays`, or an old version of a file that is still there or in the trash,
      replaced no more than `versionDays` ago and not beyond the versions to keep. */
  lemma SurvivesIff(t: Tables, p: Policy, now: Time, id: FileId)
    requires id in t.files && 0 <= p.trashDays <= 36_500 && 0 <= p.versionDays <= 36_500
    ensures id in Sweep(t, p, now).files <==>
      && (t.files[id].deleted.Some? ==> now <= t.files[id].deleted.value + p.trashDays * 86_400)
      && (t.files[id].superseded.Some? ==>
            && now <= t.files[id].superseded.value + p.versionDays * 86_400
            && id !in SupersededBeyond(t, if p.keepVersions < 0 then 0 else p.keepVersions)
            && exists l :: l in t.files && SameLineage(t, l, id) && t.files[l].superseded.None?)
  {
  }

  /** Out of range, the days count as none and as a century. */
  lemma DaysClamped(t: Tables, p: Policy, now: Time)
    ensures p.trashDays < 0 ==> Expired(t, p, now) == Expired(t, p.(trashDays := 0), now)
    ensures p.trashDays > 36_500 ==> Expired(t, p, now) == Expired(t, p.(trashDays := 36_500), now)
    ensures p.versionDays < 0 ==> Expired(t, p, now) == Expired(t, p.(versionDays := 0), now)
    ensures p.versionDays > 36_500 ==> Expired(t, p, now) == Expired(t, p.(versionDays := 36_500), now)
  {
  }

  // ── Repeating the sweep ────────────────────────────────────────────────────

  /** Dropping rows never pushes a version further down its history. */
  lemma RankOnlyFalls(t: Tables, gone: set<FileId>, id: FileId)
    requires id in t.files && id !in gone
    ensures |NewerVersions(Drop(t, gone), id)| <= |NewerVersions(t, id)|
  {
    SubsetSize(NewerVersions(Drop(t, gone), id), NewerVersions(t, id));
  }

  /** History whose every restorable relative has just left with the expired trash. */
  function NewlyOrphaned(t: Tables, p: Policy, now: Time): set<FileId> {
    set id | id in Superseded(t) - Expired(t, p, now)
          && forall l :: l in t.files && SameLineage(t, l, id) && t.files[l].superseded.None? ==>
               l in TrashedBefore(t, Cutoff(now, p.trashDays))
  }

  /** After a sweep only orphaning can expire anything more. */
  lemma AfterSweepOnlyOrphans(t: Tables, p: Policy, now: Time)
    ensures Expired(Sweep(t, p, now), p, now) == Orphans(Sweep(t, p, now))
  {
    var t1 := Sweep(t, p, now);
    forall id | id in Expired(t1, p, now) ensures id in Orphans(t1) {
      assert id in t.files && t.files[id] == t1.files[id] && id !in Expired(t, p, now);
      if id in Superseded(t1) {
        RankOnlyFalls(t, Expired(t, p, now), id);
        assert id in Superseded(t) && id !in SupersededBeyond(t, Keep(p));
      }
    }
  }

  /** With the cutoffs held fixed, a second sweep takes exactly the history that the
      first one orphaned. */
  lemma SecondSweep(t: Tables, p: Policy, now: Time)
    ensures Expired(Sweep(t, p, now), p, now) == NewlyOrphaned(t, p, now)
  {
    var t1 := Sweep(t, p, now);
    AfterSweepOnlyOrphans(t, p, now);
    forall id | id in Superseded(t1)
      ensures !Anchored(t1, id) <==> id in NewlyOrphaned(t, p, now)
    {
      forall l | l in t.files && SameLineage(t, l, id) && t.files[l].superseded.None?
        ensures l in t1.files <==> l !in TrashedBefore(t, Cutoff(now, p.trashDays))
      {
        assert l !in Superseded(t);
      }
    }
  }

  /** A third sweep finds nothing: orphaned history anchors nobody. */
  lemma ThirdSweep(t: Tables, p: Policy, now: Time)
    ensures Expired(Sweep(Sweep(t, p, now), p, now), p, now) == {}
  {
    var t1 := Sweep(t, p, now);
    var t2 := Sweep(t1, p, now);
    AfterSweepOnlyOrphans(t, p, now);
    AfterSweepOnlyOrphans(t1, p, now);
    forall id | id in Superseded(t2) ensures Anchored(t2, id) {
      assert id in Superseded(t1) && id !in Orphans(t1);
      var l :| l in t1.files && SameLineage(t1, l, id) && t1.files[l].superseded.None?;
      assert l !in Superseded(t1);
      assert l in t2.files && SameLineage(t2, l, id);
    }
  }

  // ── The sweep as it runs ───────────────────────────────────────────────────

  datatype Freed = Freed(size: nat, stored: nat)

  function Sizes(t: Tables, ids: set<FileId>, user: User): map<FileId, nat> {
    map id | id in ids && id in t.files && t.files[id].user == user :: t.files[id].size
  }

  function Stores(t: Tables, ids: set<FileId>, user: User): map<FileId, nat> {
    map id | id in ids && id in t.files && t.files[id].user == user :: t.files[id].stored
  }

  function FreedFor(freed: map<User, Freed>, user: User): Freed {
    if user in freed then freed[user] else Freed(0, 0)
  }

  /** Every account gets back exactly the rows of `ids` it owned. */
  ghost predicate Refunds(t: Tables, ids: set<FileId>, freed: map<User, Freed>) {
    forall u :: FreedFor(freed, u) == Freed(Total(Sizes(t, ids, u)), Total(Stores(t, ids, u)))
  }

  lemma RefundNothing(t: Tables)
    ensures Refunds(t, {}, map[])
  {
    forall u ensures Total(Sizes(t, {}, u)) == 0 && Total(Stores(t, {}, u)) == 0 {
      assert Sizes(t, {}, u) == map[] && Stores(t, {}, u) == map[];
    }
  }

  /** For one row its account gets back its size and its storage, and nobody else anything. */
  lemma RefundOfOne(t: Tables, id: FileId, freed: map<User, Freed>, user: User)
    requires id in t.files && Refunds(t, {id}, freed)
    ensures FreedFor(freed, user) == if t.files[id].user == user then Freed(t.files[id].size, t.files[id].stored) else Freed(0, 0)
  {
    var row := t.files[id];
    if row.user == user {
      assert Sizes(t, {id}, user) == map[][id := row.size] && Stores(t, {id}, user) == map[][id := row.stored];
      TotalInsert(map[], id, row.size);
      TotalInsert(map[], id, row.stored);
    } else {
      assert Sizes(t, {id}, user) == map[] && Stores(t, {id}, user) == map[];
    }
  }

  lemma RefundOneMore(t: Tables, ids: set<FileId>, freed: map<User, Freed>, id: FileId)
    requires Refunds(t, ids, freed) && id in t.files && id !in ids
    ensures var row := t.files[id]; var f := FreedFor(freed, row.user);
            Refunds(t, ids + {id}, freed[row.user := Freed(f.size + row.size, f.stored + row.stored)])
  {
    var row := t.files[id];
    var f := FreedFor(freed, row.user);
    var freed' := freed[row.user := Freed(f.size + row.size, f.stored + row.stored)];
    forall u
      ensures FreedFor(freed', u) == Freed(Total(Sizes(t, ids + {id}, u)), Total(Stores(t, ids + {id}, u)))
    {
      assert FreedFor(freed, u) == Freed(Total(Sizes(t, ids, u)), Total(Stores(t, ids, u)));
      if row.user == u {
        TotalInsert(Sizes(t, ids, u), id, row.size);
        TotalInsert(Stores(t, ids, u), id, row.stored);
        assert Sizes(t, ids + {id}, u) == Sizes(t, ids, u)[id := row.size];
        assert Stores(t, ids + {id}, u) == Stores(t, ids, u)[id := row.stored];
      } else {
        assert Sizes(t, ids + {id}, u) == Sizes(t, ids, u) && Stores(t, ids + {id}, u) == Stores(t, ids, u);
      }
    }
  }

  function Listed(candidates: seq<FileId>): set<FileId> {
    set i | 0 <= i < |candidates| :: candidates[i]
  }

  lemma DropOneMore(t: Tables, ids: set<FileId>, id: FileId)
    ensures Drop(Drop(t, ids), {id}) == Drop(t, ids + {id})
  {
  }

  /** The candidate lists overlap by design: a row already purged is skipped, so each
      removed row is refunded to its owner exactly once. */
  method PurgeCandidates(t: Tables, candidates: seq<FileId>)
    returns (swept: Tables, freed: map<User, Freed>, files: nat)
    requires Listed(candidates) <= t.files.Keys
    ensures swept == Drop(t, Listed(candidates))
    ensures files == |Listed(candidates)|
    ensures Refunds(t, Listed(candidates), freed)
  {
    swept, freed, files := t, map[], 0;
    var seen: set<FileId> := {};
    RefundNothing(t);
    assert Drop(t, {}) == t;
    for i := 0 to |candidates|
      invariant seen == Listed(candidates[..i])
      invariant files == |seen|
      invariant swept == Drop(t, seen)
      invariant Refunds(t, seen, freed)
    {
      var id := candidates[i];
      assert id in t.files by { assert id in Listed(candidates); }
      assert Listed(candidates[..i + 1]) == seen + {id} by {
        ListedSnoc(candidates[..i], id);
        assert candidates[..i + 1] == candidates[..i] + [id];
      }
      if id !in seen {
        swept, freed := PurgeOne(t, seen, swept, freed, id);
        seen := seen + {id};
        files := files + 1;
      } else {
        assert seen + {id} == seen;
      }
    }
    assert candidates[..|candidates|] == candidates;
  }

  method PurgeOne(ghost t: Tables, ghost seen: set<FileId>, cur: Tables, freed: map<User, Freed>, id: FileId)
    returns (cur': Tables, freed': map<User, Freed>)
    requires id in t.files && id !in seen && cur == Drop(t, seen) && Refunds(t, seen, freed)
    ensures cur' == Drop(t, seen + {id}) && Refunds(t, seen + {id}, freed')
  {
    var row := cur.files[id];
    RefundOneMore(t, seen, freed, id);
    DropOneMore(t, seen, id);
    cur' := Drop(cur, {id});
    var entry := FreedFor(freed, row.user);
    freed' := freed[row.user := Freed(entry.size + row.size, entry.stored + row.stored)];
  }

  lemma ListedSnoc(candidates: seq<FileId>, id: FileId)
    ensures Listed(candidates + [id]) == Listed(candidates) + {id}
  {
    assert (candidates + [id])[|candidates|] == id;
    forall x | x in Listed(candidates) ensures x in Listed(candidates + [id]) {
      var i :| 0 <= i < |candidates| && candidates[i] == x;
      assert (candidates + [id])[i] == x;
    }
  }

  lemma ListedConcat(a: seq<FileId>, b: seq<FileId>)
    ensures Listed(a + b) == Listed(a) + Listed(b)
  {
    forall x | x in Listed(a) ensures x in Listed(a + b) {
      var i :| 0 <= i < |a| && a[i] == x;
      assert (a + b)[i] == x;
    }
    forall x | x in Listed(b) ensures x in Listed(a + b) {
      var i :| 0 <= i < |b| && b[i] == x;
      assert (a + b)[|a| + i] == x;
    }
  }

  /** A query result: the ids of a set in some order. */
  method Rows(ids: set<FileId>) returns (rows: seq<FileId>)
    ensures Listed(rows) == ids
  {
    rows := [];
    var left := ids;
    while left != {}
      invariant Listed(rows) + left == ids
      decreases left
    {
      var id :| id in left;
      ListedSnoc(rows, id);
      rows := rows + [id];
      left := left - {id};
    }
  }

  /** The four rules, collected one after the other and purged in one pass. */
  method PurgeRetired(t: Tables, p: Policy, now: Time)
    returns (swept: Tables, freed: map<User, Freed>, files: nat)
    ensures swept == Sweep(t, p, now)
    ensures files == |Expired(t, p, now)|
    ensures Refunds(t, Expired(t, p, now), freed)
  {
    var candidates := Rows(TrashedBefore(t, Cutoff(now, p.trashDays)));
    var more := Rows(SupersededBefore(t, Cutoff(now, p.versionDays)));
    ListedConcat(candidates, more);
    candidates := candidates + more;
    more := Rows(SupersededBeyond(t, Keep(p)));
    ListedConcat(candidates, more);
    candidates := candidates + more;
    more := Rows(Orphans(t));
    ListedConcat(candidates, more);
    candidates := candidates + more;
    swept, freed, files := PurgeCandidates(t, candidates);
  }
}
