/**
  The locality rebalance (rebalance.rs): healthy shards move, a few at a time, towards
  the layout the placement planner would choose today.

  A layout is a sequence of locations, one per shard; only how many shards a location
  holds matters, so layouts are compared as multisets.  `moves(j, to)` says whether
  moving shard `j` would succeed (fetch verified, stored, recorded).
 */
module Rebalance {
  import opened Wrappers
  import opened Locations
  import opened Erasure
  import P = Placement
  import ZoneGreedy

  type Shard = nat

  /** Locations this pass can talk to: this node and the peers that answered a ping. */
  predicate Reachable(ids: seq<nat>, loc: Location) {
    loc == Local || loc.id in ids
  }

  predicate Distinct<T(==)>(s: seq<T>) {
    forall a, b :: 0 <= a < b < |s| ==> s[a] != s[b]
  }

  // ── The target: today's plan with peer positions replaced by peer ids ──────

  function Home(ids: seq<nat>, l: P.Location): Location
    requires P.SlotOf(l) <= |ids|
  {
    match l
    case None => Local
    case Some(i) => Peer(ids[i])
  }

  function Homes(ids: seq<nat>, layout: seq<P.Location>): (h: seq<Location>)
    requires forall k :: 0 <= k < |layout| ==> P.SlotOf(layout[k]) <= |ids|
    ensures |h| == |layout|
  {
    seq(|layout|, k requires 0 <= k < |layout| => Home(ids, layout[k]))
  }

  lemma SnocCount<T>(s: seq<T>, rest: seq<T>, last: T, x: T)
    requires s == rest + [last]
    ensures multiset(s)[x] == multiset(rest)[x] + if x == last then 1 else 0
  {
  }

  lemma {:induction false} HomesCount(ids: seq<nat>, layout: seq<P.Location>, l: P.Location)
    requires Distinct(ids) && P.SlotOf(l) <= |ids|
    requires forall k :: 0 <= k < |layout| ==> P.SlotOf(layout[k]) <= |ids|
    ensures multiset(Homes(ids, layout))[Home(ids, l)] == multiset(layout)[l]
  {
    var all := Homes(ids, layout);
    if layout != [] {
      var n := |layout| - 1;
      var most := layout[..n];
      HomesCount(ids, most, l);
      SnocCount(layout, most, layout[n], l);
      SnocCount(all, Homes(ids, most), Home(ids, layout[n]), Home(ids, l));
    }
  }

  lemma HomesReachable(ids: seq<nat>, layout: seq<P.Location>)
    requires forall k :: 0 <= k < |layout| ==> P.SlotOf(layout[k]) <= |ids|
    ensures forall h :: h in Homes(ids, layout) ==> Reachable(ids, h)
  {
  }

  function Get<K>(m: map<K, nat>, k: K): nat {
    if k in m then m[k] else 0
  }

  ghost predicate Tallies(target: map<Location, nat>, homes: seq<Location>) {
    forall loc {:trigger Get(target, loc)} :: Get(target, loc) == multiset(homes)[loc]
  }

  lemma TallyOneMore(target: map<Location, nat>, homes: seq<Location>, last: Location)
    requires Tallies(target, homes)
    ensures Tallies(target[last := Get(target, last) + 1], homes + [last])
  {
    forall loc ensures Get(target[last := Get(target, last) + 1], loc) == multiset(homes + [last])[loc] {
      SnocCount(homes + [last], homes, last, loc);
      assert Get(target, loc) == multiset(homes)[loc];
    }
  }

  method TargetCounts(homes: seq<Location>) returns (target: map<Location, nat>)
    ensures Tallies(target, homes)
  {
    target := map[];
    for k := 0 to |homes|
      invariant Tallies(target, homes[..k])
    {
      TallyOneMore(target, homes[..k], homes[k]);
      assert homes[..k + 1] == homes[..k] + [homes[k]];
      target := target[homes[k] := Get(target, homes[k]) + 1];
    }
    assert homes[..|homes|] == homes;
  }

  // ── Multisets of locations ─────────────────────────────────────────────────

  ghost predicate InRange(at: seq<Location>, js: seq<Shard>) {
    forall k :: 0 <= k < |js| ==> js[k] < |at|
  }

  /** Where the shards listed in `js` live. */
  ghost function At(at: seq<Location>, js: seq<Shard>): multiset<Location>
    requires InRange(at, js)
  {
    if js == [] then multiset{}
    else At(at, js[..|js| - 1]) + multiset{at[js[|js| - 1]]}
  }

  lemma AtSnoc(at: seq<Location>, js: seq<Shard>, j: Shard)
    requires j < |at| && InRange(at, js)
    ensures InRange(at, js + [j])
    ensures At(at, js + [j]) == At(at, js) + multiset{at[j]}
  {
    assert (js + [j])[..|js|] == js;
  }

  lemma {:induction false} AtHas(at: seq<Location>, js: seq<Shard>, k: nat)
    requires InRange(at, js) && k < |js|
    ensures At(at, js)[at[js[k]]] > 0
  {
    if k < |js| - 1 {
      AtHas(at, js[..|js| - 1], k);
    }
  }

  lemma {:induction false} AtSize(at: seq<Location>, js: seq<Shard>)
    requires InRange(at, js)
    ensures |At(at, js)| == |js|
  {
    if js != [] {
      AtSize(at, js[..|js| - 1]);
    }
  }

  /** Of two multisets of one size, one included in the other, there is only one. */
  lemma {:induction false} SameSize<T>(a: multiset<T>, b: multiset<T>)
    requires a <= b && |a| == |b|
    ensures a == b
  {
    assert b == a + (b - a);
    assert |b - a| == 0;
  }

  lemma Rehome(a: seq<Location>, j: nat, to: Location)
    requires j < |a|
    ensures multiset(a[j := to]) == multiset(a) - multiset{a[j]} + multiset{to}
  {
    assert a == a[..j] + [a[j]] + a[j + 1..];
    assert a[j := to] == a[..j] + [to] + a[j + 1..];
  }

  // ── Donors ─────────────────────────────────────────────────────────────────

  function Min(a: nat, b: nat): nat { if a < b then a else b }

  function Max(a: nat, b: nat): nat { if a < b then b else a }

  /** What `loc` keeps: the excess goes, but only from a reachable location. */
  ghost function Keeps(at: seq<Location>, homes: seq<Location>, ids: seq<nat>, loc: Location): nat {
    if Reachable(ids, loc) then Min(multiset(at)[loc], multiset(homes)[loc]) else multiset(at)[loc]
  }

  function Listed(current: map<Location, seq<Shard>>, loc: Location): seq<Shard> {
    if loc in current then current[loc] else []
  }

  /** The shards listed at `loc` live there, once each, and are not in the pool. */
  ghost predicate Grouped(at: seq<Location>, here: seq<Shard>, pool: seq<Shard>, loc: Location) {
    && Distinct(here)
    && (forall k :: 0 <= k < |here| ==> here[k] < |at| && at[here[k]] == loc)
    && (forall k, i :: 0 <= k < |here| && 0 <= i < |pool| ==> here[k] != pool[i])
  }

  ghost predicate AllGrouped(at: seq<Location>, current: map<Location, seq<Shard>>, pool: seq<Shard>) {
    forall loc {:trigger Listed(current, loc)} :: Grouped(at, Listed(current, loc), pool, loc)
  }

  ghost predicate Counted(at: seq<Location>, current: map<Location, seq<Shard>>, pooled: multiset<Location>) {
    forall loc {:trigger Listed(current, loc)} :: |Listed(current, loc)| + pooled[loc] == multiset(at)[loc]
  }

  /** Every shard is either still listed at its location or in the pool. */
  ghost predicate Split(at: seq<Location>, current: map<Location, seq<Shard>>, pool: seq<Shard>) {
    && InRange(at, pool) && Distinct(pool)
    && AllGrouped(at, current, pool)
    && Counted(at, current, At(at, pool))
  }

  lemma GroupOneMoreAt(before: seq<Location>, here: seq<Shard>, loc: Location, last: Location)
    requires Grouped(before, here, [], loc)
    ensures Grouped(before + [last], if loc == last then here + [|before|] else here, [], loc)
  {
  }

  lemma GroupOneMore(before: seq<Location>, last: Location, current: map<Location, seq<Shard>>, after: map<Location, seq<Shard>>)
    requires AllGrouped(before, current, []) && Counted(before, current, multiset{})
    requires after == current[last := Listed(current, last) + [|before|]]
    ensures AllGrouped(before + [last], after, []) && Counted(before + [last], after, multiset{})
  {
    forall loc ensures Grouped(before + [last], Listed(after, loc), [], loc) {
      assert Grouped(before, Listed(current, loc), [], loc);
      GroupOneMoreAt(before, Listed(current, loc), loc, last);
    }
    forall loc ensures |Listed(after, loc)| + (multiset{})[loc] == multiset(before + [last])[loc] {
      SnocCount(before + [last], before, last, loc);
      assert |Listed(current, loc)| + (multiset{})[loc] == multiset(before)[loc];
    }
  }

  lemma GroupNext(at: seq<Location>, j: nat, current: map<Location, seq<Shard>>)
    requires j < |at| && AllGrouped(at[..j], current, []) && Counted(at[..j], current, multiset{})
    ensures var after := current[at[j] := Listed(current, at[j]) + [j]];
      AllGrouped(at[..j + 1], after, []) && Counted(at[..j + 1], after, multiset{})
  {
    GroupOneMore(at[..j], at[j], current, current[at[j] := Listed(current, at[j]) + [j]]);
    assert at[..j + 1] == at[..j] + [at[j]];
  }

  lemma NoGroups()
    ensures AllGrouped([], map[], []) && Counted([], map[], multiset{})
  {
  }

  lemma GroupsComplete(at: seq<Location>, current: map<Location, seq<Shard>>)
    requires AllGrouped(at, current, []) && Counted(at, current, multiset{})
    ensures Split(at, current, [])
    ensures forall loc :: loc !in current ==> multiset(at)[loc] == 0
  {
    forall loc | loc !in current ensures multiset(at)[loc] == 0 {
      assert Listed(current, loc) == [];
    }
  }

  method GroupByLocation(at: seq<Location>) returns (current: map<Location, seq<Shard>>)
    ensures Split(at, current, [])
    ensures forall loc :: loc !in current ==> multiset(at)[loc] == 0
  {
    current := map[];
    NoGroups();
    assert at[..0] == [];
    for j := 0 to |at|
      invariant AllGrouped(at[..j], current, []) && Counted(at[..j], current, multiset{})
    {
      GroupNext(at, j, current);
      current := current[at[j] := Listed(current, at[j]) + [j]];
    }
    assert at[..|at|] == at;
    GroupsComplete(at, current);
  }

  /** One location gives up its excess. */
  method Donate(at: seq<Location>, ghost current: map<Location, seq<Shard>>, loc: Location, all: seq<Shard>, keep: nat,
                reachable: bool, pool: seq<Shard>)
    returns (here: seq<Shard>, pool': seq<Shard>)
    requires Split(at, current, pool) && loc in current && all == current[loc]
    ensures Split(at, current[loc := here], pool')
    ensures |here| == if reachable then Min(|all|, keep) else |all|
  {
    here, pool' := all, pool;
    assert current[loc := all] == current;
    while |here| > keep && reachable
      invariant |here| >= Min(|all|, keep)
      invariant |here| <= |all| && (!reachable ==> here == all)
      invariant Split(at, current[loc := here], pool')
    {
      var rest, j := here[..|here| - 1], here[|here| - 1];
      PopKeepsSplit(at, current[loc := here], loc, rest, j, pool', current[loc := rest]);
      here, pool' := rest, pool' + [j];
    }
  }

  lemma PopKeepsGroup(at: seq<Location>, here: seq<Shard>, rest: seq<Shard>, j: Shard, pool: seq<Shard>, loc: Location, l: Location, there: seq<Shard>)
    requires Grouped(at, here, pool, loc) && here == rest + [j]
    requires Grouped(at, there, pool, l) && (l == loc ==> there == here)
    ensures Grouped(at, if l == loc then rest else there, pool + [j], l)
  {
    assert here[|rest|] == j;
    assert forall k :: 0 <= k < |rest| ==> here[k] == rest[k];
  }

  lemma PopKeepsCount(at: seq<Location>, current: map<Location, seq<Shard>>, loc: Location, rest: seq<Shard>, j: Shard,
                      pooled: multiset<Location>, after: map<Location, seq<Shard>>)
    requires Counted(at, current, pooled) && loc in current && current[loc] == rest + [j]
    requires after == current[loc := rest]
    ensures Counted(at, after, pooled + multiset{loc})
  {
    forall l ensures |Listed(after, l)| + (pooled + multiset{loc})[l] == multiset(at)[l] {
      assert |Listed(current, l)| + pooled[l] == multiset(at)[l];
    }
  }

  lemma PopKeepsDistinct(at: seq<Location>, here: seq<Shard>, pool: seq<Shard>, loc: Location)
    requires Grouped(at, here, pool, loc) && here != []
    requires Distinct(pool)
    ensures Distinct(pool + [here[|here| - 1]]) && here[|here| - 1] < |at| && at[here[|here| - 1]] == loc
  {
  }

  lemma PopKeepsSplit(at: seq<Location>, current: map<Location, seq<Shard>>, loc: Location, rest: seq<Shard>, j: Shard,
                      pool: seq<Shard>, after: map<Location, seq<Shard>>)
    requires Split(at, current, pool) && loc in current && current[loc] == rest + [j]
    requires after == current[loc := rest]
    ensures Split(at, after, pool + [j])
  {
    var here := current[loc];
    assert Grouped(at, Listed(current, loc), pool, loc);
    PopKeepsDistinct(at, here, pool, loc);
    assert here[|here| - 1] == j;
    AtSnoc(at, pool, j);
    PopKeepsCount(at, current, loc, rest, j, At(at, pool), after);
    PopKeepsGroups(at, current, loc, rest, j, pool, after);
  }

  lemma PopKeepsGroups(at: seq<Location>, current: map<Location, seq<Shard>>, loc: Location, rest: seq<Shard>, j: Shard,
                       pool: seq<Shard>, after: map<Location, seq<Shard>>)
    requires AllGrouped(at, current, pool) && loc in current && current[loc] == rest + [j]
    requires after == current[loc := rest]
    ensures AllGrouped(at, after, pool + [j])
  {
    assert Grouped(at, Listed(current, loc), pool, loc);
    forall l ensures Grouped(at, Listed(after, l), pool + [j], l) {
      assert Grouped(at, Listed(current, l), pool, l);
      PopKeepsGroup(at, current[loc], rest, j, pool, loc, l, Listed(current, l));
    }
  }

  lemma DonateOneMore(at: seq<Location>, homes: seq<Location>, ids: seq<nat>, current: map<Location, seq<Shard>>,
                      todo: set<Location>, loc: Location, here: seq<Shard>)
    requires Donated(at, homes, ids, current, todo) && loc in todo && loc in current
    requires |here| == if Reachable(ids, loc) then Min(|current[loc]|, multiset(homes)[loc]) else |current[loc]|
    ensures Donated(at, homes, ids, current[loc := here], todo - {loc})
  {
  }

  ghost predicate Donated(at: seq<Location>, homes: seq<Location>, ids: seq<nat>, current: map<Location, seq<Shard>>,
                          todo: set<Location>) {
    && (forall loc :: loc in todo ==> |Listed(current, loc)| == multiset(at)[loc])
    && (forall loc :: loc !in todo ==> |Listed(current, loc)| == Keeps(at, homes, ids, loc))
  }

  method CollectDonors(at: seq<Location>, homes: seq<Location>, target: map<Location, nat>, ids: seq<nat>)
    returns (current: map<Location, seq<Shard>>, pool: seq<Shard>)
    requires Tallies(target, homes)
    ensures Split(at, current, pool)
    ensures Donated(at, homes, ids, current, {})
  {
    current := GroupByLocation(at);
    pool := [];
    var todo := current.Keys;
    while todo != {}
      invariant Split(at, current, pool) && todo <= current.Keys
      invariant Donated(at, homes, ids, current, todo)
      decreases todo
    {
      var loc :| loc in todo;
      var here, pool' := Donate(at, current, loc, current[loc], Get(target, loc), Reachable(ids, loc), pool);
      DonateOneMore(at, homes, ids, current, todo, loc, here);
      current, pool, todo := current[loc := here], pool', todo - {loc};
    }
  }

  // ── Receivers ──────────────────────────────────────────────────────────────

  /** `move_shard`: a shard already at its destination does not move. */
  predicate MoveShard(moves: (Shard, Location) -> bool, from: Location, j: Shard, to: Location) {
    from != to && moves(j, to)
  }

  ghost function Deficit(kept: multiset<Location>, homes: seq<Location>, loc: Location): nat {
    if kept[loc] < multiset(homes)[loc] then multiset(homes)[loc] - kept[loc] else 0
  }

  /** No location gets more than its deficit. */
  ghost predicate Within(m: multiset<Location>, kept: multiset<Location>, homes: seq<Location>) {
    forall loc {:trigger Deficit(kept, homes, loc)} :: m[loc] <= Deficit(kept, homes, loc)
  }

  lemma WithinOneMore(m: multiset<Location>, kept: multiset<Location>, homes: seq<Location>, to: Location)
    requires Within(m, kept, homes) && m[to] < Deficit(kept, homes, to)
    ensures Within(m + multiset{to}, kept, homes)
  {
  }

  ghost function Changed(at: seq<Location>, out: seq<Location>): set<nat>
    requires |at| == |out|
  {
    set j: nat | j < |at| && out[j] != at[j]
  }

  /** Pooled shards are still where they started, and no pooled shard comes from a
      location that wants more. */
  ghost predicate Waiting(at: seq<Location>, out: seq<Location>, pool: seq<Shard>, kept: multiset<Location>, homes: seq<Location>)
    requires |at| == |out|
  {
    && Distinct(pool)
    && forall k :: 0 <= k < |pool| ==> pool[k] < |at| && out[pool[k]] == at[pool[k]] && Deficit(kept, homes, at[pool[k]]) == 0
  }

  /** The moves of one chunk so far: what was tried, which shards failed, and which
      locations took one. */
  ghost predicate Progress(at: seq<Location>, homes: seq<Location>, kept: multiset<Location>, out: seq<Location>,
                           pool: seq<Shard>, failed: seq<Shard>, got: multiset<Location>) {
    && |out| == |at|
    && InRange(at, pool) && InRange(at, failed)
    && Waiting(at, out, pool, kept, homes)
    && multiset(out) == kept + At(at, pool) + At(at, failed) + got
    && At(at, pool) + At(at, failed) <= multiset(at) - kept
    && |Changed(at, out)| == |got|
    && Within(got, kept, homes)
  }

  lemma ChangedOneMore(at: seq<Location>, out: seq<Location>, j: nat, to: Location)
    requires |at| == |out| && j < |at| && out[j] == at[j] && to != at[j]
    ensures |Changed(at, out[j := to])| == |Changed(at, out)| + 1
  {
    assert j !in Changed(at, out);
    assert Changed(at, out[j := to]) == Changed(at, out) + {j};
  }

  /** The last pooled shard may go anywhere without disturbing the others. */
  lemma WaitingPop(at: seq<Location>, out: seq<Location>, pool: seq<Shard>, j: Shard, kept: multiset<Location>,
                   homes: seq<Location>, to: Location)
    requires |at| == |out| && Waiting(at, out, pool + [j], kept, homes)
    ensures j < |at| && out[j] == at[j] && Deficit(kept, homes, at[j]) == 0
    ensures Waiting(at, out, pool, kept, homes) && Waiting(at, out[j := to], pool, kept, homes)
  {
    assert (pool + [j])[|pool|] == j;
    assert forall k :: 0 <= k < |pool| ==> (pool + [j])[k] == pool[k];
  }

  lemma Transfer(m: multiset<Location>, kept: multiset<Location>, pooled: multiset<Location>, failed: multiset<Location>,
                 got: multiset<Location>, from: Location, to: Location)
    requires m == kept + (pooled + multiset{from}) + failed + got
    ensures m - multiset{from} + multiset{to} == kept + pooled + failed + (got + multiset{to})
  {
  }

  lemma Shelve(m: multiset<Location>, kept: multiset<Location>, pooled: multiset<Location>, failed: multiset<Location>,
               got: multiset<Location>, from: Location)
    requires m == kept + (pooled + multiset{from}) + failed + got
    ensures m == kept + pooled + (failed + multiset{from}) + got
  {
  }

  lemma MoveDone(at: seq<Location>, homes: seq<Location>, kept: multiset<Location>, out: seq<Location>, pool: seq<Shard>,
                 j: Shard, failed: seq<Shard>, got: multiset<Location>, to: Location)
    requires Progress(at, homes, kept, out, pool + [j], failed, got)
    requires got[to] < Deficit(kept, homes, to)
    ensures j < |at| && at[j] != to
    ensures Progress(at, homes, kept, out[j := to], pool, failed, got + multiset{to})
  {
    WaitingPop(at, out, pool, j, kept, homes, to);
    AtSnoc(at, pool, j);
    Rehome(out, j, to);
    assert At(at, pool) + At(at, failed) <= At(at, pool + [j]) + At(at, failed);
    Transfer(multiset(out), kept, At(at, pool), At(at, failed), got, at[j], to);
    ChangedOneMore(at, out, j, to);
    WithinOneMore(got, kept, homes, to);
  }

  lemma MoveFailed(at: seq<Location>, homes: seq<Location>, kept: multiset<Location>, out: seq<Location>, pool: seq<Shard>,
                   j: Shard, failed: seq<Shard>, got: multiset<Location>)
    requires Progress(at, homes, kept, out, pool + [j], failed, got)
    ensures j < |at| && Progress(at, homes, kept, out, pool, failed + [j], got)
  {
    WaitingPop(at, out, pool, j, kept, homes, Local);
    AtSnoc(at, pool, j);
    AtSnoc(at, failed, j);
    Shelve(multiset(out), kept, At(at, pool), At(at, failed), got, at[j]);
    assert At(at, pool) + At(at, failed + [j]) == At(at, pool + [j]) + At(at, failed);
  }

  ghost predicate AllWorked(moves: (Shard, Location) -> bool, tried: seq<(Shard, Location)>) {
    forall k :: 0 <= k < |tried| ==> moves(tried[k].0, tried[k].1)
  }

  lemma WorkedSnoc(moves: (Shard, Location) -> bool, tried: seq<(Shard, Location)>, j: Shard, to: Location)
    ensures AllWorked(moves, tried + [(j, to)]) <==> AllWorked(moves, tried) && moves(j, to)
  {
    assert (tried + [(j, to)])[|tried|] == (j, to);
    assert forall k :: 0 <= k < |tried| ==> (tried + [(j, to)])[k] == tried[k];
  }

  /** The log tells the whole story: a shard tried and moved is where it was sent, one
      tried in vain is where it was, and nothing moved untried. */
  ghost predicate Logged(at: seq<Location>, moves: (Shard, Location) -> bool, out: seq<Location>, pool: seq<Shard>,
                         tried: seq<(Shard, Location)>) {
    && |out| == |at|
    && (forall k :: 0 <= k < |tried| ==> Settled(at, moves, out, tried[k]) && tried[k].0 !in pool)
    && (forall j: nat :: j < |at| && out[j] != at[j] ==> (j, out[j]) in tried)
  }

  ghost predicate Settled(at: seq<Location>, moves: (Shard, Location) -> bool, out: seq<Location>, t: (Shard, Location))
    requires |out| == |at|
  {
    t.0 < |at| && at[t.0] != t.1 && out[t.0] == if moves(t.0, t.1) then t.1 else at[t.0]
  }

  lemma LogOneMore(at: seq<Location>, moves: (Shard, Location) -> bool, out: seq<Location>, pool: seq<Shard>, j: Shard,
                   to: Location, tried: seq<(Shard, Location)>, out': seq<Location>)
    requires Logged(at, moves, out, pool + [j], tried) && Distinct(pool + [j])
    requires j < |at| && out[j] == at[j] && to != at[j]
    requires out' == if moves(j, to) then out[j := to] else out
    ensures Logged(at, moves, out', pool, tried + [(j, to)])
  {
    var now := tried + [(j, to)];
    assert (pool + [j])[|pool|] == j;
    assert j !in pool by {
      assert forall k :: 0 <= k < |pool| ==> (pool + [j])[k] == pool[k];
    }
    forall k | 0 <= k < |now| ensures Settled(at, moves, out', now[k]) && now[k].0 !in pool {
      if k < |tried| {
        assert now[k] == tried[k] && j in pool + [j];
      }
    }
    forall i: nat | i < |at| && out'[i] != at[i] ensures (i, out'[i]) in now {
      if i != j {
        assert (i, out[i]) in tried;
      }
    }
  }

  // The log against the books: which shards were picked, and for whom.

  function Picked(tried: seq<(Shard, Location)>): (s: seq<Shard>)
    ensures |s| == |tried|
  {
    seq(|tried|, k requires 0 <= k < |tried| => tried[k].0)
  }

  /** How often each location was aimed at. */
  ghost function Aimed(tried: seq<(Shard, Location)>): multiset<Location> {
    if tried == [] then multiset{}
    else Aimed(tried[..|tried| - 1]) + multiset{tried[|tried| - 1].1}
  }

  lemma AimedSnoc(tried: seq<(Shard, Location)>, j: Shard, to: Location)
    ensures Aimed(tried + [(j, to)]) == Aimed(tried) + multiset{to}
    ensures Picked(tried + [(j, to)]) == Picked(tried) + [j]
  {
    assert (tried + [(j, to)])[..|tried|] == tried;
  }

  /** Every excess shard is in the pool or was picked, once, and no location was aimed at
      more often than it lacks shards. */
  ghost predicate Tracked(at: seq<Location>, homes: seq<Location>, kept: multiset<Location>, pool: seq<Shard>,
                          tried: seq<(Shard, Location)>) {
    && InRange(at, pool) && InRange(at, Picked(tried)) && Distinct(Picked(tried))
    && At(at, pool) + At(at, Picked(tried)) == multiset(at) - kept
    && Within(Aimed(tried), kept, homes)
  }

  lemma PickedOneMore(moves: (Shard, Location) -> bool, at: seq<Location>, out: seq<Location>, pool: seq<Shard>, j: Shard,
                      tried: seq<(Shard, Location)>)
    requires Logged(at, moves, out, pool + [j], tried) && Distinct(Picked(tried))
    ensures Distinct(Picked(tried) + [j])
  {
    assert j in pool + [j] by {
      assert (pool + [j])[|pool|] == j;
    }
    forall k | 0 <= k < |tried| ensures Picked(tried)[k] != j {
      assert tried[k].0 !in pool + [j];
    }
  }

  lemma TrackOneMore(moves: (Shard, Location) -> bool, at: seq<Location>, homes: seq<Location>, kept: multiset<Location>,
                     out: seq<Location>, pool: seq<Shard>, j: Shard, tried: seq<(Shard, Location)>, to: Location)
    requires Tracked(at, homes, kept, pool + [j], tried) && Logged(at, moves, out, pool + [j], tried)
    requires j < |at| && InRange(at, pool) && Aimed(tried)[to] < Deficit(kept, homes, to)
    ensures Tracked(at, homes, kept, pool, tried + [(j, to)])
  {
    AimedSnoc(tried, j, to);
    PickedOneMore(moves, at, out, pool, j, tried);
    AtSnoc(at, pool, j);
    AtSnoc(at, Picked(tried), j);
    assert At(at, pool) + At(at, Picked(tried) + [j]) == At(at, pool + [j]) + At(at, Picked(tried));
    WithinOneMore(Aimed(tried), kept, homes, to);
  }

  ghost predicate Moving(at: seq<Location>, homes: seq<Location>, kept: multiset<Location>, moves: (Shard, Location) -> bool,
                         out: seq<Location>, pool: seq<Shard>, moved: nat, failed: seq<Shard>, got: multiset<Location>,
                         tried: seq<(Shard, Location)>) {
    && Progress(at, homes, kept, out, pool, failed, got) && moved == |got|
    && (failed == [] <==> AllWorked(moves, tried))
    && Logged(at, moves, out, pool, tried)
    && Tracked(at, homes, kept, pool, tried)
  }

  lemma TryMove(at: seq<Location>, homes: seq<Location>, kept: multiset<Location>, moves: (Shard, Location) -> bool,
                out: seq<Location>, rest: seq<Shard>, j: Shard, moved: nat, failed: seq<Shard>, got: multiset<Location>,
                tried: seq<(Shard, Location)>, to: Location)
    requires Moving(at, homes, kept, moves, out, rest + [j], moved, failed, got, tried)
    requires got[to] < Deficit(kept, homes, to) && Aimed(tried)[to] < Deficit(kept, homes, to)
    ensures j < |at| && |out| == |at| && at[j] != to
    ensures moves(j, to) ==> Moving(at, homes, kept, moves, out[j := to], rest, moved + 1, failed, got + multiset{to}, tried + [(j, to)])
    ensures !moves(j, to) ==> Moving(at, homes, kept, moves, out, rest, moved, failed + [j], got, tried + [(j, to)])
  {
    MoveDone(at, homes, kept, out, rest, j, failed, got, to);
    MoveFailed(at, homes, kept, out, rest, j, failed, got);
    WorkedSnoc(moves, tried, j, to);
    WaitingPop(at, out, rest, j, kept, homes, to);
    LogOneMore(at, moves, out, rest, j, to, tried, if moves(j, to) then out[j := to] else out);
    TrackOneMore(moves, at, homes, kept, out, rest, j, tried, to);
  }

  /** What the pass has attempted so far: all attempts, the shards that stayed, and the
      locations that took one. */
  datatype Log = Log(failed: seq<Shard>, got: multiset<Location>, tried: seq<(Shard, Location)>)

  ghost predicate SameElsewhere(to: Location, a: multiset<Location>, b: multiset<Location>) {
    a[to := 0] == b[to := 0]
  }

  lemma ElsewhereOneMore(to: Location, a: multiset<Location>, b: multiset<Location>)
    requires SameElsewhere(to, a, b)
    ensures SameElsewhere(to, a + multiset{to}, b)
  {
    assert (a + multiset{to})[to := 0] == a[to := 0];
  }

  lemma ElsewhereAt(to: Location, a: multiset<Location>, b: multiset<Location>, loc: Location)
    requires SameElsewhere(to, a, b) && loc != to
    ensures a[loc] == b[loc]
  {
    assert a[to := 0][loc] == a[loc] && b[to := 0][loc] == b[loc];
  }

  /** `n` attempts at `to` since `pool0` and `log0`. */
  ghost predicate Filling(at: seq<Location>, homes: seq<Location>, kept: multiset<Location>, moves: (Shard, Location) -> bool,
                          to: Location, n: nat, out: seq<Location>, pool: seq<Shard>, moved: nat, log: Log,
                          pool0: seq<Shard>, log0: Log) {
    && Moving(at, homes, kept, moves, out, pool, moved, log.failed, log.got, log.tried)
    && SameElsewhere(to, log.got, log0.got) && SameElsewhere(to, Aimed(log.tried), Aimed(log0.tried))
    && log.got[to] <= n && (log.failed == [] ==> log0.failed == [] && log.got[to] == n)
    && Aimed(log.tried)[to] == n
    && (pool != [] ==> pool0 != [])
  }

  function LogMove(log: Log, j: Shard, to: Location, ok: bool): Log {
    if ok then Log(log.failed, log.got + multiset{to}, log.tried + [(j, to)])
    else Log(log.failed + [j], log.got, log.tried + [(j, to)])
  }

  lemma FillOne(at: seq<Location>, homes: seq<Location>, kept: multiset<Location>, moves: (Shard, Location) -> bool,
                to: Location, n: nat, out: seq<Location>, pool: seq<Shard>, rest: seq<Shard>, j: Shard, moved: nat, log: Log,
                pool0: seq<Shard>, log0: Log)
    requires Filling(at, homes, kept, moves, to, n, out, pool, moved, log, pool0, log0) && pool == rest + [j]
    requires n < Deficit(kept, homes, to)
    ensures j < |at| && |out| == |at|
    ensures var ok := MoveShard(moves, at[j], j, to);
      Filling(at, homes, kept, moves, to, n + 1, if ok then out[j := to] else out, rest, if ok then moved + 1 else moved,
              LogMove(log, j, to, ok), pool0, log0)
  {
    TryMove(at, homes, kept, moves, out, rest, j, moved, log.failed, log.got, log.tried, to);
    AimedSnoc(log.tried, j, to);
    ElsewhereOneMore(to, log.got, log0.got);
    ElsewhereOneMore(to, Aimed(log.tried), Aimed(log0.tried));
  }

  /** Take the last shard of the pool and try to move it to `to`. */
  method AttemptMove(at: seq<Location>, ghost homes: seq<Location>, ghost kept: multiset<Location>, moves: (Shard, Location) -> bool,
                     to: Location, ghost n: nat, out: seq<Location>, pool: seq<Shard>, moved: nat, ghost log: Log,
                     ghost pool0: seq<Shard>, ghost log0: Log)
    returns (out': seq<Location>, pool': seq<Shard>, moved': nat, ghost log': Log)
    requires Filling(at, homes, kept, moves, to, n, out, pool, moved, log, pool0, log0)
    requires pool != [] && n < Deficit(kept, homes, to)
    ensures Filling(at, homes, kept, moves, to, n + 1, out', pool', moved', log', pool0, log0)
    ensures |pool'| == |pool| - 1
  {
    var j := pool[|pool| - 1];
    pool' := pool[..|pool| - 1];
    FillOne(at, homes, kept, moves, to, n, out, pool, pool', j, moved, log, pool0, log0);
    var ok := MoveShard(moves, at[j], j, to);
    out', moved', log' := if ok then out[j := to] else out, if ok then moved + 1 else moved, LogMove(log, j, to, ok);
  }

  /** The moves towards one receiver. */
  method FillReceiver(at: seq<Location>, ghost homes: seq<Location>, ghost kept: multiset<Location>, moves: (Shard, Location) -> bool,
                      to: Location, have: nat, want: nat, out0: seq<Location>, pool0: seq<Shard>, moved0: nat, ghost log0: Log)
    returns (out: seq<Location>, pool: seq<Shard>, moved: nat, ghost log: Log, ghost n: nat)
    requires Filling(at, homes, kept, moves, to, 0, out0, pool0, moved0, log0, pool0, log0)
    requires have == kept[to] && want == multiset(homes)[to]
    ensures Filling(at, homes, kept, moves, to, n, out, pool, moved, log, pool0, log0)
    ensures pool != [] ==> n == Deficit(kept, homes, to)
  {
    out, pool, moved, log, n := out0, pool0, moved0, log0, 0;
    var i := have;
    while i < want && pool != []
      invariant have <= i && (i <= want || i == have) && n == i - have
      invariant Filling(at, homes, kept, moves, to, n, out, pool, moved, log, pool0, log0)
      decreases want - i
    {
      out, pool, moved, log := AttemptMove(at, homes, kept, moves, to, n, out, pool, moved, log, pool0, log0);
      i, n := i + 1, n + 1;
    }
  }

  // ── One chunk ──────────────────────────────────────────────────────────────

  ghost predicate KeepsOf(at: seq<Location>, homes: seq<Location>, ids: seq<nat>, kept: multiset<Location>) {
    forall loc :: kept[loc] == Keeps(at, homes, ids, loc)
  }

  /** Every location with too many shards can be asked to give some up. */
  ghost predicate DonorsReachable(at: seq<Location>, homes: seq<Location>, ids: seq<nat>) {
    forall loc :: multiset(at)[loc] > multiset(homes)[loc] ==> Reachable(ids, loc)
  }

  /** Either the pool ran dry or every receiver got what it wanted. */
  ghost predicate Served(homes: seq<Location>, kept: multiset<Location>, receivers: seq<Location>, n: nat, pool: seq<Shard>,
                         failed: seq<Shard>, got: multiset<Location>)
    requires n <= |receivers|
  {
    && (forall i :: n <= i < |receivers| ==> got[receivers[i]] == 0)
    && (pool != [] && failed == [] ==> forall i :: 0 <= i < n ==> got[receivers[i]] == Deficit(kept, homes, receivers[i]))
  }

  /** Either the pool ran dry or every receiver was aimed at as often as it lacked shards. */
  ghost predicate Targeted(homes: seq<Location>, kept: multiset<Location>, receivers: seq<Location>, n: nat, pool: seq<Shard>,
                           aimed: multiset<Location>)
    requires n <= |receivers|
  {
    && (forall i :: n <= i < |receivers| ==> aimed[receivers[i]] == 0)
    && (pool != [] ==> forall i :: 0 <= i < n ==> aimed[receivers[i]] == Deficit(kept, homes, receivers[i]))
  }

  lemma TargetedStep(homes: seq<Location>, kept: multiset<Location>, receivers: seq<Location>, n: nat, pool0: seq<Shard>,
                     aimed0: multiset<Location>, pool: seq<Shard>, aimed: multiset<Location>)
    requires n < |receivers| && Distinct(receivers) && Targeted(homes, kept, receivers, n, pool0, aimed0)
    requires forall loc :: loc != receivers[n] ==> aimed[loc] == aimed0[loc]
    requires pool != [] ==> pool0 != [] && aimed[receivers[n]] == Deficit(kept, homes, receivers[n])
    ensures Targeted(homes, kept, receivers, n + 1, pool, aimed)
  {
  }

  /** How many shards `loc` is short of. */
  ghost function Lack(at: seq<Location>, homes: seq<Location>, loc: Location): nat {
    if multiset(at)[loc] < multiset(homes)[loc] then multiset(homes)[loc] - multiset(at)[loc] else 0
  }

  /** How many shards `loc` can be relieved of. */
  ghost function Spare(at: seq<Location>, homes: seq<Location>, ids: seq<nat>, loc: Location): nat {
    if Reachable(ids, loc) && multiset(at)[loc] > multiset(homes)[loc] then multiset(at)[loc] - multiset(homes)[loc] else 0
  }

  /** What a pass attempts: different shards, no more from a location than it can spare, no
      more for a location than it lacks, and all that can be spared or all that is lacking. */
  ghost predicate Attempts(at: seq<Location>, homes: seq<Location>, ids: seq<nat>, tried: seq<(Shard, Location)>) {
    && InRange(at, Picked(tried)) && Distinct(Picked(tried))
    && (forall loc :: At(at, Picked(tried))[loc] <= Spare(at, homes, ids, loc))
    && (forall loc :: Aimed(tried)[loc] <= Lack(at, homes, loc))
    && ((forall loc :: At(at, Picked(tried))[loc] == Spare(at, homes, ids, loc))
        || (forall loc :: Aimed(tried)[loc] == Lack(at, homes, loc)))
  }

  lemma AttemptsComplete(at: seq<Location>, homes: seq<Location>, ids: seq<nat>, kept: multiset<Location>,
                         receivers: seq<Location>, pool: seq<Shard>, tried: seq<(Shard, Location)>)
    requires Tracked(at, homes, kept, pool, tried) && KeepsOf(at, homes, ids, kept)
    requires Targeted(homes, kept, receivers, |receivers|, pool, Aimed(tried)) && forall h :: h in homes ==> h in receivers
    ensures Attempts(at, homes, ids, tried)
  {
    var taken := At(at, Picked(tried));
    forall loc ensures taken[loc] <= Spare(at, homes, ids, loc) && (pool == [] ==> taken[loc] == Spare(at, homes, ids, loc))
                    && Deficit(kept, homes, loc) == Lack(at, homes, loc)
    {
      assert kept[loc] == Keeps(at, homes, ids, loc);
      assert (At(at, pool) + taken)[loc] == (multiset(at) - kept)[loc];
    }
    if pool != [] {
      forall loc ensures Aimed(tried)[loc] == Lack(at, homes, loc) {
        if loc in homes {
          var i :| 0 <= i < |receivers| && receivers[i] == loc;
          assert Aimed(tried)[receivers[i]] == Deficit(kept, homes, receivers[i]);
        } else {
          assert multiset(homes)[loc] == 0;
        }
      }
    }
  }

  lemma NeverAbove(at: seq<Location>, homes: seq<Location>, ids: seq<nat>, kept: multiset<Location>, out: seq<Location>,
                   pool: seq<Shard>, failed: seq<Shard>, got: multiset<Location>, loc: Location)
    requires Progress(at, homes, kept, out, pool, failed, got) && KeepsOf(at, homes, ids, kept)
    ensures multiset(out)[loc] <= Max(multiset(at)[loc], multiset(homes)[loc])
  {
    var gone := At(at, pool) + At(at, failed);
    assert gone[loc] <= (multiset(at) - kept)[loc];
    assert multiset(out)[loc] == kept[loc] + gone[loc] + got[loc];
    assert kept[loc] == Keeps(at, homes, ids, loc);
    assert got[loc] <= Deficit(kept, homes, loc);
  }

  /** A shard that was picked up and not moved leaves its location above target. */
  lemma LeftoverExceeds(at: seq<Location>, homes: seq<Location>, ids: seq<nat>, kept: multiset<Location>, out: seq<Location>,
                        pool: seq<Shard>, failed: seq<Shard>, got: multiset<Location>)
    requires Progress(at, homes, kept, out, pool, failed, got) && KeepsOf(at, homes, ids, kept)
    requires multiset(out) == multiset(homes)
    ensures pool == [] && failed == []
  {
    var gone := At(at, pool) + At(at, failed);
    forall loc ensures gone[loc] == 0 {
      assert gone[loc] <= (multiset(at) - kept)[loc];
      assert multiset(out)[loc] == kept[loc] + gone[loc] + got[loc];
      assert kept[loc] == Keeps(at, homes, ids, loc);
    }
    AtSize(at, pool);
    AtSize(at, failed);
    assert gone == multiset{};
    assert |gone| == |At(at, pool)| + |At(at, failed)|;
  }

  lemma ReachedIff(at: seq<Location>, homes: seq<Location>, ids: seq<nat>, kept: multiset<Location>, out: seq<Location>,
                   receivers: seq<Location>, pool: seq<Shard>, failed: seq<Shard>, got: multiset<Location>)
    requires Progress(at, homes, kept, out, pool, failed, got) && KeepsOf(at, homes, ids, kept)
    requires Served(homes, kept, receivers, |receivers|, pool, failed, got)
    requires forall h :: h in homes ==> h in receivers
    requires |at| == |homes|
    ensures multiset(out) == multiset(homes) <==> DonorsReachable(at, homes, ids) && failed == []
  {
    if multiset(out) == multiset(homes) {
      LeftoverExceeds(at, homes, ids, kept, out, pool, failed, got);
      forall loc | multiset(at)[loc] > multiset(homes)[loc] ensures Reachable(ids, loc) {
        assert kept[loc] == Keeps(at, homes, ids, loc);
        assert multiset(out)[loc] >= kept[loc];
      }
    }
    if DonorsReachable(at, homes, ids) && failed == [] {
      if pool == [] {
        forall loc ensures multiset(out)[loc] <= multiset(homes)[loc] {
          assert kept[loc] == Keeps(at, homes, ids, loc);
          assert got[loc] <= Deficit(kept, homes, loc);
        }
        SameSize(multiset(out), multiset(homes));
      } else {
        forall loc ensures multiset(homes)[loc] <= multiset(out)[loc] {
          if loc in homes {
            var i :| 0 <= i < |receivers| && receivers[i] == loc;
            assert got[loc] == Deficit(kept, homes, loc);
          }
        }
        SameSize(multiset(homes), multiset(out));
      }
    }
  }

  /** Reaching the target costs exactly the excess. */
  lemma MovesTheExcess(at: seq<Location>, homes: seq<Location>, ids: seq<nat>, kept: multiset<Location>, out: seq<Location>,
                       pool: seq<Shard>, failed: seq<Shard>, got: multiset<Location>)
    requires Progress(at, homes, kept, out, pool, failed, got) && KeepsOf(at, homes, ids, kept)
    requires |at| == |homes| && multiset(out) == multiset(homes)
    ensures |got| == |multiset(at) - multiset(homes)|
  {
    LeftoverExceeds(at, homes, ids, kept, out, pool, failed, got);
    var extra := multiset(at) - multiset(homes);
    forall loc ensures multiset(at)[loc] == kept[loc] + extra[loc] {
      assert kept[loc] == Keeps(at, homes, ids, loc);
      assert multiset(out)[loc] >= kept[loc];
    }
    assert multiset(at) == kept + extra;
    assert multiset(out) == kept + got;
    assert |kept + extra| == |kept| + |extra| && |kept + got| == |kept| + |got|;
  }

  lemma AtTarget(at: seq<Location>, homes: seq<Location>, ids: seq<nat>, kept: multiset<Location>, out: seq<Location>,
                 pool: seq<Shard>, failed: seq<Shard>, got: multiset<Location>)
    requires Progress(at, homes, kept, out, pool, failed, got) && KeepsOf(at, homes, ids, kept)
    requires multiset(at) == multiset(homes)
    ensures out == at && got == multiset{}
  {
    forall loc ensures got[loc] == 0 {
      assert kept[loc] == Keeps(at, homes, ids, loc);
      assert got[loc] <= Deficit(kept, homes, loc);
    }
    assert got == multiset{};
    assert Changed(at, out) == {};
    forall j: nat | j < |at| ensures out[j] == at[j] {
      assert j !in Changed(at, out);
    }
  }

  /** No way of re-homing the shards reaches a given spread with fewer moves than the
      excess over it. */
  lemma {:induction false} FewestMoves(at: seq<Location>, b: seq<Location>)
    requires |at| == |b|
    ensures |multiset(at) - multiset(b)| <= |Changed(at, b)|
  {
    if at != [] {
      var n := |at| - 1;
      var at', b' := at[..n], b[..n];
      FewestMoves(at', b');
      ExcessSnoc(multiset(at'), multiset(b'), at[n], b[n]);
      ChangedSnoc(at, b, at', b');
      SnocMultiset(at);
      SnocMultiset(b);
    } else {
      assert multiset(at) - multiset(b) == multiset{};
    }
  }

  lemma SnocMultiset(s: seq<Location>)
    requires s != []
    ensures multiset(s) == multiset(s[..|s| - 1]) + multiset{s[|s| - 1]}
  {
    assert s == s[..|s| - 1] + [s[|s| - 1]];
  }

  lemma ChangedSnoc(at: seq<Location>, b: seq<Location>, at': seq<Location>, b': seq<Location>)
    requires |at| == |b| == |at'| + 1 == |b'| + 1 && at[..|at'|] == at' && b[..|at'|] == b'
    ensures |Changed(at, b)| == |Changed(at', b')| + if at[|at'|] == b[|at'|] then 0 else 1
  {
    var n := |at'|;
    var now, before := Changed(at, b), Changed(at', b');
    forall j: nat ensures j in now - {n} <==> j in before {
      if j < n {
        assert at[..n][j] == at'[j] && b[..n][j] == b'[j];
      }
    }
    assert now - {n} == before;
  }

  lemma ExcessSnoc(a: multiset<Location>, b: multiset<Location>, x: Location, y: Location)
    ensures |(a + multiset{x}) - (b + multiset{y})| <= |a - b| + if x == y then 0 else 1
  {
    var d := (a + multiset{x}) - (b + multiset{y});
    var e := if x == y then a - b else (a - b) + multiset{x};
    assert d <= e;
    assert e == d + (e - d) && |d + (e - d)| == |d| + |e - d|;
    assert |(a - b) + multiset{x}| == |a - b| + 1;
  }

  /** What a pass does to one chunk: no location ends above what it had or should have,
      the target is reached exactly when no donor is out of reach and no attempted move
      failed, and then with as few moves as possible. */
  ghost predicate Rebalanced(at: seq<Location>, homes: seq<Location>, ids: seq<nat>, moves: (Shard, Location) -> bool,
                             out: seq<Location>, moved: nat, tried: seq<(Shard, Location)>) {
    && Logged(at, moves, out, [], tried) && Attempts(at, homes, ids, tried)
    && |Changed(at, out)| == moved
    && (forall loc :: multiset(out)[loc] <= Max(multiset(at)[loc], multiset(homes)[loc]))
    && (multiset(at) == multiset(homes) ==> out == at)
    && (|at| == |homes| ==>
          (multiset(out) == multiset(homes) <==> DonorsReachable(at, homes, ids) && AllWorked(moves, tried)))
    && (|at| == |homes| && multiset(out) == multiset(homes) ==> moved == |multiset(at) - multiset(homes)|)
  }

  function Receivers(ids: seq<nat>): (r: seq<Location>)
    ensures |r| == |ids| + 1
    ensures forall h: Location :: Reachable(ids, h) ==> h in r
    ensures Distinct(ids) ==> Distinct(r)
  {
    var peers := seq(|ids|, i requires 0 <= i < |ids| => Peer(ids[i]));
    assert forall i :: 0 <= i < |ids| ==> ([Local] + peers)[i + 1] == Peer(ids[i]);
    [Local] + peers
  }

  lemma KeptAt(at: seq<Location>, current: map<Location, seq<Shard>>, pooled: multiset<Location>, loc: Location)
    requires Counted(at, current, pooled)
    ensures (multiset(at) - pooled)[loc] == |Listed(current, loc)|
    ensures (multiset(at) - pooled)[loc] + pooled[loc] == multiset(at)[loc]
  {
    assert |Listed(current, loc)| + pooled[loc] == multiset(at)[loc];
  }

  lemma KeptCounts(at: seq<Location>, homes: seq<Location>, ids: seq<nat>, current: map<Location, seq<Shard>>,
                   pooled: multiset<Location>)
    requires Counted(at, current, pooled) && Donated(at, homes, ids, current, {})
    ensures KeepsOf(at, homes, ids, multiset(at) - pooled)
    ensures forall loc :: |Listed(current, loc)| == (multiset(at) - pooled)[loc]
    ensures multiset(at) == (multiset(at) - pooled) + pooled
    ensures pooled <= multiset(at) - (multiset(at) - pooled)
  {
    forall loc ensures (multiset(at) - pooled)[loc] == |Listed(current, loc)| == Keeps(at, homes, ids, loc)
                    && (multiset(at) - pooled)[loc] + pooled[loc] == multiset(at)[loc]
    {
      KeptAt(at, current, pooled, loc);
    }
  }

  lemma StartMoving(at: seq<Location>, homes: seq<Location>, ids: seq<nat>, pool: seq<Shard>, kept: multiset<Location>,
                    moves: (Shard, Location) -> bool)
    requires InRange(at, pool) && Distinct(pool) && KeepsOf(at, homes, ids, kept)
    requires multiset(at) == kept + At(at, pool)
    ensures Moving(at, homes, kept, moves, at, pool, 0, [], multiset{}, [])
  {
    forall k | 0 <= k < |pool| ensures Deficit(kept, homes, at[pool[k]]) == 0 {
      AtHas(at, pool, k);
      assert kept[at[pool[k]]] == Keeps(at, homes, ids, at[pool[k]]);
    }
    assert Changed(at, at) == {};
    assert Picked([]) == [];
  }

  lemma ServedStep(homes: seq<Location>, kept: multiset<Location>, receivers: seq<Location>, n: nat, pool0: seq<Shard>,
                   failed0: seq<Shard>, got0: multiset<Location>, pool: seq<Shard>, failed: seq<Shard>, got: multiset<Location>)
    requires n < |receivers| && Distinct(receivers) && Served(homes, kept, receivers, n, pool0, failed0, got0)
    requires forall loc :: loc != receivers[n] ==> got[loc] == got0[loc]
    requires pool != [] ==> pool0 != [] && (failed == [] ==> failed0 == [] && got[receivers[n]] == Deficit(kept, homes, receivers[n]))
    ensures Served(homes, kept, receivers, n + 1, pool, failed, got)
  {
  }

  /** One receiver done: what the loop over the receivers carries on. */
  lemma ReceiverDone(at: seq<Location>, homes: seq<Location>, kept: multiset<Location>, moves: (Shard, Location) -> bool,
                     receivers: seq<Location>, i: nat, n: nat, out: seq<Location>, pool: seq<Shard>, moved: nat, log: Log,
                     pool0: seq<Shard>, log0: Log)
    requires i < |receivers| && Distinct(receivers)
    requires Filling(at, homes, kept, moves, receivers[i], n, out, pool, moved, log, pool0, log0)
    requires pool != [] ==> n == Deficit(kept, homes, receivers[i])
    requires Served(homes, kept, receivers, i, pool0, log0.failed, log0.got)
    requires Targeted(homes, kept, receivers, i, pool0, Aimed(log0.tried))
    ensures Served(homes, kept, receivers, i + 1, pool, log.failed, log.got)
    ensures Targeted(homes, kept, receivers, i + 1, pool, Aimed(log.tried))
  {
    forall loc | loc != receivers[i] ensures log.got[loc] == log0.got[loc] && Aimed(log.tried)[loc] == Aimed(log0.tried)[loc] {
      ElsewhereAt(receivers[i], log.got, log0.got, loc);
      ElsewhereAt(receivers[i], Aimed(log.tried), Aimed(log0.tried), loc);
    }
    ServedStep(homes, kept, receivers, i, pool0, log0.failed, log0.got, pool, log.failed, log.got);
    TargetedStep(homes, kept, receivers, i, pool0, Aimed(log0.tried), pool, Aimed(log.tried));
  }

  lemma ReceiverNext(at: seq<Location>, homes: seq<Location>, kept: multiset<Location>, moves: (Shard, Location) -> bool,
                     receivers: seq<Location>, i: nat, out: seq<Location>, pool: seq<Shard>, moved: nat, log: Log)
    requires i < |receivers| && Moving(at, homes, kept, moves, out, pool, moved, log.failed, log.got, log.tried)
    requires Served(homes, kept, receivers, i, pool, log.failed, log.got)
    requires Targeted(homes, kept, receivers, i, pool, Aimed(log.tried))
    ensures Filling(at, homes, kept, moves, receivers[i], 0, out, pool, moved, log, pool, log)
  {
  }

  method MoveTowards(at: seq<Location>, homes: seq<Location>, target: map<Location, nat>, ids: seq<nat>,
                     moves: (Shard, Location) -> bool)
    returns (out: seq<Location>, moved: nat, ghost tried: seq<(Shard, Location)>)
    requires Distinct(ids) && forall h :: h in homes ==> Reachable(ids, h)
    requires Tallies(target, homes)
    ensures Rebalanced(at, homes, ids, moves, out, moved, tried)
  {
    var current, pool := CollectDonors(at, homes, target, ids);
    ghost var kept := multiset(at) - At(at, pool);
    KeptCounts(at, homes, ids, current, At(at, pool));
    StartMoving(at, homes, ids, pool, kept, moves);
    ghost var log := Log([], multiset{}, []);
    out, moved := at, 0;
    var receivers := Receivers(ids);
    for i := 0 to |receivers|
      invariant Moving(at, homes, kept, moves, out, pool, moved, log.failed, log.got, log.tried)
      invariant Served(homes, kept, receivers, i, pool, log.failed, log.got)
      invariant Targeted(homes, kept, receivers, i, pool, Aimed(log.tried))
    {
      var loc := receivers[i];
      ReceiverNext(at, homes, kept, moves, receivers, i, out, pool, moved, log);
      ghost var pool0, log0 := pool, log;
      ghost var n;
      out, pool, moved, log, n := FillReceiver(at, homes, kept, moves, loc, |Listed(current, loc)|, Get(target, loc), out, pool, moved, log);
      ReceiverDone(at, homes, kept, moves, receivers, i, n, out, pool, moved, log, pool0, log0);
    }
    tried := log.tried;
    AttemptsComplete(at, homes, ids, kept, receivers, pool, tried);
    Conclude(at, homes, ids, kept, out, receivers, pool, log.failed, log.got, moves, tried);
  }

  lemma Conclude(at: seq<Location>, homes: seq<Location>, ids: seq<nat>, kept: multiset<Location>, out: seq<Location>,
                 receivers: seq<Location>, pool: seq<Shard>, failed: seq<Shard>, got: multiset<Location>,
                 moves: (Shard, Location) -> bool, tried: seq<(Shard, Location)>)
    requires Progress(at, homes, kept, out, pool, failed, got) && KeepsOf(at, homes, ids, kept)
    requires Served(homes, kept, receivers, |receivers|, pool, failed, got)
    requires forall h :: h in homes ==> h in receivers
    requires failed == [] <==> AllWorked(moves, tried)
    requires Logged(at, moves, out, pool, tried) && Attempts(at, homes, ids, tried)
    ensures Rebalanced(at, homes, ids, moves, out, |got|, tried)
  {
    forall loc ensures multiset(out)[loc] <= Max(multiset(at)[loc], multiset(homes)[loc]) {
      NeverAbove(at, homes, ids, kept, out, pool, failed, got, loc);
    }
    if multiset(at) == multiset(homes) {
      AtTarget(at, homes, ids, kept, out, pool, failed, got);
    }
    if |at| == |homes| {
      ReachedIff(at, homes, ids, kept, out, receivers, pool, failed, got);
      if multiset(out) == multiset(homes) {
        MovesTheExcess(at, homes, ids, kept, out, pool, failed, got);
      }
    }
  }

  /** An attempt takes a shard from a location with some to spare to one that lacks some. */
  lemma AttemptIsSensible(at: seq<Location>, homes: seq<Location>, ids: seq<nat>, tried: seq<(Shard, Location)>, k: nat)
    requires Attempts(at, homes, ids, tried) && k < |tried|
    ensures tried[k].0 < |at| && Spare(at, homes, ids, at[tried[k].0]) > 0 && Lack(at, homes, tried[k].1) > 0
  {
    AtHas(at, Picked(tried), k);
    AimedHas(tried, k);
    assert Picked(tried)[k] == tried[k].0;
  }

  lemma {:induction false} AimedHas(tried: seq<(Shard, Location)>, k: nat)
    requires k < |tried|
    ensures Aimed(tried)[tried[k].1] > 0
  {
    if k < |tried| - 1 {
      AimedHas(tried[..|tried| - 1], k);
    }
  }

  /** Every move that could help would work. */
  ghost predicate UsefulMovesWork(at: seq<Location>, homes: seq<Location>, ids: seq<nat>, moves: (Shard, Location) -> bool) {
    forall j: nat, to :: j < |at| && Spare(at, homes, ids, at[j]) > 0 && Lack(at, homes, to) > 0 ==> moves(j, to)
  }

  // ── The whole pass ─────────────────────────────────────────────────────────

  /** The shards still there once `loc` is gone. */
  ghost function Remaining(at: seq<Location>, loc: Location): set<nat> {
    set j: nat | j < |at| && at[j] != loc
  }

  lemma {:induction false} RemainingCount(at: seq<Location>, loc: Location)
    ensures |Remaining(at, loc)| == |at| - multiset(at)[loc]
  {
    if at == [] {
      assert Remaining(at, loc) == {};
    } else {
      var n := |at| - 1;
      var most := at[..n];
      RemainingCount(most, loc);
      SnocCount(at, most, at[n], loc);
      var now, before := Remaining(at, loc), Remaining(most, loc);
      forall j: nat ensures j in now - {n} <==> j in before {
        if j < n {
          assert at[j] == at[..n][j];
        }
      }
      assert now - {n} == before;
    }
  }

  ghost predicate SurvivesAnyLoss(at: seq<Location>) {
    forall loc :: |Remaining(at, loc)| >= DATA_SHARDS
  }

  /** A full chunk spread like today's plan survives the loss of any one location
      exactly when at least three peers are live: with fewer, the owner carries more
      than the parity. */
  lemma SpreadSurvivesIff(ids: seq<nat>, layout: seq<P.Location>, out: seq<Location>)
    requires Distinct(ids) && |layout| == TOTAL_SHARDS
    requires forall k :: 0 <= k < |layout| ==> P.SlotOf(layout[k]) <= |ids|
    requires P.PeerCapped(P.Counts(layout, |ids|), PARITY_SHARDS)
    requires ZoneGreedy.Size(P.Counts(layout, |ids|)) == TOTAL_SHARDS
    requires multiset(out) == multiset(Homes(ids, layout))
    ensures SurvivesAnyLoss(out) <==> |ids| >= 3
  {
    var homes, c := Homes(ids, layout), P.Counts(layout, |ids|);
    assert |multiset(out)| == |out| && |multiset(homes)| == |homes|;
    P.OwnerOverflowsIff(c, PARITY_SHARDS);
    HomesCount(ids, layout, None);
    assert P.LocationOf(0) == None && c[0] == multiset(homes)[Local];
    RemainingCount(out, Local);
    if |ids| >= 3 {
      forall loc ensures |Remaining(out, loc)| >= DATA_SHARDS {
        RemainingCount(out, loc);
        if loc.Peer? && loc.id in ids {
          var i :| 0 <= i < |ids| && ids[i] == loc.id;
          HomesCount(ids, layout, Some(i));
          assert P.LocationOf(i + 1) == Some(i) && c[i + 1] == multiset(homes)[loc];
        } else if loc.Peer? {
          HomesReachable(ids, layout);
          assert loc !in homes;
        }
      }
    } else {
      assert |Remaining(out, Local)| < DATA_SHARDS;
    }
  }

  /** The first `n` chunks kept their number of shards. */
  ghost predicate SameShape(chunks: seq<seq<Location>>, outs: seq<seq<Location>>, n: nat) {
    n <= |chunks| && n <= |outs| && forall c :: 0 <= c < n ==> |chunks[c]| == |outs[c]|
  }

  ghost function ShardsMoved(chunks: seq<seq<Location>>, outs: seq<seq<Location>>, n: nat): nat
    requires SameShape(chunks, outs, n)
  {
    if n == 0 then 0 else ShardsMoved(chunks, outs, n - 1) + |Changed(chunks[n - 1], outs[n - 1])|
  }

  lemma {:induction false} ShardsMovedFrame(chunks: seq<seq<Location>>, outs: seq<seq<Location>>, out: seq<Location>, n: nat)
    requires SameShape(chunks, outs, n)
    ensures SameShape(chunks, outs + [out], n)
    ensures ShardsMoved(chunks, outs + [out], n) == ShardsMoved(chunks, outs, n)
  {
    if n > 0 {
      ShardsMovedFrame(chunks, outs, out, n - 1);
    }
  }

  lemma {:induction false} NothingMoved(chunks: seq<seq<Location>>, n: nat)
    requires n <= |chunks|
    ensures ShardsMoved(chunks, chunks, n) == 0
  {
    if n > 0 {
      NothingMoved(chunks, n - 1);
      assert Changed(chunks[n - 1], chunks[n - 1]) == {};
    }
  }

  /** A chunk that reached the target is as safe as the target. */
  lemma ReachedIsAsSafe(out: seq<Location>, homes: seq<Location>)
    requires multiset(out) == multiset(homes)
    ensures SurvivesAnyLoss(out) <==> SurvivesAnyLoss(homes)
  {
    assert |out| == |multiset(out)| == |multiset(homes)| == |homes|;
    forall loc ensures |Remaining(out, loc)| == |Remaining(homes, loc)| {
      RemainingCount(out, loc);
      RemainingCount(homes, loc);
    }
  }

  /** The spread to aim for, as today's live peers suggest it. */
  ghost predicate TargetSpread(ids: seq<nat>, homes: seq<Location>) {
    && |homes| == TOTAL_SHARDS
    && (forall h :: h in homes ==> Reachable(ids, h))
    && (SurvivesAnyLoss(homes) <==> |ids| >= 3)
  }

  /** What the planner promises of `layout`. */
  ghost predicate IsPlan(peers: seq<P.PeerCandidate>, layout: seq<P.Location>) {
    var keys, c := P.Keys(peers, None), P.Counts(layout, |peers|);
    && |layout| == TOTAL_SHARDS && (forall k :: 0 <= k < |layout| ==> P.SlotOf(layout[k]) <= |peers|)
    && P.PeerCapped(c, PARITY_SHARDS)
    && (ZoneGreedy.Obeys(keys, PARITY_SHARDS, c) <==> TOTAL_SHARDS <= PARITY_SHARDS * |ZoneGreedy.Zones(keys)|)
    && (P.ZonesCapped(peers, None, layout, PARITY_SHARDS) <==> TOTAL_SHARDS <= PARITY_SHARDS * P.ZoneCount(peers, None))
    && P.CheapestPrefixes(keys, P.BasePrices(peers), PARITY_SHARDS, layout)
  }

  /** The planner's own layout, with peer positions replaced by peer ids. */
  method PlanTarget(peers: seq<P.PeerCandidate>, ids: seq<nat>)
    returns (homes: seq<Location>, target: map<Location, nat>, layout: seq<P.Location>)
    requires |ids| == |peers| && Distinct(ids)
    ensures IsPlan(peers, layout) && homes == Homes(ids, layout)
    ensures TargetSpread(ids, homes)
    ensures Tallies(target, homes)
  {
    layout := P.PlanPlacementZoned(peers, None, TOTAL_SHARDS, PARITY_SHARDS);
    homes := Homes(ids, layout);
    HomesReachable(ids, layout);
    SpreadSurvivesIff(ids, layout, homes);
    target := TargetCounts(homes);
  }

  // ── Losing a zone ──────────────────────────────────────────────────────────

  /** Is `loc` in the zone labelled `z`?  A peer we do not know is in no zone of ours. */
  ghost predicate InZone(peers: seq<P.PeerCandidate>, ids: seq<nat>, loc: Location, z: string)
    requires |ids| == |peers|
  {
    match loc
    case Local => z == "@self"
    case Peer(id) => exists i :: 0 <= i < |ids| && ids[i] == id && peers[i].zone == Some(z)
  }

  /** The shards of a chunk that survive the loss of the zone labelled `z`. */
  ghost function ZoneSurvivors(peers: seq<P.PeerCandidate>, ids: seq<nat>, out: seq<Location>, z: string): set<nat>
    requires |ids| == |peers|
  {
    set k: nat | k < |out| && !InZone(peers, ids, out[k], z)
  }

  lemma {:induction false} SurvivorsWithout(peers: seq<P.PeerCandidate>, ids: seq<nat>, out: seq<Location>, z: string, k: nat)
    requires |ids| == |peers| && k < |out|
    ensures |ZoneSurvivors(peers, ids, out, z)|
         == |ZoneSurvivors(peers, ids, out[..k] + out[k + 1..], z)| + if InZone(peers, ids, out[k], z) then 0 else 1
    decreases |out|
  {
    var n := |out| - 1;
    var rest := out[..k] + out[k + 1..];
    var now, before := ZoneSurvivors(peers, ids, out, z), ZoneSurvivors(peers, ids, out[..n], z);
    assert out == out[..n] + [out[n]];
    assert now == if InZone(peers, ids, out[n], z) then before else before + {n};
    if k == n {
      assert rest == out[..n];
    } else {
      SurvivorsWithout(peers, ids, out[..n], z, k);
      var less := out[..n][..k] + out[..n][k + 1..];
      assert rest == less + [out[n]];
      var r, l := ZoneSurvivors(peers, ids, rest, z), ZoneSurvivors(peers, ids, less, z);
      assert r == if InZone(peers, ids, out[n], z) then l else l + {n - 1};
    }
  }

  lemma RemoveOne(s: seq<Location>, k: nat, x: Location)
    requires k < |s| && s[k] == x
    ensures multiset(s[..k] + s[k + 1..]) == multiset(s) - multiset{x}
  {
    assert s == s[..k] + [x] + s[k + 1..];
  }

  /** Only the counts per location matter. */
  lemma {:induction false} SurvivorsPermute(peers: seq<P.PeerCandidate>, ids: seq<nat>, a: seq<Location>, b: seq<Location>, z: string)
    requires |ids| == |peers| && multiset(a) == multiset(b)
    ensures |ZoneSurvivors(peers, ids, a, z)| == |ZoneSurvivors(peers, ids, b, z)|
    decreases |a|
  {
    if a == [] {
      assert |multiset(b)| == 0;
    } else {
      var n, x := |a| - 1, a[|a| - 1];
      assert x in multiset(b);
      var k :| 0 <= k < |b| && b[k] == x;
      RemoveOne(a, n, x);
      RemoveOne(b, k, x);
      SurvivorsWithout(peers, ids, a, z, n);
      SurvivorsWithout(peers, ids, b, z, k);
      SurvivorsPermute(peers, ids, a[..n] + a[n + 1..], b[..k] + b[k + 1..], z);
    }
  }

  lemma SurvivorsOfHomes(peers: seq<P.PeerCandidate>, ids: seq<nat>, layout: seq<P.Location>, z: string)
    requires |ids| == |peers| && Distinct(ids) && forall k :: 0 <= k < |layout| ==> P.SlotOf(layout[k]) <= |ids|
    requires z != ""
    ensures ZoneSurvivors(peers, ids, Homes(ids, layout), z) == P.Outside(peers, None, layout, z)
  {
    forall k | 0 <= k < |layout|
      ensures InZone(peers, ids, Homes(ids, layout)[k], z) <==> P.InZone(peers, None, layout[k], z)
    {
    }
  }

  /** With as many zones as the total needs, a chunk that reached the target survives the
      loss of any one zone. */
  lemma ReachedSurvivesZones(peers: seq<P.PeerCandidate>, ids: seq<nat>, layout: seq<P.Location>, out: seq<Location>, z: string)
    requires |ids| == |peers| && Distinct(ids) && IsPlan(peers, layout) && z != ""
    requires multiset(out) == multiset(Homes(ids, layout))
    requires TOTAL_SHARDS <= PARITY_SHARDS * P.ZoneCount(peers, None)
    ensures |ZoneSurvivors(peers, ids, out, z)| >= DATA_SHARDS
  {
    SurvivorsPermute(peers, ids, out, Homes(ids, layout), z);
    SurvivorsOfHomes(peers, ids, layout, z);
    P.ZoneLossSurvivable(peers, None, layout, PARITY_SHARDS);
  }

  ghost predicate ChunkRebalanced(at: seq<Location>, homes: seq<Location>, ids: seq<nat>, moves: (Shard, Location) -> bool,
                                  out: seq<Location>) {
    |out| == |at| && exists tried :: Rebalanced(at, homes, ids, moves, out, |Changed(at, out)|, tried)
  }

  /** What can be checked beforehand: with all donors reachable and all useful moves
      possible the target is reached, and with a donor out of reach it is not. */
  lemma ReachedWhenPossible(at: seq<Location>, homes: seq<Location>, ids: seq<nat>, moves: (Shard, Location) -> bool,
                            out: seq<Location>)
    requires ChunkRebalanced(at, homes, ids, moves, out) && |at| == |homes|
    ensures DonorsReachable(at, homes, ids) && UsefulMovesWork(at, homes, ids, moves) ==> multiset(out) == multiset(homes)
    ensures !DonorsReachable(at, homes, ids) ==> multiset(out) != multiset(homes)
  {
    var tried: seq<(Shard, Location)> :| Rebalanced(at, homes, ids, moves, out, |Changed(at, out)|, tried);
    if UsefulMovesWork(at, homes, ids, moves) {
      forall k | 0 <= k < |tried| ensures moves(tried[k].0, tried[k].1) {
        AttemptIsSensible(at, homes, ids, tried, k);
      }
    }
  }

  ghost predicate AllRebalanced(chunks: seq<seq<Location>>, homes: seq<Location>, ids: seq<nat>,
                                moves: nat -> (Shard, Location) -> bool, outs: seq<seq<Location>>)
    requires |outs| <= |chunks|
  {
    forall c {:trigger ChunkRebalanced(chunks[c], homes, ids, moves(c), outs[c])} ::
      0 <= c < |outs| ==> ChunkRebalanced(chunks[c], homes, ids, moves(c), outs[c])
  }

  lemma OneMoreRebalanced(chunks: seq<seq<Location>>, homes: seq<Location>, ids: seq<nat>,
                          moves: nat -> (Shard, Location) -> bool, outs: seq<seq<Location>>, out: seq<Location>)
    requires |outs| < |chunks| && AllRebalanced(chunks, homes, ids, moves, outs)
    requires ChunkRebalanced(chunks[|outs|], homes, ids, moves(|outs|), out)
    ensures AllRebalanced(chunks, homes, ids, moves, outs + [out])
  {
    var after := outs + [out];
    forall c | 0 <= c < |after| ensures ChunkRebalanced(chunks[c], homes, ids, moves(c), after[c]) {
      if c < |outs| {
        assert ChunkRebalanced(chunks[c], homes, ids, moves(c), outs[c]);
      }
    }
  }

  lemma OneMoreCounted(chunks: seq<seq<Location>>, outs: seq<seq<Location>>, out: seq<Location>)
    requires |outs| < |chunks| && SameShape(chunks, outs, |outs|) && |chunks[|outs|]| == |out|
    ensures SameShape(chunks, outs + [out], |outs| + 1)
    ensures ShardsMoved(chunks, outs + [out], |outs| + 1)
         == ShardsMoved(chunks, outs, |outs|) + |Changed(chunks[|outs|], out)|
  {
    ShardsMovedFrame(chunks, outs, out, |outs|);
  }

  /** One chunk of a pass: group its shards, collect the excess, hand it out. */
  method RebalanceChunk(at: seq<Location>, homes: seq<Location>, target: map<Location, nat>, ids: seq<nat>,
                       moves: (Shard, Location) -> bool)
    returns (out: seq<Location>, moved: nat)
    requires Distinct(ids) && forall h :: h in homes ==> Reachable(ids, h)
    requires Tallies(target, homes)
    ensures |out| == |at| && moved == |Changed(at, out)|
    ensures ChunkRebalanced(at, homes, ids, moves, out)
  {
    var o, m, _ := MoveTowards(at, homes, target, ids, moves);
    out, moved := o, m;
  }

  method RebalanceEach(chunks: seq<seq<Location>>, homes: seq<Location>, target: map<Location, nat>, ids: seq<nat>,
                       moves: nat -> (Shard, Location) -> bool)
    returns (outs: seq<seq<Location>>, shardsMoved: nat)
    requires Distinct(ids) && forall h :: h in homes ==> Reachable(ids, h)
    requires Tallies(target, homes)
    ensures |outs| == |chunks| && SameShape(chunks, outs, |chunks|) && shardsMoved == ShardsMoved(chunks, outs, |chunks|)
    ensures AllRebalanced(chunks, homes, ids, moves, outs)
  {
    outs, shardsMoved := [], 0;
    for c := 0 to |chunks|
      invariant |outs| == c && SameShape(chunks, outs, c)
      invariant AllRebalanced(chunks, homes, ids, moves, outs)
      invariant shardsMoved == ShardsMoved(chunks, outs, c)
    {
      var out, moved := RebalanceChunk(chunks[c], homes, target, ids, moves(c));
      OneMoreRebalanced(chunks, homes, ids, moves, outs, out);
      OneMoreCounted(chunks, outs, out);
      outs, shardsMoved := outs + [out], shardsMoved + moved;
    }
  }

  /** Move the shards of every chunk towards the plan for the peers `ids`, which all
      answered; `moves(c)` decides the moves of chunk `c`. */
  method RebalanceAll(peers: seq<P.PeerCandidate>, ids: seq<nat>, chunks: seq<seq<Location>>,
                      moves: nat -> (Shard, Location) -> bool)
    returns (outs: seq<seq<Location>>, shardsMoved: nat, ghost homes: seq<Location>, ghost layout: seq<P.Location>)
    requires |ids| == |peers| && Distinct(ids)
    ensures |outs| == |chunks| && SameShape(chunks, outs, |chunks|) && shardsMoved == ShardsMoved(chunks, outs, |chunks|)
    ensures peers == [] ==> outs == chunks
    ensures peers != [] ==> IsPlan(peers, layout) && homes == Homes(ids, layout)
    ensures peers != [] ==> TargetSpread(ids, homes) && AllRebalanced(chunks, homes, ids, moves, outs)
  {
    if peers == [] {
      NothingMoved(chunks, |chunks|);
      return chunks, 0, [], [];
    }
    var spread, target, plan := PlanTarget(peers, ids);
    homes, layout := spread, plan;
    outs, shardsMoved := RebalanceEach(chunks, spread, target, ids, moves);
  }
}
