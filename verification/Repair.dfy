/**
  The repair of one chunk (repair.rs): which shards to rebuild, from what, and where
  the rebuilt copies go.
 */
module Repair {
  import opened Wrappers
  import opened Bytes
  import opened Erasure
  import opened Locations
  import opened Sums

  const CRITICAL_MARGIN: nat := 2
  const LOCAL_RELIABILITY: real := 100.0

  datatype ShardState = Live | Grace | Lost

  datatype ChunkPlan = ChunkPlan(live: nat, deferred: nat, missing: seq<nat>)

  // ── What to rebuild ────────────────────────────────────────────────────────

  function CountState(states: seq<Option<ShardState>>, s: ShardState): nat {
    if states == [] then 0
    else
      var n := |states| - 1;
      CountState(states[..n], s) + (if states[n] == Some(s) then 1 else 0)
  }

  /** A lost shard always, a graced one only when the chunk is in danger. */
  predicate MustRebuild(s: Option<ShardState>, critical: bool) {
    s == Some(Lost) || (s == Some(Grace) && critical)
  }

  predicate Critical(live: nat) {
    live < DATA_SHARDS + CRITICAL_MARGIN
  }

  ghost predicate Increasing(s: seq<nat>) {
    forall i, j :: 0 <= i < j < |s| ==> s[i] < s[j]
  }

  method CountLive(states: seq<Option<ShardState>>) returns (live: nat)
    ensures live == CountState(states, Live)
  {
    live := 0;
    for i := 0 to |states|
      invariant live == CountState(states[..i], Live)
    {
      assert states[..i + 1][..i] == states[..i];
      if states[i] == Some(Live) {
        live := live + 1;
      }
    }
    assert states[..|states|] == states;
  }

  /** The shards to rebuild among the first `n`, in order. */
  function Rebuilds(states: seq<Option<ShardState>>, critical: bool, n: nat): seq<nat>
    requires n <= |states|
  {
    if n == 0 then []
    else Rebuilds(states, critical, n - 1) + (if MustRebuild(states[n - 1], critical) then [n - 1] else [])
  }

  /** `missing` lists, in order, exactly the shards among the first `n` to rebuild. */
  ghost predicate Lists(missing: seq<nat>, states: seq<Option<ShardState>>, critical: bool, n: nat)
    requires n <= |states|
  {
    && Increasing(missing)
    && (forall k :: 0 <= k < |missing| ==> missing[k] < n && MustRebuild(states[missing[k]], critical))
    && (forall i :: 0 <= i < n && MustRebuild(states[i], critical) ==> i in missing)
  }

  lemma {:induction false} RebuildsLists(states: seq<Option<ShardState>>, critical: bool, n: nat)
    requires n <= |states|
    ensures Lists(Rebuilds(states, critical, n), states, critical, n)
    ensures |Rebuilds(states, critical, n)| == CountState(states[..n], Lost) + if critical then CountState(states[..n], Grace) else 0
  {
    if n > 0 {
      RebuildsLists(states, critical, n - 1);
      assert states[..n][..n - 1] == states[..n - 1];
    }
  }

  method PlanChunk(states: seq<Option<ShardState>>) returns (plan: ChunkPlan)
    ensures plan.live == CountState(states, Live)
    ensures Lists(plan.missing, states, Critical(plan.live), |states|)
    ensures |plan.missing| == CountState(states, Lost) + if Critical(plan.live) then CountState(states, Grace) else 0
    ensures plan.deferred == if Critical(plan.live) then 0 else CountState(states, Grace)
  {
    var live := CountLive(states);
    var critical := Critical(live);
    var missing: seq<nat> := [];
    var deferred := 0;
    for i := 0 to |states|
      invariant missing == Rebuilds(states, critical, i)
      invariant deferred == if critical then 0 else CountState(states[..i], Grace)
    {
      assert states[..i + 1][..i] == states[..i];
      match states[i] {
        case Some(Lost) => missing := missing + [i];
        case Some(Grace) =>
          if critical {
            missing := missing + [i];
          } else {
            deferred := deferred + 1;
          }
        case _ =>
      }
    }
    RebuildsLists(states, critical, |states|);
    assert states[..|states|] == states;
    plan := ChunkPlan(live, deferred, missing);
  }

  // ── Where a rebuilt shard goes ─────────────────────────────────────────────

  function CountAt(locCount: map<Location, nat>, l: Location): nat {
    if l in locCount then locCount[l] else 0
  }

  function ReliabilityOf(reliability: map<Location, real>, l: Location): real {
    if l == Local then LOCAL_RELIABILITY else if l in reliability then reliability[l] else 0.0
  }

  /** Under the cap first, then fewer shards, then more reliable, then by name. */
  predicate Better(locCount: map<Location, nat>, reliability: map<Location, real>, a: Location, b: Location) {
    var (na, nb) := (CountAt(locCount, a), CountAt(locCount, b));
    var (ra, rb) := (ReliabilityOf(reliability, a), ReliabilityOf(reliability, b));
    if (na >= PARITY_SHARDS) != (nb >= PARITY_SHARDS) then na < PARITY_SHARDS
    else if na != nb then na < nb
    else if ra != rb then ra > rb
    else NameBefore(a, b)
  }

  ghost predicate Best(locCount: map<Location, nat>, reliability: map<Location, real>, candidates: set<Location>, l: Location) {
    l in candidates && forall c :: c in candidates && c != l ==> Better(locCount, reliability, l, c)
  }

  /** The ranking has one winner, so the choice cannot depend on the order in which the
      candidates are visited. */
  lemma BestIsUnique(locCount: map<Location, nat>, reliability: map<Location, real>, candidates: set<Location>, a: Location, b: Location)
    requires Best(locCount, reliability, candidates, a) && Best(locCount, reliability, candidates, b)
    ensures a == b
  {
  }

  /** What the ranking comes to: nobody has fewer shards of the chunk than `l`, of those with
      as few nobody is more reliable, and of those as reliable nobody has an earlier name. */
  ghost predicate FewestSteadiestFirst(locCount: map<Location, nat>, reliability: map<Location, real>,
                                       candidates: set<Location>, l: Location) {
    && l in candidates
    && (forall c :: c in candidates ==> CountAt(locCount, l) <= CountAt(locCount, c))
    && (forall c :: c in candidates && CountAt(locCount, c) == CountAt(locCount, l) ==>
          ReliabilityOf(reliability, c) <= ReliabilityOf(reliability, l))
    && (forall c :: c in candidates && c != l && CountAt(locCount, c) == CountAt(locCount, l) ==>
          ReliabilityOf(reliability, c) == ReliabilityOf(reliability, l) ==> NameBefore(l, c))
  }

  /** This node counts as fully reliable, a peer without a score as not at all. */
  lemma ReliabilityDefaults(reliability: map<Location, real>, id: nat)
    ensures ReliabilityOf(reliability, Local) == 100.0
    ensures Peer(id) in reliability ==> ReliabilityOf(reliability, Peer(id)) == reliability[Peer(id)]
    ensures Peer(id) !in reliability ==> ReliabilityOf(reliability, Peer(id)) == 0.0
  {
  }

  lemma BestIsFewest(locCount: map<Location, nat>, reliability: map<Location, real>, candidates: set<Location>, l: Location)
    ensures Best(locCount, reliability, candidates, l) <==> FewestSteadiestFirst(locCount, reliability, candidates, l)
  {
    if FewestSteadiestFirst(locCount, reliability, candidates, l) {
      forall c | c in candidates && c != l ensures Better(locCount, reliability, l, c) {
        assert CountAt(locCount, l) <= CountAt(locCount, c);
      }
    }
    if Best(locCount, reliability, candidates, l) {
      forall c | c in candidates && c != l ensures Better(locCount, reliability, l, c) {
      }
    }
  }

  method ChooseTarget(locCount: map<Location, nat>, reachable: set<Location>, reliability: map<Location, real>)
    returns (target: Location)
    ensures Best(locCount, reliability, reachable + {Local}, target)
    ensures FewestSteadiestFirst(locCount, reliability, reachable + {Local}, target)
  {
    target := Local;
    var left := reachable - {Local};
    while left != {}
      invariant left <= reachable && Best(locCount, reliability, reachable + {Local} - left, target)
      decreases left
    {
      var c :| c in left;
      assert reachable + {Local} - (left - {c}) == (reachable + {Local} - left) + {c};
      if Better(locCount, reliability, c, target) {
        target := c;
      }
      left := left - {c};
    }
    assert reachable + {Local} - {} == reachable + {Local};
    BestIsFewest(locCount, reliability, reachable + {Local}, target);
  }

  // ── Free room under the cap ────────────────────────────────────────────────

  function RoomAt(locCount: map<Location, nat>, l: Location): nat {
    var n := CountAt(locCount, l);
    if n < PARITY_SHARDS then PARITY_SHARDS - n else 0
  }

  ghost function Rooms(locCount: map<Location, nat>, candidates: set<Location>): map<Location, nat> {
    map c | c in candidates :: RoomAt(locCount, c)
  }

  lemma {:induction false} RoomSomewhere(m: map<Location, nat>)
    requires Total(m) > 0
    ensures exists c :: c in m && m[c] > 0
    decreases |m|
  {
    var c :| c in m;
    TotalRemove(m, c);
    if m[c] == 0 {
      assert |m - {c}| < |m|;
      RoomSomewhere(m - {c});
    }
  }

  /** While there is room, the choice takes it: the target is under the cap. */
  lemma TargetUnderCap(locCount: map<Location, nat>, reliability: map<Location, real>, candidates: set<Location>, target: Location)
    requires Best(locCount, reliability, candidates, target) && Total(Rooms(locCount, candidates)) > 0
    ensures CountAt(locCount, target) < PARITY_SHARDS
  {
    RoomSomewhere(Rooms(locCount, candidates));
    var c :| c in Rooms(locCount, candidates) && Rooms(locCount, candidates)[c] > 0;
    assert RoomAt(locCount, c) > 0;
    assert c != target ==> Better(locCount, reliability, target, c);
  }

  lemma RoomShrinks(locCount: map<Location, nat>, candidates: set<Location>, target: Location)
    requires target in candidates && CountAt(locCount, target) < PARITY_SHARDS
    ensures Total(Rooms(locCount[target := CountAt(locCount, target) + 1], candidates)) == Total(Rooms(locCount, candidates)) - 1
  {
    var more := locCount[target := CountAt(locCount, target) + 1];
    var m := Rooms(locCount, candidates);
    assert Rooms(more, candidates) == m[target := RoomAt(locCount, target) - 1];
    TotalUpdate(m, target, RoomAt(locCount, target) - 1);
  }

  // ── Repairing one chunk ────────────────────────────────────────────────────

  ghost predicate AllFetched(states: seq<Option<ShardState>>, fetched: seq<Option<Shard>>)
    requires |states| == |fetched|
  {
    forall i :: 0 <= i < |states| && states[i] == Some(Live) ==> fetched[i].Some?
  }

  /** Fetch live shards until ten are in hand. */
  method FetchLive(states: seq<Option<ShardState>>, fetched: seq<Option<Shard>>) returns (present: seq<Option<Shard>>, got: nat)
    requires |states| == |fetched| == TOTAL_SHARDS
    ensures |present| == TOTAL_SHARDS && got == Held(present)
    ensures forall i :: 0 <= i < TOTAL_SHARDS && present[i].Some? ==> states[i] == Some(Live) && present[i] == fetched[i]
    ensures CountState(states, Live) >= DATA_SHARDS && AllFetched(states, fetched) ==> got >= DATA_SHARDS
  {
    present := seq(TOTAL_SHARDS, _ => None);
    HeldCounts(present);
    assert HeldSet(present) == {};
    got := 0;
    for i := 0 to TOTAL_SHARDS
      invariant |present| == TOTAL_SHARDS && got == Held(present)
      invariant forall j :: 0 <= j < TOTAL_SHARDS && present[j].Some? ==> j < i && states[j] == Some(Live) && present[j] == fetched[j]
      invariant AllFetched(states, fetched) ==> got >= DATA_SHARDS || got == CountState(states[..i], Live)
    {
      assert states[..i + 1][..i] == states[..i];
      if got < DATA_SHARDS && states[i] == Some(Live) && fetched[i].Some? {
        HeldAfter(present, i, fetched[i].value);
        present := present[i := fetched[i]];
        got := got + 1;
      }
    }
    assert states[..TOTAL_SHARDS] == states;
  }

  /** Where the copies that stay are: nothing for a lost shard. */
  function Staying(at: seq<Location>, states: seq<ShardState>): (s: seq<Option<Location>>)
    requires |at| == |states|
    ensures |s| == |at|
  {
    seq(|at|, i requires 0 <= i < |at| => if states[i] == Lost then None else Some(at[i]))
  }

  /** How many of the remaining copies each location has. */
  method CountStaying(at: seq<Location>, states: seq<ShardState>) returns (locCount: map<Location, nat>)
    requires |at| == |states|
    ensures forall l :: CountAt(locCount, l) == multiset(Staying(at, states))[Some(l)]
  {
    locCount := map[];
    var s := Staying(at, states);
    for i := 0 to |at|
      invariant forall l :: CountAt(locCount, l) == multiset(s[..i])[Some(l)]
    {
      assert s[..i + 1] == s[..i] + [s[i]];
      if states[i] == Live || states[i] == Grace {
        locCount := locCount[at[i] := CountAt(locCount, at[i]) + 1];
      }
    }
    assert s[..|at|] == s;
  }

  /** The outcome for one shard: its recorded location, and the copy written in this pass. */
  datatype Placed = Placed(at: seq<Location>, written: map<nat, Shard>)

  /** The copies now counted on are covered by the tally. */
  ghost predicate Covered(cur: seq<Option<Location>>, locCount: map<Location, nat>) {
    forall l :: multiset(cur)[Some(l)] <= CountAt(locCount, l)
  }

  /** What is known after the first `n` missing shards have been handled: a written shard
      is counted where it went, and nothing else has moved. */
  ghost predicate Placing(at: seq<Location>, states: seq<ShardState>, missing: seq<nat>, all: seq<Shard>, n: nat,
                          p: Placed, cur: seq<Option<Location>>)
    requires |at| == |states| == |all| && n <= |missing|
  {
    && |p.at| == |cur| == |at|
    && (forall i :: i in p.written ==> i in missing[..n] && i < |all| && p.written[i] == all[i])
    && (forall i :: 0 <= i < |at| && i !in p.written ==> p.at[i] == at[i] && cur[i] == Staying(at, states)[i])
    && (forall i :: i in p.written ==> cur[i] == Some(p.at[i]))
  }

  lemma ReplaceOne<T>(s: seq<T>, i: nat, v: T)
    requires i < |s|
    ensures multiset(s[i := v]) == multiset(s) - multiset{s[i]} + multiset{v}
  {
    assert s == s[..i] + [s[i]] + s[i + 1..];
    assert s[i := v] == s[..i] + [v] + s[i + 1..];
  }

  lemma CoveredOneMore(cur: seq<Option<Location>>, locCount: map<Location, nat>, i: nat, target: Location)
    requires i < |cur| && Covered(cur, locCount)
    ensures Covered(cur[i := Some(target)], locCount[target := CountAt(locCount, target) + 1])
  {
    ReplaceOne(cur, i, Some(target));
    var more := locCount[target := CountAt(locCount, target) + 1];
    forall l ensures multiset(cur[i := Some(target)])[Some(l)] <= CountAt(more, l) {
      assert multiset(cur)[Some(l)] <= CountAt(locCount, l);
    }
  }

  lemma PlacedOne(at: seq<Location>, states: seq<ShardState>, missing: seq<nat>, all: seq<Shard>, n: nat,
                  p: Placed, cur: seq<Option<Location>>, target: Location)
    requires |at| == |states| == |all| && n < |missing| && missing[n] < |at| && missing[n] !in p.written
    requires Placing(at, states, missing, all, n, p, cur)
    ensures Placing(at, states, missing, all, n + 1,
                    Placed(p.at[missing[n] := target], p.written[missing[n] := all[missing[n]]]),
                    cur[missing[n] := Some(target)])
  {
    assert missing[..n + 1] == missing[..n] + [missing[n]];
  }

  lemma PlacedNone(at: seq<Location>, states: seq<ShardState>, missing: seq<nat>, all: seq<Shard>, n: nat,
                   p: Placed, cur: seq<Option<Location>>)
    requires |at| == |states| == |all| && n < |missing|
    requires Placing(at, states, missing, all, n, p, cur)
    ensures Placing(at, states, missing, all, n + 1, p, cur)
  {
    assert missing[..n + 1] == missing[..n] + [missing[n]];
  }

  /** No location holds more than the cap or than it started with. */
  ghost predicate Capped(start: map<Location, nat>, locCount: map<Location, nat>) {
    forall l :: CountAt(locCount, l) <= PARITY_SHARDS || CountAt(locCount, l) <= CountAt(start, l)
  }

  /** The caps hold and there is room for `n` more, if there was room for all at first. */
  ghost predicate RoomFor(start: map<Location, nat>, locCount: map<Location, nat>, candidates: set<Location>, all: nat, n: nat) {
    Total(Rooms(start, candidates)) >= all ==> Capped(start, locCount) && Total(Rooms(locCount, candidates)) >= n
  }

  lemma StaysCapped(start: map<Location, nat>, locCount: map<Location, nat>, reliability: map<Location, real>,
                    candidates: set<Location>, all: nat, n: nat, target: Location)
    requires RoomFor(start, locCount, candidates, all, n + 1) && Best(locCount, reliability, candidates, target)
    ensures RoomFor(start, locCount[target := CountAt(locCount, target) + 1], candidates, all, n)
  {
    if Total(Rooms(start, candidates)) >= all {
      TargetUnderCap(locCount, reliability, candidates, target);
      RoomShrinks(locCount, candidates, target);
      var more := locCount[target := CountAt(locCount, target) + 1];
      forall l ensures CountAt(more, l) <= PARITY_SHARDS || CountAt(more, l) <= CountAt(start, l) {
        assert CountAt(locCount, l) <= PARITY_SHARDS || CountAt(locCount, l) <= CountAt(start, l);
      }
    }
  }

  ghost predicate AcceptsAll(accepts: (nat, Location) -> bool) {
    forall i, l :: accepts(i, l)
  }

  /** The shards written to `l` in this pass. */
  ghost function WrittenAt(p: Placed, l: Location): set<nat> {
    set i | i in p.written && i < |p.at| && p.at[i] == l
  }

  /** The tally is what was there plus what was written. */
  ghost predicate TalliesWrites(start: map<Location, nat>, locCount: map<Location, nat>, p: Placed) {
    forall l {:trigger WrittenAt(p, l)} :: CountAt(locCount, l) == CountAt(start, l) + |WrittenAt(p, l)|
  }

  /** A location that was given a shard has at most one more than any other candidate. */
  ghost predicate Evened(locCount: map<Location, nat>, candidates: set<Location>, p: Placed) {
    forall l, c :: WrittenAt(p, l) != {} && c in candidates ==> CountAt(locCount, l) <= CountAt(locCount, c) + 1
  }

  lemma WriteOneMore(p: Placed, i: nat, target: Location, shard: Shard, l: Location)
    requires i < |p.at| && i !in p.written
    ensures WrittenAt(Placed(p.at[i := target], p.written[i := shard]), l)
         == if l == target then WrittenAt(p, l) + {i} else WrittenAt(p, l)
  {
  }

  lemma TalliesOneMore(start: map<Location, nat>, locCount: map<Location, nat>, p: Placed, i: nat, target: Location, shard: Shard)
    requires i < |p.at| && i !in p.written && TalliesWrites(start, locCount, p)
    ensures TalliesWrites(start, locCount[target := CountAt(locCount, target) + 1], Placed(p.at[i := target], p.written[i := shard]))
  {
    var more, q := locCount[target := CountAt(locCount, target) + 1], Placed(p.at[i := target], p.written[i := shard]);
    forall l ensures CountAt(more, l) == CountAt(start, l) + |WrittenAt(q, l)| {
      WriteOneMore(p, i, target, shard, l);
    }
  }

  lemma EvenedOneMore(locCount: map<Location, nat>, candidates: set<Location>, p: Placed, i: nat, target: Location, shard: Shard)
    requires i < |p.at| && i !in p.written && Evened(locCount, candidates, p)
    requires forall c :: c in candidates ==> CountAt(locCount, target) <= CountAt(locCount, c)
    ensures Evened(locCount[target := CountAt(locCount, target) + 1], candidates, Placed(p.at[i := target], p.written[i := shard]))
  {
    var more, q := locCount[target := CountAt(locCount, target) + 1], Placed(p.at[i := target], p.written[i := shard]);
    forall l, c | WrittenAt(q, l) != {} && c in candidates ensures CountAt(more, l) <= CountAt(more, c) + 1 {
      WriteOneMore(p, i, target, shard, l);
    }
  }

  /** All that is known after the first `n` missing shards. */
  ghost predicate PassState(at: seq<Location>, states: seq<ShardState>, missing: seq<nat>, all: seq<Shard>, candidates: set<Location>,
                            start: map<Location, nat>, n: nat, p: Placed, cur: seq<Option<Location>>, locCount: map<Location, nat>)
    requires |at| == |states| == |all| && n <= |missing|
  {
    && Placing(at, states, missing, all, n, p, cur) && Covered(cur, locCount)
    && RoomFor(start, locCount, candidates, |missing|, |missing| - n)
    && TalliesWrites(start, locCount, p) && Evened(locCount, candidates, p)
  }

  lemma PassOneMore(at: seq<Location>, states: seq<ShardState>, missing: seq<nat>, all: seq<Shard>, candidates: set<Location>,
                    start: map<Location, nat>, n: nat, p: Placed, cur: seq<Option<Location>>, locCount: map<Location, nat>,
                    reliability: map<Location, real>, target: Location)
    requires |at| == |states| == |all| && n < |missing| && missing[n] < |at| && missing[n] !in missing[..n]
    requires PassState(at, states, missing, all, candidates, start, n, p, cur, locCount)
    requires Best(locCount, reliability, candidates, target)
    ensures PassState(at, states, missing, all, candidates, start, n + 1,
                      Placed(p.at[missing[n] := target], p.written[missing[n] := all[missing[n]]]),
                      cur[missing[n] := Some(target)], locCount[target := CountAt(locCount, target) + 1])
  {
    var i := missing[n];
    PlacedOne(at, states, missing, all, n, p, cur, target);
    CoveredOneMore(cur, locCount, i, target);
    BestIsFewest(locCount, reliability, candidates, target);
    TalliesOneMore(start, locCount, p, i, target, all[i]);
    EvenedOneMore(locCount, candidates, p, i, target, all[i]);
    StaysCapped(start, locCount, reliability, candidates, |missing|, |missing| - n - 1, target);
  }

  lemma PassSkips(at: seq<Location>, states: seq<ShardState>, missing: seq<nat>, all: seq<Shard>, candidates: set<Location>,
                  start: map<Location, nat>, n: nat, p: Placed, cur: seq<Option<Location>>, locCount: map<Location, nat>)
    requires |at| == |states| == |all| && n < |missing|
    requires PassState(at, states, missing, all, candidates, start, n, p, cur, locCount)
    ensures PassState(at, states, missing, all, candidates, start, n + 1, p, cur, locCount)
  {
    PlacedNone(at, states, missing, all, n, p, cur);
  }

  lemma PassStarts(at: seq<Location>, states: seq<ShardState>, missing: seq<nat>, all: seq<Shard>, candidates: set<Location>,
                   start: map<Location, nat>)
    requires |at| == |states| == |all| && Covered(Staying(at, states), start)
    ensures PassState(at, states, missing, all, candidates, start, 0, Placed(at, map[]), Staying(at, states), start)
  {
    forall l ensures WrittenAt(Placed(at, map[]), l) == {} {
    }
  }

  /** The first `n` of them have been written. */
  ghost predicate Wrote(missing: seq<nat>, n: nat, p: Placed) {
    n <= |missing| && forall k :: 0 <= k < n ==> missing[k] in p.written
  }

  lemma ListedOnce(missing: seq<nat>, n: nat)
    requires Increasing(missing) && n < |missing|
    ensures missing[n] !in missing[..n]
  {
  }

  /** Choose a home for one missing shard and try to place it there. */
  method PlaceOne(at: seq<Location>, states: seq<ShardState>, missing: seq<nat>, all: seq<Shard>,
                  ghost start: map<Location, nat>, reachable: set<Location>, reliability: map<Location, real>,
                  accepts: (nat, Location) -> bool, n: nat, p: Placed, ghost cur: seq<Option<Location>>, locCount: map<Location, nat>)
    returns (p': Placed, ghost cur': seq<Option<Location>>, locCount': map<Location, nat>)
    requires |at| == |states| == |all| && n < |missing| && missing[n] < |at| && missing[n] !in missing[..n]
    requires PassState(at, states, missing, all, reachable + {Local}, start, n, p, cur, locCount)
    ensures PassState(at, states, missing, all, reachable + {Local}, start, n + 1, p', cur', locCount')
    ensures AcceptsAll(accepts) && Wrote(missing, n, p) ==> Wrote(missing, n + 1, p')
  {
    var i := missing[n];
    var target := ChooseTarget(locCount, reachable, reliability);
    if accepts(i, target) {
      PassOneMore(at, states, missing, all, reachable + {Local}, start, n, p, cur, locCount, reliability, target);
      p' := Placed(p.at[i := target], p.written[i := all[i]]);
      cur' := cur[i := Some(target)];
      locCount' := locCount[target := CountAt(locCount, target) + 1];
    } else {
      PassSkips(at, states, missing, all, reachable + {Local}, start, n, p, cur, locCount);
      p', cur', locCount' := p, cur, locCount;
    }
  }

  /** Re-place the missing shards one after the other. */
  method PlaceMissing(at: seq<Location>, states: seq<ShardState>, missing: seq<nat>, all: seq<Shard>,
                      start: map<Location, nat>, reachable: set<Location>, reliability: map<Location, real>,
                      accepts: (nat, Location) -> bool)
    returns (p: Placed, ghost cur: seq<Option<Location>>, locCount: map<Location, nat>)
    requires |at| == |states| == |all| && Increasing(missing) && forall k :: 0 <= k < |missing| ==> missing[k] < |at|
    requires Covered(Staying(at, states), start)
    ensures PassState(at, states, missing, all, reachable + {Local}, start, |missing|, p, cur, locCount)
    ensures AcceptsAll(accepts) ==> Wrote(missing, |missing|, p)
  {
    p, cur, locCount := Placed(at, map[]), Staying(at, states), start;
    PassStarts(at, states, missing, all, reachable + {Local}, start);
    for n := 0 to |missing|
      invariant PassState(at, states, missing, all, reachable + {Local}, start, n, p, cur, locCount)
      invariant AcceptsAll(accepts) ==> Wrote(missing, n, p)
    {
      ListedOnce(missing, n);
      p, cur, locCount := PlaceOne(at, states, missing, all, start, reachable, reliability, accepts, n, p, cur, locCount);
    }
  }

  // ── What a pass achieves ───────────────────────────────────────────────────

  datatype RepairResult = Repaired(p: Placed) | Unrepairable

  ghost function InState(states: seq<ShardState>, s: ShardState): set<nat> {
    set i: nat | i < |states| && states[i] == s
  }

  /** Shards whose bytes are known good after the pass: verified live, or just written. */
  ghost function Verified(states: seq<ShardState>, p: Placed): set<nat> {
    set i: nat | i < |states| && (states[i] == Live || i in p.written)
  }

  function Known(states: seq<ShardState>): (o: seq<Option<ShardState>>)
    ensures |o| == |states|
  {
    seq(|states|, i requires 0 <= i < |states| => Some(states[i]))
  }

  lemma InStateSnoc(states: seq<ShardState>, rest: seq<ShardState>, s: ShardState)
    requires |states| == |rest| + 1 && states[..|rest|] == rest
    ensures |InState(states, s)| == |InState(rest, s)| + if states[|rest|] == s then 1 else 0
  {
    var a, b, n := InState(states, s), InState(rest, s), |rest|;
    forall i: nat ensures i in a - {n} <==> i in b {
      if i < n {
        assert states[i] == states[..n][i] == rest[i];
      }
    }
    assert a - {n} == b;
  }

  lemma CountSnoc(known: seq<Option<ShardState>>, s: ShardState, last: ShardState)
    ensures CountState(known + [Some(last)], s) == CountState(known, s) + if last == s then 1 else 0
  {
    assert (known + [Some(last)])[..|known|] == known;
  }

  lemma {:induction false} CountIsSize(states: seq<ShardState>, s: ShardState)
    ensures CountState(Known(states), s) == |InState(states, s)|
  {
    if states == [] {
      assert InState(states, s) == {};
    } else {
      var rest, last := states[..|states| - 1], states[|states| - 1];
      CountIsSize(rest, s);
      InStateSnoc(states, rest, s);
      CountSnoc(Known(rest), s, last);
      assert Known(states) == Known(rest) + [Some(last)];
    }
  }

  /** With ten live shards and every placement accepted, at least twelve shards are
      verified afterwards, and all of them if fewer than twelve were before. */
  lemma Heals(states: seq<ShardState>, missing: seq<nat>, p: Placed)
    requires Lists(missing, Known(states), Critical(|InState(states, Live)|), |states|)
    requires forall k :: 0 <= k < |missing| ==> missing[k] in p.written
    ensures |InState(states, Live)| >= DATA_SHARDS + CRITICAL_MARGIN ==> |Verified(states, p)| >= DATA_SHARDS + CRITICAL_MARGIN
    ensures |InState(states, Live)| < DATA_SHARDS + CRITICAL_MARGIN ==> |Verified(states, p)| == |states|
  {
    SubsetSize(InState(states, Live), Verified(states, p));
    if Critical(|InState(states, Live)|) {
      forall i: nat | i < |states| ensures i in Verified(states, p) {
        assert Known(states)[i] == Some(states[i]);
        assert states[i] != Live ==> MustRebuild(Known(states)[i], true) && i in missing;
      }
      FullSize(Verified(states, p), |states|);
    }
  }

  lemma {:induction false} SameCounts(s: seq<Location>, o: seq<Option<Location>>, l: Location)
    requires |s| == |o| && forall i :: 0 <= i < |s| ==> o[i] == Some(s[i]) || o[i] == None
    ensures multiset(o)[Some(l)] <= multiset(s)[l]
    ensures (forall i :: 0 <= i < |s| ==> o[i].Some?) ==> multiset(o)[Some(l)] == multiset(s)[l]
  {
    if s != [] {
      var n := |s| - 1;
      SameCounts(s[..n], o[..n], l);
      assert s == s[..n] + [s[n]] && o == o[..n] + [o[n]];
    }
  }

  /** When everything was re-placed, no location's row count ends above the cap unless it
      started there. */
  lemma RowsCapped(at: seq<Location>, states: seq<ShardState>, missing: seq<nat>, all: seq<Shard>, critical: bool,
                   p: Placed, cur: seq<Option<Location>>, start: map<Location, nat>, locCount: map<Location, nat>)
    requires |at| == |states| == |all| && Placing(at, states, missing, all, |missing|, p, cur)
    requires Lists(missing, Known(states), critical, |states|) && Covered(cur, locCount) && Capped(start, locCount)
    requires forall k :: 0 <= k < |missing| ==> missing[k] in p.written
    requires forall l :: CountAt(start, l) == multiset(Staying(at, states))[Some(l)]
    ensures SpreadKept(at, p)
  {
    forall i | 0 <= i < |at| ensures cur[i] == Some(p.at[i]) {
      assert Known(states)[i] == Some(states[i]);
      assert states[i] == Lost ==> MustRebuild(Known(states)[i], critical) && i in missing;
    }
    forall l ensures multiset(p.at)[l] <= PARITY_SHARDS || multiset(p.at)[l] <= multiset(at)[l] {
      SameCounts(p.at, cur, l);
      SameCounts(at, Staying(at, states), l);
      assert CountAt(locCount, l) <= PARITY_SHARDS || CountAt(locCount, l) <= CountAt(start, l);
      assert multiset(cur)[Some(l)] <= CountAt(locCount, l);
    }
  }

  /** What the fetches returned is what was stored. */
  ghost predicate FetchedGenuine(code: Code, cipher: seq<byte>, states: seq<ShardState>, fetched: seq<Option<Shard>>) {
    && |states| == |fetched| == |Shards(code, cipher)|
    && forall i :: 0 <= i < |states| && states[i] == Live && fetched[i].Some? ==> fetched[i].value == Shards(code, cipher)[i]
  }

  /** At least twelve verified shards, all fourteen if it began below twelve. */
  ghost predicate Healed(states: seq<ShardState>, p: Placed) {
    && |Verified(states, p)| >= 12
    && (|InState(states, Live)| < 12 ==> |Verified(states, p)| == 14)
  }

  /** Every copy written is the shard first stored at its index. */
  ghost predicate WritesOriginals(code: Code, cipher: seq<byte>, p: Placed) {
    forall i :: i in p.written ==> i < |Shards(code, cipher)| && p.written[i] == Shards(code, cipher)[i]
  }

  /** Row counts stay under the cap wherever they did not already exceed it. */
  ghost predicate SpreadKept(at: seq<Location>, p: Placed) {
    forall l :: multiset(p.at)[l] <= PARITY_SHARDS || multiset(p.at)[l] <= multiset(at)[l]
  }

  /** Where the usable copies are after the pass: those that stayed and those written. */
  ghost function Copies(at: seq<Location>, states: seq<ShardState>, p: Placed): (c: seq<Option<Location>>)
    requires |at| == |states| == |p.at|
    ensures |c| == |at|
  {
    seq(|at|, i requires 0 <= i < |at| => if i in p.written then Some(p.at[i]) else Staying(at, states)[i])
  }

  /** No location has more usable copies than the cap, unless it had as many before. */
  ghost predicate CopiesCapped(at: seq<Location>, states: seq<ShardState>, p: Placed)
    requires |at| == |states|
  {
    |p.at| == |at| && forall l :: multiset(Copies(at, states, p))[Some(l)] <= PARITY_SHARDS
                               || multiset(Copies(at, states, p))[Some(l)] <= multiset(Staying(at, states))[Some(l)]
  }

  /** A location that was given a shard ends up with at most one more of this chunk, copies
      that stay and copies written, than any other that could have taken it. */
  ghost predicate SpreadEven(at: seq<Location>, states: seq<ShardState>, reachable: set<Location>, p: Placed)
    requires |at| == |states|
  {
    forall l, c :: WrittenAt(p, l) != {} && (c == Local || c in reachable) ==>
      multiset(Staying(at, states))[Some(l)] + |WrittenAt(p, l)| <= multiset(Staying(at, states))[Some(c)] + |WrittenAt(p, c)| + 1
  }

  lemma EvenedIsEven(at: seq<Location>, states: seq<ShardState>, reachable: set<Location>, p: Placed,
                     start: map<Location, nat>, locCount: map<Location, nat>)
    requires |at| == |states| && TalliesWrites(start, locCount, p) && Evened(locCount, reachable + {Local}, p)
    requires forall l :: CountAt(start, l) == multiset(Staying(at, states))[Some(l)]
    ensures SpreadEven(at, states, reachable, p)
  {
    forall l, c | WrittenAt(p, l) != {} && (c == Local || c in reachable)
      ensures multiset(Staying(at, states))[Some(l)] + |WrittenAt(p, l)| <= multiset(Staying(at, states))[Some(c)] + |WrittenAt(p, c)| + 1
    {
      assert CountAt(locCount, l) == CountAt(start, l) + |WrittenAt(p, l)|;
      assert CountAt(locCount, c) == CountAt(start, c) + |WrittenAt(p, c)|;
      assert CountAt(start, l) == multiset(Staying(at, states))[Some(l)];
      assert CountAt(start, c) == multiset(Staying(at, states))[Some(c)];
    }
  }

  lemma CopiesAreCounted(at: seq<Location>, states: seq<ShardState>, missing: seq<nat>, all: seq<Shard>, p: Placed,
                         cur: seq<Option<Location>>, start: map<Location, nat>, locCount: map<Location, nat>)
    requires |at| == |states| == |all| && Placing(at, states, missing, all, |missing|, p, cur)
    requires Covered(cur, locCount) && Capped(start, locCount)
    requires forall l :: CountAt(start, l) == multiset(Staying(at, states))[Some(l)]
    ensures CopiesCapped(at, states, p)
  {
    assert Copies(at, states, p) == cur;
    forall l ensures multiset(cur)[Some(l)] <= PARITY_SHARDS || multiset(cur)[Some(l)] <= multiset(Staying(at, states))[Some(l)] {
      assert multiset(cur)[Some(l)] <= CountAt(locCount, l);
      assert CountAt(locCount, l) <= PARITY_SHARDS || CountAt(locCount, l) <= CountAt(start, l);
    }
  }

  /** What each candidate can still take of this chunk without passing the cap. */
  ghost function FreeRooms(at: seq<Location>, states: seq<ShardState>, candidates: set<Location>): map<Location, nat>
    requires |at| == |states|
  {
    map c | c in candidates ::
      var n := multiset(Staying(at, states))[Some(c)];
      if n < PARITY_SHARDS then PARITY_SHARDS - n else 0
  }

  /** Room for every shard to rebuild, under the cap, among this node and the reachable peers. */
  ghost predicate EnoughRoom(at: seq<Location>, states: seq<ShardState>, reachable: set<Location>)
    requires |at| == |states|
  {
    Total(FreeRooms(at, states, reachable + {Local})) >=
      |InState(states, Lost)| + if Critical(|InState(states, Live)|) then |InState(states, Grace)| else 0
  }

  lemma GenuinePresent(code: Code, cipher: seq<byte>, states: seq<ShardState>, fetched: seq<Option<Shard>>, present: seq<Option<Shard>>)
    requires |states| == TOTAL_SHARDS && FetchedGenuine(code, cipher, states, fetched) && |present| == TOTAL_SHARDS
    requires forall i :: 0 <= i < TOTAL_SHARDS && present[i].Some? ==> Known(states)[i] == Some(Live) && present[i] == fetched[i]
    ensures Genuine(code, cipher, present)
  {
  }

  /** Fetch ten live shards and regenerate all fourteen from them. */
  method RebuildShards(code: Code, cipherLen: nat, states: seq<ShardState>, fetched: seq<Option<Shard>>)
    returns (all: Option<seq<Shard>>)
    requires Lawful(code) && |states| == |fetched| == TOTAL_SHARDS
    ensures all.Some? ==> |all.value| == TOTAL_SHARDS
    ensures forall cipher :: |cipher| == cipherLen && FetchedGenuine(code, cipher, states, fetched) && all.Some? ==>
              all.value == Shards(code, cipher)
    ensures |InState(states, Live)| >= DATA_SHARDS && AllFetched(Known(states), fetched) ==>
              forall cipher :: |cipher| == cipherLen && FetchedGenuine(code, cipher, states, fetched) ==> all.Some?
  {
    CountIsSize(states, Live);
    var present, got := FetchLive(Known(states), fetched);
    if got < DATA_SHARDS {
      return None;
    }
    forall cipher | |cipher| == cipherLen && FetchedGenuine(code, cipher, states, fetched)
      ensures Genuine(code, cipher, present)
    {
      GenuinePresent(code, cipher, states, fetched, present);
    }
    var r := RegenChunkShards(code, present, cipherLen);
    all := if r.Ok? then Some(r.value) else None;
  }

  /**
    Repair one fully recorded chunk.  `fetched` is what each live shard's holder
    returned, digest-checked; `accepts` says which placements succeed.
   */
  method RepairChunk(code: Code, cipherLen: nat, at: seq<Location>, states: seq<ShardState>, fetched: seq<Option<Shard>>,
                     reachable: set<Location>, reliability: map<Location, real>, accepts: (nat, Location) -> bool)
    returns (r: RepairResult)
    requires Lawful(code) && |at| == |states| == |fetched| == TOTAL_SHARDS
    ensures |InState(states, Live)| >= DATA_SHARDS && AllFetched(Known(states), fetched) ==>
              forall cipher :: |cipher| == cipherLen && FetchedGenuine(code, cipher, states, fetched) ==> r.Repaired?
    ensures r.Repaired? ==> forall cipher :: |cipher| == cipherLen && FetchedGenuine(code, cipher, states, fetched) ==>
              WritesOriginals(code, cipher, r.p)
    ensures r.Repaired? && AcceptsAll(accepts) && |InState(states, Live)| >= DATA_SHARDS ==> Healed(states, r.p)
    ensures r.Repaired? && EnoughRoom(at, states, reachable) ==> CopiesCapped(at, states, r.p)
    ensures r.Repaired? && AcceptsAll(accepts) && EnoughRoom(at, states, reachable) ==> SpreadKept(at, r.p)
    ensures r.Repaired? ==> SpreadEven(at, states, reachable, r.p)
  {
    var plan := PlanChunk(Known(states));
    CountIsSize(states, Live);
    if plan.missing == [] {
      Heals(states, plan.missing, Placed(at, map[]));
      assert Copies(at, states, Placed(at, map[])) == Staying(at, states);
      return Repaired(Placed(at, map[]));
    }
    if plan.live < DATA_SHARDS {
      return Unrepairable;
    }
    var all := RebuildShards(code, cipherLen, states, fetched);
    if all.None? {
      return Unrepairable;
    }
    var start := CountStaying(at, states);
    var p, cur, locCount := PlaceMissing(at, states, plan.missing, all.value, start, reachable, reliability, accepts);
    r := Repaired(p);
    EvenedIsEven(at, states, reachable, p, start, locCount);
    PassKeepsSpread(at, states, reachable, plan, all.value, start, p, cur, locCount);
    if AcceptsAll(accepts) {
      Heals(states, plan.missing, p);
    }
  }

  /** With room for everything it has to re-place, a pass pushes no location past the cap:
      not in usable copies, and if every placement succeeds not in rows either. */
  lemma PassKeepsSpread(at: seq<Location>, states: seq<ShardState>, reachable: set<Location>, plan: ChunkPlan, all: seq<Shard>,
                        start: map<Location, nat>, p: Placed, cur: seq<Option<Location>>, locCount: map<Location, nat>)
    requires |at| == |states| == |all| && Placing(at, states, plan.missing, all, |plan.missing|, p, cur) && Covered(cur, locCount)
    requires plan.live == CountState(Known(states), Live) && Lists(plan.missing, Known(states), Critical(plan.live), |states|)
    requires |plan.missing| == CountState(Known(states), Lost) + if Critical(plan.live) then CountState(Known(states), Grace) else 0
    requires forall l :: CountAt(start, l) == multiset(Staying(at, states))[Some(l)]
    requires RoomFor(start, locCount, reachable + {Local}, |plan.missing|, 0)
    ensures EnoughRoom(at, states, reachable) ==> CopiesCapped(at, states, p)
    ensures EnoughRoom(at, states, reachable) && (forall k :: 0 <= k < |plan.missing| ==> plan.missing[k] in p.written) ==>
              SpreadKept(at, p)
  {
    if EnoughRoom(at, states, reachable) {
      RoomIsEnough(at, states, reachable, start, plan.missing);
      CopiesAreCounted(at, states, plan.missing, all, p, cur, start, locCount);
      if forall k :: 0 <= k < |plan.missing| ==> plan.missing[k] in p.written {
        RowsCapped(at, states, plan.missing, all, Critical(plan.live), p, cur, start, locCount);
      }
    }
  }

  lemma RoomIsEnough(at: seq<Location>, states: seq<ShardState>, reachable: set<Location>, start: map<Location, nat>, missing: seq<nat>)
    requires |at| == |states| && EnoughRoom(at, states, reachable)
    requires forall l :: CountAt(start, l) == multiset(Staying(at, states))[Some(l)]
    requires |missing| == CountState(Known(states), Lost)
                          + if Critical(CountState(Known(states), Live)) then CountState(Known(states), Grace) else 0
    ensures Total(Rooms(start, reachable + {Local})) >= |missing|
  {
    CountIsSize(states, Live);
    CountIsSize(states, Grace);
    CountIsSize(states, Lost);
    assert Rooms(start, reachable + {Local}) == FreeRooms(at, states, reachable + {Local});
  }
}
