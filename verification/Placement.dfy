/**
  Shard placement (placement.rs): where the `total` shards of a chunk go, given the
  candidate peers, their failure zones, latencies and reliability.

  Slot 0 is the owner's own store and slot `i + 1` is `peers[i]`; scores are exact
  reals and latencies are finite.
 */
module Placement {
  import opened Wrappers
  import opened ZoneGreedy
  import Sums

  /** `None` is the owner itself, `Some(i)` the peer at position `i`. */
  type Location = Option<nat>

  datatype PeerCandidate = PeerCandidate(rttMs: real, zone: Option<string>, reliability: real)

  const RELIABILITY_WEIGHT: real := 0.5

  function PeerKey(peers: seq<PeerCandidate>, i: nat): ZoneKey
    requires i < |peers|
  {
    match peers[i].zone
    case Some(z) => if z == "" then Unzoned(i) else Labelled(z)
    case None => Unzoned(i)
  }

  /** An undeclared owner zone is the reserved label "@self". */
  function OwnerKey(selfZone: Option<string>): ZoneKey {
    match selfZone
    case Some(z) => Labelled(if z == "" then "@self" else z)
    case None => Labelled("@self")
  }

  function Keys(peers: seq<PeerCandidate>, selfZone: Option<string>): (k: seq<ZoneKey>)
    ensures |k| == |peers| + 1
  {
    [OwnerKey(selfZone)] + seq(|peers|, i requires 0 <= i < |peers| => PeerKey(peers, i))
  }

  function MaxRtt(peers: seq<PeerCandidate>): (m: real)
    ensures m >= 1.0
    ensures forall p :: p in peers ==> p.rttMs <= m
    ensures m == 1.0 || exists p :: p in peers && p.rttMs == m
  {
    if peers == [] then 1.0
    else
      var m := MaxRtt(peers[..|peers| - 1]);
      var last := peers[|peers| - 1].rttMs;
      if last > m then last else m
  }

  function Unreliability(reliability: real): real {
    1.0 - (if reliability < 0.0 then 0.0 else if reliability > 100.0 then 100.0 else reliability) / 100.0
  }

  /** What the first shard on a peer costs: distance and flakiness. */
  function Price(rttMs: real, reliability: real, maxRtt: real): real
    requires maxRtt >= 1.0
  {
    rttMs / maxRtt + RELIABILITY_WEIGHT * Unreliability(reliability)
  }

  /** What the first shard on each slot costs; nothing at home. */
  function BasePrices(peers: seq<PeerCandidate>): (b: seq<real>)
    ensures |b| == |peers| + 1
  {
    var m := MaxRtt(peers);
    [0.0] + seq(|peers|, i requires 0 <= i < |peers| => Price(peers[i].rttMs, peers[i].reliability, m))
  }

  function Alpha(parity: nat): (a: real)
    ensures a > 0.0
    ensures parity > 0 ==> a * parity as real == 1.0
  {
    1.0 / (if parity == 0 then 1 else parity) as real
  }

  function LocationOf(slot: nat): Location {
    if slot == 0 then None else Some(slot - 1)
  }

  function SlotOf(l: Location): nat {
    match l
    case None => 0
    case Some(i) => i + 1
  }

  /** How many shards of `plan` each slot holds. */
  function Counts(plan: seq<Location>, peers: nat): (c: seq<nat>)
    ensures |c| == peers + 1
  {
    seq(peers + 1, s requires 0 <= s => multiset(plan)[LocationOf(s)])
  }

  lemma CountsSnoc(plan: seq<Location>, peers: nat, l: Location)
    requires SlotOf(l) <= peers
    ensures Counts(plan + [l], peers) == Counts(plan, peers)[SlotOf(l) := Counts(plan, peers)[SlotOf(l)] + 1]
  {
    assert multiset(plan + [l]) == multiset(plan) + multiset{l};
    forall s: nat | s <= peers
      ensures Counts(plan + [l], peers)[s] == Counts(plan, peers)[SlotOf(l) := Counts(plan, peers)[SlotOf(l)] + 1][s]
    {
      assert LocationOf(s) == l <==> s == SlotOf(l);
    }
  }

  /** May slot `s` take one more shard, with or without the zone caps? */
  ghost predicate Eligible(keys: seq<ZoneKey>, cap: nat, c: seq<nat>, honorZones: bool, s: nat)
    requires |keys| == |c| && s < |c|
  {
    c[s] < cap && (honorZones ==> Load(keys, c, keys[s]) < cap)
  }

  function Get(zoneCount: map<ZoneKey, nat>, z: ZoneKey): nat {
    if z in zoneCount then zoneCount[z] else 0
  }

  /** One pass over the owner and the peers: the first slot of minimal score among
      the eligible ones, if there is any. */
  method BestSlot(keys: seq<ZoneKey>, base: seq<real>, alpha: real, cap: nat, c: seq<nat>,
                  zoneCount: map<ZoneKey, nat>, honorZones: bool) returns (best: Option<nat>)
    requires |keys| == |base| == |c| && |c| > 0 && base[0] == 0.0
    requires forall s :: 0 <= s < |c| ==> Get(zoneCount, keys[s]) == Load(keys, c, keys[s])
    ensures best.None? ==> forall s :: 0 <= s < |c| ==> !Eligible(keys, cap, c, honorZones, s)
    ensures best.Some? ==> best.value < |c| && Eligible(keys, cap, c, honorZones, best.value)
    ensures best.Some? ==> forall s :: 0 <= s < |c| && Eligible(keys, cap, c, honorZones, s) ==>
              && Score(base[best.value], alpha, c[best.value]) <= Score(base[s], alpha, c[s])
              && (s < best.value ==> Score(base[best.value], alpha, c[best.value]) < Score(base[s], alpha, c[s]))
  {
    best := None;
    var bestScore := 0.0;
    var ownerZoneOk := !honorZones || Get(zoneCount, keys[0]) < cap;
    if c[0] < cap && ownerZoneOk {
      best := Some(0);
      bestScore := alpha * c[0] as real;
    }
    var s := 1;
    while s < |c|
      invariant 1 <= s <= |c|
      invariant best.None? ==> forall j :: 0 <= j < s ==> !Eligible(keys, cap, c, honorZones, j)
      invariant best.Some? ==> best.value < s && Eligible(keys, cap, c, honorZones, best.value)
      invariant best.Some? ==> bestScore == Score(base[best.value], alpha, c[best.value])
      invariant best.Some? ==> forall j :: 0 <= j < s && Eligible(keys, cap, c, honorZones, j) ==>
                  && bestScore <= Score(base[j], alpha, c[j])
                  && (j < best.value ==> bestScore < Score(base[j], alpha, c[j]))
    {
      if c[s] < cap && !(honorZones && Get(zoneCount, keys[s]) >= cap) {
        var score := Score(base[s], alpha, c[s]);
        if best.None? || score < bestScore {
          bestScore := score;
          best := Some(s);
        }
      }
      s := s + 1;
    }
  }

  /** `slot` is the first eligible slot of minimal score. */
  ghost predicate Preferred(keys: seq<ZoneKey>, base: seq<real>, alpha: real, cap: nat, c: seq<nat>, honorZones: bool, slot: nat)
    requires |keys| == |base| == |c|
  {
    && slot < |c| && Eligible(keys, cap, c, honorZones, slot)
    && forall s :: 0 <= s < |c| && Eligible(keys, cap, c, honorZones, s) ==>
         && Score(base[slot], alpha, c[slot]) <= Score(base[s], alpha, c[s])
         && (s < slot ==> Score(base[slot], alpha, c[slot]) < Score(base[s], alpha, c[s]))
  }

  /** Peers never exceed the cap, and the owner does so only once they are all full. */
  ghost predicate PeerCapped(c: seq<nat>, cap: nat) {
    && |c| > 0
    && (forall s :: 1 <= s < |c| ==> c[s] <= cap)
    && (c[0] > cap ==> forall s :: 1 <= s < |c| ==> c[s] == cap)
  }

  /** Where the next shard goes: the cheapest location with room in its zone, failing that
      the cheapest with room of its own, failing that the owner. */
  method ChooseSlot(keys: seq<ZoneKey>, base: seq<real>, alpha: real, cap: nat, c: seq<nat>,
                    zoneCount: map<ZoneKey, nat>) returns (slot: nat)
    requires |keys| == |base| == |c| && |c| > 0 && base[0] == 0.0
    requires forall s :: 0 <= s < |c| ==> Get(zoneCount, keys[s]) == Load(keys, c, keys[s])
    ensures slot < |c|
    ensures (exists s :: 0 <= s < |c| && Eligible(keys, cap, c, true, s)) ==>
              CheapestRoom(keys, base, alpha, cap, c, slot)
    ensures (exists s :: 0 <= s < |c| && c[s] < cap) ==> c[slot] < cap
    ensures (forall s :: 0 <= s < |c| ==> !Eligible(keys, cap, c, true, s)) ==>
              forall s :: 0 <= s < |c| && c[s] < cap ==> Score(base[slot], alpha, c[slot]) <= Score(base[s], alpha, c[s])
    ensures (forall s :: 0 <= s < |c| ==> c[s] >= cap) ==> slot == 0
    ensures (exists honor :: Preferred(keys, base, alpha, cap, c, honor, slot)) || (slot == 0 && forall s :: 0 <= s < |c| ==> c[s] >= cap)
  {
    var choice := BestSlot(keys, base, alpha, cap, c, zoneCount, true);
    if choice.None? {
      choice := BestSlot(keys, base, alpha, cap, c, zoneCount, false);
      assert forall s :: 0 <= s < |c| ==> (c[s] < cap <==> Eligible(keys, cap, c, false, s));
    } else {
      forall q | 0 <= q < |c| && c[q] < cap && Load(keys, c, keys[q]) < cap
        ensures Score(base[choice.value], alpha, c[choice.value]) <= Score(base[q], alpha, c[q])
      {
        assert Eligible(keys, cap, c, true, q);
      }
    }
    slot := if choice.Some? then choice.value else 0;
    assert choice.Some? ==> Preferred(keys, base, alpha, cap, c, true, slot) || Preferred(keys, base, alpha, cap, c, false, slot);
  }

  /** `zoneCount` is the tally of `c` by zone. */
  ghost predicate Tallied(keys: seq<ZoneKey>, c: seq<nat>, zoneCount: map<ZoneKey, nat>)
    requires |keys| == |c|
  {
    forall z :: Get(zoneCount, z) == Load(keys, c, z)
  }

  lemma TallyOneMore(keys: seq<ZoneKey>, c: seq<nat>, zoneCount: map<ZoneKey, nat>, s: nat)
    requires |keys| == |c| && s < |c| && Tallied(keys, c, zoneCount)
    ensures Tallied(keys, c[s := c[s] + 1], zoneCount[keys[s] := Get(zoneCount, keys[s]) + 1])
    ensures Size(c[s := c[s] + 1]) == Size(c) + 1
  {
    var c', tally := c[s := c[s] + 1], zoneCount[keys[s] := Get(zoneCount, keys[s]) + 1];
    SizeUpdate(c, s, c[s] + 1);
    forall z
      ensures Get(tally, z) == Load(keys, c', z)
    {
      LoadUpdate(keys, c, {z}, s, c[s] + 1);
      assert Get(zoneCount, z) == Load(keys, c, z);
    }
  }

  /** The state of the greedy while the zones still have room. */
  ghost predicate OnTrack(keys: seq<ZoneKey>, base: seq<real>, alpha: real, cap: nat, c: seq<nat>)
    requires |keys| == |base| == |c|
  {
    Size(c) <= cap * |Zones(keys)| ==> Obeys(keys, cap, c) && Settled(keys, base, alpha, cap, c)
  }

  lemma StaysOnTrack(keys: seq<ZoneKey>, base: seq<real>, alpha: real, cap: nat, c: seq<nat>, s: nat)
    requires |keys| == |base| == |c| && s < |c| && alpha >= 0.0
    requires OnTrack(keys, base, alpha, cap, c)
    requires (exists q :: 0 <= q < |c| && Eligible(keys, cap, c, true, q)) ==> CheapestRoom(keys, base, alpha, cap, c, s)
    ensures OnTrack(keys, base, alpha, cap, c[s := c[s] + 1])
  {
    SizeUpdate(c, s, c[s] + 1);
    if Size(c) < cap * |Zones(keys)| {
      var room := RoomRemains(keys, cap, c);
      assert Eligible(keys, cap, c, true, room);
      CheapestKeepsSettled(keys, base, alpha, cap, c, s);
    }
  }

  /** Every prefix of the plan that the zones can carry is itself a cheapest layout. */
  ghost predicate CheapestPrefixes(keys: seq<ZoneKey>, base: seq<real>, parity: nat, plan: seq<Location>)
    requires |keys| == |base| && |keys| > 0
  {
    forall k :: 0 <= k <= |plan| && k <= parity * |Zones(keys)| ==>
      Cheapest(keys, base, Alpha(parity), parity, Counts(plan[..k], |keys| - 1))
  }

  lemma CheapestPrefixSnoc(keys: seq<ZoneKey>, base: seq<real>, parity: nat, plan: seq<Location>, l: Location)
    requires |keys| == |base| && |keys| > 0
    requires CheapestPrefixes(keys, base, parity, plan)
    requires OnTrack(keys, base, Alpha(parity), parity, Counts(plan + [l], |keys| - 1))
    requires Size(Counts(plan + [l], |keys| - 1)) == |plan| + 1
    ensures CheapestPrefixes(keys, base, parity, plan + [l])
  {
    forall k | 0 <= k <= |plan| + 1 && k <= parity * |Zones(keys)|
      ensures Cheapest(keys, base, Alpha(parity), parity, Counts((plan + [l])[..k], |keys| - 1))
    {
      if k <= |plan| {
        assert (plan + [l])[..k] == plan[..k];
      } else {
        assert (plan + [l])[..k] == plan + [l];
        SettledIsOptimal(keys, base, Alpha(parity), parity, Counts(plan + [l], |keys| - 1));
      }
    }
  }

  // ── Nearer and steadier peers come first ───────────────────────────────────

  /** `s` is not held back by neighbours in its zone that `t` does not have. */
  ghost predicate Unblocked(keys: seq<ZoneKey>, s: nat, t: nat) {
    s < |keys| && t < |keys| && (keys[s] == keys[t] || Alone(keys, s))
  }

  /** A cheaper slot is never behind a dearer peer, and of equally cheap ones the earlier is
      never behind and the later by one at most. */
  ghost predicate Favours(keys: seq<ZoneKey>, base: seq<real>, c: seq<nat>)
    requires |keys| == |base| == |c|
  {
    forall s, t :: 0 <= s < |c| && 1 <= t < |c| && s != t && Unblocked(keys, s, t) && base[s] <= base[t] ==>
      c[t] <= c[s] + 1 && (base[s] < base[t] || s < t ==> c[t] <= c[s])
  }

  lemma ScoresCompare(b: real, d: real, alpha: real, m: nat, n: nat)
    requires alpha > 0.0 && b <= d
    ensures Score(d, alpha, n) <= Score(b, alpha, m) ==> n <= m
    ensures Score(d, alpha, n) < Score(b, alpha, m) || (b < d && Score(d, alpha, n) <= Score(b, alpha, m)) ==> n < m
  {
    if n >= m {
      assert alpha * n as real - alpha * m as real == alpha * (n - m) as real;
      assert alpha * (n - m) as real >= 0.0;
    }
  }

  lemma FavoursPair(keys: seq<ZoneKey>, base: seq<real>, alpha: real, cap: nat, c: seq<nat>, honor: bool, s: nat, t: nat)
    requires |keys| == |base| == |c| && alpha > 0.0 && s < |c| && Unblocked(keys, s, t) && s != t && base[s] <= base[t]
    requires Preferred(keys, base, alpha, cap, c, honor, t)
    ensures c[t] <= c[s] && (base[s] < base[t] || s < t ==> c[t] < c[s])
  {
    if Eligible(keys, cap, c, honor, s) {
      ScoresCompare(base[s], base[t], alpha, c[s], c[t]);
    } else if Alone(keys, s) {
      LoadAlone(keys, c, s);
    }
  }

  lemma StaysFavouring(keys: seq<ZoneKey>, base: seq<real>, alpha: real, cap: nat, c: seq<nat>, slot: nat)
    requires |keys| == |base| == |c| && alpha > 0.0 && slot < |c| && Favours(keys, base, c)
    requires slot == 0 || exists honor :: Preferred(keys, base, alpha, cap, c, honor, slot)
    ensures Favours(keys, base, c[slot := c[slot] + 1])
  {
    if slot != 0 {
      var honor :| Preferred(keys, base, alpha, cap, c, honor, slot);
      forall s | 0 <= s < |c| && s != slot && Unblocked(keys, s, slot) && base[s] <= base[slot]
        ensures c[slot] <= c[s] && (base[s] < base[slot] || s < slot ==> c[slot] < c[s])
      {
        FavoursPair(keys, base, alpha, cap, c, honor, s, slot);
      }
    }
  }

  /** Distance and flakiness both raise the price. */
  lemma PriceRises(r: real, a: real, q: real, b: real, m: real)
    requires m >= 1.0 && r <= q && a >= b
    ensures Price(r, a, m) <= Price(q, b, m)
    ensures r < q || (a > b && a > 0.0 && b < 100.0) ==> Price(r, a, m) < Price(q, b, m)
  {
    assert q / m - r / m == (q - r) / m;
    assert r < q ==> (q - r) / m > 0.0;
  }

  /** How far reliability counts: the nearer peer is the cheaper one whatever the two
      reliabilities are if and only if it is nearer by more than half the largest distance. */
  lemma DistanceDecidesIff(r: real, q: real, m: real)
    requires m >= 1.0
    ensures (forall a, b :: Price(r, a, m) < Price(q, b, m)) <==> q - r > m / 2.0
  {
    assert (q - r) / m == q / m - r / m;
    assert q - r > m / 2.0 <==> (q - r) / m > 0.5 by {
      assert (q - r) / m * m == q - r;
    }
    assert Unreliability(0.0) == 1.0 && Unreliability(100.0) == 0.0;
    if q - r > m / 2.0 {
      forall a, b ensures Price(r, a, m) < Price(q, b, m) {
        assert 0.0 <= Unreliability(a) <= 1.0 && 0.0 <= Unreliability(b) <= 1.0;
      }
    } else {
      assert !(Price(r, 0.0, m) < Price(q, 100.0, m));
    }
  }

  /** So a flaky peer ten times nearer than a steady one can still be the dearer of the two,
      when a third peer is far enough away. */
  lemma TenTimesNearerIsDearer()
    ensures var peers := [PeerCandidate(10.0, None, 0.0), PeerCandidate(100.0, None, 100.0), PeerCandidate(1000.0, None, 100.0)];
      BasePrices(peers)[1] > BasePrices(peers)[2]
  {
    var peers := [PeerCandidate(10.0, None, 0.0), PeerCandidate(100.0, None, 100.0), PeerCandidate(1000.0, None, 100.0)];
    assert peers[2] in peers;
    assert MaxRtt(peers) == 1000.0;
  }

  /** Peer `i` has no neighbours in its zone, or only such as `j` has too. */
  ghost predicate NoRivals(peers: seq<PeerCandidate>, selfZone: Option<string>, i: nat, j: nat)
    requires i < |peers| && j < |peers|
  {
    || Unlabelled(peers[i]) || peers[i].zone == peers[j].zone
    || (!InZone(peers, selfZone, None, peers[i].zone.value)
        && forall k :: 0 <= k < |peers| && k != i ==> peers[k].zone != peers[i].zone)
  }

  /** Of two peers the one that is no farther and no flakier gets at least as many shards,
      but for one when they are alike and it is listed later. */
  ghost predicate FavoursBetter(peers: seq<PeerCandidate>, selfZone: Option<string>, plan: seq<Location>) {
    forall i, j :: 0 <= i < |peers| && 0 <= j < |peers| && i != j && NoRivals(peers, selfZone, i, j)
                   && peers[i].rttMs <= peers[j].rttMs && peers[i].reliability >= peers[j].reliability ==>
      var (a, b) := (multiset(plan)[Some(i)], multiset(plan)[Some(j)]);
      b <= a + 1 && (i < j || Strictly(peers[i], peers[j]) ==> b <= a)
  }

  ghost predicate Strictly(p: PeerCandidate, q: PeerCandidate) {
    p.rttMs < q.rttMs || (p.reliability > q.reliability && p.reliability > 0.0 && q.reliability < 100.0)
  }

  lemma FavoursPeers(peers: seq<PeerCandidate>, selfZone: Option<string>, plan: seq<Location>)
    requires Favours(Keys(peers, selfZone), BasePrices(peers), Counts(plan, |peers|))
    ensures FavoursBetter(peers, selfZone, plan)
  {
    var keys, base, c := Keys(peers, selfZone), BasePrices(peers), Counts(plan, |peers|);
    forall i, j | 0 <= i < |peers| && 0 <= j < |peers| && i != j && NoRivals(peers, selfZone, i, j)
                  && peers[i].rttMs <= peers[j].rttMs && peers[i].reliability >= peers[j].reliability
      ensures c[j + 1] <= c[i + 1] + 1 && (i < j || Strictly(peers[i], peers[j]) ==> c[j + 1] <= c[i + 1])
      ensures c[i + 1] == multiset(plan)[Some(i)] && c[j + 1] == multiset(plan)[Some(j)]
    {
      PriceRises(peers[i].rttMs, peers[i].reliability, peers[j].rttMs, peers[j].reliability, MaxRtt(peers));
      RivalsAreKeys(peers, selfZone, i, j);
    }
  }

  lemma RivalsAreKeys(peers: seq<PeerCandidate>, selfZone: Option<string>, i: nat, j: nat)
    requires i < |peers| && j < |peers| && NoRivals(peers, selfZone, i, j)
    ensures Unblocked(Keys(peers, selfZone), i + 1, j + 1)
  {
    var keys := Keys(peers, selfZone);
    if keys[i + 1] != keys[j + 1] {
      forall q | 0 <= q < |keys| && q != i + 1 ensures keys[q] != keys[i + 1] {
        KeysAgreeIff(peers, selfZone, i, if q == 0 then i else q - 1);
      }
    }
  }

  // ── Zones as the labels give them ──────────────────────────────────────────

  /** Is this location in the zone labelled `z`?  An owner without a zone of its own is in
      "@self". */
  ghost predicate InZone(peers: seq<PeerCandidate>, selfZone: Option<string>, l: Location, z: string) {
    match l
    case None => selfZone == Some(z) || (z == "@self" && (selfZone == None || selfZone == Some("")))
    case Some(i) => i < |peers| && peers[i].zone == Some(z)
  }

  ghost predicate Unlabelled(p: PeerCandidate) {
    p.zone == None || p.zone == Some("")
  }

  /** Which keys are equal: only those of peers with one and the same label, and the owner's
      with those that carry its label. */
  lemma KeysAgreeIff(peers: seq<PeerCandidate>, selfZone: Option<string>, i: nat, j: nat)
    requires i < |peers| && j < |peers|
    ensures Keys(peers, selfZone)[i + 1] == Keys(peers, selfZone)[j + 1]
       <==> i == j || (peers[i].zone == peers[j].zone && !Unlabelled(peers[i]))
    ensures Keys(peers, selfZone)[0] == Keys(peers, selfZone)[i + 1]
       <==> !Unlabelled(peers[i]) && InZone(peers, selfZone, None, peers[i].zone.value)
  {
  }

  lemma KeyIsZone(peers: seq<PeerCandidate>, selfZone: Option<string>, l: Location, z: string)
    requires z != "" && SlotOf(l) <= |peers|
    ensures Keys(peers, selfZone)[SlotOf(l)] == Labelled(z) <==> InZone(peers, selfZone, l, z)
  {
  }

  /** The shards of `plan` inside the zone labelled `z`. */
  ghost function ShardsIn(peers: seq<PeerCandidate>, selfZone: Option<string>, plan: seq<Location>, z: string): set<nat> {
    set k: nat | k < |plan| && InZone(peers, selfZone, plan[k], z)
  }

  lemma ShardsInSnoc(peers: seq<PeerCandidate>, selfZone: Option<string>, plan: seq<Location>, l: Location, z: string)
    ensures |ShardsIn(peers, selfZone, plan + [l], z)|
         == |ShardsIn(peers, selfZone, plan, z)| + if InZone(peers, selfZone, l, z) then 1 else 0
  {
    var now, before := ShardsIn(peers, selfZone, plan + [l], z), ShardsIn(peers, selfZone, plan, z);
    assert now == if InZone(peers, selfZone, l, z) then before + {|plan|} else before;
  }

  lemma {:induction false} ShardsInIsLoad(peers: seq<PeerCandidate>, selfZone: Option<string>, plan: seq<Location>, z: string)
    requires z != "" && forall k :: 0 <= k < |plan| ==> SlotOf(plan[k]) <= |peers|
    ensures |ShardsIn(peers, selfZone, plan, z)| == Load(Keys(peers, selfZone), Counts(plan, |peers|), Labelled(z))
  {
    var keys := Keys(peers, selfZone);
    if plan == [] {
      EmptySums(keys, Counts(plan, |peers|), {Labelled(z)});
    } else {
      var init, l := plan[..|plan| - 1], plan[|plan| - 1];
      assert plan == init + [l];
      ShardsInIsLoad(peers, selfZone, init, z);
      ShardsInSnoc(peers, selfZone, init, l, z);
      KeyIsZone(peers, selfZone, l, z);
      CountsSnoc(init, |peers|, l);
      var c := Counts(init, |peers|);
      LoadUpdate(keys, c, {Labelled(z)}, SlotOf(l), c[SlotOf(l)] + 1);
    }
  }

  /** No labelled zone holds more than `cap` shards. */
  ghost predicate ZonesCapped(peers: seq<PeerCandidate>, selfZone: Option<string>, plan: seq<Location>, cap: nat) {
    forall z :: z != "" ==> |ShardsIn(peers, selfZone, plan, z)| <= cap
  }

  /** A slot that shares its zone with nobody. */
  ghost predicate Alone(keys: seq<ZoneKey>, s: nat) {
    s < |keys| && forall q :: 0 <= q < |keys| && q != s ==> keys[q] != keys[s]
  }

  lemma LoadAlone(keys: seq<ZoneKey>, c: seq<nat>, s: nat)
    requires |keys| == |c| && Alone(keys, s)
    ensures Load(keys, c, keys[s]) == c[s]
  {
    LoadUpdate(keys, c, {keys[s]}, s, 0);
    NoSlotNoLoad(keys, c[s := 0], keys[s]);
  }

  /** Per-slot and per-key caps are per-label caps, once every peer keeps its own. */
  lemma ObeysIffCapped(peers: seq<PeerCandidate>, selfZone: Option<string>, plan: seq<Location>, cap: nat)
    requires forall k :: 0 <= k < |plan| ==> SlotOf(plan[k]) <= |peers|
    requires forall s :: 1 <= s <= |peers| ==> Counts(plan, |peers|)[s] <= cap
    ensures Obeys(Keys(peers, selfZone), cap, Counts(plan, |peers|)) <==> ZonesCapped(peers, selfZone, plan, cap)
  {
    var keys, c := Keys(peers, selfZone), Counts(plan, |peers|);
    if Obeys(keys, cap, c) {
      forall z | z != "" ensures |ShardsIn(peers, selfZone, plan, z)| <= cap {
        ShardsInIsLoad(peers, selfZone, plan, z);
        if Labelled(z) !in keys {
          NoSlotNoLoad(keys, c, Labelled(z));
        }
      }
    }
    if ZonesCapped(peers, selfZone, plan, cap) {
      forall s | 0 <= s < |c| ensures Load(keys, c, keys[s]) <= cap && c[s] <= cap {
        SlotWithinZone(keys, c, s);
        if keys[s].Labelled? {
          ShardsInIsLoad(peers, selfZone, plan, keys[s].name);
          assert |ShardsIn(peers, selfZone, plan, keys[s].name)| <= cap;
        } else {
          LoadAlone(keys, c, s);
        }
      }
    }
  }

  /** The different labels about, the owner's included. */
  ghost function Labels(peers: seq<PeerCandidate>, selfZone: Option<string>): set<string> {
    {if selfZone.Some? && selfZone.value != "" then selfZone.value else "@self"}
    + set i | 0 <= i < |peers| && !Unlabelled(peers[i]) :: peers[i].zone.value
  }

  ghost function UnlabelledPeers(peers: seq<PeerCandidate>): set<nat> {
    set i: nat | i < |peers| && Unlabelled(peers[i])
  }

  /** How many zones there are: one for each label and one for each peer without. */
  ghost function ZoneCount(peers: seq<PeerCandidate>, selfZone: Option<string>): nat {
    |Labels(peers, selfZone)| + |UnlabelledPeers(peers)|
  }

  lemma {:induction false} ImageSize<A, B>(a: set<A>, f: A -> B, b: set<B>)
    requires (forall x, y :: x in a && y in a && f(x) == f(y) ==> x == y) && b == set x | x in a :: f(x)
    ensures |b| == |a|
    decreases a
  {
    if a != {} {
      var x :| x in a;
      ImageSize(a - {x}, f, b - {f(x)});
    }
  }

  /** Does this key stand for a zone there is? */
  ghost predicate Stands(peers: seq<PeerCandidate>, selfZone: Option<string>, k: ZoneKey) {
    if k.Labelled? then k.name in Labels(peers, selfZone) else k.peer in UnlabelledPeers(peers)
  }

  lemma KeysStand(peers: seq<PeerCandidate>, selfZone: Option<string>, k: ZoneKey)
    ensures k in Keys(peers, selfZone) <==> Stands(peers, selfZone, k)
  {
    var keys := Keys(peers, selfZone);
    forall s | 0 <= s < |keys| ensures Stands(peers, selfZone, keys[s]) {
    }
    if Stands(peers, selfZone, k) {
      if k.Unzoned? {
        assert keys[k.peer + 1] == k;
      } else if k != keys[0] {
        var i :| 0 <= i < |peers| && !Unlabelled(peers[i]) && peers[i].zone.value == k.name;
        assert keys[i + 1] == k;
      }
    }
  }

  lemma KeySetSize(labels: set<string>, rest: set<nat>, zs: set<ZoneKey>)
    requires forall k :: k in zs <==> if k.Labelled? then k.name in labels else k.peer in rest
    ensures |zs| == |labels| + |rest|
  {
    var named, nameless := set z | z in labels :: Labelled(z), set i | i in rest :: Unzoned(i);
    ImageSize(labels, z => Labelled(z), named);
    ImageSize(rest, i => Unzoned(i), nameless);
    assert zs == named + nameless;
  }

  lemma ZonesCounted(peers: seq<PeerCandidate>, selfZone: Option<string>)
    ensures |Zones(Keys(peers, selfZone))| == ZoneCount(peers, selfZone)
  {
    var zs := Zones(Keys(peers, selfZone));
    forall k ensures k in zs <==> Stands(peers, selfZone, k) {
      KeysStand(peers, selfZone, k);
    }
    KeySetSize(Labels(peers, selfZone), UnlabelledPeers(peers), zs);
  }

  /** What holds after every placed shard. */
  ghost predicate PlanState(keys: seq<ZoneKey>, base: seq<real>, parity: nat,
                            plan: seq<Location>, c: seq<nat>, zoneCount: map<ZoneKey, nat>)
    requires |keys| == |base| && |keys| > 0
  {
    && (forall j :: 0 <= j < |plan| ==> SlotOf(plan[j]) < |keys|)
    && c == Counts(plan, |keys| - 1) && Size(c) == |plan|
    && Tallied(keys, c, zoneCount)
    && PeerCapped(c, parity)
    && OnTrack(keys, base, Alpha(parity), parity, c)
    && CheapestPrefixes(keys, base, parity, plan)
  }

  lemma PlanStart(keys: seq<ZoneKey>, base: seq<real>, parity: nat, c: seq<nat>)
    requires |keys| == |base| == |c| && |keys| > 0 && forall s :: 0 <= s < |c| ==> c[s] == 0
    ensures PlanState(keys, base, parity, [], c, map[])
  {
    EmptyLayout(keys, base, Alpha(parity), parity, c);
    assert Counts([], |keys| - 1) == c;
    SettledIsOptimal(keys, base, Alpha(parity), parity, c);
  }

  lemma PlanStep(keys: seq<ZoneKey>, base: seq<real>, parity: nat, plan: seq<Location>, c: seq<nat>,
                 zoneCount: map<ZoneKey, nat>, s: nat)
    requires |keys| == |base| && |keys| > 0 && PlanState(keys, base, parity, plan, c, zoneCount)
    requires s < |c|
    requires (exists q :: 0 <= q < |c| && Eligible(keys, parity, c, true, q)) ==>
               CheapestRoom(keys, base, Alpha(parity), parity, c, s)
    requires c[s] < parity || (s == 0 && forall q :: 0 <= q < |c| ==> c[q] >= parity)
    ensures PlanState(keys, base, parity, plan + [LocationOf(s)], c[s := c[s] + 1],
                      zoneCount[keys[s] := Get(zoneCount, keys[s]) + 1])
  {
    CountsSnoc(plan, |keys| - 1, LocationOf(s));
    TallyOneMore(keys, c, zoneCount, s);
    StaysOnTrack(keys, base, Alpha(parity), parity, c, s);
    CheapestPrefixSnoc(keys, base, parity, plan, LocationOf(s));
  }

  /**
    The plan.  Three guarantees, for every peer list, owner zone, total and cap:
    the per-peer caps always hold; the zone caps hold exactly when the zones can
    carry the total at all; and then no layout of the same size under the caps has a
    smaller total score, neither for the whole plan nor for any prefix of it.
   */
  method PlanPlacementZoned(peers: seq<PeerCandidate>, selfZone: Option<string>, total: nat, parity: nat)
    returns (out: seq<Location>)
    ensures |out| == total
    ensures forall k :: 0 <= k < |out| ==> SlotOf(out[k]) <= |peers|
    ensures Size(Counts(out, |peers|)) == total
    ensures PeerCapped(Counts(out, |peers|), parity)
    ensures Obeys(Keys(peers, selfZone), parity, Counts(out, |peers|))
       <==> total <= parity * |Zones(Keys(peers, selfZone))|
    ensures ZonesCapped(peers, selfZone, out, parity) <==> total <= parity * ZoneCount(peers, selfZone)
    ensures CheapestPrefixes(Keys(peers, selfZone), BasePrices(peers), parity, out)
    ensures FavoursBetter(peers, selfZone, out)
  {
    var keys, base, alpha := Keys(peers, selfZone), BasePrices(peers), Alpha(parity);
    var zoneCount: map<ZoneKey, nat> := map[];
    var c := seq(|peers| + 1, _ => 0);
    out := [];
    PlanStart(keys, base, parity, c);
    for k := 0 to total
      invariant |out| == k
      invariant PlanState(keys, base, parity, out, c, zoneCount) && Favours(keys, base, c)
    {
      var slot := ChooseSlot(keys, base, alpha, parity, c, zoneCount);
      PlanStep(keys, base, parity, out, c, zoneCount, slot);
      StaysFavouring(keys, base, alpha, parity, c, slot);
      zoneCount := zoneCount[keys[slot] := Get(zoneCount, keys[slot]) + 1];
      c := c[slot := c[slot] + 1];
      out := out + [LocationOf(slot)];
    }
    if Obeys(keys, parity, c) {
      CapacityBound(keys, parity, c);
    }
    ObeysIffCapped(peers, selfZone, out, parity);
    ZonesCounted(peers, selfZone);
    FavoursPeers(peers, selfZone, out);
  }

  lemma {:induction false} EmptySums(keys: seq<ZoneKey>, c: seq<nat>, zs: set<ZoneKey>)
    requires |keys| == |c| && forall s :: 0 <= s < |c| ==> c[s] == 0
    ensures Size(c) == 0 && LoadIn(keys, c, zs) == 0
  {
    if c != [] {
      EmptySums(keys[1..], c[1..], zs);
    }
  }

  lemma EmptyLayout(keys: seq<ZoneKey>, base: seq<real>, alpha: real, cap: nat, c: seq<nat>)
    requires |keys| == |base| == |c| && forall s :: 0 <= s < |c| ==> c[s] == 0
    ensures Size(c) == 0 && Obeys(keys, cap, c) && Settled(keys, base, alpha, cap, c)
    ensures forall z :: Load(keys, c, z) == 0
  {
    EmptySums(keys, c, {});
    forall z ensures Load(keys, c, z) == 0 {
      EmptySums(keys, c, {z});
    }
  }

  // ── What the caps buy ──────────────────────────────────────────────────────

  /** The shards left when every location of the zone labelled `z` is gone. */
  ghost function Outside(peers: seq<PeerCandidate>, selfZone: Option<string>, plan: seq<Location>, z: string): set<nat> {
    set k: nat | k < |plan| && !InZone(peers, selfZone, plan[k], z)
  }

  /** With enough zones for the total, losing any one zone, whatever its label, leaves at
      least `total - parity` shards standing. */
  lemma ZoneLossSurvivable(peers: seq<PeerCandidate>, selfZone: Option<string>, plan: seq<Location>, parity: nat)
    requires forall k :: 0 <= k < |plan| ==> SlotOf(plan[k]) <= |peers|
    requires ZonesCapped(peers, selfZone, plan, parity)
    ensures forall z :: z != "" ==> |Outside(peers, selfZone, plan, z)| >= |plan| - parity
  {
    forall z | z != "" ensures |Outside(peers, selfZone, plan, z)| >= |plan| - parity {
      var inside, outside := ShardsIn(peers, selfZone, plan, z), Outside(peers, selfZone, plan, z);
      Sums.FullSize(inside + outside, |plan|);
      assert |ShardsIn(peers, selfZone, plan, z)| <= parity;
    }
  }

  lemma {:induction false} NoSlotNoLoad(keys: seq<ZoneKey>, c: seq<nat>, z: ZoneKey)
    requires |keys| == |c| && forall s :: 0 <= s < |c| && keys[s] == z ==> c[s] == 0
    ensures Load(keys, c, z) == 0
  {
    if c != [] {
      NoSlotNoLoad(keys[1..], c[1..], z);
    }
  }

  lemma {:induction false} SizeBetween(c: seq<nat>, cap: nat)
    ensures (forall s :: 0 <= s < |c| ==> c[s] <= cap) ==> Size(c) <= cap * |c|
    ensures (forall s :: 0 <= s < |c| ==> c[s] == cap) ==> Size(c) == cap * |c|
  {
    if c != [] {
      SizeBetween(c[1..], cap);
      OneMore(cap, |c| - 1);
    }
  }

  /** The owner is overloaded exactly when all locations together cannot carry the
      total, and then it carries precisely the remainder. */
  lemma OwnerOverflowsIff(c: seq<nat>, cap: nat)
    requires PeerCapped(c, cap)
    ensures c[0] > cap <==> Size(c) > cap * |c|
    ensures c[0] > cap ==> c[0] == Size(c) - cap * (|c| - 1)
  {
    SizeBetween(c[1..], cap);
    OneMore(cap, |c| - 1);
  }
}
