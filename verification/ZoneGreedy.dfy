/**
  The combinatorics behind shard placement.

  A layout puts `c[i]` shards on slot `i`.  Slots are grouped by a zone key, and
  both every slot and every zone may hold at most `cap` shards.  The k-th shard on
  a slot costs `base[i] + alpha * k`, so concentrating shards gets dearer.

  The result of this module: a layout that no single shard move improves
  (`Settled`) is cheapest among ALL layouts of its size under the caps
  (`SettledIsOptimal`), and always adding the cheapest admissible shard keeps a
  layout settled (`CheapestKeepsSettled`).
 */
module ZoneGreedy {

  /** The correlated-failure zone of a slot.  A peer without a zone label gets a key
      of its own, which nothing else can carry. */
  datatype ZoneKey = Labelled(name: string) | Unzoned(peer: nat)

  /** Shards on the slots whose zone is in `zs`. */
  function LoadIn(keys: seq<ZoneKey>, c: seq<nat>, zs: set<ZoneKey>): nat
    requires |keys| == |c|
  {
    if c == [] then 0
    else LoadIn(keys[1..], c[1..], zs) + if keys[0] in zs then c[0] else 0
  }

  function Load(keys: seq<ZoneKey>, c: seq<nat>, z: ZoneKey): nat
    requires |keys| == |c|
  {
    LoadIn(keys, c, {z})
  }

  function Size(c: seq<nat>): nat {
    if c == [] then 0 else c[0] + Size(c[1..])
  }

  function Zones(keys: seq<ZoneKey>): set<ZoneKey> {
    set i | 0 <= i < |keys| :: keys[i]
  }

  /** Neither a slot nor a zone holds more than `cap`. */
  ghost predicate Obeys(keys: seq<ZoneKey>, cap: nat, c: seq<nat>) {
    && |c| == |keys|
    && (forall i :: 0 <= i < |c| ==> c[i] <= cap)
    && (forall i :: 0 <= i < |c| ==> Load(keys, c, keys[i]) <= cap)
  }

  /** Price of the shard number `k` (from 0) on a slot of base price `b`. */
  function Score(b: real, alpha: real, k: nat): real {
    b + alpha * k as real
  }

  /** Price of the first `n` shards on one slot. */
  function Tower(b: real, alpha: real, n: nat): real {
    if n == 0 then 0.0 else Tower(b, alpha, n - 1) + Score(b, alpha, n - 1)
  }

  function Cost(base: seq<real>, alpha: real, c: seq<nat>): real
    requires |base| == |c|
  {
    if c == [] then 0.0 else Tower(base[0], alpha, c[0]) + Cost(base[1..], alpha, c[1..])
  }

  /** The layout after moving one shard from slot `p` to slot `q`. */
  function Move(c: seq<nat>, p: nat, q: nat): seq<nat>
    requires p < |c| && q < |c| && p != q && c[p] > 0
  {
    c[p := c[p] - 1][q := c[q] + 1]
  }

  /** No admissible single move pays off. */
  ghost predicate Settled(keys: seq<ZoneKey>, base: seq<real>, alpha: real, cap: nat, c: seq<nat>)
    requires |base| == |keys| == |c|
  {
    forall p, q :: 0 <= p < |c| && 0 <= q < |c| && p != q && c[p] > 0 && Obeys(keys, cap, Move(c, p, q)) ==>
      Score(base[p], alpha, c[p] - 1) <= Score(base[q], alpha, c[q])
  }

  /** `c` costs no more than any layout of the same size under the same caps. */
  ghost predicate Cheapest(keys: seq<ZoneKey>, base: seq<real>, alpha: real, cap: nat, c: seq<nat>)
    requires |base| == |keys| == |c|
  {
    forall d: seq<nat> :: Obeys(keys, cap, d) && Size(d) == Size(c) ==>
      Cost(base, alpha, c) <= Cost(base, alpha, d)
  }

  // ── Sums under a point update ──────────────────────────────────────────────

  lemma {:induction false} LoadUpdate(keys: seq<ZoneKey>, c: seq<nat>, zs: set<ZoneKey>, i: nat, v: nat)
    requires |keys| == |c| && i < |c|
    ensures LoadIn(keys, c[i := v], zs) == LoadIn(keys, c, zs) + if keys[i] in zs then v - c[i] else 0
  {
    if i == 0 {
      assert c[i := v][1..] == c[1..];
    } else {
      assert c[i := v][1..] == c[1..][i - 1 := v];
      LoadUpdate(keys[1..], c[1..], zs, i - 1, v);
    }
  }

  lemma {:induction false} SizeUpdate(c: seq<nat>, i: nat, v: nat)
    requires i < |c|
    ensures Size(c[i := v]) == Size(c) + v - c[i]
  {
    if i == 0 {
      assert c[i := v][1..] == c[1..];
    } else {
      assert c[i := v][1..] == c[1..][i - 1 := v];
      SizeUpdate(c[1..], i - 1, v);
    }
  }

  lemma {:induction false} CostUpdate(base: seq<real>, alpha: real, c: seq<nat>, i: nat, v: nat)
    requires |base| == |c| && i < |c|
    ensures Cost(base, alpha, c[i := v])
         == Cost(base, alpha, c) + Tower(base[i], alpha, v) - Tower(base[i], alpha, c[i])
  {
    if i == 0 {
      assert c[i := v][1..] == c[1..];
    } else {
      assert c[i := v][1..] == c[1..][i - 1 := v];
      CostUpdate(base[1..], alpha, c[1..], i - 1, v);
    }
  }

  lemma MoveEffect(keys: seq<ZoneKey>, base: seq<real>, alpha: real, c: seq<nat>, p: nat, q: nat)
    requires |keys| == |base| == |c| && p < |c| && q < |c| && p != q && c[p] > 0
    ensures Size(Move(c, p, q)) == Size(c)
    ensures forall z :: Load(keys, Move(c, p, q), z)
                     == Load(keys, c, z) - (if keys[p] == z then 1 else 0) + (if keys[q] == z then 1 else 0)
    ensures Cost(base, alpha, Move(c, p, q))
         == Cost(base, alpha, c) - Score(base[p], alpha, c[p] - 1) + Score(base[q], alpha, c[q])
  {
    var c1 := c[p := c[p] - 1];
    SizeUpdate(c, p, c[p] - 1);
    SizeUpdate(c1, q, c[q] + 1);
    CostUpdate(base, alpha, c, p, c[p] - 1);
    CostUpdate(base, alpha, c1, q, c[q] + 1);
    forall z
      ensures Load(keys, Move(c, p, q), z)
           == Load(keys, c, z) - (if keys[p] == z then 1 else 0) + (if keys[q] == z then 1 else 0)
    {
      LoadUpdate(keys, c, {z}, p, c[p] - 1);
      LoadUpdate(keys, c1, {z}, q, c[q] + 1);
    }
  }

  // ── Sums over zones ────────────────────────────────────────────────────────

  lemma {:induction false} LoadSplit(keys: seq<ZoneKey>, c: seq<nat>, zs: set<ZoneKey>, z: ZoneKey)
    requires |keys| == |c| && z in zs
    ensures LoadIn(keys, c, zs) == Load(keys, c, z) + LoadIn(keys, c, zs - {z})
  {
    if c != [] {
      LoadSplit(keys[1..], c[1..], zs, z);
    }
  }

  lemma {:induction false} LoadAll(keys: seq<ZoneKey>, c: seq<nat>, zs: set<ZoneKey>)
    requires |keys| == |c|
    requires forall i :: 0 <= i < |keys| ==> keys[i] in zs
    ensures LoadIn(keys, c, zs) == Size(c)
  {
    if c != [] {
      LoadAll(keys[1..], c[1..], zs);
    }
  }

  lemma {:induction false} LoadPointwise(keys: seq<ZoneKey>, c: seq<nat>, d: seq<nat>, zs: set<ZoneKey>)
    requires |keys| == |c| == |d|
    requires forall i :: 0 <= i < |c| && keys[i] in zs ==> c[i] <= d[i]
    ensures LoadIn(keys, c, zs) <= LoadIn(keys, d, zs)
  {
    if c != [] {
      forall i | 0 <= i < |c[1..]| && keys[1..][i] in zs
        ensures c[1..][i] <= d[1..][i]
      {
        assert keys[1 + i] in zs;
      }
      LoadPointwise(keys[1..], c[1..], d[1..], zs);
    }
  }

  lemma {:induction false} LoadZonewise(keys: seq<ZoneKey>, c: seq<nat>, d: seq<nat>, zs: set<ZoneKey>)
    requires |keys| == |c| == |d|
    requires forall z :: z in zs ==> Load(keys, c, z) <= Load(keys, d, z)
    ensures LoadIn(keys, c, zs) <= LoadIn(keys, d, zs)
    decreases |zs|
  {
    if zs == {} {
      LoadPointwise(keys, c, d, zs);
    } else {
      var z :| z in zs;
      LoadSplit(keys, c, zs, z);
      LoadSplit(keys, d, zs, z);
      LoadZonewise(keys, c, d, zs - {z});
    }
  }

  lemma OneMore(cap: nat, n: nat)
    ensures cap * (n + 1) == cap * n + cap
  {
  }

  lemma {:induction false} LoadAtMost(keys: seq<ZoneKey>, c: seq<nat>, zs: set<ZoneKey>, cap: nat)
    requires |keys| == |c|
    requires forall z :: z in zs ==> Load(keys, c, z) <= cap
    ensures LoadIn(keys, c, zs) <= cap * |zs|
    decreases |zs|
  {
    if zs == {} {
      LoadNowhere(keys, c);
    } else {
      var z :| z in zs;
      LoadSplit(keys, c, zs, z);
      LoadAtMost(keys, c, zs - {z}, cap);
      OneMore(cap, |zs - {z}|);
    }
  }

  lemma {:induction false} LoadAtLeast(keys: seq<ZoneKey>, c: seq<nat>, zs: set<ZoneKey>, cap: nat)
    requires |keys| == |c|
    requires forall z :: z in zs ==> Load(keys, c, z) >= cap
    ensures LoadIn(keys, c, zs) >= cap * |zs|
    decreases |zs|
  {
    if zs != {} {
      var z :| z in zs;
      LoadSplit(keys, c, zs, z);
      LoadAtLeast(keys, c, zs - {z}, cap);
      OneMore(cap, |zs - {z}|);
    }
  }

  lemma {:induction false} LoadNowhere(keys: seq<ZoneKey>, c: seq<nat>)
    requires |keys| == |c|
    ensures LoadIn(keys, c, {}) == 0
  {
    if c != [] {
      LoadNowhere(keys[1..], c[1..]);
    }
  }

  lemma SlotWithinZone(keys: seq<ZoneKey>, c: seq<nat>, i: nat)
    requires |keys| == |c| && i < |c|
    ensures c[i] <= Load(keys, c, keys[i])
  {
    LoadUpdate(keys, c, {keys[i]}, i, 0);
  }

  /** Zone caps alone decide admissibility: a slot never outweighs its own zone. */
  lemma ZoneCapsSuffice(keys: seq<ZoneKey>, cap: nat, c: seq<nat>)
    requires |c| == |keys|
    requires forall i :: 0 <= i < |c| ==> Load(keys, c, keys[i]) <= cap
    ensures Obeys(keys, cap, c)
  {
    forall i | 0 <= i < |c| ensures c[i] <= cap {
      SlotWithinZone(keys, c, i);
    }
  }

  /** An admissible layout holds at most `cap` shards per distinct zone. */
  lemma CapacityBound(keys: seq<ZoneKey>, cap: nat, c: seq<nat>)
    requires Obeys(keys, cap, c)
    ensures Size(c) <= cap * |Zones(keys)|
  {
    LoadAll(keys, c, Zones(keys));
    LoadAtMost(keys, c, Zones(keys), cap);
  }

  /** Below that capacity some slot can still take a shard. */
  lemma RoomRemains(keys: seq<ZoneKey>, cap: nat, c: seq<nat>) returns (i: nat)
    requires Obeys(keys, cap, c)
    requires Size(c) < cap * |Zones(keys)|
    ensures i < |c| && Load(keys, c, keys[i]) < cap && c[i] < cap
  {
    if forall z :: z in Zones(keys) ==> Load(keys, c, z) >= cap {
      LoadAll(keys, c, Zones(keys));
      LoadAtLeast(keys, c, Zones(keys), cap);
      assert false;
    }
    var z :| z in Zones(keys) && Load(keys, c, z) < cap;
    i :| 0 <= i < |keys| && keys[i] == z;
    SlotWithinZone(keys, c, i);
  }

  // ── Optimality ─────────────────────────────────────────────────────────────

  /** How many shards of `c` sit where `d` has fewer. */
  function Surplus(c: seq<nat>, d: seq<nat>): nat
    requires |c| == |d|
  {
    if c == [] then 0 else (if c[0] > d[0] then c[0] - d[0] else 0) + Surplus(c[1..], d[1..])
  }

  lemma {:induction false} SurplusUpdate(c: seq<nat>, d: seq<nat>, i: nat, v: nat)
    requires |c| == |d| && i < |c|
    ensures Surplus(c, d[i := v])
         == Surplus(c, d) - (if c[i] > d[i] then c[i] - d[i] else 0) + (if c[i] > v then c[i] - v else 0)
  {
    if i == 0 {
      assert d[i := v][1..] == d[1..];
    } else {
      assert d[i := v][1..] == d[1..][i - 1 := v];
      SurplusUpdate(c[1..], d[1..], i - 1, v);
    }
  }

  lemma {:induction false} NoSurplusNoMore(c: seq<nat>, d: seq<nat>)
    requires |c| == |d|
    requires forall i :: 0 <= i < |c| ==> c[i] <= d[i]
    ensures Size(c) <= Size(d)
    ensures Size(c) == Size(d) ==> c == d
  {
    if c != [] {
      assert c == [c[0]] + c[1..] && d == [d[0]] + d[1..];
      NoSurplusNoMore(c[1..], d[1..]);
    }
  }

  /** Two layouts of one size with unlike zone loads: some zone is lighter in `c`. */
  lemma LighterZone(keys: seq<ZoneKey>, c: seq<nat>, d: seq<nat>, z: ZoneKey) returns (q: nat)
    requires |keys| == |c| == |d| && Size(c) == Size(d)
    requires z in Zones(keys) && Load(keys, c, z) > Load(keys, d, z)
    ensures q < |c| && c[q] < d[q] && Load(keys, c, keys[q]) < Load(keys, d, keys[q])
  {
    var all := Zones(keys);
    if forall w :: w in all ==> Load(keys, d, w) <= Load(keys, c, w) {
      LoadSplit(keys, c, all, z);
      LoadSplit(keys, d, all, z);
      LoadZonewise(keys, d, c, all - {z});
      LoadAll(keys, c, all);
      LoadAll(keys, d, all);
      assert false;
    }
    var w :| w in all && Load(keys, d, w) > Load(keys, c, w);
    if forall i :: 0 <= i < |c| && keys[i] in {w} ==> d[i] <= c[i] {
      LoadPointwise(keys, d, c, {w});
      assert false;
    }
    q :| 0 <= q < |c| && keys[q] in {w} && d[q] > c[q];
  }

  lemma HeavierSlot(c: seq<nat>, d: seq<nat>) returns (p: nat)
    requires |c| == |d| && Size(c) == Size(d) && c != d
    ensures p < |c| && c[p] > d[p]
  {
    if forall i :: 0 <= i < |c| ==> c[i] <= d[i] {
      NoSurplusNoMore(c, d);
      assert false;
    }
    p :| 0 <= p < |c| && c[p] > d[p];
  }

  /** A move into a zone with room, or within one zone, stays admissible. */
  lemma MoveAdmissible(keys: seq<ZoneKey>, cap: nat, c: seq<nat>, p: nat, q: nat)
    requires Obeys(keys, cap, c) && p < |c| && q < |c| && p != q && c[p] > 0
    requires keys[p] == keys[q] || Load(keys, c, keys[q]) < cap
    ensures Obeys(keys, cap, Move(c, p, q))
  {
    MoveEffect(keys, seq(|c|, _ => 0.0), 0.0, c, p, q);
    forall i | 0 <= i < |c| ensures Load(keys, Move(c, p, q), keys[i]) <= cap {
      assert Load(keys, c, keys[i]) <= cap;
    }
    ZoneCapsSuffice(keys, cap, Move(c, p, q));
  }

  /** Two admissible layouts of one size that differ can trade a shard in both directions. */
  lemma SymmetricExchange(keys: seq<ZoneKey>, cap: nat, c: seq<nat>, d: seq<nat>) returns (p: nat, q: nat)
    requires Obeys(keys, cap, c) && Obeys(keys, cap, d) && Size(c) == Size(d) && c != d
    ensures p < |c| && q < |c| && p != q && c[p] > d[p] && c[q] < d[q]
    ensures Obeys(keys, cap, Move(c, p, q)) && Obeys(keys, cap, Move(d, q, p))
  {
    p := HeavierSlot(c, d);
    if i :| 0 <= i < |c| && keys[i] == keys[p] && c[i] < d[i] {
      q := i;
    } else {
      ZoneHeavier(keys, c, d, p);
      q := LighterZone(keys, c, d, keys[p]);
    }
    MoveAdmissible(keys, cap, c, p, q);
    MoveAdmissible(keys, cap, d, q, p);
  }

  lemma ZoneHeavier(keys: seq<ZoneKey>, c: seq<nat>, d: seq<nat>, p: nat)
    requires |keys| == |c| == |d| && p < |c| && c[p] > d[p]
    requires forall i :: 0 <= i < |c| && keys[i] == keys[p] ==> d[i] <= c[i]
    ensures Load(keys, c, keys[p]) > Load(keys, d, keys[p])
  {
    var z := keys[p];
    var c' := c[p := d[p]];
    LoadUpdate(keys, c, {z}, p, d[p]);
    LoadPointwise(keys, d, c', {z});
  }

  lemma ScoreGrows(b: real, alpha: real, j: nat, k: nat)
    requires alpha >= 0.0 && j <= k
    ensures Score(b, alpha, j) <= Score(b, alpha, k)
  {
    assert alpha * (k - j) as real >= 0.0;
    assert alpha * k as real == alpha * j as real + alpha * (k - j) as real;
  }

  lemma {:induction false} SettledBeats(keys: seq<ZoneKey>, base: seq<real>, alpha: real, cap: nat, c: seq<nat>, d: seq<nat>)
    requires |base| == |keys| && alpha >= 0.0
    requires Obeys(keys, cap, c) && Settled(keys, base, alpha, cap, c)
    requires Obeys(keys, cap, d) && Size(d) == Size(c)
    ensures Cost(base, alpha, c) <= Cost(base, alpha, d)
    decreases Surplus(c, d)
  {
    if c != d {
      var p, q := SymmetricExchange(keys, cap, c, d);
      var d' := Move(d, q, p);
      MoveEffect(keys, base, alpha, d, q, p);
      SurplusUpdate(c, d, q, d[q] - 1);
      SurplusUpdate(c, d[q := d[q] - 1], p, d[p] + 1);
      ScoreGrows(base[p], alpha, d[p], c[p] - 1);
      ScoreGrows(base[q], alpha, c[q], d[q] - 1);
      SettledBeats(keys, base, alpha, cap, c, d');
    }
  }

  /** Locally settled means globally cheapest. */
  lemma SettledIsOptimal(keys: seq<ZoneKey>, base: seq<real>, alpha: real, cap: nat, c: seq<nat>)
    requires |base| == |keys| && alpha >= 0.0
    requires Obeys(keys, cap, c) && Settled(keys, base, alpha, cap, c)
    ensures Cheapest(keys, base, alpha, cap, c)
  {
    forall d: seq<nat> | Obeys(keys, cap, d) && Size(d) == Size(c)
      ensures Cost(base, alpha, c) <= Cost(base, alpha, d)
    {
      SettledBeats(keys, base, alpha, cap, c, d);
    }
  }

  /** Slot `r` may take one more shard, and no admissible slot would take it cheaper. */
  ghost predicate CheapestRoom(keys: seq<ZoneKey>, base: seq<real>, alpha: real, cap: nat, c: seq<nat>, r: nat)
    requires |base| == |keys| == |c|
  {
    && r < |c| && c[r] < cap && Load(keys, c, keys[r]) < cap
    && (forall q :: 0 <= q < |c| && c[q] < cap && Load(keys, c, keys[q]) < cap ==>
          Score(base[r], alpha, c[r]) <= Score(base[q], alpha, c[q]))
  }

  lemma FewerStaysAdmissible(keys: seq<ZoneKey>, cap: nat, c: seq<nat>, d: seq<nat>)
    requires Obeys(keys, cap, d) && |c| == |d|
    requires forall i :: 0 <= i < |c| ==> c[i] <= d[i]
    ensures Obeys(keys, cap, c)
  {
    forall i | 0 <= i < |c| ensures Load(keys, c, keys[i]) <= cap {
      LoadPointwise(keys, c, d, {keys[i]});
    }
  }

  lemma NewShardIsCheapest(keys: seq<ZoneKey>, base: seq<real>, alpha: real, cap: nat, c: seq<nat>, r: nat, q: nat)
    requires |base| == |keys| && |c| == |keys|
    requires CheapestRoom(keys, base, alpha, cap, c, r)
    requires q < |c| && q != r && Obeys(keys, cap, Move(c[r := c[r] + 1], r, q))
    ensures Score(base[r], alpha, c[r]) <= Score(base[q], alpha, c[q])
  {
    var c' := c[q := c[q] + 1];
    assert Move(c[r := c[r] + 1], r, q) == c';
    assert c'[q] <= cap && Load(keys, c', keys[q]) <= cap;
    LoadUpdate(keys, c, {keys[q]}, q, c[q] + 1);
  }

  lemma OldShardStaysPut(keys: seq<ZoneKey>, base: seq<real>, alpha: real, cap: nat, c: seq<nat>, r: nat,
                         p: nat, q: nat)
    requires |base| == |keys| && |c| == |keys| && r < |c|
    requires Settled(keys, base, alpha, cap, c)
    requires p < |c| && q < |c| && p != q && p != r && c[p] > 0
    requires Obeys(keys, cap, Move(c[r := c[r] + 1], p, q))
    ensures Score(base[p], alpha, c[p] - 1) <= Score(base[q], alpha, c[q])
  {
    FewerStaysAdmissible(keys, cap, Move(c, p, q), Move(c[r := c[r] + 1], p, q));
  }

  /** Adding the cheapest admissible shard keeps the caps and keeps the layout settled. */
  lemma CheapestKeepsSettled(keys: seq<ZoneKey>, base: seq<real>, alpha: real, cap: nat, c: seq<nat>, r: nat)
    requires |base| == |keys| && alpha >= 0.0
    requires Obeys(keys, cap, c) && Settled(keys, base, alpha, cap, c)
    requires CheapestRoom(keys, base, alpha, cap, c, r)
    ensures Obeys(keys, cap, c[r := c[r] + 1])
    ensures Settled(keys, base, alpha, cap, c[r := c[r] + 1])
  {
    var c' := c[r := c[r] + 1];
    forall i | 0 <= i < |c| ensures Load(keys, c', keys[i]) <= cap {
      LoadUpdate(keys, c, {keys[i]}, r, c[r] + 1);
    }
    forall p, q | 0 <= p < |c| && 0 <= q < |c| && p != q && c'[p] > 0 && Obeys(keys, cap, Move(c', p, q))
      ensures Score(base[p], alpha, c'[p] - 1) <= Score(base[q], alpha, c'[q])
    {
      if p == r {
        NewShardIsCheapest(keys, base, alpha, cap, c, r, q);
      } else {
        OldShardStaysPut(keys, base, alpha, cap, c, r, p, q);
        ScoreGrows(base[q], alpha, c[q], c'[q]);
      }
    }
  }
}
