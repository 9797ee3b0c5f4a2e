/**
  The Kademlia routing table (dht.rs): 160 buckets of at most `K` nodes, filed by the
  most significant bit in which an id differs from our own.
 */
module Routing {
  import opened Wrappers
  import opened NodeIds
  import opened AddrPolicy

  const K: nat := 8
  const STALE_AFTER: nat := 900
  const BUCKETS: nat := 160

  datatype Addr = Addr(ip: Ip, port: nat)

  datatype Node = Node(id: NodeId, udp: Addr, p2pPort: nat, verified: bool, lastSeen: nat)

  /** Saturating elapsed time. */
  function Since(now: nat, t: nat): nat {
    if now >= t then now - t else 0
  }

  predicate Stale(n: Node, now: nat) {
    Since(now, n.lastSeen) > STALE_AFTER
  }

  // ── One bucket ─────────────────────────────────────────────────────────────

  function Position(b: seq<Node>, id: NodeId): (r: Option<nat>)
    ensures r == None <==> forall k :: 0 <= k < |b| ==> b[k].id != id
    ensures r.Some? ==> r.value < |b| && b[r.value].id == id
  {
    if b == [] then None
    else if b[0].id == id then Some(0)
    else
      match Position(b[1..], id)
      case None => assert forall k :: 1 <= k < |b| ==> b[k] == b[1..][k - 1]; None
      case Some(p) => Some(p + 1)
  }

  /** The eviction order: unverified before verified, then the longest silent. */
  predicate GoesBefore(a: Node, b: Node) {
    (!a.verified && b.verified) || (a.verified == b.verified && a.lastSeen < b.lastSeen)
  }

  /** The stale node that goes first, the earliest in the bucket among equals. */
  function Victim(b: seq<Node>, now: nat): (r: Option<nat>)
    ensures r == None <==> forall k :: 0 <= k < |b| ==> !Stale(b[k], now)
    ensures r.Some? ==> r.value < |b| && Stale(b[r.value], now)
    ensures r.Some? ==> forall k :: 0 <= k < |b| && Stale(b[k], now) ==> !GoesBefore(b[k], b[r.value])
  {
    if b == [] then None
    else
      var n := |b| - 1;
      var r := Victim(b[..n], now);
      assert forall k :: 0 <= k < n ==> b[..n][k] == b[k];
      if Stale(b[n], now) && (r == None || GoesBefore(b[n], b[r.value])) then Some(n) else r
  }

  /** A sighting refreshes the entry; only a proved one may move its address. */
  function Refresh(existing: Node, seen: Node): Node {
    if seen.verified then existing.(lastSeen := seen.lastSeen, udp := seen.udp, p2pPort := seen.p2pPort, verified := true)
    else existing.(lastSeen := seen.lastSeen)
  }

  function AddTo(b: seq<Node>, n: Node): (seq<Node>, bool) {
    match Position(b, n.id)
    case Some(p) => (b[..p] + b[p + 1..] + [Refresh(b[p], n)], false)
    case None =>
      if |b| < K then (b + [n], true)
      else
        match Victim(b, n.lastSeen)
        case Some(i) => (b[i := n], true)
        case None => (b, false)
  }

  ghost predicate BucketOk(self: NodeId, i: nat, b: seq<Node>) {
    && |b| <= K
    && (forall k, l :: 0 <= k < l < |b| ==> b[k].id != b[l].id)
    && (forall k :: 0 <= k < |b| ==> BucketIndex(Xor(self, b[k].id)) == Some(i))
  }

  lemma AddToOk(self: NodeId, i: nat, b: seq<Node>, n: Node)
    requires BucketOk(self, i, b) && BucketIndex(Xor(self, n.id)) == Some(i)
    ensures BucketOk(self, i, AddTo(b, n).0)
  {
    var p := Position(b, n.id);
    if p.Some? {
      RefileOk(self, i, b, p.value, Refresh(b[p.value], n));
    }
  }

  lemma RemoveOk(self: NodeId, i: nat, b: seq<Node>, p: nat, r: seq<Node>)
    requires BucketOk(self, i, b) && p < |b| && r == b[..p] + b[p + 1..]
    ensures BucketOk(self, i, r) && |r| < K && forall k :: 0 <= k < |r| ==> r[k].id != b[p].id
  {
    assert forall k :: 0 <= k < p ==> r[k] == b[k];
    assert forall k :: p <= k < |r| ==> r[k] == b[k + 1];
  }

  lemma RefileOk(self: NodeId, i: nat, b: seq<Node>, p: nat, m: Node)
    requires BucketOk(self, i, b) && p < |b| && m.id == b[p].id
    ensures BucketOk(self, i, b[..p] + b[p + 1..] + [m])
  {
    RemoveOk(self, i, b, p, b[..p] + b[p + 1..]);
  }

  /** Whatever a bucket holds afterwards was there before, is the newcomer, or is an old
      entry refreshed by it. */
  lemma AddToContents(b: seq<Node>, n: Node, k: nat)
    requires k < |AddTo(b, n).0|
    ensures var m := AddTo(b, n).0[k]; m == n || m in b || (exists o :: o in b && m == Refresh(o, n))
  {
    var p := Position(b, n.id);
    if p.Some? {
      assert b[p.value] in b;
    }
  }

  /** The bucket lists `id`, heard from at `last` or later. */
  ghost predicate HoldsSince(b: seq<Node>, id: NodeId, last: nat) {
    exists k :: 0 <= k < |b| && b[k].id == id && b[k].lastSeen >= last
  }

  /** A node heard from within `STALE_AFTER` keeps its place, and a sighting renews it. */
  lemma AddToKeepsSeen(b: seq<Node>, n: Node, id: NodeId, last: nat)
    requires HoldsSince(b, id, last) && last <= n.lastSeen <= last + STALE_AFTER
    ensures HoldsSince(AddTo(b, n).0, id, if n.id == id then n.lastSeen else last)
  {
    var r := AddTo(b, n).0;
    var k :| 0 <= k < |b| && b[k].id == id && b[k].lastSeen >= last;
    var p := Position(b, n.id);
    if p.Some? {
      if id == n.id {
        assert r[|r| - 1].id == id && r[|r| - 1].lastSeen == n.lastSeen;
      } else if k < p.value {
        assert r[k] == b[k];
      } else {
        assert r[k - 1] == b[k];
      }
    } else {
      assert !Stale(b[k], n.lastSeen);
      assert r[k] == b[k];
    }
  }

  ghost predicate HoldsId(b: seq<Node>, id: NodeId) {
    exists k :: 0 <= k < |b| && b[k].id == id
  }

  /** The node at `k` gives way to `n`. */
  ghost predicate Displaces(b: seq<Node>, n: Node, k: nat) {
    Position(b, n.id) == None && |b| >= K && Victim(b, n.lastSeen) == Some(k)
  }

  lemma AddToKeeps(b: seq<Node>, n: Node, k: nat)
    requires k < |b|
    ensures HoldsId(AddTo(b, n).0, b[k].id) || Displaces(b, n, k)
  {
    var r := AddTo(b, n).0;
    var p := Position(b, n.id);
    if p == None {
      if !Displaces(b, n, k) {
        assert r[k] == b[k];
      }
    } else if k < p.value {
      assert r[k] == b[k];
    } else if k > p.value {
      assert r[k - 1] == b[k];
    } else {
      assert r[|r| - 1].id == b[k].id;
    }
  }

  /** What it takes to lose a place: a full bucket, a newcomer with another id, and more
      than `STALE_AFTER` of silence; a verified node moreover goes only when no unverified
      node of the bucket is that silent, and nobody else leaves with it. */
  lemma AddToEvicts(b: seq<Node>, n: Node, k: nat)
    requires k < |b| && !HoldsId(AddTo(b, n).0, b[k].id)
    ensures |b| >= K && Stale(b[k], n.lastSeen) && AddTo(b, n) == (b[k := n], true)
    ensures forall l :: 0 <= l < |b| ==> b[l].id != n.id
    ensures b[k].verified ==> forall l :: 0 <= l < |b| && Stale(b[l], n.lastSeen) ==> b[l].verified
    ensures forall l :: 0 <= l < |b| && Stale(b[l], n.lastSeen) && b[l].verified == b[k].verified ==> b[k].lastSeen <= b[l].lastSeen
  {
    AddToKeeps(b, n, k);
  }

  /** There is a place for `n`: it is listed, the bucket is not full, or somebody in it has
      been silent for more than fifteen minutes. */
  ghost predicate HasPlace(b: seq<Node>, n: Node) {
    HoldsId(b, n.id) || |b| < 8 || exists k :: 0 <= k < |b| && n.lastSeen - b[k].lastSeen > 900
  }

  /** A sighted node is listed afterwards if and only if there was a place for it, and is
      reported as new exactly when it was not listed before. */
  lemma AddToAdmitsIff(b: seq<Node>, n: Node)
    ensures HoldsId(AddTo(b, n).0, n.id) <==> HasPlace(b, n)
    ensures AddTo(b, n).1 <==> HasPlace(b, n) && !HoldsId(b, n.id)
  {
    var r, p := AddTo(b, n).0, Position(b, n.id);
    assert (exists k :: 0 <= k < |b| && Stale(b[k], n.lastSeen)) <==> exists k :: 0 <= k < |b| && n.lastSeen - b[k].lastSeen > 900;
    if p.Some? {
      assert r[|r| - 1].id == n.id;
    } else if |b| < K {
      assert r[|b|] == n;
    } else if Victim(b, n.lastSeen).Some? {
      assert r[Victim(b, n.lastSeen).value] == n;
    }
  }

  ghost predicate SameContact(a: Node, b: Node) {
    a.udp == b.udp && a.p2pPort == b.p2pPort && a.verified == b.verified
  }

  /** A sighting of a listed node moves it to the end of its bucket with the time of the
      sighting; its contact data are the new ones if those are proved and the old ones if
      not. */
  lemma SightingRefreshes(b: seq<Node>, n: Node, k: nat)
    requires k < |b| && b[k].id == n.id && forall i, j :: 0 <= i < j < |b| ==> b[i].id != b[j].id
    ensures var r := AddTo(b, n).0;
      && |r| == |b| && r[..|b| - 1] == b[..k] + b[k + 1..]
      && r[|b| - 1].id == n.id && r[|b| - 1].lastSeen == n.lastSeen && SameContact(r[|b| - 1], if n.verified then n else b[k])
  {
    assert Position(b, n.id) == Some(k);
  }

  // ── The whole table ────────────────────────────────────────────────────────

  type Table = seq<seq<Node>>

  function Empty(): Table {
    seq(BUCKETS, _ => [])
  }

  /** The bucket `id` belongs to. */
  function Slot(self: NodeId, id: NodeId): (r: Option<nat>)
    ensures r == None <==> id == self
    ensures r.Some? ==> r.value < BUCKETS
  {
    BucketIndexIff(self, id);
    BucketIndex(Xor(self, id))
  }

  function Contains(self: NodeId, t: Table, id: NodeId): bool
    requires |t| == BUCKETS
  {
    match Slot(self, id)
    case None => false
    case Some(i) => Position(t[i], id).Some?
  }

  function Added(self: NodeId, t: Table, n: Node): (r: Table)
    requires |t| == BUCKETS
    ensures |r| == BUCKETS
  {
    match Slot(self, n.id)
    case None => t
    case Some(i) => t[i := AddTo(t[i], n).0]
  }

  /** Did a new id enter the table? */
  function IsNew(self: NodeId, t: Table, n: Node): bool
    requires |t| == BUCKETS
  {
    match Slot(self, n.id)
    case None => false
    case Some(i) => AddTo(t[i], n).1
  }

  /** A solicited answer from `addr` proves every entry recorded at that address. */
  function MarkNode(n: Node, addr: Addr, now: nat): Node {
    if n.udp == addr then n.(verified := true, lastSeen := now) else n
  }

  function MarkBucket(b: seq<Node>, addr: Addr, now: nat): (r: seq<Node>)
    ensures |r| == |b|
  {
    seq(|b|, k requires 0 <= k < |b| => MarkNode(b[k], addr, now))
  }

  function Marked(t: Table, addr: Addr, now: nat): (r: Table)
    ensures |r| == |t|
  {
    seq(|t|, i requires 0 <= i < |t| => MarkBucket(t[i], addr, now))
  }

  predicate IsVerifiedSource(t: Table, addr: Addr) {
    exists i, k :: 0 <= i < |t| && 0 <= k < |t[i]| && t[i][k].udp == addr && t[i][k].verified
  }

  /** At most `K` entries a bucket, every entry in the bucket of its distance, no id
      twice and our own id nowhere. */
  ghost predicate TableOk(self: NodeId, t: Table) {
    |t| == BUCKETS && forall i: nat :: i < |t| ==> BucketOk(self, i, t[i])
  }

  /** An entry worth having: an address the policy accepts and, if it claims to be
      verified, an address that answered us. */
  ghost predicate EntryOk(policy: Policy, proven: set<Addr>, n: Node) {
    && Accepts(policy, n.udp.ip, n.p2pPort)
    && (n.verified ==> n.udp in proven)
  }

  ghost predicate EntriesOk(t: Table, policy: Policy, proven: set<Addr>) {
    forall i, k :: 0 <= i < |t| && 0 <= k < |t[i]| ==> EntryOk(policy, proven, t[i][k])
  }

  lemma EmptyOk(self: NodeId, policy: Policy)
    ensures TableOk(self, Empty()) && EntriesOk(Empty(), policy, {})
  {
  }

  /** No two entries of the table share an id, and none has ours. */
  lemma IdsUnique(self: NodeId, t: Table, i: nat, k: nat, j: nat, l: nat)
    requires TableOk(self, t) && i < |t| && j < |t| && k < |t[i]| && l < |t[j]|
    ensures t[i][k].id != self
    ensures t[i][k].id == t[j][l].id ==> i == j && k == l
  {
    assert BucketOk(self, i, t[i]) && BucketOk(self, j, t[j]);
    BucketIndexIff(self, t[i][k].id);
  }

  lemma AddedOk(self: NodeId, t: Table, n: Node, policy: Policy, proven: set<Addr>)
    requires TableOk(self, t) && EntriesOk(t, policy, proven) && EntryOk(policy, proven, n)
    ensures TableOk(self, Added(self, t, n)) && EntriesOk(Added(self, t, n), policy, proven)
  {
    var s := Slot(self, n.id);
    if s.Some? {
      var i := s.value;
      AddToOk(self, i, t[i], n);
      var b := AddTo(t[i], n).0;
      forall k: nat | k < |b| ensures EntryOk(policy, proven, b[k]) {
        AddToContents(t[i], n, k);
      }
    }
  }

  lemma MarkedOk(self: NodeId, t: Table, addr: Addr, now: nat, policy: Policy, proven: set<Addr>)
    requires TableOk(self, t) && EntriesOk(t, policy, proven) && addr in proven
    ensures TableOk(self, Marked(t, addr, now)) && EntriesOk(Marked(t, addr, now), policy, proven)
  {
    var r := Marked(t, addr, now);
    forall i: nat | i < |r| ensures BucketOk(self, i, r[i]) {
      assert BucketOk(self, i, t[i]);
    }
    forall i, k | 0 <= i < |r| && 0 <= k < |r[i]| ensures EntryOk(policy, proven, r[i][k]) {
      assert EntryOk(policy, proven, t[i][k]);
    }
  }

  /** A proof of address verifies and refreshes exactly the entries at that address. */
  lemma MarkedMeans(t: Table, addr: Addr, now: nat, i: nat, k: nat)
    requires i < |t| && k < |t[i]|
    ensures |Marked(t, addr, now)[i]| == |t[i]|
    ensures var (n, m) := (t[i][k], Marked(t, addr, now)[i][k]);
      && m.id == n.id && m.udp == n.udp && m.p2pPort == n.p2pPort
      && (m.verified <==> n.verified || n.udp == addr) && m.lastSeen == if n.udp == addr then now else n.lastSeen
  {
  }

  /** `id` is listed and was heard from at `last` or later. */
  ghost predicate SeenSince(self: NodeId, t: Table, id: NodeId, last: nat)
    requires |t| == BUCKETS
  {
    Slot(self, id).Some? && HoldsSince(t[Slot(self, id).value], id, last)
  }

  lemma AddedKeepsSeen(self: NodeId, t: Table, n: Node, id: NodeId, last: nat)
    requires |t| == BUCKETS && SeenSince(self, t, id, last) && last <= n.lastSeen <= last + STALE_AFTER
    ensures SeenSince(self, Added(self, t, n), id, if n.id == id then n.lastSeen else last)
  {
    if Slot(self, n.id) == Slot(self, id) {
      AddToKeepsSeen(t[Slot(self, id).value], n, id, last);
    }
  }

  lemma MarkedKeepsSeen(self: NodeId, t: Table, addr: Addr, at: nat, id: NodeId, last: nat)
    requires |t| == BUCKETS && SeenSince(self, t, id, last) && last <= at
    ensures SeenSince(self, Marked(t, addr, at), id, last)
  {
    var b := t[Slot(self, id).value];
    var k :| 0 <= k < |b| && b[k].id == id && b[k].lastSeen >= last;
    var r := Marked(t, addr, at)[Slot(self, id).value];
    assert r[k].id == id && r[k].lastSeen >= last;
  }

  /** Hearsay never moves a verified node: as long as its id is listed, it is listed at
      the address it proved. */
  lemma UnprovedCannotMove(self: NodeId, t: Table, n: Node, i: nat, k: nat, l: nat)
    requires TableOk(self, t) && !n.verified && i < |t| && k < |t[i]| && t[i][k].verified
    requires l < |Added(self, t, n)[i]| && Added(self, t, n)[i][l].id == t[i][k].id
    ensures SameContact(Added(self, t, n)[i][l], t[i][k])
  {
    assert BucketOk(self, i, t[i]);
    if Slot(self, n.id) == Some(i) {
      UnprovedKeepsContact(t[i], n, k, l);
    }
  }

  lemma UnprovedKeepsContact(b: seq<Node>, n: Node, k: nat, l: nat)
    requires (forall i, j :: 0 <= i < j < |b| ==> b[i].id != b[j].id) && !n.verified
    requires k < |b| && b[k].verified && l < |AddTo(b, n).0| && AddTo(b, n).0[l].id == b[k].id
    ensures SameContact(AddTo(b, n).0[l], b[k])
  {
    var m := AddTo(b, n).0[l];
    AddToContents(b, n, l);
    var p := Position(b, n.id);
    if p.Some? {
      assert b[p.value].id == n.id;
      if m in b {
        var o :| 0 <= o < |b| && b[o] == m;
        assert o == k;
      }
    }
  }

  // ── The nodes closest to a target ──────────────────────────────────────────

  function All(t: Table): seq<Node> {
    if t == [] then [] else t[0] + All(t[1..])
  }

  predicate Nearer(a: Node, b: Node, target: NodeId) {
    Less(Xor(a.id, target), Xor(b.id, target))
  }

  /** Of two nodes the nearer is the one that agrees with the target in the most significant
      bit in which their ids differ. */
  lemma NearerMeans(a: Node, b: Node, target: NodeId)
    ensures Nearer(a, b, target) <==> exists i: nat :: DifferFirstAt(a.id, b.id, i) && Bit(a.id, i) == Bit(target, i)
  {
    NearerIff(a.id, b.id, target);
  }

  ghost predicate SortedByDistance(s: seq<Node>, target: NodeId) {
    forall i, j :: 0 <= i < j < |s| ==> !Nearer(s[j], s[i], target)
  }

  lemma NearerOrder(a: Node, b: Node, c: Node, target: NodeId)
    ensures !(Nearer(a, b, target) && Nearer(b, a, target))
    ensures !Nearer(b, a, target) && !Nearer(c, b, target) ==> !Nearer(c, a, target)
  {
    var x, y, z := Xor(a.id, target), Xor(b.id, target), Xor(c.id, target);
    LessTotalFrom(x, y, 0);
    LessTotalFrom(y, z, 0);
    LessTotalFrom(x, z, 0);
    if Less(z, x) && Less(x, y) {
      LessTransFrom(z, x, y, 0);
    }
  }

  /** Stable insertion of one node. */
  function InsertByDistance(s: seq<Node>, n: Node, target: NodeId): (r: seq<Node>)
    ensures multiset(r) == multiset(s) + multiset{n}
  {
    if s == [] then [n]
    else if Nearer(n, s[|s| - 1], target) then
      assert s == s[..|s| - 1] + [s[|s| - 1]];
      InsertByDistance(s[..|s| - 1], n, target) + [s[|s| - 1]]
    else s + [n]
  }

  lemma {:induction false} InsertSorted(s: seq<Node>, n: Node, target: NodeId)
    requires SortedByDistance(s, target)
    ensures SortedByDistance(InsertByDistance(s, n, target), target)
  {
    if s != [] {
      var m, last := |s| - 1, s[|s| - 1];
      if Nearer(n, last, target) {
        InsertSorted(s[..m], n, target);
        var front := InsertByDistance(s[..m], n, target);
        forall k | 0 <= k < |front| ensures !Nearer(last, front[k], target) {
          assert front[k] in multiset(front);
          assert front[k] in s[..m] || front[k] == n;
          NearerOrder(n, last, last, target);
        }
      } else {
        forall k | 0 <= k < |s| ensures !Nearer(n, s[k], target) {
          NearerOrder(s[k], last, n, target);
        }
      }
    }
  }

  function SortByDistance(s: seq<Node>, target: NodeId): (r: seq<Node>)
    ensures multiset(r) == multiset(s)
  {
    if s == [] then []
    else
      assert s == s[..|s| - 1] + [s[|s| - 1]];
      InsertByDistance(SortByDistance(s[..|s| - 1], target), s[|s| - 1], target)
  }

  lemma {:induction false} SortSorts(s: seq<Node>, target: NodeId)
    ensures SortedByDistance(SortByDistance(s, target), target)
  {
    if s != [] {
      SortSorts(s[..|s| - 1], target);
      InsertSorted(SortByDistance(s[..|s| - 1], target), s[|s| - 1], target);
    }
  }

  function FirstByDistance(all: seq<Node>, target: NodeId, count: nat): seq<Node> {
    var s := SortByDistance(all, target);
    if |s| <= count then s else s[..count]
  }

  function Closest(t: Table, target: NodeId, count: nat): seq<Node> {
    FirstByDistance(All(t), target, count)
  }

  ghost function Entries(t: Table): set<Node> {
    set i, k | 0 <= i < |t| && 0 <= k < |t[i]| :: t[i][k]
  }

  /** No entry of the table is listed twice. */
  ghost predicate OnceEach(t: Table) {
    forall i, k, j, l :: 0 <= i < |t| && 0 <= k < |t[i]| && 0 <= j < |t| && 0 <= l < |t[j]| && (i, k) != (j, l) ==> t[i][k] != t[j][l]
  }

  lemma {:induction false} BucketOnce(b: seq<Node>)
    requires forall k, l :: 0 <= k < l < |b| ==> b[k] != b[l]
    ensures multiset(b) == multiset(set k | 0 <= k < |b| :: b[k])
  {
    if b != [] {
      var n := |b| - 1;
      assert b == b[..n] + [b[n]];
      BucketOnce(b[..n]);
      var rest, all := set k | 0 <= k < n :: b[..n][k], set k | 0 <= k < |b| :: b[k];
      assert all == rest + {b[n]} && b[n] !in rest;
    }
  }

  lemma OnceEachTail(t: Table)
    requires t != [] && OnceEach(t)
    ensures OnceEach(t[1..])
  {
    forall i, k, j, l | 0 <= i < |t| - 1 && 0 <= k < |t[1..][i]| && 0 <= j < |t| - 1 && 0 <= l < |t[1..][j]| && (i, k) != (j, l)
      ensures t[1..][i][k] != t[1..][j][l]
    {
      assert t[i + 1][k] != t[j + 1][l];
    }
  }

  /** Sorting starts from every entry of every bucket, each once. */
  lemma {:induction false} AllOnce(t: Table)
    requires OnceEach(t)
    ensures multiset(All(t)) == multiset(Entries(t))
  {
    if t != [] {
      OnceEachTail(t);
      AllOnce(t[1..]);
      var first := set k | 0 <= k < |t[0]| :: t[0][k];
      FirstOnce(t);
      BucketOnce(t[0]);
      EntriesSplit(t, first);
      assert multiset(first + Entries(t[1..])) == multiset(first) + multiset(Entries(t[1..]));
    }
  }

  lemma FirstOnce(t: Table)
    requires t != [] && OnceEach(t)
    ensures forall k, l :: 0 <= k < l < |t[0]| ==> t[0][k] != t[0][l]
  {
    forall k, l | 0 <= k < l < |t[0]| ensures t[0][k] != t[0][l] {
      assert (0, k) != (0, l);
    }
  }

  lemma EntriesSplit(t: Table, first: set<Node>)
    requires t != [] && OnceEach(t) && first == set k | 0 <= k < |t[0]| :: t[0][k]
    ensures Entries(t) == first + Entries(t[1..]) && first !! Entries(t[1..])
  {
    forall n | n in Entries(t[1..]) ensures n in Entries(t) && n !in first {
      var i, k :| 0 <= i < |t| - 1 && 0 <= k < |t[1..][i]| && t[1..][i][k] == n;
      assert t[i + 1][k] == n;
    }
    forall n | n in Entries(t) && n !in first ensures n in Entries(t[1..]) {
      var i, k :| 0 <= i < |t| && 0 <= k < |t[i]| && t[i][k] == n;
      assert i > 0 && t[1..][i - 1][k] == n;
    }
  }

  lemma OkIsOnce(self: NodeId, t: Table)
    requires TableOk(self, t)
    ensures OnceEach(t)
  {
    forall i, k, j, l | 0 <= i < |t| && 0 <= k < |t[i]| && 0 <= j < |t| && 0 <= l < |t[j]| && (i, k) != (j, l)
      ensures t[i][k] != t[j][l]
    {
      IdsUnique(self, t, i, k, j, l);
    }
  }

  /** Of a sorted sequence, what follows is not nearer than what comes first. */
  lemma TailNotNearer(front: seq<Node>, tail: seq<Node>, target: NodeId, m: Node, n: Node)
    requires SortedByDistance(front + tail, target) && m in front && n in tail
    ensures !Nearer(n, m, target)
  {
    var i :| 0 <= i < |front| && front[i] == m;
    var j :| 0 <= j < |tail| && tail[j] == n;
    assert (front + tail)[i] == m && (front + tail)[|front| + j] == n;
  }

  /** `r` lists nodes of `all`, nearest first, and nothing left out is nearer. */
  ghost predicate NearestOf(all: multiset<Node>, r: seq<Node>, target: NodeId) {
    && SortedByDistance(r, target)
    && multiset(r) <= all
    && forall m, n :: m in r && n in all - multiset(r) ==> !Nearer(n, m, target)
  }

  lemma PrefixIsNearest(front: seq<Node>, tail: seq<Node>, target: NodeId)
    requires SortedByDistance(front + tail, target)
    ensures NearestOf(multiset(front + tail), front, target)
  {
    forall i, j | 0 <= i < j < |front| ensures !Nearer(front[j], front[i], target) {
      assert (front + tail)[i] == front[i] && (front + tail)[j] == front[j];
    }
    forall m, n | m in front && n in multiset(front + tail) - multiset(front) ensures !Nearer(n, m, target) {
      assert n in multiset(tail);
      TailNotNearer(front, tail, target, m, n);
    }
  }

  lemma FirstAreNearest(all: seq<Node>, target: NodeId, count: nat, s: seq<Node>)
    requires s == SortByDistance(all, target)
    ensures |FirstByDistance(all, target, count)| == if |all| <= count then |all| else count
    ensures NearestOf(multiset(all), FirstByDistance(all, target, count), target)
  {
    SortSorts(all, target);
    assert |s| == |multiset(s)| == |multiset(all)| == |all|;
    var n := if |s| <= count then |s| else count;
    assert s == s[..n] + s[n..];
    PrefixIsNearest(s[..n], s[n..], target);
  }

  /** The answer to a query: as many nodes as asked for if there are that many, and no
      node left out is nearer than one listed. */
  lemma ClosestAreNearest(t: Table, target: NodeId, count: nat)
    ensures |Closest(t, target, count)| == if |All(t)| <= count then |All(t)| else count
    ensures NearestOf(multiset(All(t)), Closest(t, target, count), target)
  {
    FirstAreNearest(All(t), target, count, SortByDistance(All(t), target));
  }

  // ── The table object ───────────────────────────────────────────────────────

  class RoutingTable {
    const selfId: NodeId
    var buckets: seq<seq<Node>>

    ghost predicate Valid() reads this { |buckets| == BUCKETS }

    constructor (self: NodeId)
      ensures Valid() && selfId == self && buckets == Empty()
    {
      selfId := self;
      buckets := seq(BUCKETS, _ => []);
    }

    /** Insert or refresh a node, and say whether its id was unknown before. */
    method Add(node: Node) returns (isNew: bool)
      requires Valid()
      modifies this
      ensures Valid() && buckets == Added(selfId, old(buckets), node) && isNew == IsNew(selfId, old(buckets), node)
    {
      var slot := Slot(selfId, node.id);
      if slot == None {
        return false;
      }
      var b := buckets[slot.value];
      var pos := Position(b, node.id);
      if pos.Some? {
        var existing := b[pos.value];
        b := b[..pos.value] + b[pos.value + 1..];
        existing := existing.(lastSeen := node.lastSeen);
        if node.verified {
          existing := existing.(udp := node.udp, p2pPort := node.p2pPort, verified := true);
        }
        b := b + [existing];
        isNew := false;
      } else if |b| < K {
        b := b + [node];
        isNew := true;
      } else {
        var victim := Victim(b, node.lastSeen);
        isNew := victim.Some?;
        if victim.Some? {
          b := b[victim.value := node];
        }
      }
      buckets := buckets[slot.value := b];
    }

    method MarkVerified(addr: Addr, now: nat)
      requires Valid()
      modifies this
      ensures Valid() && buckets == Marked(old(buckets), addr, now)
    {
      var done: seq<seq<Node>> := [];
      for i := 0 to |buckets|
        invariant buckets == old(buckets) && |done| == i
        invariant forall j :: 0 <= j < i ==> done[j] == MarkBucket(buckets[j], addr, now)
      {
        var b := buckets[i];
        for k := 0 to |b|
          invariant |b| == |buckets[i]|
          invariant forall l :: 0 <= l < k ==> b[l] == MarkNode(buckets[i][l], addr, now)
          invariant forall l :: k <= l < |b| ==> b[l] == buckets[i][l]
        {
          if b[k].udp == addr {
            b := b[k := b[k].(verified := true, lastSeen := now)];
          }
        }
        assert b == MarkBucket(buckets[i], addr, now);
        done := done + [b];
      }
      buckets := done;
    }
  }
}