/**
  What the DHT's limits come to over many messages (dht.rs): how often an address is
  challenged, how many entries an address may create, what an answer proves, and which
  node gets a place in the table.
 */
module DhtLimits {
  import opened Wrappers
  import opened NodeIds
  import opened AddrPolicy
  import opened Routing
  import opened Dht
  import Sums

  // ── Challenges ─────────────────────────────────────────────────────────────

  /** The bookkeeping after a sequence of challenges considered, and which were let through. */
  ghost function Pings(s: Sources, calls: seq<(Addr, nat)>): (Sources, seq<bool>)
    decreases |calls|
  {
    if calls == [] then (s, [])
    else
      var n := |calls| - 1;
      var (before, oks) := Pings(s, calls[..n]);
      var (after, ok) := AllowPing(before, calls[n].0, calls[n].1);
      (after, oks + [ok])
  }

  /** Every address that was challenged is remembered with the time of its latest challenge. */
  ghost predicate Remembers(s: Sources, calls: seq<(Addr, nat)>, oks: seq<bool>) {
    && |oks| == |calls|
    && forall i :: 0 <= i < |calls| && oks[i] ==> calls[i].0 in s.pinged && calls[i].1 <= s.pinged[calls[i].0]
  }

  /** Two challenges to one address are at least half a minute apart. */
  ghost predicate Apart(calls: seq<(Addr, nat)>, oks: seq<bool>) {
    && |oks| == |calls|
    && forall i, j :: 0 <= i < j < |calls| && oks[i] && oks[j] && calls[i].0 == calls[j].0 ==> calls[i].1 + 30 <= calls[j].1
  }

  lemma PingStep(s: Sources, a: Addr, now: nat)
    requires |s.learn| < 4096 && |s.pending| < 4096 && |s.pinged| < 4096
    ensures var (r, ok) := AllowPing(s, a, now);
      && r.learn == s.learn && r.pending == s.pending && |r.pinged| <= |s.pinged| + 1
      && (ok <==> a !in s.pinged || now - s.pinged[a] >= 30)
      && r.pinged == if ok then s.pinged[a := now] else s.pinged
  {
    GrowsByOne(s.pinged, a, now);
  }

  lemma {:induction false} PingsRemember(s: Sources, calls: seq<(Addr, nat)>)
    requires |s.learn| < 4096 && |s.pending| < 4096 && |s.pinged| + |calls| < 4096
    ensures var (r, oks) := Pings(s, calls);
      && r.learn == s.learn && r.pending == s.pending && |r.pinged| <= |s.pinged| + |calls|
      && Remembers(r, calls, oks) && Apart(calls, oks)
    decreases |calls|
  {
    if calls != [] {
      var n := |calls| - 1;
      PingsRemember(s, calls[..n]);
      var (before, oks) := Pings(s, calls[..n]);
      PingStep(before, calls[n].0, calls[n].1);
      assert forall i :: 0 <= i < n ==> calls[..n][i] == calls[i];
    }
  }

  /** While fewer than 4096 sources are tracked, nobody is challenged more than once in half a
      minute, however many requests arrive in whatever order; and a challenge that comes later
      than that is always let through. */
  lemma ChallengesApart(calls: seq<(Addr, nat)>, a: Addr, now: nat)
    requires |calls| < 4095
    ensures var (r, oks) := Pings(Sources(map[], map[], map[]), calls);
      && Apart(calls, oks)
      && (AllowPing(r, a, now).1 <==> forall i :: 0 <= i < |calls| && oks[i] && calls[i].0 == a ==> calls[i].1 + 30 <= now)
  {
    var s := Sources(map[], map[], map[]);
    PingsRemember(s, calls);
    var (r, oks) := Pings(s, calls);
    PingStep(r, a, now);
    LastIsACall(s, calls, a);
  }

  /** What is remembered is the time of a challenge that was let through. */
  lemma {:induction false} LastIsACall(s: Sources, calls: seq<(Addr, nat)>, a: Addr)
    requires s == Sources(map[], map[], map[]) && |calls| < 4096
    ensures var (r, oks) := Pings(s, calls);
      |oks| == |calls| && (a in r.pinged ==> exists i :: 0 <= i < |calls| && oks[i] && calls[i] == (a, r.pinged[a]))
    decreases |calls|
  {
    if calls != [] {
      var n := |calls| - 1;
      LastIsACall(s, calls[..n], a);
      PingsRemember(s, calls[..n]);
      var (before, oks) := Pings(s, calls[..n]);
      PingStep(before, calls[n].0, calls[n].1);
      var (r, all) := Pings(s, calls);
      if a in r.pinged {
        if a in before.pinged && r.pinged[a] == before.pinged[a] {
          var i :| 0 <= i < n && oks[i] && calls[..n][i] == (a, before.pinged[a]);
          assert all[i] && calls[i] == (a, r.pinged[a]);
        } else {
          assert all[n] && calls[n] == (a, r.pinged[a]);
        }
      }
    }
  }

  // ── New entries per address ────────────────────────────────────────────────

  /** How many of a sequence of entries from one IP are let in. */
  ghost function Learnt(s: Sources, ip: Ip, times: seq<nat>): (Sources, nat)
    decreases |times|
  {
    if times == [] then (s, 0)
    else
      var n := |times| - 1;
      var (before, count) := Learnt(s, ip, times[..n]);
      var (after, ok) := AllowLearn(before, ip, times[n]);
      (after, if ok then count + 1 else count)
  }

  lemma NothingPruned(s: Sources, now: nat)
    requires |s.learn| < 4096 && |s.pending| < 4096 && |s.pinged| < 4096
    ensures Prune(s, now) == s
  {
  }

  lemma LearnStep(s: Sources, ip: Ip, now: nat)
    requires |s.learn| < 4096 && |s.pending| < 4096 && |s.pinged| < 4096
    ensures var r := AllowLearn(s, ip, now).0;
      r.pending == s.pending && r.pinged == s.pinged && ip in r.learn && r.learn == s.learn[ip := r.learn[ip]]
    ensures ip !in s.learn || s.learn[ip].start + 60 < now ==> AllowLearn(s, ip, now).1 && AllowLearn(s, ip, now).0.learn[ip] == Window(now, 1)
    ensures ip in s.learn && now <= s.learn[ip].start + 60 ==>
      && (AllowLearn(s, ip, now).1 <==> s.learn[ip].count < 16)
      && AllowLearn(s, ip, now).0.learn[ip]
           == Window(s.learn[ip].start, if s.learn[ip].count < 16 then s.learn[ip].count + 1 else s.learn[ip].count)
  {
    NothingPruned(s, now);
  }

  ghost predicate Roomy(s: Sources) {
    |s.learn| < 4095 && |s.pending| < 4096 && |s.pinged| < 4096
  }

  /** From `s` to `r` only `ip` was heard of, first at `start`, and let in `count` times. */
  ghost predicate Opened(s: Sources, r: Sources, ip: Ip, start: nat, count: nat) {
    && r.learn.Keys == s.learn.Keys + {ip} && r.learn[ip] == Window(start, count)
    && r.pending == s.pending && r.pinged == s.pinged
  }

  lemma FirstEntry(s: Sources, ip: Ip, now: nat)
    requires Roomy(s) && ip !in s.learn
    ensures AllowLearn(s, ip, now).1 && Opened(s, AllowLearn(s, ip, now).0, ip, now, 1)
  {
    LearnStep(s, ip, now);
  }

  lemma OneMoreEntry(s: Sources, r: Sources, ip: Ip, start: nat, count: nat, now: nat)
    requires Roomy(s) && Opened(s, r, ip, start, count)
    ensures now <= start + 60 ==>
      (AllowLearn(r, ip, now).1 <==> count < 16) && Opened(s, AllowLearn(r, ip, now).0, ip, start, if count < 16 then count + 1 else count)
    ensures start + 60 < now ==> AllowLearn(r, ip, now).1
  {
    KeysBound(r.learn, s.learn, ip);
    LearnStep(r, ip, now);
  }

  /** Within a minute of its first new entry an IP address is let in with exactly sixteen of
      them, or with all if it sends fewer; the first one after that minute opens a new window. */
  lemma {:induction false} SixteenPerMinute(s: Sources, ip: Ip, times: seq<nat>, next: nat)
    requires Roomy(s) && ip !in s.learn && times != []
    requires forall k :: 0 <= k < |times| ==> times[0] <= times[k] <= times[0] + 60
    ensures var (r, count) := Learnt(s, ip, times);
      && count == (if |times| < 16 then |times| else 16) && Opened(s, r, ip, times[0], count)
      && (times[0] + 60 < next ==> AllowLearn(r, ip, next).1)
    decreases |times|
  {
    var n := |times| - 1;
    var before := times[..n];
    if n == 0 {
      assert Learnt(s, ip, before) == (s, 0);
      FirstEntry(s, ip, times[0]);
    } else {
      assert before[0] == times[0];
      SixteenPerMinute(s, ip, before, next);
      var (mid, count) := Learnt(s, ip, before);
      OneMoreEntry(s, mid, ip, times[0], count, times[n]);
    }
    var (r, total) := Learnt(s, ip, times);
    OneMoreEntry(s, r, ip, times[0], total, next);
  }

  lemma KeysBound(m: map<Ip, Window>, n: map<Ip, Window>, ip: Ip)
    requires m.Keys <= n.Keys + {ip}
    ensures |m| <= |n| + 1
  {
    Sums.SubsetSize(m.Keys, n.Keys + {ip});
  }

  // ── Proofs of address ──────────────────────────────────────────────────────

  /** A query proves at most one answer: until the next query to that address is noted,
      nothing more from there is solicited. */
  lemma ProofIsUsedOnce(st: State, msg: Msg, src: Addr, now: nat, later: nat, again: Msg, when: nat)
    requires msg.IsAnswer()
    ensures !Solicited(Settle(st, msg, src, now, later), again, src, when)
  {
  }

  /** An answer is a proof if and only if a query to its source was noted no more than two
      minutes ago; then, and only then, the entries at that address are marked. */
  lemma SolicitedIff(st: State, msg: Msg, src: Addr, now: nat, later: nat)
    ensures Solicited(st, msg, src, now) <==> (msg.Pong? || msg.Nodes?) && src in st.sources.pending && now - st.sources.pending[src] <= 120
    ensures Settle(st, msg, src, now, later).table == if Solicited(st, msg, src, now) then Marked(st.table, src, later) else st.table
    ensures Solicited(st, msg, src, now) ==> src in Settle(st, msg, src, now, later).proven
  {
  }

  /** Whoever asks for nodes without having proved its address is challenged, unless it was
      less than half a minute ago; whoever has is not. */
  lemma UnprovedIsChallenged(cfg: Config, st: State, msg: Msg, src: Addr, now: nat, later: nat, leaves: bool)
    requires |st.table| == BUCKETS && msg.FindNode? && AcceptsIp(cfg.policy, src.ip)
    ensures var met := Meet(cfg, st, msg, src, now, later);
      var pinged := PruneTimes(met.sources.pinged, now, 30);
      Handle(cfg, st, msg, src, now, later, leaves).asked ==
        met.asked + if IsVerifiedSource(met.table, src) || (src in pinged && now - pinged[src] < 30) then {} else {(src, later)}
  {
  }

  // ── Who gets a place ───────────────────────────────────────────────────────

  /** What it takes for a node to be listed after it was heard of. */
  ghost predicate Welcome(cfg: Config, st: State, n: Node)
    requires |st.table| == BUCKETS
  {
    && n.id != cfg.self && n.p2pPort >= 1024 && AcceptsIp(cfg.policy, n.udp.ip)
    && (Contains(cfg.self, st.table, n.id) || AllowLearn(st.sources, n.udp.ip, n.lastSeen).1)
    && HasPlace(st.table[Slot(cfg.self, n.id).value], n)
  }

  lemma ContainsIsHolds(self: NodeId, t: Table, id: NodeId)
    requires |t| == BUCKETS && id != self
    ensures Contains(self, t, id) <==> HoldsId(t[Slot(self, id).value], id)
  {
  }

  lemma AddedContainsIff(self: NodeId, t: Table, n: Node)
    requires |t| == BUCKETS && n.id != self
    ensures Contains(self, Added(self, t, n), n.id) <==> HasPlace(t[Slot(self, n.id).value], n)
  {
    AddToAdmitsIff(t[Slot(self, n.id).value], n);
    ContainsIsHolds(self, t, n.id);
    ContainsIsHolds(self, Added(self, t, n), n.id);
  }

  /** A node that was heard of is listed afterwards if and only if it was before or is
      welcome: an acceptable address, a budget for it, and a place in its bucket. */
  lemma LearnedIff(cfg: Config, st: State, n: Node)
    requires |st.table| == BUCKETS
    ensures Contains(cfg.self, Learn(cfg, st, n).table, n.id) <==> Contains(cfg.self, st.table, n.id) || Welcome(cfg, st, n)
  {
    if n.id != cfg.self {
      AddedContainsIff(cfg.self, st.table, n);
      ContainsIsHolds(cfg.self, st.table, n.id);
    }
  }

  /** Our own id and unacceptable addresses cost nothing: no entry and no budget. */
  lemma RefusedForFree(cfg: Config, st: State, n: Node)
    requires |st.table| == BUCKETS && (n.id == cfg.self || n.p2pPort < 1024 || !AcceptsIp(cfg.policy, n.udp.ip))
    ensures Learn(cfg, st, n) == st
  {
  }

  /** A record of a snapshot is listed afterwards if and only if its node was before, or it
      parses, both its ports and its address are acceptable and there is a place. */
  lemma RestoredIff(cfg: Config, t: Table, r: Rec, now: nat)
    requires |t| == BUCKETS && r.id.Some?
    ensures Contains(cfg.self, ImportOne(cfg, t, r, now), r.id.value) <==>
      || Contains(cfg.self, t, r.id.value)
      || (&& r.ip.Some? && r.id.value != cfg.self && AcceptsIp(cfg.policy, r.ip.value) && r.udpPort >= 1024 && r.p2pPort >= 1024
          && HasPlace(t[Slot(cfg.self, r.id.value).value], Node(r.id.value, Addr(r.ip.value, r.udpPort), r.p2pPort, false, now)))
  {
    if r.ip.Some? && r.id.value != cfg.self {
      AddedContainsIff(cfg.self, t, Node(r.id.value, Addr(r.ip.value, r.udpPort), r.p2pPort, false, now));
      ContainsIsHolds(cfg.self, t, r.id.value);
    }
  }
}
