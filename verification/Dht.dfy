/**
  The DHT node (dht.rs): per-source bookkeeping, proof of address and the handling of
  messages, as a state machine over everything that can arrive.

  Time is a non-decreasing natural number of seconds.  Ids and addresses inside a
  message are already parsed; `None` is one that does not parse.
 */
module Dht {
  import opened Wrappers
  import opened NodeIds
  import opened AddrPolicy
  import opened Routing

  const K_UNVERIFIED: nat := 2
  const MAX_NODES_PER_MSG: nat := K
  const LEARN_PER_WINDOW: nat := 16
  const LEARN_WINDOW: nat := 60
  const PENDING_TTL: nat := 120
  const PING_MIN_INTERVAL: nat := 30
  const MAX_TRACKED_SOURCES: nat := 4096
  const MAX_PERSIST_NODES: nat := 512

  // ── Bookkeeping per source ─────────────────────────────────────────────────

  datatype Window = Window(start: nat, count: nat)

  datatype Sources = Sources(learn: map<Ip, Window>, pending: map<Addr, nat>, pinged: map<Addr, nat>)

  function RecentTimes(m: map<Addr, nat>, now: nat, ttl: nat): map<Addr, nat> {
    map a | a in m && Since(now, m[a]) <= ttl :: m[a]
  }

  function RecentWindows(m: map<Ip, Window>, now: nat): map<Ip, Window> {
    map a | a in m && Since(now, m[a].start) <= LEARN_WINDOW :: m[a]
  }

  /** Expired entries go first; a map that is still full is emptied. */
  function PruneTimes(m: map<Addr, nat>, now: nat, ttl: nat): (r: map<Addr, nat>)
    ensures |r| < MAX_TRACKED_SOURCES
    ensures forall a :: a in r ==> a in m && r[a] == m[a]
  {
    if |m| < MAX_TRACKED_SOURCES then m
    else
      var kept := RecentTimes(m, now, ttl);
      if |kept| < MAX_TRACKED_SOURCES then kept else map[]
  }

  function PruneWindows(m: map<Ip, Window>, now: nat): (r: map<Ip, Window>)
    ensures |r| < MAX_TRACKED_SOURCES
    ensures forall a :: a in r ==> a in m && r[a] == m[a]
  {
    if |m| < MAX_TRACKED_SOURCES then m
    else
      var kept := RecentWindows(m, now);
      if |kept| < MAX_TRACKED_SOURCES then kept else map[]
  }

  function Prune(s: Sources, now: nat): Sources {
    Sources(PruneWindows(s.learn, now), PruneTimes(s.pending, now, PENDING_TTL), PruneTimes(s.pinged, now, PING_MIN_INTERVAL))
  }

  /** May `ip` create one more entry in its window? */
  function AllowLearn(s: Sources, ip: Ip, now: nat): (Sources, bool) {
    var p := Prune(s, now);
    var known := if ip in p.learn then p.learn[ip] else Window(now, 0);
    var slot := if Since(now, known.start) > LEARN_WINDOW then Window(now, 0) else known;
    if slot.count >= LEARN_PER_WINDOW then (p.(learn := p.learn[ip := slot]), false)
    else (p.(learn := p.learn[ip := slot.(count := slot.count + 1)]), true)
  }

  function NoteQuery(s: Sources, addr: Addr, now: nat): Sources {
    var p := Prune(s, now);
    p.(pending := p.pending[addr := now])
  }

  /** Consume the outstanding query to `addr`; true when it is recent enough to prove
      that the answer came from there. */
  function TakePending(s: Sources, addr: Addr, now: nat): (Sources, bool) {
    (s.(pending := s.pending - {addr}), addr in s.pending && Since(now, s.pending[addr]) <= PENDING_TTL)
  }

  function AllowPing(s: Sources, addr: Addr, now: nat): (Sources, bool) {
    var p := Prune(s, now);
    if addr in p.pinged && Since(now, p.pinged[addr]) < PING_MIN_INTERVAL then (p, false)
    else (p.(pinged := p.pinged[addr := now]), true)
  }

  ghost predicate Bounded(s: Sources) {
    && |s.learn| <= MAX_TRACKED_SOURCES && |s.pending| <= MAX_TRACKED_SOURCES && |s.pinged| <= MAX_TRACKED_SOURCES
    && forall ip :: ip in s.learn ==> s.learn[ip].count <= LEARN_PER_WINDOW
  }

  lemma GrowsByOne<A, B>(m: map<A, B>, a: A, b: B)
    ensures |m[a := b]| <= |m| + 1
  {
    assert m[a := b].Keys == m.Keys + {a};
  }

  lemma ShrinksByOne<A, B>(m: map<A, B>, a: A)
    ensures |m - {a}| <= |m|
  {
    assert m.Keys == (m - {a}).Keys + (m.Keys * {a});
  }

  lemma PruneBounded(s: Sources, now: nat)
    requires Bounded(s)
    ensures Bounded(Prune(s, now))
  {
  }

  lemma AllowLearnBounded(s: Sources, ip: Ip, now: nat)
    requires Bounded(s)
    ensures Bounded(AllowLearn(s, ip, now).0)
  {
    PruneBounded(s, now);
    var p, r := Prune(s, now), AllowLearn(s, ip, now).0;
    GrowsByOne(p.learn, ip, r.learn[ip]);
    assert r == p.(learn := p.learn[ip := r.learn[ip]]);
  }

  lemma NoteQueryBounded(s: Sources, addr: Addr, now: nat)
    requires Bounded(s)
    ensures Bounded(NoteQuery(s, addr, now))
  {
    PruneBounded(s, now);
    GrowsByOne(Prune(s, now).pending, addr, now);
  }

  lemma AllowPingBounded(s: Sources, addr: Addr, now: nat)
    requires Bounded(s)
    ensures Bounded(AllowPing(s, addr, now).0)
  {
    PruneBounded(s, now);
    GrowsByOne(Prune(s, now).pinged, addr, now);
  }

  class SourceState {
    var learn: map<Ip, Window>
    var pending: map<Addr, nat>
    var pinged: map<Addr, nat>

    ghost function Value(): Sources reads this { Sources(learn, pending, pinged) }

    constructor ()
      ensures Value() == Sources(map[], map[], map[])
    {
      learn, pending, pinged := map[], map[], map[];
    }

    method PruneAll(now: nat)
      modifies this
      ensures Value() == Prune(old(Value()), now)
    {
      if |learn| >= MAX_TRACKED_SOURCES {
        learn := RecentWindows(learn, now);
        if |learn| >= MAX_TRACKED_SOURCES { learn := map[]; }
      }
      if |pending| >= MAX_TRACKED_SOURCES {
        pending := RecentTimes(pending, now, PENDING_TTL);
        if |pending| >= MAX_TRACKED_SOURCES { pending := map[]; }
      }
      if |pinged| >= MAX_TRACKED_SOURCES {
        pinged := RecentTimes(pinged, now, PING_MIN_INTERVAL);
        if |pinged| >= MAX_TRACKED_SOURCES { pinged := map[]; }
      }
    }

    method MayLearn(ip: Ip, now: nat) returns (ok: bool)
      modifies this
      ensures (Value(), ok) == AllowLearn(old(Value()), ip, now)
    {
      PruneAll(now);
      var slot := if ip in learn then learn[ip] else Window(now, 0);
      if Since(now, slot.start) > LEARN_WINDOW {
        slot := Window(now, 0);
      }
      ok := slot.count < LEARN_PER_WINDOW;
      if ok {
        slot := slot.(count := slot.count + 1);
      }
      learn := learn[ip := slot];
    }

    method Note(addr: Addr, now: nat)
      modifies this
      ensures Value() == NoteQuery(old(Value()), addr, now)
    {
      PruneAll(now);
      pending := pending[addr := now];
    }

    method Take(addr: Addr, now: nat) returns (ok: bool)
      modifies this
      ensures (Value(), ok) == TakePending(old(Value()), addr, now)
    {
      ok := addr in pending && Since(now, pending[addr]) <= PENDING_TTL;
      pending := pending - {addr};
    }

    method MayPing(addr: Addr, now: nat) returns (ok: bool)
      modifies this
      ensures (Value(), ok) == AllowPing(old(Value()), addr, now)
    {
      PruneAll(now);
      ok := !(addr in pinged && Since(now, pinged[addr]) < PING_MIN_INTERVAL);
      if ok {
        pinged := pinged[addr := now];
      }
    }
  }

  // ── Messages and the state of a node ───────────────────────────────────────

  /** A node record out of a message or a snapshot file. */
  datatype Rec = Rec(id: Option<NodeId>, ip: Option<Ip>, udpPort: nat, p2pPort: nat)

  datatype Msg =
    | Ping(from: Option<NodeId>, p2p: nat)
    | Pong(from: Option<NodeId>, p2p: nat)
    | FindNode(from: Option<NodeId>, p2p: nat, target: Option<NodeId>)
    | Nodes(from: Option<NodeId>, p2p: nat, nodes: seq<Rec>)
  {
    predicate IsAnswer() { Pong? || Nodes? }
  }

  datatype Reply = NoReply | PongReply | NodesReply(nodes: seq<Node>)

  datatype Config = Config(self: NodeId, policy: Policy)

  /**
    The node's table and bookkeeping, with a history beside them: `asked` are the queries
    it set out to send and `left` those that went out on the socket, `heard` the answers
    that arrived, `proven` the addresses it took as proved.
   */
  datatype State = State(table: Table, sources: Sources, proven: set<Addr>, asked: set<(Addr, nat)>, left: set<(Addr, nat)>,
                         heard: set<(Addr, nat)>, clock: nat)

  function Init(): State {
    State(Empty(), Sources(map[], map[], map[]), {}, {}, {}, {}, 0)
  }

  /** Send a query: refused by policy, or noted and handed to the socket. */
  function Query(cfg: Config, st: State, to: Addr, now: nat, leaves: bool): State {
    if !AcceptsIp(cfg.policy, to.ip) then st
    else st.(sources := NoteQuery(st.sources, to, now), asked := st.asked + {(to, now)},
             left := if leaves then st.left + {(to, now)} else st.left)
  }

  function Challenge(cfg: Config, st: State, to: Addr, now: nat, later: nat, leaves: bool): State {
    var (sources, ok) := AllowPing(st.sources, to, now);
    if ok then Query(cfg, st.(sources := sources), to, later, leaves) else st.(sources := sources)
  }

  function Learn(cfg: Config, st: State, n: Node): State
    requires |st.table| == BUCKETS
  {
    if n.id == cfg.self || !Accepts(cfg.policy, n.udp.ip, n.p2pPort) then st
    else if Contains(cfg.self, st.table, n.id) then st.(table := Added(cfg.self, st.table, n))
    else
      var (sources, ok) := AllowLearn(st.sources, n.udp.ip, n.lastSeen);
      if ok then st.(sources := sources, table := Added(cfg.self, st.table, n)) else st.(sources := sources)
  }

  /** Policy and budget let the node in. */
  predicate Learns(cfg: Config, st: State, n: Node)
    requires |st.table| == BUCKETS
  {
    && n.id != cfg.self && Accepts(cfg.policy, n.udp.ip, n.p2pPort)
    && (Contains(cfg.self, st.table, n.id) || AllowLearn(st.sources, n.udp.ip, n.lastSeen).1)
  }

  function Hearsay(r: Rec, now: nat): Option<Node> {
    if r.id.Some? && r.ip.Some? then Some(Node(r.id.value, Addr(r.ip.value, r.udpPort), r.p2pPort, false, now)) else None
  }

  function LearnOne(cfg: Config, st: State, r: Rec, now: nat): State
    requires |st.table| == BUCKETS
  {
    match Hearsay(r, now)
    case None => st
    case Some(n) => Learn(cfg, st, n)
  }

  function LearnAll(cfg: Config, st: State, recs: seq<Rec>, now: nat): (r: State)
    requires |st.table| == BUCKETS
    ensures |r.table| == BUCKETS
  {
    if recs == [] then st
    else LearnOne(cfg, LearnAll(cfg, st, recs[..|recs| - 1], now), recs[|recs| - 1], now)
  }

  function Take<T>(s: seq<T>, n: nat): seq<T> {
    if |s| <= n then s else s[..n]
  }

  /** Was this an answer to a recent query of ours to exactly `src`? */
  predicate Solicited(st: State, msg: Msg, src: Addr, now: nat) {
    msg.IsAnswer() && TakePending(st.sources, src, now).1
  }

  /** The first half of a message: settle the proof it may be. */
  function Settle(st: State, msg: Msg, src: Addr, now: nat, later: nat): State {
    if !msg.IsAnswer() then st
    else
      var heard := st.(sources := TakePending(st.sources, src, now).0, heard := st.heard + {(src, now)});
      if Solicited(st, msg, src, now) then heard.(proven := st.proven + {src}, table := Marked(st.table, src, later)) else heard
  }

  /** The second half: learn the sender. */
  function Meet(cfg: Config, st: State, msg: Msg, src: Addr, now: nat, later: nat): (r: State)
    requires |st.table| == BUCKETS
    ensures |r.table| == BUCKETS
  {
    var settled := Settle(st, msg, src, now, later);
    match msg.from
    case None => settled
    case Some(id) => Learn(cfg, settled, Node(id, src, msg.p2p, Solicited(st, msg, src, now), now))
  }

  function Absorb(cfg: Config, st: State, msg: Msg, src: Addr, now: nat, later: nat, leaves: bool): (r: State)
    requires |st.table| == BUCKETS
    ensures |r.table| == BUCKETS
  {
    match msg
    case Ping(_, _) => st
    case Pong(_, _) => st
    case FindNode(_, _, _) => if IsVerifiedSource(st.table, src) then st else Challenge(cfg, st, src, now, later, leaves)
    case Nodes(_, _, nodes) => LearnAll(cfg, st, Take(nodes, MAX_NODES_PER_MSG), now)
  }

  /** One datagram from `src`; the clock reads `now` on arrival and `later` when it is
      read again, and `leaves` says whether a challenge makes it out of the socket. */
  function Handle(cfg: Config, st: State, msg: Msg, src: Addr, now: nat, later: nat, leaves: bool): (r: State)
    requires |st.table| == BUCKETS
    ensures |r.table| == BUCKETS
  {
    if !AcceptsIp(cfg.policy, src.ip) then st.(clock := later)
    else Absorb(cfg, Meet(cfg, st, msg, src, now, later).(clock := later), msg, src, now, later, leaves)
  }

  function ReplyTo(cfg: Config, met: State, msg: Msg, src: Addr): Reply {
    match msg
    case Ping(_, _) => PongReply
    case FindNode(_, _, target) =>
      var want := if IsVerifiedSource(met.table, src) then K else K_UNVERIFIED;
      NodesReply(Closest(met.table, if target.Some? then target.value else cfg.self, want))
    case _ => NoReply
  }

  function ImportOne(cfg: Config, t: Table, r: Rec, now: nat): (t': Table)
    requires |t| == BUCKETS
    ensures |t'| == BUCKETS
  {
    match Hearsay(r, now)
    case None => t
    case Some(n) =>
      if n.id == cfg.self || !Accepts(cfg.policy, n.udp.ip, n.udp.port) || !ContactablePort(n.p2pPort) then t
      else Added(cfg.self, t, n)
  }

  function Import(cfg: Config, t: Table, recs: seq<Rec>, now: nat): (t': Table)
    requires |t| == BUCKETS
    ensures |t'| == BUCKETS
  {
    if recs == [] then t else ImportOne(cfg, Import(cfg, t, recs[..|recs| - 1], now), recs[|recs| - 1], now)
  }

  // ── Every reachable state ──────────────────────────────────────────────────

  /** `addr` answered, within `PENDING_TTL`, a query sent to exactly `addr`. */
  ghost predicate Proved(asked: set<(Addr, nat)>, heard: set<(Addr, nat)>, addr: Addr) {
    exists t: nat, u: nat :: (addr, t) in asked && (addr, u) in heard && t <= u <= t + PENDING_TTL
  }

  ghost predicate SourcesOk(s: Sources, asked: set<(Addr, nat)>, clock: nat) {
    Bounded(s) && forall a :: a in s.pending ==> (a, s.pending[a]) in asked && s.pending[a] <= clock
  }

  ghost predicate Inv(cfg: Config, st: State) {
    && TableOk(cfg.self, st.table)
    && EntriesOk(st.table, cfg.policy, st.proven)
    && SourcesOk(st.sources, st.asked, st.clock)
    && (forall a :: a in st.proven ==> Proved(st.asked, st.heard, a))
    && st.left <= st.asked
  }

  lemma InitInv(cfg: Config)
    ensures Inv(cfg, Init())
  {
    EmptyOk(cfg.self, cfg.policy);
  }

  lemma ProvedGrows(asked: set<(Addr, nat)>, heard: set<(Addr, nat)>, asked': set<(Addr, nat)>, heard': set<(Addr, nat)>, a: Addr)
    requires Proved(asked, heard, a) && asked <= asked' && heard <= heard'
    ensures Proved(asked', heard', a)
  {
  }

  lemma QueryInv(cfg: Config, st: State, to: Addr, now: nat, leaves: bool)
    requires Inv(cfg, st) && now <= st.clock
    ensures Inv(cfg, Query(cfg, st, to, now, leaves))
  {
    var r := Query(cfg, st, to, now, leaves);
    NoteQueryBounded(st.sources, to, now);
    forall a | a in st.proven ensures Proved(r.asked, r.heard, a) {
      ProvedGrows(st.asked, st.heard, r.asked, r.heard, a);
    }
  }

  lemma ChallengeInv(cfg: Config, st: State, to: Addr, now: nat, later: nat, leaves: bool)
    requires Inv(cfg, st) && later <= st.clock
    ensures Inv(cfg, Challenge(cfg, st, to, now, later, leaves))
  {
    AllowPingBounded(st.sources, to, now);
    var mid := st.(sources := AllowPing(st.sources, to, now).0);
    assert Inv(cfg, mid);
    QueryInv(cfg, mid, to, later, leaves);
  }

  lemma LearnInv(cfg: Config, st: State, n: Node)
    requires Inv(cfg, st) && (n.verified ==> n.udp in st.proven)
    ensures Inv(cfg, Learn(cfg, st, n))
  {
    AllowLearnBounded(st.sources, n.udp.ip, n.lastSeen);
    if Accepts(cfg.policy, n.udp.ip, n.p2pPort) {
      AddedOk(cfg.self, st.table, n, cfg.policy, st.proven);
    }
  }

  lemma {:induction false} LearnAllInv(cfg: Config, st: State, recs: seq<Rec>, now: nat)
    requires Inv(cfg, st)
    ensures Inv(cfg, LearnAll(cfg, st, recs, now))
  {
    if recs != [] {
      var front, r := recs[..|recs| - 1], recs[|recs| - 1];
      LearnAllInv(cfg, st, front, now);
      if Hearsay(r, now).Some? {
        LearnInv(cfg, LearnAll(cfg, st, front, now), Hearsay(r, now).value);
      }
    }
  }

  /** An answer promotes its sender only if a query to that very address is recent. */
  lemma SettleInv(cfg: Config, st: State, msg: Msg, src: Addr, now: nat, later: nat)
    requires Inv(cfg, st) && st.clock <= now
    ensures Inv(cfg, Settle(st, msg, src, now, later))
    ensures Solicited(st, msg, src, now) ==> src in Settle(st, msg, src, now, later).proven
  {
    if msg.IsAnswer() {
      var r := Settle(st, msg, src, now, later);
      ShrinksByOne(st.sources.pending, src);
      forall a | a in r.proven ensures Proved(r.asked, r.heard, a) {
        if a in st.proven {
          ProvedGrows(st.asked, st.heard, r.asked, r.heard, a);
        } else {
          var t := st.sources.pending[src];
          assert (src, t) in r.asked && (src, now) in r.heard;
        }
      }
      assert EntriesOk(st.table, cfg.policy, r.proven);
      if Solicited(st, msg, src, now) {
        MarkedOk(cfg.self, st.table, src, later, cfg.policy, r.proven);
      }
    }
  }

  lemma MeetInv(cfg: Config, st: State, msg: Msg, src: Addr, now: nat, later: nat)
    requires Inv(cfg, st) && st.clock <= now
    ensures Inv(cfg, Meet(cfg, st, msg, src, now, later))
  {
    SettleInv(cfg, st, msg, src, now, later);
    if msg.from.Some? {
      LearnInv(cfg, Settle(st, msg, src, now, later),
               Node(msg.from.value, src, msg.p2p, Solicited(st, msg, src, now), now));
    }
  }

  lemma AbsorbInv(cfg: Config, st: State, msg: Msg, src: Addr, now: nat, later: nat, leaves: bool)
    requires Inv(cfg, st) && later <= st.clock
    ensures Inv(cfg, Absorb(cfg, st, msg, src, now, later, leaves))
  {
    match msg
    case Ping(_, _) =>
    case Pong(_, _) =>
    case FindNode(_, _, _) => ChallengeInv(cfg, st, src, now, later, leaves);
    case Nodes(_, _, nodes) => LearnAllInv(cfg, st, Take(nodes, MAX_NODES_PER_MSG), now);
  }

  lemma MeetKeepsClock(cfg: Config, st: State, msg: Msg, src: Addr, now: nat, later: nat)
    requires |st.table| == BUCKETS
    ensures Meet(cfg, st, msg, src, now, later).clock == st.clock
  {
  }

  lemma ClockForward(cfg: Config, st: State, later: nat)
    requires Inv(cfg, st) && st.clock <= later
    ensures Inv(cfg, st.(clock := later))
  {
  }

  lemma HandleInv(cfg: Config, st: State, msg: Msg, src: Addr, now: nat, later: nat, leaves: bool)
    requires Inv(cfg, st) && st.clock <= now <= later
    ensures Inv(cfg, Handle(cfg, st, msg, src, now, later, leaves))
  {
    if AcceptsIp(cfg.policy, src.ip) {
      var met := Meet(cfg, st, msg, src, now, later);
      MeetInv(cfg, st, msg, src, now, later);
      MeetKeepsClock(cfg, st, msg, src, now, later);
      ClockForward(cfg, met, later);
      AbsorbInv(cfg, met.(clock := later), msg, src, now, later, leaves);
    } else {
      ClockForward(cfg, st, later);
    }
  }

  lemma {:induction false} ImportOk(cfg: Config, t: Table, recs: seq<Rec>, now: nat, proven: set<Addr>)
    requires TableOk(cfg.self, t) && EntriesOk(t, cfg.policy, proven)
    ensures TableOk(cfg.self, Import(cfg, t, recs, now)) && EntriesOk(Import(cfg, t, recs, now), cfg.policy, proven)
  {
    if recs != [] {
      var front, r := recs[..|recs| - 1], recs[|recs| - 1];
      ImportOk(cfg, t, front, now, proven);
      var n := Hearsay(r, now);
      if n.Some? && Accepts(cfg.policy, n.value.udp.ip, n.value.p2pPort) {
        AddedOk(cfg.self, Import(cfg, t, front, now), n.value, cfg.policy, proven);
      }
    }
  }

  // ── Runs ───────────────────────────────────────────────────────────────────

  /** Everything that can happen to a node: a datagram, a query of its own (bootstrap and
      refresh rounds are sequences of these), a throttled probe, a restored snapshot. */
  datatype Event =
    | Receive(msg: Msg, src: Addr, now: nat, later: nat, leaves: bool)
    | Ask(to: Addr, now: nat, leaves: bool)
    | Probe(to: Addr, now: nat, later: nat, leaves: bool)
    | Restore(recs: seq<Rec>, now: nat)
  {
    function End(): nat { if Receive? || Probe? then later else now }
  }

  function Step(cfg: Config, st: State, e: Event): (r: State)
    requires |st.table| == BUCKETS
    ensures |r.table| == BUCKETS
  {
    match e
    case Receive(msg, src, now, later, leaves) => Handle(cfg, st, msg, src, now, later, leaves)
    case Ask(to, now, leaves) => Query(cfg, st.(clock := now), to, now, leaves)
    case Probe(to, now, later, leaves) => Challenge(cfg, st.(clock := later), to, now, later, leaves)
    case Restore(recs, now) => st.(clock := now, table := Import(cfg, st.table, Take(recs, MAX_PERSIST_NODES), now))
  }

  function Run(cfg: Config, st: State, es: seq<Event>): (r: State)
    requires |st.table| == BUCKETS
    ensures |r.table| == BUCKETS
    decreases |es|
  {
    if es == [] then st else Run(cfg, Step(cfg, st, es[0]), es[1..])
  }

  /** Time does not run backwards. */
  ghost predicate Timed(clock: nat, es: seq<Event>)
    decreases |es|
  {
    es == [] || (clock <= es[0].now <= es[0].End() && Timed(es[0].End(), es[1..]))
  }

  lemma StepClock(cfg: Config, st: State, e: Event)
    requires |st.table| == BUCKETS
    ensures Step(cfg, st, e).clock == e.End()
  {
    if e.Receive? && e.msg.Nodes? && AcceptsIp(cfg.policy, e.src.ip) {
      LearnAllClock(cfg, Meet(cfg, st, e.msg, e.src, e.now, e.later).(clock := e.later), Take(e.msg.nodes, MAX_NODES_PER_MSG), e.now);
    }
  }

  lemma {:induction false} LearnAllClock(cfg: Config, st: State, recs: seq<Rec>, now: nat)
    requires |st.table| == BUCKETS
    ensures LearnAll(cfg, st, recs, now).clock == st.clock
  {
    if recs != [] {
      LearnAllClock(cfg, st, recs[..|recs| - 1], now);
    }
  }

  lemma StepInv(cfg: Config, st: State, e: Event)
    requires Inv(cfg, st) && st.clock <= e.now <= e.End()
    ensures Inv(cfg, Step(cfg, st, e))
  {
    match e
    case Receive(msg, src, now, later, leaves) => HandleInv(cfg, st, msg, src, now, later, leaves);
    case Ask(to, now, leaves) =>
      ClockForward(cfg, st, now);
      QueryInv(cfg, st.(clock := now), to, now, leaves);
    case Probe(to, now, later, leaves) =>
      ClockForward(cfg, st, later);
      ChallengeInv(cfg, st.(clock := later), to, now, later, leaves);
    case Restore(recs, now) =>
      ClockForward(cfg, st, now);
      ImportOk(cfg, st.table, Take(recs, MAX_PERSIST_NODES), now, st.proven);
  }

  lemma {:induction false} RunInv(cfg: Config, st: State, es: seq<Event>)
    requires Inv(cfg, st) && Timed(st.clock, es)
    ensures Inv(cfg, Run(cfg, st, es))
    decreases |es|
  {
    if es != [] {
      StepInv(cfg, st, es[0]);
      StepClock(cfg, st, es[0]);
      RunInv(cfg, Step(cfg, st, es[0]), es[1..]);
    }
  }

  /** In every reachable state, whatever arrived and whatever was imported: the table is
      well formed, the bookkeeping bounded, every address acceptable, and every verified
      entry's UDP address answered in time a query addressed to it. */
  lemma EveryRunProves(cfg: Config, es: seq<Event>, i: nat, k: nat)
    requires Timed(0, es)
    ensures Inv(cfg, Run(cfg, Init(), es))
    ensures var st := Run(cfg, Init(), es); i < |st.table| && k < |st.table[i]| ==>
      var n := st.table[i][k];
      && Accepts(cfg.policy, n.udp.ip, n.p2pPort)
      && BucketIndex(Xor(cfg.self, n.id)) == Some(i)
      && (n.verified ==> Proved(st.asked, st.heard, n.udp))
  {
    InitInv(cfg);
    RunInv(cfg, Init(), es);
    var st := Run(cfg, Init(), es);
    if i < |st.table| && k < |st.table[i]| {
      assert BucketOk(cfg.self, i, st.table[i]);
      assert EntryOk(cfg.policy, st.proven, st.table[i][k]);
    }
  }

  // ── Proof of address and failed sends ──────────────────────────────────────

  /** The one address an event may send a query to. */
  function Recipient(e: Event): Option<Addr> {
    match e
    case Receive(_, src, _, _, _) => Some(src)
    case Ask(to, _, _) => Some(to)
    case Probe(to, _, _, _) => Some(to)
    case Restore(_, _) => None
  }

  /** Every query to `a` makes it out of the socket. */
  ghost predicate AllLeaveTo(es: seq<Event>, a: Addr) {
    forall k :: 0 <= k < |es| && Recipient(es[k]) == Some(a) ==> es[k].leaves
  }

  ghost predicate NoneLeavesTo(es: seq<Event>, a: Addr) {
    forall k :: 0 <= k < |es| && Recipient(es[k]) == Some(a) ==> !es[k].leaves
  }

  lemma MeetAsks(cfg: Config, st: State, msg: Msg, src: Addr, now: nat, later: nat)
    requires |st.table| == BUCKETS
    ensures Meet(cfg, st, msg, src, now, later).left == st.left && Meet(cfg, st, msg, src, now, later).asked == st.asked
  {
  }

  lemma {:induction false} LearnAllAsks(cfg: Config, st: State, recs: seq<Rec>, now: nat)
    requires |st.table| == BUCKETS
    ensures LearnAll(cfg, st, recs, now).left == st.left && LearnAll(cfg, st, recs, now).asked == st.asked
  {
    if recs != [] {
      LearnAllAsks(cfg, st, recs[..|recs| - 1], now);
    }
  }

  /** From `st` to `n` nothing was asked, or one query to `to`, which left or did not. */
  ghost predicate AsksOnly(st: State, n: State, to: Addr, leaves: bool) {
    || (n.asked == st.asked && n.left == st.left)
    || exists t :: n.asked == st.asked + {(to, t)} && n.left == if leaves then st.left + {(to, t)} else st.left
  }

  lemma AbsorbAsks(cfg: Config, st: State, msg: Msg, src: Addr, now: nat, later: nat, leaves: bool)
    requires |st.table| == BUCKETS
    ensures AsksOnly(st, Absorb(cfg, st, msg, src, now, later, leaves), src, leaves)
  {
    if msg.Nodes? {
      LearnAllAsks(cfg, st, Take(msg.nodes, MAX_NODES_PER_MSG), now);
    }
  }

  lemma StepAsks(cfg: Config, st: State, e: Event)
    requires |st.table| == BUCKETS
    ensures Recipient(e).Some? ==> AsksOnly(st, Step(cfg, st, e), Recipient(e).value, e.leaves)
    ensures Recipient(e).None? ==> Step(cfg, st, e).asked == st.asked && Step(cfg, st, e).left == st.left
  {
    if e.Receive? {
      MeetAsks(cfg, st, e.msg, e.src, e.now, e.later);
      AbsorbAsks(cfg, Meet(cfg, st, e.msg, e.src, e.now, e.later).(clock := e.later), e.msg, e.src, e.now, e.later, e.leaves);
    }
  }

  ghost predicate AllLeft(st: State, a: Addr) {
    forall t :: (a, t) in st.asked ==> (a, t) in st.left
  }

  ghost predicate NoneLeft(st: State, a: Addr) {
    forall t :: (a, t) !in st.left
  }

  lemma {:induction false} RunAsks(cfg: Config, st: State, es: seq<Event>, a: Addr)
    requires |st.table| == BUCKETS
    ensures AllLeft(st, a) && AllLeaveTo(es, a) ==> AllLeft(Run(cfg, st, es), a)
    ensures NoneLeft(st, a) && NoneLeavesTo(es, a) ==> NoneLeft(Run(cfg, st, es), a)
    decreases |es|
  {
    if es != [] {
      StepAsks(cfg, st, es[0]);
      RunAsks(cfg, Step(cfg, st, es[0]), es[1..], a);
      assert AllLeaveTo(es, a) ==> AllLeaveTo(es[1..], a);
      assert NoneLeavesTo(es, a) ==> NoneLeavesTo(es[1..], a);
    }
  }

  /** Address by address: if every query to `a` went out, the proof behind a verified entry
      at `a` is a datagram that really left; if none did, there is no such proof. */
  lemma SentQueriesProve(cfg: Config, es: seq<Event>, i: nat, k: nat, a: Addr)
    requires Timed(0, es)
    ensures var st := Run(cfg, Init(), es);
      AllLeaveTo(es, a) && i < |st.table| && k < |st.table[i]| && st.table[i][k].verified && st.table[i][k].udp == a ==>
        Proved(st.left, st.heard, a)
    ensures NoneLeavesTo(es, a) ==> !Proved(Run(cfg, Init(), es).left, Run(cfg, Init(), es).heard, a)
  {
    EveryRunProves(cfg, es, i, k);
    RunAsks(cfg, Init(), es, a);
  }

  const SOME_ADDR: Addr := Addr(V4(57, 129, 12, 127), 7490)

  lemma UnsentAsk(cfg: Config)
    ensures Step(cfg, Init(), Ask(SOME_ADDR, 0, false))
         == Init().(sources := Sources(map[], map[SOME_ADDR := 0], map[]), asked := {(SOME_ADDR, 0)})
  {
  }

  /** The first node a table meets. */
  lemma FirstNode(cfg: Config, st: State, n: Node)
    requires st.table == Empty() && st.sources.learn == map[] && n.id != cfg.self && Accepts(cfg.policy, n.udp.ip, n.p2pPort)
    ensures Learn(cfg, st, n).table == Empty()[Slot(cfg.self, n.id).value := [n]] && Learn(cfg, st, n).left == st.left
  {
    assert [] + [n] == [n];
    assert AddTo([], n) == ([n], true);
  }

  lemma UnsentAnswer(cfg: Config, st: State, id: NodeId)
    requires id != cfg.self && st.table == Empty() && st.sources == Sources(map[], map[SOME_ADDR := 0], map[])
    ensures var r := Handle(cfg, st, Pong(Some(id), 7490), SOME_ADDR, 0, 0, false);
      r.table == Empty()[Slot(cfg.self, id).value := [Node(id, SOME_ADDR, 7490, true, 0)]] && r.left == st.left
  {
    var settled := Settle(st, Pong(Some(id), 7490), SOME_ADDR, 0, 0);
    assert settled.table == Empty();
    FirstNode(cfg, settled, Node(id, SOME_ADDR, 7490, true, 0));
  }

  /** A query is noted before the socket takes it, so one that never left still lets an
      unsolicited answer verify its sender. */
  lemma UnsentQueryProves(cfg: Config, id: NodeId)
    requires id != cfg.self
    ensures var st := Run(cfg, Init(), [Ask(SOME_ADDR, 0, false), Receive(Pong(Some(id), 7490), SOME_ADDR, 0, 0, false)]);
      st.left == {} && st.table[Slot(cfg.self, id).value] == [Node(id, SOME_ADDR, 7490, true, 0)]
  {
    var ask, answer := Ask(SOME_ADDR, 0, false), Receive(Pong(Some(id), 7490), SOME_ADDR, 0, 0, false);
    var asked := Step(cfg, Init(), ask);
    UnsentAsk(cfg);
    UnsentAnswer(cfg, asked, id);
    TwoSteps(cfg, Init(), ask, answer);
  }

  lemma TwoSteps(cfg: Config, st: State, a: Event, b: Event)
    requires |st.table| == BUCKETS
    ensures Run(cfg, st, [a, b]) == Step(cfg, Step(cfg, st, a), b)
  {
    var mid := Step(cfg, st, a);
    assert [a, b][1..] == [b] && [b][1..] == [];
    assert Run(cfg, mid, [b]) == Run(cfg, Step(cfg, mid, b), []);
  }

  // ── Nodes that keep in touch keep their place ──────────────────────────────

  /** Does this event bring a message from `id` itself, from an acceptable address? */
  predicate Sights(cfg: Config, e: Event, id: NodeId) {
    e.Receive? && e.msg.from == Some(id) && Accepts(cfg.policy, e.src.ip, e.msg.p2p)
  }

  lemma LearnKeepsSeen(cfg: Config, st: State, n: Node, id: NodeId, last: nat)
    requires |st.table| == BUCKETS && SeenSince(cfg.self, st.table, id, last) && last <= n.lastSeen <= last + STALE_AFTER
    ensures SeenSince(cfg.self, Learn(cfg, st, n).table, id,
                      if n.id == id && Accepts(cfg.policy, n.udp.ip, n.p2pPort) then n.lastSeen else last)
  {
    AddedKeepsSeen(cfg.self, st.table, n, id, last);
  }

  lemma {:induction false} LearnAllKeepsSeen(cfg: Config, st: State, recs: seq<Rec>, now: nat, id: NodeId, last: nat)
    requires |st.table| == BUCKETS && SeenSince(cfg.self, st.table, id, last) && last <= now <= last + STALE_AFTER
    ensures SeenSince(cfg.self, LearnAll(cfg, st, recs, now).table, id, last)
  {
    if recs != [] {
      var front, r := recs[..|recs| - 1], recs[|recs| - 1];
      LearnAllKeepsSeen(cfg, st, front, now, id, last);
      if Hearsay(r, now).Some? {
        var mid := LearnAll(cfg, st, front, now);
        LearnKeepsSeen(cfg, mid, Hearsay(r, now).value, id, last);
      }
    }
  }

  lemma {:induction false} ImportKeepsSeen(cfg: Config, t: Table, recs: seq<Rec>, now: nat, id: NodeId, last: nat)
    requires |t| == BUCKETS && SeenSince(cfg.self, t, id, last) && last <= now <= last + STALE_AFTER
    ensures SeenSince(cfg.self, Import(cfg, t, recs, now), id, last)
  {
    if recs != [] {
      var front, r := recs[..|recs| - 1], recs[|recs| - 1];
      ImportKeepsSeen(cfg, t, front, now, id, last);
      if Hearsay(r, now).Some? {
        AddedKeepsSeen(cfg.self, Import(cfg, t, front, now), Hearsay(r, now).value, id, last);
      }
    }
  }

  lemma MeetKeepsSeen(cfg: Config, st: State, msg: Msg, src: Addr, now: nat, later: nat, id: NodeId, last: nat)
    requires |st.table| == BUCKETS && SeenSince(cfg.self, st.table, id, last) && last <= now <= last + STALE_AFTER && now <= later
    ensures SeenSince(cfg.self, Meet(cfg, st, msg, src, now, later).table, id,
                      if msg.from == Some(id) && Accepts(cfg.policy, src.ip, msg.p2p) then now else last)
  {
    MarkedKeepsSeen(cfg.self, st.table, src, later, id, last);
    var settled := Settle(st, msg, src, now, later);
    assert SeenSince(cfg.self, settled.table, id, last);
    if msg.from.Some? {
      LearnKeepsSeen(cfg, settled, Node(msg.from.value, src, msg.p2p, Solicited(st, msg, src, now), now), id, last);
    }
  }

  lemma StepKeepsSeen(cfg: Config, st: State, e: Event, id: NodeId, last: nat)
    requires |st.table| == BUCKETS && SeenSince(cfg.self, st.table, id, last)
    requires last <= e.now <= last + STALE_AFTER && e.now <= e.End()
    ensures SeenSince(cfg.self, Step(cfg, st, e).table, id, if Sights(cfg, e, id) then e.now else last)
  {
    match e
    case Receive(msg, src, now, later, leaves) =>
      if AcceptsIp(cfg.policy, src.ip) {
        MeetKeepsSeen(cfg, st, msg, src, now, later, id, last);
        var met := Meet(cfg, st, msg, src, now, later).(clock := later);
        var seen := if Sights(cfg, e, id) then now else last;
        if msg.Nodes? {
          LearnAllKeepsSeen(cfg, met, Take(msg.nodes, MAX_NODES_PER_MSG), now, id, seen);
        }
      }
    case Ask(_, _, _) =>
    case Probe(_, _, _, _) =>
    case Restore(recs, now) => ImportKeepsSeen(cfg, st.table, Take(recs, MAX_PERSIST_NODES), now, id, last);
  }

  /** Nothing happens more than `STALE_AFTER` after the latest message from `id`. */
  ghost predicate KeepsInTouch(cfg: Config, es: seq<Event>, id: NodeId, last: nat)
    decreases |es|
  {
    es == [] || (es[0].now <= last + STALE_AFTER && KeepsInTouch(cfg, es[1..], id, if Sights(cfg, es[0], id) then es[0].now else last))
  }

  /** A listed node that we hear from at least every `STALE_AFTER` is never displaced,
      whatever else is sent to us in between. */
  lemma {:induction false} InTouchIsNeverDisplaced(cfg: Config, st: State, es: seq<Event>, id: NodeId, last: nat)
    requires |st.table| == BUCKETS && SeenSince(cfg.self, st.table, id, last) && last <= st.clock
    requires Timed(st.clock, es) && KeepsInTouch(cfg, es, id, last)
    ensures Contains(cfg.self, Run(cfg, st, es).table, id)
    decreases |es|
  {
    if es != [] {
      StepKeepsSeen(cfg, st, es[0], id, last);
      StepClock(cfg, st, es[0]);
      InTouchIsNeverDisplaced(cfg, Step(cfg, st, es[0]), es[1..], id, if Sights(cfg, es[0], id) then es[0].now else last);
    }
  }

  // ── Answers ────────────────────────────────────────────────────────────────

  /** An answer longer than `K_UNVERIFIED` records goes only to an address that answered
      us, and no answer is longer than `K`. */
  lemma LongAnswersAreEarned(cfg: Config, met: State, msg: Msg, src: Addr)
    requires Inv(cfg, met)
    ensures var r := ReplyTo(cfg, met, msg, src); r.NodesReply? ==>
      && |r.nodes| <= K
      && (|r.nodes| > K_UNVERIFIED ==> Proved(met.asked, met.heard, src))
  {
    if msg.FindNode? {
      var target := if msg.target.Some? then msg.target.value else cfg.self;
      ClosestAreNearest(met.table, target, if IsVerifiedSource(met.table, src) then K else K_UNVERIFIED);
    }
  }

  /** The answer to a query for `target`: of all entries of the table the ones nearest to it,
      nearest first, as many as there are up to `K` for a source listed as verified and up to
      `K_UNVERIFIED` for any other. */
  ghost predicate AnswersFor(t: Table, src: Addr, target: NodeId, nodes: seq<Node>) {
    var most := if exists n :: n in Entries(t) && n.udp == src && n.verified then 8 else 2;
    && NearestOf(multiset(Entries(t)), nodes, target)
    && |nodes| == if |Entries(t)| < most then |Entries(t)| else most
  }

  /** What is answered to whom. */
  ghost predicate RightReply(cfg: Config, t: Table, msg: Msg, src: Addr, reply: Reply) {
    if !AcceptsIp(cfg.policy, src.ip) || msg.Pong? || msg.Nodes? then reply == NoReply
    else if msg.Ping? then reply == PongReply
    else reply.NodesReply? && AnswersFor(t, src, if msg.target.Some? then msg.target.value else cfg.self, reply.nodes)
  }

  lemma ClosestAnswers(self: NodeId, t: Table, src: Addr, target: NodeId)
    requires TableOk(self, t)
    ensures AnswersFor(t, src, target, Closest(t, target, if IsVerifiedSource(t, src) then K else K_UNVERIFIED))
  {
    var most := if IsVerifiedSource(t, src) then K else K_UNVERIFIED;
    OkIsOnce(self, t);
    AllOnce(t);
    assert |multiset(All(t))| == |All(t)| && |multiset(Entries(t))| == |Entries(t)|;
    ClosestAreNearest(t, target, most);
    assert IsVerifiedSource(t, src) <==> exists n :: n in Entries(t) && n.udp == src && n.verified;
  }

  // ── The node object ────────────────────────────────────────────────────────

  class DhtNode {
    const selfId: NodeId
    const policy: Policy
    const table: RoutingTable
    const sources: SourceState
    ghost var proven: set<Addr>
    ghost var asked: set<(Addr, nat)>
    ghost var left: set<(Addr, nat)>
    ghost var heard: set<(Addr, nat)>
    ghost var clock: nat

    ghost predicate Valid() reads this, table { table.Valid() && table.selfId == selfId }

    ghost function Cfg(): Config { Config(selfId, policy) }

    ghost function Now(): State
      reads this, table, sources
    {
      State(table.buckets, sources.Value(), proven, asked, left, heard, clock)
    }

    constructor (self: NodeId, addrPolicy: Policy)
      ensures Valid() && fresh(table) && fresh(sources) && selfId == self && policy == addrPolicy && Now() == Init()
    {
      selfId, policy := self, addrPolicy;
      table := new RoutingTable(self);
      sources := new SourceState();
      proven, asked, left, heard, clock := {}, {}, {}, {}, 0;
    }

    /** Send a query, remembering it so that the answer can prove the address. */
    method SendQuery(to: Addr, now: nat, leaves: bool) returns (ok: bool)
      requires Valid()
      modifies this, sources
      ensures Valid() && Now() == Query(Cfg(), old(Now()), to, now, leaves)
      ensures ok == (AcceptsIp(policy, to.ip) && leaves)
    {
      if !AcceptsIp(policy, to.ip) {
        return false;
      }
      sources.Note(to, now);
      asked := asked + {(to, now)};
      left := if leaves then left + {(to, now)} else left;
      ok := leaves;
    }

    method SendChallenge(to: Addr, now: nat, later: nat, leaves: bool)
      requires Valid()
      modifies this, sources
      ensures Valid() && Now() == Challenge(Cfg(), old(Now()), to, now, later, leaves)
    {
      var allowed := sources.MayPing(to, now);
      if allowed {
        var _ := SendQuery(to, later, leaves);
      }
    }

    method LearnNode(node: Node) returns (gained: bool)
      requires Valid()
      modifies table, sources
      ensures Valid() && Now() == Learn(Cfg(), old(Now()), node)
      ensures gained <==> Learns(Cfg(), old(Now()), node) && IsNew(selfId, old(table.buckets), node)
    {
      if node.id == selfId || !Accepts(policy, node.udp.ip, node.p2pPort) {
        return false;
      }
      if !Contains(selfId, table.buckets, node.id) {
        var ok := sources.MayLearn(node.udp.ip, node.lastSeen);
        if !ok {
          return false;
        }
      }
      gained := table.Add(node);
    }

    method LearnRecords(recs: seq<Rec>, now: nat)
      requires Valid()
      modifies table, sources
      ensures Valid() && Now() == LearnAll(Cfg(), old(Now()), recs, now)
    {
      for k := 0 to |recs|
        invariant Valid() && Now() == LearnAll(Cfg(), old(Now()), recs[..k], now)
      {
        assert recs[..k + 1][..k] == recs[..k];
        var n := Hearsay(recs[k], now);
        if n.Some? {
          var _ := LearnNode(n.value);
        }
      }
      assert recs[..|recs|] == recs;
    }

    method MeetSender(msg: Msg, src: Addr, now: nat, later: nat)
      requires Valid()
      modifies this, table, sources
      ensures Valid() && Now() == Meet(Cfg(), old(Now()), msg, src, now, later)
    {
      var solicited := false;
      if msg.IsAnswer() {
        solicited := sources.Take(src, now);
        heard := heard + {(src, now)};
      }
      if solicited {
        table.MarkVerified(src, later);
        proven := proven + {src};
      }
      if msg.from.Some? {
        var _ := LearnNode(Node(msg.from.value, src, msg.p2p, solicited, now));
      }
    }

    /** One datagram: settle the proof, learn the sender, then answer or absorb. */
    method Receive(msg: Msg, src: Addr, now: nat, later: nat, leaves: bool) returns (reply: Reply)
      requires Valid()
      modifies this, table, sources
      ensures Valid() && Now() == Handle(Cfg(), old(Now()), msg, src, now, later, leaves)
      ensures reply == if AcceptsIp(policy, src.ip)
                       then ReplyTo(Cfg(), Meet(Cfg(), old(Now()), msg, src, now, later), msg, src) else NoReply
      ensures TableOk(selfId, table.buckets) ==> RightReply(Cfg(), table.buckets, msg, src, reply)
    {
      if !AcceptsIp(policy, src.ip) {
        clock := later;
        return NoReply;
      }
      MeetSender(msg, src, now, later);
      reply := NoReply;
      clock := later;
      match msg {
        case Ping(_, _) => reply := PongReply;
        case Pong(_, _) =>
        case FindNode(_, _, target) =>
          var verified := IsVerifiedSource(table.buckets, src);
          reply := NodesReply(Closest(table.buckets, if target.Some? then target.value else selfId,
                                      if verified then K else K_UNVERIFIED));
          if TableOk(selfId, table.buckets) {
            ClosestAnswers(selfId, table.buckets, src, if target.Some? then target.value else selfId);
          }
          if !verified {
            SendChallenge(src, now, later, leaves);
          }
        case Nodes(_, _, nodes) => LearnRecords(Take(nodes, MAX_NODES_PER_MSG), now);
      }
    }

    /** Restore a snapshot: every record is unverified again and filtered again. */
    method ImportNodes(nodes: seq<Rec>, now: nat)
      requires Valid()
      modifies this, table
      ensures Valid() && Now() == Step(Cfg(), old(Now()), Restore(nodes, now))
    {
      var recs := Take(nodes, MAX_PERSIST_NODES);
      for k := 0 to |recs|
        invariant Valid() && table.buckets == Import(Cfg(), old(table.buckets), recs[..k], now)
        invariant Now() == old(Now()).(table := table.buckets)
      {
        assert recs[..k + 1][..k] == recs[..k];
        var n := Hearsay(recs[k], now);
        if n.Some? && n.value.id != selfId && Accepts(policy, n.value.udp.ip, n.value.udp.port) && ContactablePort(n.value.p2pPort) {
          var _ := table.Add(n.value);
        }
      }
      assert recs[..|recs|] == recs;
      clock := now;
    }
  }
}
