/**
  Shard bytes against shard rows, at every crash point (service.rs, handlers/files.rs,
  repair.rs, rebalance.rs).

  Every operation that writes or frees shards is cut into its atomic steps:
  - push, pack and compact stage new shards in the local store, commit the manifest
    transaction, and only then free the shards of the rows it removed; purge is the same
    with nothing staged;
  - distribution and shard moves fetch a shard, store it at its destination, record the
    new location and drop the old copy; a repair gets its bytes from other shards, stores
    and records, and drops nothing.
  Steps of different operations interleave freely, and any operation may stop between
  two steps.  A crash stops them all; queued deletions at peers are job rows and survive it,
  local ones do not.  Placed bytes are those of the fragment: fetches are digest-checked and
  repairs write originals.
 */
module CrashSafety {
  import opened Wrappers
  import opened Locations

  /** A fragment id is derived from its file's freshly minted id, so it names one shard
      for ever. */
  type Frag = nat

  /** A relocation in flight.  `from` is the location its plan saw, possibly long ago. */
  datatype Mover =
    | Planned(frag: Frag, from: Location, to: Location, drops: bool)
    | Fetched(frag: Frag, from: Location, to: Location, drops: bool)
    | Placed(frag: Frag, from: Location, to: Location, drops: bool)
    | Dropping(frag: Frag, from: Location)
  {
    /** The location it is still going to record. */
    function WillRecord(): Option<Location> { if Dropping? then None else Some(to) }

    /** The copy it is still going to delete. */
    function WillDrop(): Option<Location> { if Dropping? || drops then Some(from) else None }

    /** It has yet to read the copy at `from`. */
    predicate NeedsSource() { Planned? && drops }

    predicate WillStore(f: Frag, loc: Location) { (Planned? || Fetched?) && frag == f && to == loc }
  }

  datatype State = State(
    rows: map<Frag, Location>,
    held: set<(Location, Frag)>,
    minted: set<Frag>,
    staged: set<Frag>,
    frees: set<(Frag, Location)>,
    movers: map<nat, Mover>)

  datatype Step =
    | Stage(frag: Frag)
    | Commit(gone: set<Frag>, added: set<Frag>)
    | Free(frag: Frag, loc: Location)
    | Start(id: nat, mover: Mover)
    | Fetch(id: nat)
    | Store(id: nat)
    | Record(id: nat)
    | Drop(id: nat)
    | Stop(id: nat)
    | Crash(kept: set<(Frag, Location)>)

  function Init(): State {
    State(map[], {}, {}, {}, {}, map[])
  }

  /** Nothing keeps the relocation from its bytes right now. */
  ghost predicate Ready(st: State, m: Mover) {
    m.NeedsSource() ==> (m.from, m.frag) in st.held
  }

  ghost predicate Enabled(st: State, s: Step) {
    match s
    case Stage(f) => f !in st.minted
    case Commit(gone, added) => gone <= st.rows.Keys && added <= st.staged
    case Free(f, loc) => (f, loc) in st.frees
    case Start(id, m) => id !in st.movers && m.Planned? && (m.drops ==> m.from != m.to) && m.frag in st.rows
    case Fetch(id) => id in st.movers && st.movers[id].Planned? && Ready(st, st.movers[id])
    case Store(id) => id in st.movers && st.movers[id].Fetched?
    case Record(id) => id in st.movers && st.movers[id].Placed?
    case Drop(id) => id in st.movers && st.movers[id].Dropping?
    case Stop(id) => id in st.movers
    case Crash(kept) => kept <= st.frees
  }

  function Collected(st: State, gone: set<Frag>): set<(Frag, Location)> {
    set f | f in gone && f in st.rows :: (f, st.rows[f])
  }

  function Next(st: State, s: Step): State {
    match s
    case Stage(f) => st.(held := st.held + {(Local, f)}, minted := st.minted + {f}, staged := st.staged + {f})
    case Commit(gone, added) =>
      st.(rows := (st.rows - gone) + (map f | f in added :: Local), staged := st.staged - added,
          frees := st.frees + Collected(st, gone))
    case Free(f, loc) => st.(held := st.held - {(loc, f)}, frees := st.frees - {(f, loc)})
    case Start(id, m) => st.(movers := st.movers[id := m])
    case Fetch(id) =>
      if id !in st.movers || !st.movers[id].Planned? then st
      else
        var m := st.movers[id];
        st.(movers := st.movers[id := Fetched(m.frag, m.from, m.to, m.drops)])
    case Store(id) =>
      if id !in st.movers || !st.movers[id].Fetched? then st
      else
        var m := st.movers[id];
        st.(held := st.held + {(m.to, m.frag)}, movers := st.movers[id := Placed(m.frag, m.from, m.to, m.drops)])
    case Record(id) =>
      if id !in st.movers || !st.movers[id].Placed? then st
      else
        var m := st.movers[id];
        st.(rows := if m.frag in st.rows then st.rows[m.frag := m.to] else st.rows,
            movers := if m.drops then st.movers[id := Dropping(m.frag, m.from)] else st.movers - {id})
    case Drop(id) =>
      if id !in st.movers || !st.movers[id].Dropping? then st
      else
        var m := st.movers[id];
        st.(held := st.held - {(m.from, m.frag)}, movers := st.movers - {id})
    case Stop(id) => st.(movers := st.movers - {id})
    case Crash(kept) => st.(staged := {}, frees := kept, movers := map[])
  }

  /** Every shard row's bytes exist where the row says. */
  ghost predicate Safe(st: State) {
    forall f :: f in st.rows ==> (st.rows[f], f) in st.held
  }

  /** One relocation is about to delete the copy that another is about to point at. */
  ghost predicate Clash(a: Mover, b: Mover) {
    a.frag == b.frag && a.WillRecord().Some? && a.WillRecord() == b.WillDrop()
  }

  /** A copy of `f` is at `loc`, or relocations in flight can bring one there in at most
      `n + 1` hops. */
  ghost predicate Fed(st: State, f: Frag, loc: Location, n: nat)
    decreases n
  {
    || (loc, f) in st.held
    || exists i :: i in st.movers && st.movers[i].WillStore(f, loc)
                   && (st.movers[i].NeedsSource() ==> n > 0 && Fed(st, f, st.movers[i].from, n - 1))
  }

  /** The relocation has its bytes or can still get them. */
  ghost predicate Able(st: State, m: Mover) {
    m.NeedsSource() ==> exists n :: Fed(st, m.frag, m.from, n)
  }

  /** No two relocations that can both go through clash over a shard that has a row. */
  ghost predicate Compatible(st: State) {
    forall i, j :: i in st.movers && j in st.movers && i != j && st.movers[i].frag in st.rows ==>
      Able(st, st.movers[i]) && Able(st, st.movers[j]) ==> !Clash(st.movers[i], st.movers[j])
  }

  ghost predicate MoverShape(st: State, m: Mover) {
    m.frag in st.minted && m.frag !in st.staged && (!m.Dropping? && m.drops ==> m.from != m.to)
  }

  /** What every step keeps, whoever moves what. */
  ghost predicate Shape(st: State) {
    && st.rows.Keys <= st.minted && st.staged <= st.minted && st.rows.Keys !! st.staged
    && (forall f :: f in st.staged ==> (Local, f) in st.held)
    && (forall f, loc :: (f, loc) in st.frees ==> f in st.minted && f !in st.rows && f !in st.staged)
    && (forall i :: i in st.movers ==> MoverShape(st, st.movers[i]))
  }

  /** A copy about to be recorded is there. */
  ghost predicate PlacedOk(st: State) {
    forall i :: i in st.movers && st.movers[i].Placed? && st.movers[i].frag in st.rows ==>
      (st.movers[i].to, st.movers[i].frag) in st.held
  }

  /** A copy about to be dropped is not the recorded one. */
  ghost predicate DropsOk(st: State) {
    forall i :: i in st.movers && st.movers[i].Dropping? && st.movers[i].frag in st.rows ==>
      st.rows[st.movers[i].frag] != st.movers[i].from
  }

  ghost predicate Inv(st: State) {
    Base(st) && Compatible(st)
  }

  /** A relocation may start when that creates no clash. */
  ghost predicate Admitted(st: State, s: Step) {
    s.Start? ==> Compatible(Next(st, s))
  }

  lemma {:induction false} FedMore(st: State, f: Frag, loc: Location, n: nat)
    requires Fed(st, f, loc, n)
    ensures Fed(st, f, loc, n + 1)
    decreases n
  {
    if (loc, f) !in st.held {
      var i :| i in st.movers && st.movers[i].WillStore(f, loc)
               && (st.movers[i].NeedsSource() ==> n > 0 && Fed(st, f, st.movers[i].from, n - 1));
      if st.movers[i].NeedsSource() {
        FedMore(st, f, st.movers[i].from, n - 1);
      }
    }
  }

  /** No step but a start brings a copy within reach that was out of reach before. */
  lemma {:induction false} FedBefore(st: State, s: Step, f: Frag, loc: Location, n: nat)
    requires Enabled(st, s) && !s.Start? && f in st.minted && Fed(Next(st, s), f, loc, n)
    ensures Fed(st, f, loc, n + 1)
    decreases n
  {
    var st' := Next(st, s);
    if (loc, f) in st'.held {
      if (loc, f) !in st.held {
        assert s.Store? && st.movers[s.id].WillStore(f, loc);
      }
    } else {
      var i :| i in st'.movers && st'.movers[i].WillStore(f, loc)
               && (st'.movers[i].NeedsSource() ==> n > 0 && Fed(st', f, st'.movers[i].from, n - 1));
      assert i in st.movers && st.movers[i].WillStore(f, loc);
      if st'.movers[i].NeedsSource() {
        FedBefore(st, s, f, st'.movers[i].from, n - 1);
      } else if st.movers[i].NeedsSource() {
        assert Fed(st, f, st.movers[i].from, 0);
        FedUpTo(st, f, st.movers[i].from, 0, n);
      }
    }
  }

  lemma {:induction false} FedUpTo(st: State, f: Frag, loc: Location, n: nat, m: nat)
    requires Fed(st, f, loc, n) && n <= m
    ensures Fed(st, f, loc, m)
  {
    if n < m {
      FedUpTo(st, f, loc, n, m - 1);
      FedMore(st, f, loc, m - 1);
    }
  }

  lemma AbleBefore(st: State, s: Step, i: nat)
    requires Shape(st) && Enabled(st, s) && !s.Start? && i in st.movers && i in Next(st, s).movers
    requires Able(Next(st, s), Next(st, s).movers[i])
    ensures Able(st, st.movers[i])
  {
    var m, m' := st.movers[i], Next(st, s).movers[i];
    if m.NeedsSource() {
      if m'.NeedsSource() {
        var n :| Fed(Next(st, s), m.frag, m.from, n);
        assert MoverShape(st, m);
        FedBefore(st, s, m.frag, m.from, n);
      } else {
        assert Fed(st, m.frag, m.from, 0);
      }
    }
  }

  /** Clashes do not appear by themselves. */
  lemma CompatibleStep(st: State, s: Step)
    requires Shape(st) && Compatible(st) && Enabled(st, s) && !s.Start?
    ensures Compatible(Next(st, s))
  {
    var n := Next(st, s);
    forall i, j | i in n.movers && j in n.movers && i != j && n.movers[i].frag in n.rows
                  && Able(n, n.movers[i]) && Able(n, n.movers[j])
      ensures !Clash(n.movers[i], n.movers[j])
    {
      AbleBefore(st, s, i);
      AbleBefore(st, s, j);
      RowsOfMovers(st, s, i);
    }
  }

  /** A relocated fragment never gets its row back once it has lost it. */
  lemma RowsOfMovers(st: State, s: Step, i: nat)
    requires Shape(st) && Enabled(st, s) && !s.Start? && i in st.movers && i in Next(st, s).movers
    requires Next(st, s).movers[i].frag in Next(st, s).rows
    ensures st.movers[i].frag in st.rows
  {
    assert MoverShape(st, st.movers[i]);
  }

  lemma InitInv()
    ensures Inv(Init())
  {
  }

  /** What does not depend on who clashes with whom. */
  ghost predicate Base(st: State) {
    Shape(st) && Safe(st) && PlacedOk(st) && DropsOk(st)
  }

  lemma ShapeStep(st: State, s: Step)
    requires Shape(st) && Enabled(st, s)
    ensures Shape(Next(st, s))
  {
    var n := Next(st, s);
    forall i | i in n.movers ensures MoverShape(n, n.movers[i]) {
      if i in st.movers {
        assert MoverShape(st, st.movers[i]);
      }
    }
    if s.Drop? {
      assert MoverShape(st, st.movers[s.id]);
    }
  }

  lemma StageKeeps(st: State, f: Frag)
    requires Base(st) && f !in st.minted
    ensures Base(Next(st, Stage(f)))
  {
  }

  lemma CommitKeeps(st: State, gone: set<Frag>, added: set<Frag>)
    requires Base(st) && Enabled(st, Commit(gone, added))
    ensures Base(Next(st, Commit(gone, added)))
  {
    var n := Next(st, Commit(gone, added));
    forall f | f in n.rows ensures (n.rows[f], f) in n.held && (f in added || (f in st.rows && n.rows[f] == st.rows[f])) {
    }
    forall f, loc | (f, loc) in n.frees ensures f in n.minted && f !in n.rows && f !in n.staged {
    }
  }

  lemma FreeKeeps(st: State, f: Frag, loc: Location)
    requires Base(st) && (f, loc) in st.frees
    ensures Base(Next(st, Free(f, loc)))
  {
  }

  lemma MoverKeeps(st: State, s: Step)
    requires Base(st) && Enabled(st, s) && (s.Start? || s.Fetch? || s.Store? || s.Stop? || s.Crash?)
    ensures Base(Next(st, s))
  {
  }

  /** Recording a location: the copy is there, and nobody able is about to drop it. */
  lemma RecordKeeps(st: State, id: nat)
    requires Base(st) && Compatible(st) && Enabled(st, Record(id))
    ensures Base(Next(st, Record(id)))
  {
    var n, m := Next(st, Record(id)), st.movers[id];
    assert MoverShape(st, m);
    ShapeStep(st, Record(id));
    forall i | i in n.movers && n.movers[i].Dropping? && n.movers[i].frag in n.rows
      ensures n.rows[n.movers[i].frag] != n.movers[i].from
    {
      if i != id {
        assert !(m.frag in st.rows && Clash(m, st.movers[i]));
      }
    }
  }

  /** Dropping a copy: the row points elsewhere, and nobody able is about to point here. */
  lemma DropKeeps(st: State, id: nat)
    requires Base(st) && Compatible(st) && Enabled(st, Drop(id))
    ensures Base(Next(st, Drop(id)))
  {
    var n, m := Next(st, Drop(id)), st.movers[id];
    ShapeStep(st, Drop(id));
    forall i | i in n.movers && n.movers[i].Placed? && n.movers[i].frag in n.rows
      ensures (n.movers[i].to, n.movers[i].frag) in n.held
    {
      assert !(st.movers[i].frag in st.rows && st.movers[i].Placed? && Clash(st.movers[i], m));
    }
    assert MoverShape(st, m);
  }

  lemma StepKeeps(st: State, s: Step)
    requires Inv(st) && Enabled(st, s) && Admitted(st, s)
    ensures Inv(Next(st, s))
  {
    if !s.Start? {
      CompatibleStep(st, s);
    }
    match s
    case Stage(f) => StageKeeps(st, f);
    case Commit(gone, added) => CommitKeeps(st, gone, added);
    case Free(f, loc) => FreeKeeps(st, f, loc);
    case Record(id) => RecordKeeps(st, id);
    case Drop(id) => DropKeeps(st, id);
    case _ => MoverKeeps(st, s);
  }

  // ── Runs ───────────────────────────────────────────────────────────────────

  function Run(st: State, steps: seq<Step>): State
    decreases |steps|
  {
    if steps == [] then st else Run(Next(st, steps[0]), steps[1..])
  }

  ghost predicate Runnable(st: State, steps: seq<Step>)
    decreases |steps|
  {
    steps == [] || (Enabled(st, steps[0]) && Runnable(Next(st, steps[0]), steps[1..]))
  }

  ghost predicate Disciplined(st: State, steps: seq<Step>)
    decreases |steps|
  {
    steps == [] || (Admitted(st, steps[0]) && Disciplined(Next(st, steps[0]), steps[1..]))
  }

  lemma {:induction false} RunKeeps(st: State, steps: seq<Step>)
    requires Inv(st) && Runnable(st, steps) && Disciplined(st, steps)
    ensures Inv(Run(st, steps))
    decreases |steps|
  {
    if steps != [] {
      StepKeeps(st, steps[0]);
      RunKeeps(Next(st, steps[0]), steps[1..]);
    }
  }

  /** At every point of every interleaving in which no two relocations clash, whatever
      crashed on the way: each row's bytes are where it says, and nothing queued for
      freeing is needed by a row. */
  lemma EveryCrashPointSafe(steps: seq<Step>, n: nat)
    requires Runnable(Init(), steps) && Disciplined(Init(), steps) && n <= |steps|
    ensures Safe(Run(Init(), steps[..n]))
    ensures forall f, loc :: (f, loc) in Run(Init(), steps[..n]).frees ==> f !in Run(Init(), steps[..n]).rows
  {
    InitInv();
    PrefixRuns(Init(), steps, n);
    RunKeeps(Init(), steps[..n]);
  }

  lemma {:induction false} PrefixRuns(st: State, steps: seq<Step>, n: nat)
    requires Runnable(st, steps) && Disciplined(st, steps) && n <= |steps|
    ensures Runnable(st, steps[..n]) && Disciplined(st, steps[..n])
    decreases n
  {
    if n > 0 {
      PrefixRuns(Next(st, steps[0]), steps[1..], n - 1);
      assert steps[..n][1..] == steps[1..][..n - 1];
    }
  }

  // ── Copies nobody knows of ─────────────────────────────────────────────────

  /** A relocation other than `i` knows of this copy: it will delete it, or record it. */
  ghost predicate MoverKnows(st: State, loc: Location, f: Frag, i: Option<nat>) {
    exists j :: j in st.movers && i != Some(j) && st.movers[j].frag == f
                && (st.movers[j].WillDrop() == Some(loc) || (st.movers[j].Placed? && st.movers[j].to == loc))
  }

  /** Somebody knows of this copy, a row and the relocation `i` left aside: it is staged,
      queued for deletion, or another relocation's. */
  ghost predicate KnownBeside(st: State, loc: Location, f: Frag, i: Option<nat>) {
    (f in st.staged && loc == Local) || (f, loc) in st.frees || MoverKnows(st, loc, f, i)
  }

  ghost predicate Known(st: State, loc: Location, f: Frag) {
    (f in st.rows && st.rows[f] == loc) || KnownBeside(st, loc, f, None)
  }

  /** Every copy on a disk is somebody's. */
  ghost predicate NoStrays(st: State) {
    forall loc, f :: (loc, f) in st.held ==> Known(st, loc, f)
  }

  /** Recording leaves no stray: the row is still there, and the copy it pointed at is the
      same, is not there, is the one this relocation deletes, or is known otherwise. */
  ghost predicate RecordsTidily(st: State, i: nat)
    requires Enabled(st, Record(i))
  {
    var m := st.movers[i];
    && (m.frag in st.rows || (m.to, m.frag) !in st.held || (m.drops && m.from == m.to) || KnownBeside(st, m.to, m.frag, Some(i)))
    && (m.frag in st.rows ==>
          var was := st.rows[m.frag];
          || was == m.to || (was, m.frag) !in st.held || (m.drops && m.from == was) || KnownBeside(st, was, m.frag, Some(i)))
  }

  /** A commit queues for deletion exactly the recorded copies of the rows it removes. */
  lemma CommitQueues(st: State, gone: set<Frag>, added: set<Frag>)
    requires Enabled(st, Commit(gone, added))
    ensures forall f :: f in gone ==> (f, st.rows[f]) in Next(st, Commit(gone, added)).frees
    ensures forall f, loc :: (f, loc) in Next(st, Commit(gone, added)).frees ==>
              (f, loc) in st.frees || (f in gone && st.rows[f] == loc)
  {
  }

  lemma CommitLeavesNoStrays(st: State, gone: set<Frag>, added: set<Frag>)
    requires NoStrays(st) && Enabled(st, Commit(gone, added)) && Shape(st)
    ensures NoStrays(Next(st, Commit(gone, added)))
  {
    var n := Next(st, Commit(gone, added));
    forall loc, f | (loc, f) in n.held ensures Known(n, loc, f) {
      assert Known(st, loc, f);
      if MoverKnows(st, loc, f, None) {
        assert MoverKnows(n, loc, f, None);
      }
    }
  }

  lemma MoverStepLeavesNoStrays(st: State, s: Step)
    requires NoStrays(st) && Enabled(st, s) && (s.Start? || s.Fetch? || s.Store? || s.Drop?)
    ensures NoStrays(Next(st, s))
  {
    var n := Next(st, s);
    forall loc, f | (loc, f) in n.held ensures Known(n, loc, f) {
      if (loc, f) !in st.held {
        assert n.movers[s.id].Placed? && n.movers[s.id].to == loc;
        assert MoverKnows(n, loc, f, None);
      } else {
        assert Known(st, loc, f);
        if MoverKnows(st, loc, f, None) {
          var j :| j in st.movers && st.movers[j].frag == f
                   && (st.movers[j].WillDrop() == Some(loc) || (st.movers[j].Placed? && st.movers[j].to == loc));
          assert j in n.movers && n.movers[j].frag == f;
          assert MoverKnows(n, loc, f, None);
        }
      }
    }
  }

  lemma KnownAfterRecord(st: State, i: nat, loc: Location, f: Frag)
    requires Enabled(st, Record(i))
    ensures var m := st.movers[i]; var n := Next(st, Record(i));
      MoverKnows(n, loc, f, None) <==> MoverKnows(st, loc, f, Some(i)) || (m.drops && m.frag == f && m.from == loc)
  {
    var m, n := st.movers[i], Next(st, Record(i));
    if MoverKnows(n, loc, f, None) {
      var j :| j in n.movers && n.movers[j].frag == f
               && (n.movers[j].WillDrop() == Some(loc) || (n.movers[j].Placed? && n.movers[j].to == loc));
      assert j != i ==> st.movers[j] == n.movers[j];
    }
    if MoverKnows(st, loc, f, Some(i)) {
      var j :| j in st.movers && Some(i) != Some(j) && st.movers[j].frag == f
               && (st.movers[j].WillDrop() == Some(loc) || (st.movers[j].Placed? && st.movers[j].to == loc));
      assert n.movers[j] == st.movers[j];
    }
    if m.drops && m.frag == f && m.from == loc {
      assert n.movers[i] == Dropping(f, loc);
    }
  }

  lemma RecordIff(st: State, i: nat)
    requires NoStrays(st) && Enabled(st, Record(i))
    ensures NoStrays(Next(st, Record(i))) <==> RecordsTidily(st, i)
  {
    var m, n := st.movers[i], Next(st, Record(i));
    KnownAfterRecord(st, i, m.to, m.frag);
    if m.frag in st.rows {
      KnownAfterRecord(st, i, st.rows[m.frag], m.frag);
    }
    if RecordsTidily(st, i) {
      forall loc, f | (loc, f) in n.held ensures Known(n, loc, f) {
        KnownAfterRecord(st, i, loc, f);
        assert Known(st, loc, f);
        if f != m.frag && MoverKnows(st, loc, f, None) {
          assert MoverKnows(st, loc, f, Some(i));
        }
        if f == m.frag && MoverKnows(st, loc, f, None) && !MoverKnows(st, loc, f, Some(i)) {
          assert m.WillDrop() == Some(loc) || m.to == loc;
        }
      }
    }
  }

  /** As long as nothing crashes or stops half-way, a step leaves a copy that nobody knows of
      if and only if it records untidily. */
  lemma StepStraysIff(st: State, s: Step)
    requires NoStrays(st) && Shape(st) && Enabled(st, s) && !s.Crash? && !s.Stop?
    ensures NoStrays(Next(st, s)) <==> (s.Record? ==> RecordsTidily(st, s.id))
  {
    match s
    case Stage(f) => StageLeavesNoStrays(st, f);
    case Commit(gone, added) => CommitLeavesNoStrays(st, gone, added);
    case Free(f, loc) => FreeLeavesNoStrays(st, f, loc);
    case Record(i) => RecordIff(st, i);
    case _ => MoverStepLeavesNoStrays(st, s);
  }

  lemma StageLeavesNoStrays(st: State, f: Frag)
    requires NoStrays(st) && Enabled(st, Stage(f))
    ensures NoStrays(Next(st, Stage(f)))
  {
    var n := Next(st, Stage(f));
    forall loc, g | (loc, g) in n.held ensures Known(n, loc, g) {
      assert (loc, g) in st.held ==> Known(st, loc, g);
      if MoverKnows(st, loc, g, None) {
        assert MoverKnows(n, loc, g, None);
      }
    }
  }

  lemma FreeLeavesNoStrays(st: State, f: Frag, at: Location)
    requires NoStrays(st) && Enabled(st, Free(f, at))
    ensures NoStrays(Next(st, Free(f, at)))
  {
    var n := Next(st, Free(f, at));
    forall loc, g | (loc, g) in n.held ensures Known(n, loc, g) {
      assert Known(st, loc, g);
      if MoverKnows(st, loc, g, None) {
        assert MoverKnows(n, loc, g, None);
      }
    }
  }

  /** Nothing is recorded, staged, queued or under way, and yet there is a copy. */
  ghost predicate Stranded(st: State) {
    st.rows == map[] && st.staged == {} && st.frees == {} && st.movers == map[] && st.held != {}
  }

  /** Some run without crash or stop from `st` ends that way. */
  ghost predicate CanStrand(st: State) {
    exists steps :: Runnable(st, steps) && Calm(steps) && Stranded(Run(st, steps))
  }

  ghost predicate Calm(steps: seq<Step>) {
    forall k :: 0 <= k < |steps| ==> !steps[k].Crash? && !steps[k].Stop?
  }

  lemma StrandLater(st: State, s: Step, n: State)
    requires Enabled(st, s) && n == Next(st, s) && !s.Crash? && !s.Stop? && CanStrand(n)
    ensures CanStrand(st)
  {
    var rest :| Runnable(n, rest) && Calm(rest) && Stranded(Run(n, rest));
    var steps := [s] + rest;
    assert steps[1..] == rest;
    assert Runnable(st, steps) && Run(st, steps) == Run(n, rest);
  }

  /** A shard whose row has gone while its relocation was under way. */
  lemma PurgedUnderway(f: Frag, p: nat)
    ensures CanStrand(State(map[], {(Local, f), (Peer(p), f)}, {f}, {}, {(f, Local)}, map[0 := Placed(f, Local, Peer(p), true)]))
  {
    var s0 := State(map[], {(Local, f), (Peer(p), f)}, {f}, {}, {(f, Local)}, map[0 := Placed(f, Local, Peer(p), true)]);
    var s1 := State(map[], {(Local, f), (Peer(p), f)}, {f}, {}, {(f, Local)}, map[0 := Dropping(f, Local)]);
    var s2 := State(map[], {(Peer(p), f)}, {f}, {}, {(f, Local)}, map[]);
    var s3 := State(map[], {(Peer(p), f)}, {f}, {}, {}, map[]);
    assert Runnable(s3, []) && Calm([]) && Stranded(Run(s3, [])) by {
      assert (Peer(p), f) in s3.held;
    }
    StrandLater(s2, Free(f, Local), s3);
    StrandLater(s1, Drop(0), s2);
    StrandLater(s0, Record(0), s1);
  }

  lemma PurgedOnceStored(f: Frag, p: nat)
    ensures CanStrand(OneShard(f, Local, {Local, Peer(p)}, map[0 := Placed(f, Local, Peer(p), true)]))
  {
    var m := Placed(f, Local, Peer(p), true);
    var s1 := OneShard(f, Local, {Local, Peer(p)}, map[0 := m]);
    var s2 := State(map[], {(Local, f), (Peer(p), f)}, {f}, {}, {(f, Local)}, map[0 := m]);
    PurgedUnderway(f, p);
    assert Next(s1, Commit({f}, {})) == s2;
    StrandLater(s1, Commit({f}, {}), s2);
  }

  lemma PlacedThenPurged(f: Frag, p: nat)
    ensures CanStrand(OneShard(f, Local, {Local}, map[0 := Fetched(f, Local, Peer(p), true)]))
  {
    PurgedOnceStored(f, p);
    StrandLater(OneShard(f, Local, {Local}, map[0 := Fetched(f, Local, Peer(p), true)]), Store(0),
                OneShard(f, Local, {Local, Peer(p)}, map[0 := Placed(f, Local, Peer(p), true)]));
  }

  lemma SentThenPurged(f: Frag, p: nat)
    ensures CanStrand(OneShard(f, Local, {Local}, map[]))
  {
    var out := Planned(f, Local, Peer(p), true);
    PlacedThenPurged(f, p);
    StrandLater(OneShard(f, Local, {Local}, map[0 := out]), Fetch(0),
                OneShard(f, Local, {Local}, map[0 := Fetched(f, Local, Peer(p), true)]));
    StrandLater(OneShard(f, Local, {Local}, map[]), Start(0, out), OneShard(f, Local, {Local}, map[0 := out]));
  }

  /** A file purged while a shard of it is on its way to a peer: the peer keeps its copy, and
      no row, queue or relocation knows of it any more. */
  lemma PurgeStrandsCopy(f: Frag, p: nat)
    ensures CanStrand(Init())
  {
    var staged := Next(Init(), Stage(f));
    SentThenPurged(f, p);
    StrandLater(staged, Commit({}, {f}), OneShard(f, Local, {Local}, map[]));
    StrandLater(Init(), Stage(f), staged);
  }

  // ── A discipline that suffices ─────────────────────────────────────────────

  /** No two relocations in flight clash at all. */
  ghost predicate Separate(st: State) {
    forall i, j :: i in st.movers && j in st.movers && i != j ==> !Clash(st.movers[i], st.movers[j])
  }

  /** A relocation starts only while it clashes with none in flight; keeping to one
      relocation per fragment at a time is a special case. */
  ghost predicate Careful(st: State, steps: seq<Step>)
    decreases |steps|
  {
    steps == [] || (CarefulStep(st, steps[0]) && Careful(Next(st, steps[0]), steps[1..]))
  }

  ghost predicate CarefulStep(st: State, s: Step) {
    s.Start? ==> forall j :: j in st.movers ==> !Clash(s.mover, st.movers[j]) && !Clash(st.movers[j], s.mover)
  }

  lemma SeparateStep(st: State, s: Step)
    requires Separate(st) && Enabled(st, s) && CarefulStep(st, s)
    ensures Separate(Next(st, s))
  {
  }

  lemma {:induction false} CarefulIsDisciplined(st: State, steps: seq<Step>)
    requires Separate(st) && Runnable(st, steps) && Careful(st, steps)
    ensures Disciplined(st, steps)
    decreases |steps|
  {
    if steps != [] {
      SeparateStep(st, steps[0]);
      CarefulIsDisciplined(Next(st, steps[0]), steps[1..]);
    }
  }

  // ── Clashing relocations ───────────────────────────────────────────────────

  ghost predicate NoStart(steps: seq<Step>) {
    forall k :: 0 <= k < |steps| ==> !steps[k].Start?
  }

  /** Whatever the operations in flight do next, in whatever order, no row loses its
      bytes. */
  ghost predicate Robust(st: State) {
    forall steps :: NoStart(steps) && Runnable(st, steps) ==> Safe(Run(st, steps))
  }

  ghost predicate Continues(st: State, steps: seq<Step>) {
    NoStart(steps) && Runnable(st, steps)
  }

  lemma ContinueOne(st: State, s: Step)
    requires Enabled(st, s) && !s.Start?
    ensures Continues(st, [s]) && Run(st, [s]) == Next(st, s)
  {
    assert [s][1..] == [];
    assert Run(Next(st, s), []) == Next(st, s);
  }

  lemma {:induction false} ContinueJoin(st: State, a: seq<Step>, b: seq<Step>)
    requires Continues(st, a) && Continues(Run(st, a), b)
    ensures Continues(st, a + b) && Run(st, a + b) == Run(Run(st, a), b)
    decreases |a|
  {
    if a == [] {
      assert a + b == b;
    } else {
      ContinueJoin(Next(st, a[0]), a[1..], b);
      assert (a + b)[1..] == a[1..] + b;
    }
  }

  /** `b` is the relocation `a`, possibly with its bytes fetched or stored meanwhile. */
  ghost predicate Forward(a: Mover, b: Mover, held: set<(Location, Frag)>) {
    || a == b
    || (&& (a.Planned? || a.Fetched?) && (b.Fetched? || b.Placed?)
        && b.frag == a.frag && b.from == a.from && b.to == a.to && b.drops == a.drops
        && (b.Placed? ==> (b.to, b.frag) in held))
  }

  /** Relocations only fetched and stored: no row changed and no copy went. */
  ghost predicate Advances(st: State, n: State) {
    && n.rows == st.rows && st.held <= n.held && n.movers.Keys == st.movers.Keys
    && forall i :: i in st.movers ==> Forward(st.movers[i], n.movers[i], n.held)
  }

  lemma AdvancesTwice(a: State, b: State, c: State)
    requires Advances(a, b) && Advances(b, c)
    ensures Advances(a, c)
  {
    forall i | i in a.movers ensures Forward(a.movers[i], c.movers[i], c.held) {
      assert Forward(a.movers[i], b.movers[i], b.held) && Forward(b.movers[i], c.movers[i], c.held);
    }
  }

  /** A ready relocation can store its copy. */
  lemma Deliver(st: State, i: nat) returns (steps: seq<Step>)
    requires i in st.movers && (st.movers[i].Planned? || st.movers[i].Fetched?) && Ready(st, st.movers[i])
    ensures Continues(st, steps) && Advances(st, Run(st, steps))
    ensures (st.movers[i].to, st.movers[i].frag) in Run(st, steps).held
  {
    var n := Next(st, Fetch(i));
    var from := if st.movers[i].Planned? then n else st;
    ContinueOne(from, Store(i));
    steps := [Store(i)];
    if st.movers[i].Planned? {
      ContinueOne(st, Fetch(i));
      ContinueJoin(st, [Fetch(i)], [Store(i)]);
      steps := [Fetch(i)] + [Store(i)];
    }
  }

  /** A copy within reach can be brought there without touching anything else. */
  lemma {:induction false} Feed(st: State, f: Frag, loc: Location, n: nat) returns (steps: seq<Step>)
    requires Fed(st, f, loc, n)
    ensures Continues(st, steps) && Advances(st, Run(st, steps)) && (loc, f) in Run(st, steps).held
    decreases n
  {
    steps := [];
    if (loc, f) !in st.held {
      var i :| i in st.movers && st.movers[i].WillStore(f, loc)
               && (st.movers[i].NeedsSource() ==> n > 0 && Fed(st, f, st.movers[i].from, n - 1));
      if st.movers[i].NeedsSource() {
        steps := Feed(st, f, st.movers[i].from, n - 1);
      }
      var mid := Run(st, steps);
      assert Forward(st.movers[i], mid.movers[i], mid.held);
      if !mid.movers[i].Placed? {
        var more := Deliver(mid, i);
        ContinueJoin(st, steps, more);
        AdvancesTwice(st, mid, Run(mid, more));
        steps := steps + more;
      }
    }
  }

  function Rank(m: Mover): nat {
    match m
    case Planned(_, _, _, _) => 3
    case Fetched(_, _, _, _) => 2
    case Placed(_, _, _, _) => 1
    case Dropping(_, _) => 0
  }

  /** Two clashing relocations that have their bytes can lose the shard: the one records the
      copy that the other then deletes. */
  lemma {:induction false} ReadyClashLoses(st: State, i: nat, j: nat) returns (steps: seq<Step>)
    requires i in st.movers && j in st.movers && i != j && st.movers[i].frag in st.rows
    requires Clash(st.movers[i], st.movers[j]) && Ready(st, st.movers[i]) && Ready(st, st.movers[j])
    ensures Continues(st, steps) && !Safe(Run(st, steps))
    decreases Rank(st.movers[i]) + Rank(st.movers[j])
  {
    var a, b := st.movers[i], st.movers[j];
    var s := if b.Planned? then Fetch(j) else if b.Fetched? then Store(j) else if b.Placed? then Record(j)
             else if a.Planned? then Fetch(i) else if a.Fetched? then Store(i) else Record(i);
    var n := Next(st, s);
    ContinueOne(st, s);
    var rest: seq<Step>;
    if s == Record(i) {
      rest := [Drop(j)];
      ContinueOne(n, Drop(j));
      var lost := Next(n, Drop(j));
      assert lost.rows[a.frag] == a.to && (a.to, a.frag) !in lost.held;
    } else {
      rest := ReadyClashLoses(n, i, j);
    }
    ContinueJoin(st, [s], rest);
    steps := [s] + rest;
  }

  lemma FeedMover(st: State, i: nat) returns (steps: seq<Step>)
    requires i in st.movers && Able(st, st.movers[i])
    ensures Continues(st, steps) && Advances(st, Run(st, steps)) && Ready(Run(st, steps), Run(st, steps).movers[i])
  {
    steps := [];
    var m := st.movers[i];
    if m.NeedsSource() {
      var n :| Fed(st, m.frag, m.from, n);
      steps := Feed(st, m.frag, m.from, n);
      assert Forward(m, Run(st, steps).movers[i], Run(st, steps).held);
    }
  }

  /** Fetching and storing keeps within reach what was. */
  lemma {:induction false} FedAfter(st: State, n: State, f: Frag, loc: Location, m: nat)
    requires Advances(st, n) && Fed(st, f, loc, m)
    ensures Fed(n, f, loc, m)
    decreases m
  {
    if (loc, f) !in n.held {
      var i :| i in st.movers && st.movers[i].WillStore(f, loc)
               && (st.movers[i].NeedsSource() ==> m > 0 && Fed(st, f, st.movers[i].from, m - 1));
      assert Forward(st.movers[i], n.movers[i], n.held);
      if n.movers[i].NeedsSource() {
        FedAfter(st, n, f, st.movers[i].from, m - 1);
      }
    }
  }

  lemma AbleAfter(st: State, n: State, i: nat)
    requires Advances(st, n) && i in st.movers && Able(st, st.movers[i])
    ensures Able(n, n.movers[i])
  {
    var m := st.movers[i];
    assert Forward(m, n.movers[i], n.held);
    if n.movers[i].NeedsSource() {
      var k :| Fed(st, m.frag, m.from, k);
      FedAfter(st, n, m.frag, m.from, k);
    }
  }

  lemma ReadyAfter(st: State, n: State, i: nat)
    requires Advances(st, n) && i in st.movers && Ready(st, st.movers[i])
    ensures Ready(n, n.movers[i])
  {
    assert Forward(st.movers[i], n.movers[i], n.held);
  }

  lemma ClashAfter(st: State, n: State, i: nat, j: nat)
    requires Advances(st, n) && i in st.movers && j in st.movers && Clash(st.movers[i], st.movers[j])
    ensures Clash(n.movers[i], n.movers[j]) && n.movers[i].frag == st.movers[i].frag
  {
    assert Forward(st.movers[i], n.movers[i], n.held) && Forward(st.movers[j], n.movers[j], n.held);
  }

  /** Two clashing relocations that can both go through have an order that loses the
      shard. */
  lemma ClashLoses(st: State, i: nat, j: nat) returns (steps: seq<Step>)
    requires i in st.movers && j in st.movers && i != j && st.movers[i].frag in st.rows
    requires Clash(st.movers[i], st.movers[j]) && Able(st, st.movers[i]) && Able(st, st.movers[j])
    ensures Continues(st, steps) && !Safe(Run(st, steps))
  {
    var first := FeedMover(st, i);
    var s1 := Run(st, first);
    AbleAfter(st, s1, j);
    var second := FeedMover(s1, j);
    var s2 := Run(s1, second);
    ReadyAfter(s1, s2, i);
    AdvancesTwice(st, s1, s2);
    ClashAfter(st, s2, i, j);
    var last := ReadyClashLoses(s2, i, j);
    ContinueJoin(s1, second, last);
    ContinueJoin(st, first, second + last);
    steps := first + (second + last);
  }

  lemma {:induction false} NoStartIsDisciplined(st: State, steps: seq<Step>)
    requires NoStart(steps)
    ensures Disciplined(st, steps)
    decreases |steps|
  {
    if steps != [] {
      NoStartIsDisciplined(Next(st, steps[0]), steps[1..]);
    }
  }

  /** A row without its bytes, a missing copy about to be recorded, or a recorded copy about
      to be dropped: at most one step from a loss. */
  lemma BrokenLoses(st: State) returns (steps: seq<Step>)
    requires !Safe(st) || !PlacedOk(st) || !DropsOk(st)
    ensures Continues(st, steps) && !Safe(Run(st, steps))
  {
    if !Safe(st) {
      steps := [];
    } else if !PlacedOk(st) {
      var i :| i in st.movers && st.movers[i].Placed? && st.movers[i].frag in st.rows
               && (st.movers[i].to, st.movers[i].frag) !in st.held;
      steps := [Record(i)];
      ContinueOne(st, Record(i));
      assert Next(st, Record(i)).rows[st.movers[i].frag] == st.movers[i].to;
    } else {
      var i :| i in st.movers && st.movers[i].Dropping? && st.movers[i].frag in st.rows
               && st.rows[st.movers[i].frag] == st.movers[i].from;
      steps := [Drop(i)];
      ContinueOne(st, Drop(i));
      assert st.movers[i].frag in Next(st, Drop(i)).rows;
    }
  }

  lemma InvIsRobust(st: State)
    requires Inv(st)
    ensures Robust(st)
  {
    forall steps | NoStart(steps) && Runnable(st, steps) ensures Safe(Run(st, steps)) {
      NoStartIsDisciplined(st, steps);
      RunKeeps(st, steps);
    }
  }

  /** A state survives every continuation exactly when its rows have their bytes, copies
      about to be recorded are there, copies about to be dropped are not the recorded ones,
      and no two relocations in flight that can both go through clash: one going to delete
      the copy the other is going to record. */
  lemma RobustIff(st: State)
    requires Shape(st)
    ensures Robust(st) <==> Safe(st) && PlacedOk(st) && DropsOk(st) && Compatible(st)
  {
    if Inv(st) {
      InvIsRobust(st);
    } else if !Safe(st) || !PlacedOk(st) || !DropsOk(st) {
      var steps := BrokenLoses(st);
      assert !Safe(Run(st, steps));
    } else {
      var i, j :| i in st.movers && j in st.movers && i != j && st.movers[i].frag in st.rows
                  && Able(st, st.movers[i]) && Able(st, st.movers[j]) && Clash(st.movers[i], st.movers[j]);
      var steps := ClashLoses(st, i, j);
      assert !Safe(Run(st, steps));
    }
  }

  lemma {:induction false} RunShape(st: State, steps: seq<Step>)
    requires Shape(st) && Runnable(st, steps)
    ensures Shape(Run(st, steps))
    decreases |steps|
  {
    if steps != [] {
      ShapeStep(st, steps[0]);
      RunShape(Next(st, steps[0]), steps[1..]);
    }
  }

  /** So it is decided for every reachable state, however recklessly relocations were
      started on the way. */
  lemma ReachedRobustIff(steps: seq<Step>)
    requires Runnable(Init(), steps)
    ensures Robust(Run(Init(), steps)) <==> Inv(Run(Init(), steps))
  {
    RunShape(Init(), steps);
    RobustIff(Run(Init(), steps));
  }

  /** A start leaves a state that survives everything exactly when it is admitted and nothing
      was broken before. */
  lemma AdmittedIff(st: State, id: nat, m: Mover)
    requires Shape(st) && Enabled(st, Start(id, m))
    ensures Robust(Next(st, Start(id, m))) <==> Base(st) && Admitted(st, Start(id, m))
  {
    var n := Next(st, Start(id, m));
    ShapeStep(st, Start(id, m));
    RobustIff(n);
    assert forall i :: i in st.movers ==> i in n.movers && n.movers[i] == st.movers[i];
  }

  // ── A run that loses a shard ───────────────────────────────────────────────

  /** Some run from `st` loses a shard. */
  ghost predicate CanLose(st: State) {
    exists steps :: Runnable(st, steps) && !Safe(Run(st, steps))
  }

  lemma LoseLater(st: State, s: Step, n: State)
    requires Enabled(st, s) && n == Next(st, s) && CanLose(n)
    ensures CanLose(st)
  {
    var rest :| Runnable(n, rest) && !Safe(Run(n, rest));
    var steps := [s] + rest;
    assert steps[1..] == rest;
    assert Runnable(st, steps) && Run(st, steps) == Run(n, rest);
  }

  /** One shard, alone in the world. */
  function OneShard(f: Frag, at: Location, copies: set<Location>, movers: map<nat, Mover>): State {
    State(map[f := at], set l | l in copies :: (l, f), {f}, {}, {}, movers)
  }

  /** A rebalance starts bringing the shard home while the distribution still has the
      local copy to delete. */
  lemma BroughtBack(f: Frag, p: nat)
    ensures CanLose(OneShard(f, Peer(p), {Local, Peer(p)}, map[0 := Dropping(f, Local)]))
  {
    var st := OneShard(f, Peer(p), {Local, Peer(p)}, map[0 := Dropping(f, Local)]);
    var back := Planned(f, Peer(p), Local, true);
    var n := Next(st, Start(1, back));
    assert Fed(n, f, Peer(p), 0);
    var rest := ClashLoses(n, 1, 0);
    LoseLater(st, Start(1, back), n);
  }

  lemma JustPlaced(f: Frag, p: nat)
    ensures CanLose(OneShard(f, Local, {Local, Peer(p)}, map[0 := Placed(f, Local, Peer(p), true)]))
  {
    BroughtBack(f, p);
    LoseLater(OneShard(f, Local, {Local, Peer(p)}, map[0 := Placed(f, Local, Peer(p), true)]), Record(0),
              OneShard(f, Peer(p), {Local, Peer(p)}, map[0 := Dropping(f, Local)]));
  }

  lemma JustFetched(f: Frag, p: nat)
    ensures CanLose(OneShard(f, Local, {Local}, map[0 := Fetched(f, Local, Peer(p), true)]))
  {
    JustPlaced(f, p);
    LoseLater(OneShard(f, Local, {Local}, map[0 := Fetched(f, Local, Peer(p), true)]), Store(0),
              OneShard(f, Local, {Local, Peer(p)}, map[0 := Placed(f, Local, Peer(p), true)]));
  }

  lemma SentOut(f: Frag, p: nat)
    ensures CanLose(OneShard(f, Local, {Local}, map[]))
  {
    var out := Planned(f, Local, Peer(p), true);
    var started := OneShard(f, Local, {Local}, map[0 := out]);
    JustFetched(f, p);
    LoseLater(started, Fetch(0), OneShard(f, Local, {Local}, map[0 := Fetched(f, Local, Peer(p), true)]));
    LoseLater(OneShard(f, Local, {Local}, map[]), Start(0, out), started);
  }

  /** How it can happen: an upload's distribution has recorded peer `p` and is about to
      delete the local copy when a rebalance brings the shard back home. */
  lemma DistributionAgainstRebalance(f: Frag, p: nat)
    ensures CanLose(Init())
  {
    var staged := Next(Init(), Stage(f));
    SentOut(f, p);
    LoseLater(staged, Commit({}, {f}), OneShard(f, Local, {Local}, map[]));
    LoseLater(Init(), Stage(f), staged);
  }
}
