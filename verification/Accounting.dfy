/**
  Quota and storage accounting (handlers/files.rs, service.rs): the two running counters
  against the rows they summarise, under every interleaving of the handlers' separate
  statements.

  A handler's statements are steps of their own.  An upload charges the account, pushes,
  then adds its cost to the node.  Emptying the trash and the retention sweep drop rows in
  one transaction, then credit the accounts, then the node.  A single purge looks its row
  up, deletes it in a later statement without asking whether it was still there, then
  credits what it had looked up.  Packing and compaction move stored bytes and touch no
  account.  An amount between two statements of one handler is in flight.
 */
module Accounting {
  import opened Sums

  type User = nat
  type FileId = nat
  type Op = nat

  datatype Row = Row(user: User, size: nat, stored: nat, isPack: bool)

  /** An amount of one account's bytes. */
  datatype Bill = Bill(user: User, size: nat)

  /** What a purge remembers between its two statements. */
  datatype Look = Look(file: FileId, row: Row)

  /**
    Beside the tables and counters, what went wrong so far: `over` is what accounts are
    credited for rows that were already gone, `swallowed` and `drift` what the clamps at
    zero kept from the accounts and from the node, `missed` what purges subtract from the
    node beyond the storage they freed.
   */
  datatype State = State(
    rows: map<FileId, Row>,
    minted: set<FileId>,
    used: map<User, nat>,
    quota: map<User, nat>,
    charges: map<Op, Bill>,
    looks: map<Op, Look>,
    credits: map<(Op, User), Bill>,
    node: nat,
    deltas: map<Op, int>,
    over: map<User, nat>,
    swallowed: map<User, nat>,
    drift: nat,
    missed: int)

  datatype Step =
    | Charge(op: Op, bill: Bill)
    | Push(op: Op, file: FileId, stored: nat)
    | Refund(op: Op)
    | Remove(op: Op, gone: set<FileId>)
    | LookUp(op: Op, file: FileId)
    | Delete(op: Op)
    | Credit(op: Op, user: User)
    | Pack(op: Op, members: set<FileId>, pack: FileId, row: Row)
    | Compact(op: Op, dead: FileId, added: map<FileId, Row>)
    | Settle(op: Op)
    | RaiseQuota(user: User, quota: nat)

  // ── What the counters stand for ────────────────────────────────────────────

  function SizeOf(u: User): Row -> int {
    (r: Row) => if r.user == u && !r.isPack then r.size else 0
  }

  function StoredOf(): Row -> int {
    (r: Row) => r.stored
  }

  function BillOf(u: User): Bill -> int {
    (b: Bill) => if b.user == u then b.size else 0
  }

  function DeltaOf(): int -> int {
    (d: int) => d
  }

  /** What one account really uses: its rows, trash and versions included and packs
      excluded, plus what is charged or not yet credited. */
  ghost function Owed(st: State, u: User): int {
    Weigh(st.rows, SizeOf(u)) + Weigh(st.charges, BillOf(u)) + Weigh(st.credits, BillOf(u))
  }

  ghost function StoredBytes(st: State): int {
    Weigh(st.rows, StoredOf())
  }

  ghost function InFlight(st: State): int {
    Weigh(st.deltas, DeltaOf())
  }

  function Clamp(n: int): nat {
    if n < 0 then 0 else n
  }

  function Get(m: map<User, nat>, u: User): nat {
    if u in m then m[u] else 0
  }

  // ── Steps ──────────────────────────────────────────────────────────────────

  ghost predicate Charged(st: State, b: Bill) {
    b.user in st.used && b.user in st.quota && st.used[b.user] + b.size <= st.quota[b.user]
  }

  /** Subtract from an account's counter, not below zero. */
  function GiveBack(st: State, b: Bill): State {
    if b.user !in st.used then st
    else
      var left := st.used[b.user] - b.size;
      st.(used := st.used[b.user := Clamp(left)],
          swallowed := st.swallowed[b.user := Get(st.swallowed, b.user) + Clamp(-left)])
  }

  ghost function PackedRows(rows: map<FileId, Row>, members: set<FileId>): map<FileId, Row> {
    map f | f in rows :: if f in members then rows[f].(stored := 0) else rows[f]
  }

  ghost function Owners(rows: map<FileId, Row>, gone: set<FileId>): set<User> {
    set f | f in gone && f in rows :: rows[f].user
  }

  /** One credit per owner of the removed rows, for all that went of theirs. */
  ghost function Freed(rows: map<FileId, Row>, op: Op, gone: set<FileId>): map<(Op, User), Bill> {
    map u | u in Owners(rows, gone) :: (op, u) := Bill(u, Clamp(Weigh(Restrict(rows, gone), SizeOf(u))))
  }

  function StoredAt(rows: map<FileId, Row>, file: FileId): nat {
    if file in rows then rows[file].stored else 0
  }

  ghost predicate Enabled(st: State, s: Step) {
    match s
    case Charge(op, _) => op !in st.charges
    case Push(op, file, _) => op in st.charges && file !in st.minted && op !in st.deltas
    case Refund(op) => op in st.charges
    case Remove(op, gone) =>
      gone <= st.rows.Keys && (forall f :: f in gone ==> !st.rows[f].isPack) && op !in st.deltas && forall u :: (op, u) !in st.credits
    case LookUp(op, file) => op !in st.looks && file in st.rows && !st.rows[file].isPack
    case Delete(op) => op in st.looks && op !in st.deltas && (op, st.looks[op].row.user) !in st.credits
    case Credit(op, u) => (op, u) in st.credits
    case Pack(op, members, pack, row) =>
      members <= st.rows.Keys && pack !in st.minted && row.isPack && row.user in st.used && op !in st.deltas
    case Compact(op, dead, added) =>
      && dead in st.rows && st.rows[dead].isPack && added.Keys !! st.minted && op !in st.deltas
      && (forall f :: f in added ==> added[f].isPack && added[f].user in st.used)
    case Settle(op) => op in st.deltas
    case RaiseQuota(u, q) => u in st.quota ==> st.quota[u] <= q
  }

  /** What a step tells the node to add to its counter. */
  ghost function Reported(st: State, s: Step): int
    requires Enabled(st, s)
  {
    match s
    case Push(_, _, stored) => stored
    case Remove(_, gone) => -Weigh(Restrict(st.rows, gone), StoredOf())
    case Delete(op) => 0 - st.looks[op].row.stored
    case Pack(_, members, _, row) => row.stored - Weigh(Restrict(st.rows, members), StoredOf())
    case Compact(_, dead, added) => Weigh(added, StoredOf()) - st.rows[dead].stored
    case _ => 0
  }

  ghost function Next(st: State, s: Step): State
    requires Enabled(st, s)
  {
    match s
    case Charge(op, b) =>
      if Charged(st, b) then st.(used := st.used[b.user := st.used[b.user] + b.size], charges := st.charges[op := b]) else st
    case Push(op, file, stored) =>
      var b := st.charges[op];
      st.(rows := st.rows[file := Row(b.user, b.size, stored, false)], minted := st.minted + {file},
          charges := st.charges - {op}, deltas := st.deltas[op := Reported(st, s)])
    case Refund(op) => GiveBack(st, st.charges[op]).(charges := st.charges - {op})
    case Remove(op, gone) =>
      st.(rows := st.rows - gone, credits := st.credits + Freed(st.rows, op, gone), deltas := st.deltas[op := Reported(st, s)])
    case LookUp(op, file) => st.(looks := st.looks[op := Look(file, st.rows[file])])
    case Delete(op) =>
      var l := st.looks[op];
      var u := l.row.user;
      st.(rows := st.rows - {l.file}, looks := st.looks - {op},
          credits := st.credits[(op, u) := Bill(u, l.row.size)], deltas := st.deltas[op := Reported(st, s)],
          over := if l.file in st.rows then st.over else st.over[u := Get(st.over, u) + l.row.size],
          missed := st.missed + l.row.stored - StoredAt(st.rows, l.file))
    case Credit(op, u) => GiveBack(st, st.credits[(op, u)]).(credits := st.credits - {(op, u)})
    case Pack(op, members, pack, row) =>
      st.(rows := PackedRows(st.rows, members)[pack := row], minted := st.minted + {pack}, deltas := st.deltas[op := Reported(st, s)])
    case Compact(op, dead, added) =>
      st.(rows := (st.rows - {dead}) + added, minted := st.minted + added.Keys, deltas := st.deltas[op := Reported(st, s)])
    case Settle(op) =>
      var n := st.node + st.deltas[op];
      st.(node := Clamp(n), deltas := st.deltas - {op}, drift := st.drift + Clamp(-n))
    case RaiseQuota(u, q) =>
      st.(quota := st.quota[u := q], used := if u in st.used then st.used else st.used[u := 0])
  }

  // ── Invariants ─────────────────────────────────────────────────────────────

  ghost predicate UsersKnown(st: State) {
    && (forall f :: f in st.rows ==> st.rows[f].user in st.used)
    && (forall o :: o in st.charges ==> st.charges[o].user in st.used)
    && (forall o :: o in st.credits ==> st.credits[o].user in st.used)
    && (forall o :: o in st.looks ==> st.looks[o].row.user in st.used)
    && (forall u :: u !in st.used ==> Get(st.over, u) == 0 && Get(st.swallowed, u) == 0)
  }

  /** A remembered row is still what its id stands for, except that packing may have taken
      its storage and removal the row itself. */
  ghost predicate LookOk(st: State, l: Look) {
    && !l.row.isPack && l.file in st.minted
    && (l.file in st.rows ==>
          var now := st.rows[l.file];
          now.user == l.row.user && now.size == l.row.size && !now.isPack && (now.stored == l.row.stored || now.stored == 0))
  }

  ghost predicate LooksOk(st: State) {
    st.rows.Keys <= st.minted && forall o :: o in st.looks ==> LookOk(st, st.looks[o])
  }

  /** An account's counter is what it owes, less what it was credited twice, plus what the
      clamp kept of that. */
  ghost predicate AccountsLaw(st: State) {
    forall u :: u in st.used ==>
      st.used[u] == Owed(st, u) - Get(st.over, u) + Get(st.swallowed, u) && Get(st.swallowed, u) <= Get(st.over, u)
  }

  ghost predicate WithinQuota(st: State) {
    forall u :: u in st.used ==> u in st.quota && st.used[u] <= st.quota[u]
  }

  ghost predicate NodeLaw(st: State) {
    st.node + InFlight(st) == StoredBytes(st) + st.drift - st.missed && st.missed >= 0
  }

  ghost predicate Inv(st: State) {
    UsersKnown(st) && LooksOk(st) && AccountsLaw(st) && WithinQuota(st) && NodeLaw(st)
  }

  // ── What each step does to the sums ────────────────────────────────────────

  lemma RestrictNonNegative(rows: map<FileId, Row>, gone: set<FileId>, u: User)
    ensures Weigh(Restrict(rows, gone), SizeOf(u)) >= 0
  {
    WeighNonNegative(Restrict(rows, gone), SizeOf(u));
  }

  /** The credits of a removal are, account by account, the sizes of the removed rows. */
  lemma FreedWeighs(rows: map<FileId, Row>, op: Op, gone: set<FileId>, u: User)
    ensures Weigh(Freed(rows, op, gone), BillOf(u)) == Weigh(Restrict(rows, gone), SizeOf(u))
  {
    var freed := Freed(rows, op, gone);
    RestrictNonNegative(rows, gone, u);
    if u in Owners(rows, gone) {
      WeighRemove(freed, BillOf(u), (op, u));
      WeighZero(freed - {(op, u)}, BillOf(u));
    } else {
      WeighZero(freed, BillOf(u));
      forall f | f in Restrict(rows, gone) ensures SizeOf(u)(rows[f]) == 0 {
        assert rows[f].user in Owners(rows, gone);
      }
      WeighZero(Restrict(rows, gone), SizeOf(u));
    }
  }

  /** By how much a step changes what an account owes: a charge adds, giving back
      subtracts, a deletion that finds nothing adds a credit without a row, and everything
      else only moves amounts around. */
  ghost function OwedChange(st: State, s: Step, u: User): int
    requires Enabled(st, s)
  {
    match s
    case Charge(_, b) => if Charged(st, b) then BillOf(u)(b) else 0
    case Refund(op) => -BillOf(u)(st.charges[op])
    case Credit(op, w) => -BillOf(u)(st.credits[(op, w)])
    case Delete(op) => if st.looks[op].file in st.rows then 0 else BillOf(u)(Bill(st.looks[op].row.user, st.looks[op].row.size))
    case _ => 0
  }

  lemma RemoveOwed(st: State, op: Op, gone: set<FileId>, u: User)
    requires Enabled(st, Remove(op, gone))
    ensures Owed(Next(st, Remove(op, gone)), u) == Owed(st, u)
  {
    WeighSplit(st.rows, gone, SizeOf(u));
    FreedWeighs(st.rows, op, gone, u);
    WeighJoin(st.credits, Freed(st.rows, op, gone), BillOf(u));
  }

  lemma DeleteOwed(st: State, op: Op, u: User)
    requires LooksOk(st) && Enabled(st, Delete(op))
    ensures Owed(Next(st, Delete(op)), u) == Owed(st, u) + OwedChange(st, Delete(op), u)
  {
    var l := st.looks[op];
    assert LookOk(st, l);
    WeighInsert(st.credits, BillOf(u), (op, l.row.user), Bill(l.row.user, l.row.size));
    if l.file in st.rows {
      WeighRemove(st.rows, SizeOf(u), l.file);
    } else {
      assert st.rows - {l.file} == st.rows;
    }
  }

  lemma CompactOwed(rows: map<FileId, Row>, dead: FileId, added: map<FileId, Row>, u: User)
    requires dead in rows && rows[dead].isPack && added.Keys !! rows.Keys && forall f :: f in added ==> added[f].isPack
    ensures Weigh((rows - {dead}) + added, SizeOf(u)) == Weigh(rows, SizeOf(u))
  {
    WeighRemove(rows, SizeOf(u), dead);
    WeighJoin(rows - {dead}, added, SizeOf(u));
    WeighZero(added, SizeOf(u));
  }

  lemma PackOwed(rows: map<FileId, Row>, members: set<FileId>, pack: FileId, row: Row, u: User)
    requires pack !in rows && row.isPack
    ensures Weigh(PackedRows(rows, members)[pack := row], SizeOf(u)) == Weigh(rows, SizeOf(u))
  {
    WeighSame(rows, PackedRows(rows, members), SizeOf(u));
    WeighInsert(PackedRows(rows, members), SizeOf(u), pack, row);
  }

  lemma PushOwed(st: State, op: Op, file: FileId, stored: nat, u: User)
    requires LooksOk(st) && Enabled(st, Push(op, file, stored))
    ensures Owed(Next(st, Push(op, file, stored)), u) == Owed(st, u)
  {
    var b := st.charges[op];
    WeighRemove(st.charges, BillOf(u), op);
    WeighInsert(st.rows, SizeOf(u), file, Row(b.user, b.size, stored, false));
  }

  lemma ChargeOwed(st: State, op: Op, b: Bill, u: User)
    requires Enabled(st, Charge(op, b))
    ensures Owed(Next(st, Charge(op, b)), u) == Owed(st, u) + OwedChange(st, Charge(op, b), u)
  {
    WeighInsert(st.charges, BillOf(u), op, b);
  }

  lemma OwedMoves(st: State, s: Step, u: User)
    requires LooksOk(st) && Enabled(st, s)
    ensures Owed(Next(st, s), u) == Owed(st, u) + OwedChange(st, s, u)
  {
    match s
    case Charge(op, b) => ChargeOwed(st, op, b, u);
    case Push(op, file, stored) => PushOwed(st, op, file, stored, u);
    case Refund(op) => WeighRemove(st.charges, BillOf(u), op);
    case Remove(op, gone) => RemoveOwed(st, op, gone, u);
    case LookUp(_, _) =>
    case Delete(op) => DeleteOwed(st, op, u);
    case Credit(op, w) => WeighRemove(st.credits, BillOf(u), (op, w));
    case Pack(_, members, pack, row) => PackOwed(st.rows, members, pack, row, u);
    case Compact(_, dead, added) => CompactOwed(st.rows, dead, added, u);
    case Settle(_) =>
    case RaiseQuota(_, _) =>
  }

  lemma PackStored(rows: map<FileId, Row>, members: set<FileId>, pack: FileId, row: Row)
    requires pack !in rows
    ensures Weigh(PackedRows(rows, members)[pack := row], StoredOf())
         == Weigh(rows, StoredOf()) - Weigh(Restrict(rows, members), StoredOf()) + row.stored
  {
    var after := PackedRows(rows, members);
    WeighSplit(rows, members, StoredOf());
    WeighSplit(after, members, StoredOf());
    WeighZero(Restrict(after, members), StoredOf());
    assert after - members == rows - members;
    WeighInsert(after, StoredOf(), pack, row);
  }

  lemma CompactStored(rows: map<FileId, Row>, dead: FileId, added: map<FileId, Row>)
    requires dead in rows && added.Keys !! rows.Keys
    ensures Weigh((rows - {dead}) + added, StoredOf()) == Weigh(rows, StoredOf()) - rows[dead].stored + Weigh(added, StoredOf())
  {
    WeighRemove(rows, StoredOf(), dead);
    WeighJoin(rows - {dead}, added, StoredOf());
  }

  lemma DropStored(rows: map<FileId, Row>, file: FileId)
    ensures Weigh(rows - {file}, StoredOf()) == Weigh(rows, StoredOf()) - StoredAt(rows, file)
  {
    if file in rows {
      WeighRemove(rows, StoredOf(), file);
    } else {
      assert rows - {file} == rows;
    }
  }

  /** What a step reports is what it did to the stored bytes, except that a purge reports
      what it had looked up. */
  lemma StoredMoves(st: State, s: Step)
    requires LooksOk(st) && Enabled(st, s)
    ensures StoredBytes(Next(st, s)) == StoredBytes(st) + Reported(st, s) + (Next(st, s).missed - st.missed)
  {
    match s
    case Push(op, file, stored) =>
      WeighInsert(st.rows, StoredOf(), file, Row(st.charges[op].user, st.charges[op].size, stored, false));
    case Remove(_, gone) => WeighSplit(st.rows, gone, StoredOf());
    case Delete(op) => DropStored(st.rows, st.looks[op].file);
    case Pack(_, members, pack, row) => PackStored(st.rows, members, pack, row);
    case Compact(_, dead, added) => CompactStored(st.rows, dead, added);
    case _ =>
  }

  lemma FlightMoves(st: State, s: Step)
    requires Enabled(st, s)
    ensures InFlight(Next(st, s)) == InFlight(st) + Reported(st, s) - if s.Settle? then st.deltas[s.op] else 0
  {
    if s.Settle? {
      WeighRemove(st.deltas, DeltaOf(), s.op);
    } else if s.Push? || s.Remove? || s.Delete? || s.Pack? || s.Compact? {
      WeighInsert(st.deltas, DeltaOf(), s.op, Reported(st, s));
    }
  }

  // ── Every step keeps the laws ──────────────────────────────────────────────

  lemma GiveBackUsers(st: State, b: Bill)
    requires UsersKnown(st) && b.user in st.used
    ensures UsersKnown(GiveBack(st, b)) && GiveBack(st, b).used.Keys == st.used.Keys
  {
  }

  lemma RemoveUsers(st: State, op: Op, gone: set<FileId>)
    requires UsersKnown(st) && Enabled(st, Remove(op, gone))
    ensures UsersKnown(Next(st, Remove(op, gone)))
  {
  }

  lemma UsersStep(st: State, s: Step)
    requires UsersKnown(st) && Enabled(st, s)
    ensures UsersKnown(Next(st, s))
  {
    match s
    case Refund(op) => GiveBackUsers(st, st.charges[op]);
    case Credit(op, u) => GiveBackUsers(st, st.credits[(op, u)]);
    case Remove(op, gone) => RemoveUsers(st, op, gone);
    case Push(_, _, _) => RowUsers(st, s);
    case Pack(_, _, _, _) => RowUsers(st, s);
    case Compact(_, _, _) => RowUsers(st, s);
    case Delete(op) => DeleteUsers(st, op);
    case _ =>
  }

  lemma DeleteUsers(st: State, op: Op)
    requires UsersKnown(st) && Enabled(st, Delete(op))
    ensures UsersKnown(Next(st, Delete(op)))
  {
  }

  lemma RowUsers(st: State, s: Step)
    requires UsersKnown(st) && Enabled(st, s) && (s.Push? || s.Pack? || s.Compact?)
    ensures UsersKnown(Next(st, s))
  {
    var n := Next(st, s);
    forall f | f in n.rows ensures n.rows[f].user in n.used {
    }
  }

  lemma LooksStep(st: State, s: Step)
    requires LooksOk(st) && Enabled(st, s)
    ensures LooksOk(Next(st, s))
  {
    var n := Next(st, s);
    forall o | o in n.looks ensures LookOk(n, n.looks[o]) {
      if o in st.looks {
        assert LookOk(st, st.looks[o]);
      }
    }
  }

  lemma OwedNonNegative(st: State, u: User)
    ensures Owed(st, u) >= 0
    ensures forall o :: o in st.charges && st.charges[o].user == u ==> st.charges[o].size <= Owed(st, u)
    ensures forall o :: o in st.credits && st.credits[o].user == u ==> st.credits[o].size <= Owed(st, u)
  {
    WeighNonNegative(st.rows, SizeOf(u));
    WeighNonNegative(st.charges, BillOf(u));
    WeighNonNegative(st.credits, BillOf(u));
    forall o | o in st.charges && st.charges[o].user == u ensures st.charges[o].size <= Owed(st, u) {
      WeighBound(st.charges, BillOf(u), o);
    }
    forall o | o in st.credits && st.credits[o].user == u ensures st.credits[o].size <= Owed(st, u) {
      WeighBound(st.credits, BillOf(u), o);
    }
  }

  lemma GiveBackUsed(st: State, b: Bill, u: User)
    requires u in st.used && b.user in st.used
    ensures var n := GiveBack(st, b);
      && u in n.used && n.over == st.over
      && n.used[u] == st.used[u] - BillOf(u)(b) + (Get(n.swallowed, u) - Get(st.swallowed, u))
      && (Get(n.swallowed, u) == Get(st.swallowed, u) || n.used[u] == 0)
  {
  }

  /** A counter moves by what is owed, less new double credits, plus what the clamp kept. */
  lemma UsedStep(st: State, s: Step, u: User)
    requires UsersKnown(st) && Enabled(st, s) && u in st.used
    ensures var n := Next(st, s);
      && u in n.used && Get(n.over, u) >= Get(st.over, u)
      && n.used[u] == st.used[u] + OwedChange(st, s, u) - (Get(n.over, u) - Get(st.over, u)) + (Get(n.swallowed, u) - Get(st.swallowed, u))
      && (Get(n.swallowed, u) == Get(st.swallowed, u) || n.used[u] == 0)
  {
    match s
    case Refund(op) => GiveBackUsed(st, st.charges[op], u);
    case Credit(op, w) => GiveBackUsed(st, st.credits[(op, w)], u);
    case _ =>
  }

  /** An account nobody has opened owes nothing. */
  lemma UnknownOwesNothing(st: State, u: User)
    requires UsersKnown(st) && u !in st.used
    ensures Owed(st, u) == 0
  {
    WeighZero(st.rows, SizeOf(u));
    WeighZero(st.charges, BillOf(u));
    WeighZero(st.credits, BillOf(u));
  }

  lemma NewAccount(st: State, s: Step, u: User)
    requires UsersKnown(st) && Enabled(st, s) && u in Next(st, s).used && u !in st.used
    ensures s.RaiseQuota? && s.user == u && Next(st, s).used[u] == 0
    ensures Next(st, s).over == st.over && Next(st, s).swallowed == st.swallowed
  {
  }

  lemma AccountStep(st: State, s: Step, u: User)
    requires UsersKnown(st) && LooksOk(st) && AccountsLaw(st) && Enabled(st, s) && u in Next(st, s).used
    ensures var n := Next(st, s);
      n.used[u] == Owed(n, u) - Get(n.over, u) + Get(n.swallowed, u) && Get(n.swallowed, u) <= Get(n.over, u)
  {
    var n := Next(st, s);
    OwedMoves(st, s, u);
    OwedNonNegative(n, u);
    if u in st.used {
      UsedStep(st, s, u);
    } else {
      NewAccount(st, s, u);
      UnknownOwesNothing(st, u);
    }
  }

  /** Only a charge raises a counter, and it is refused at the ceiling. */
  lemma QuotaStep(st: State, s: Step, u: User)
    requires WithinQuota(st) && Enabled(st, s) && u in Next(st, s).used
    ensures u in Next(st, s).quota && Next(st, s).used[u] <= Next(st, s).quota[u]
  {
  }

  lemma MissedGrows(st: State, s: Step)
    requires LooksOk(st) && Enabled(st, s)
    ensures Next(st, s).missed >= st.missed
  {
    if s.Delete? {
      assert LookOk(st, st.looks[s.op]);
    }
  }

  /** The counter, less what its clamp kept, moves by settled amounts only. */
  lemma CounterMoves(st: State, s: Step)
    requires Enabled(st, s)
    ensures Next(st, s).node - Next(st, s).drift == st.node - st.drift + if s.Settle? then st.deltas[s.op] else 0
  {
  }

  lemma NodeStep(st: State, s: Step)
    requires LooksOk(st) && NodeLaw(st) && Enabled(st, s)
    ensures NodeLaw(Next(st, s))
  {
    StoredMoves(st, s);
    FlightMoves(st, s);
    MissedGrows(st, s);
    CounterMoves(st, s);
  }

  lemma StepKeeps(st: State, s: Step)
    requires Inv(st) && Enabled(st, s)
    ensures Inv(Next(st, s))
  {
    var n := Next(st, s);
    UsersStep(st, s);
    LooksStep(st, s);
    NodeStep(st, s);
    forall u | u in n.used
      ensures u in n.quota && n.used[u] <= n.quota[u]
      ensures n.used[u] == Owed(n, u) - Get(n.over, u) + Get(n.swallowed, u) && Get(n.swallowed, u) <= Get(n.over, u)
    {
      QuotaStep(st, s, u);
      AccountStep(st, s, u);
    }
  }

  // ── Exactly when the books are right ───────────────────────────────────────

  /** Every account's counter is what it owes. */
  ghost predicate AccountsRight(st: State) {
    forall u :: u in st.used ==> st.used[u] == Owed(st, u)
  }

  /** The counters equal what they summarise: each account its rows and what is charged or
      not yet credited, the node its stored bytes less what is in flight. */
  ghost predicate Right(st: State) {
    AccountsRight(st) && st.node + InFlight(st) == StoredBytes(st)
  }

  /** The same but for what the node's own clamp has kept. */
  ghost predicate Exact(st: State) {
    AccountsRight(st) && st.node + InFlight(st) == StoredBytes(st) + st.drift
  }

  /** A deletion still finds the row it looked up (one without bytes may as well be gone). */
  ghost predicate FindsRow(st: State, s: Step)
    requires Enabled(st, s)
  {
    s.Delete? ==> st.looks[s.op].file in st.rows || st.looks[s.op].row.size == 0
  }

  /** A deletion frees the storage it had looked up. */
  ghost predicate FreesStorage(st: State, s: Step)
    requires Enabled(st, s)
  {
    s.Delete? ==> StoredAt(st.rows, st.looks[s.op].file) == st.looks[s.op].row.stored
  }

  ghost predicate Clean(st: State, s: Step)
    requires Enabled(st, s)
  {
    FindsRow(st, s) && FreesStorage(st, s)
  }

  /** An amount settled now does not meet the node's clamp. */
  ghost predicate Fits(st: State, s: Step)
    requires Enabled(st, s)
  {
    s.Settle? ==> st.node + st.deltas[s.op] >= 0
  }

  /** Nothing credited twice is outstanding. */
  ghost predicate Even(st: State) {
    forall u :: u in st.used ==> Get(st.over, u) == Get(st.swallowed, u)
  }

  lemma RightIsEven(st: State)
    requires AccountsLaw(st)
    ensures AccountsRight(st) <==> Even(st)
  {
    forall u | u in st.used ensures st.used[u] == Owed(st, u) <==> Get(st.over, u) == Get(st.swallowed, u) {
    }
  }

  /** With exact accounts, giving back never reaches the clamp at zero. */
  lemma GiveBackFits(st: State, s: Step)
    requires UsersKnown(st) && AccountsRight(st) && Enabled(st, s)
    ensures s.Refund? ==> st.charges[s.op].size <= st.used[st.charges[s.op].user]
    ensures s.Credit? ==> st.credits[(s.op, s.user)].size <= st.used[st.credits[(s.op, s.user)].user]
  {
    if s.Refund? {
      OwedNonNegative(st, st.charges[s.op].user);
    } else if s.Credit? {
      OwedNonNegative(st, st.credits[(s.op, s.user)].user);
    }
  }

  lemma FitsKeepsEven(st: State, b: Bill)
    requires Even(st) && (b.user in st.used ==> b.size <= st.used[b.user])
    ensures Even(GiveBack(st, b))
  {
  }

  lemma StepEvenIff(st: State, s: Step)
    requires UsersKnown(st) && Even(st) && Enabled(st, s)
    requires s.Refund? ==> st.charges[s.op].size <= st.used[st.charges[s.op].user]
    requires s.Credit? ==> st.credits[(s.op, s.user)].size <= st.used[st.credits[(s.op, s.user)].user]
    ensures Even(Next(st, s)) <==> FindsRow(st, s)
  {
    match s
    case Refund(op) => FitsKeepsEven(st, st.charges[op]);
    case Credit(op, u) => FitsKeepsEven(st, st.credits[(op, u)]);
    case Delete(op) => assert st.looks[op].row.user in st.used;
    case RaiseQuota(u, _) =>
      assert u !in st.used ==> Get(st.over, u) == Get(st.swallowed, u);
    case _ =>
  }

  /** From exact accounts a step leads to exact accounts if and only if no deletion comes too
      late for its row. */
  lemma StepAccountsIff(st: State, s: Step)
    requires Inv(st) && AccountsRight(st) && Enabled(st, s)
    ensures AccountsRight(Next(st, s)) <==> FindsRow(st, s)
  {
    StepKeeps(st, s);
    RightIsEven(st);
    RightIsEven(Next(st, s));
    GiveBackFits(st, s);
    StepEvenIff(st, s);
  }

  lemma MissedStep(st: State, s: Step)
    requires LooksOk(st) && Enabled(st, s)
    ensures Next(st, s).missed >= st.missed
    ensures Next(st, s).missed == st.missed <==> FreesStorage(st, s)
  {
    MissedGrows(st, s);
  }

  lemma DriftStep(st: State, s: Step)
    requires Enabled(st, s)
    ensures Next(st, s).drift >= st.drift
    ensures Next(st, s).drift == st.drift <==> Fits(st, s)
    ensures Fits(st, s) || FreesStorage(st, s)
  {
  }

  /** A step leaves the accounts exact, and the node exact up to its clamp, if and only if it
      is clean. */
  lemma StepExactIff(st: State, s: Step)
    requires Inv(st) && Exact(st) && Enabled(st, s)
    ensures Exact(Next(st, s)) <==> Clean(st, s)
  {
    StepKeeps(st, s);
    StepAccountsIff(st, s);
    MissedStep(st, s);
  }

  /** While the books are right, a step leaves them right if and only if it is clean and
      does not meet the node's clamp. */
  lemma StepRightIff(st: State, s: Step)
    requires Inv(st) && Right(st) && Enabled(st, s)
    ensures Right(Next(st, s)) <==> Clean(st, s) && Fits(st, s)
  {
    StepKeeps(st, s);
    StepAccountsIff(st, s);
    MissedStep(st, s);
    DriftStep(st, s);
  }

  // ── Runs ───────────────────────────────────────────────────────────────────

  ghost predicate Runnable(st: State, steps: seq<Step>)
    decreases |steps|
  {
    steps == [] || (Enabled(st, steps[0]) && Runnable(Next(st, steps[0]), steps[1..]))
  }

  ghost function Run(st: State, steps: seq<Step>): State
    requires Runnable(st, steps)
    decreases |steps|
  {
    if steps == [] then st else Run(Next(st, steps[0]), steps[1..])
  }

  const Fresh: State := State(map[], {}, map[], map[], map[], map[], map[], 0, map[], map[], map[], 0, 0)

  lemma FreshInv()
    ensures Inv(Fresh) && Exact(Fresh) && Right(Fresh)
  {
  }

  lemma {:induction false} RunKeeps(st: State, steps: seq<Step>)
    requires Inv(st) && Runnable(st, steps)
    ensures Inv(Run(st, steps))
    decreases |steps|
  {
    if steps != [] {
      StepKeeps(st, steps[0]);
      RunKeeps(Next(st, steps[0]), steps[1..]);
    }
  }

  /** The books are right at every moment of the run. */
  ghost predicate AlwaysRight(st: State, steps: seq<Step>)
    requires Runnable(st, steps)
    decreases |steps|
  {
    Right(st) && (steps == [] || AlwaysRight(Next(st, steps[0]), steps[1..]))
  }

  /** No amount of the run meets the node's clamp when it is settled. */
  ghost predicate AlwaysFits(st: State, steps: seq<Step>)
    requires Runnable(st, steps)
    decreases |steps|
  {
    steps == [] || (Fits(st, steps[0]) && AlwaysFits(Next(st, steps[0]), steps[1..]))
  }

  /** The books are exact, up to the node's clamp, at every moment of the run. */
  ghost predicate AlwaysExact(st: State, steps: seq<Step>)
    requires Runnable(st, steps)
    decreases |steps|
  {
    Exact(st) && (steps == [] || AlwaysExact(Next(st, steps[0]), steps[1..]))
  }

  /** Every deletion of the run finds what its look-up found. */
  ghost predicate AlwaysClean(st: State, steps: seq<Step>)
    requires Runnable(st, steps)
    decreases |steps|
  {
    steps == [] || (Clean(st, steps[0]) && AlwaysClean(Next(st, steps[0]), steps[1..]))
  }

  lemma {:induction false} ExactIffClean(st: State, steps: seq<Step>)
    requires Inv(st) && Exact(st) && Runnable(st, steps)
    ensures AlwaysExact(st, steps) <==> AlwaysClean(st, steps)
    ensures AlwaysExact(st, steps) ==> Exact(Run(st, steps))
    decreases |steps|
  {
    if steps != [] {
      StepKeeps(st, steps[0]);
      StepExactIff(st, steps[0]);
      if Clean(st, steps[0]) {
        ExactIffClean(Next(st, steps[0]), steps[1..]);
      } else {
        InexactNow(Next(st, steps[0]), steps[1..]);
      }
    }
  }

  lemma InexactNow(st: State, steps: seq<Step>)
    requires Runnable(st, steps) && !Exact(st)
    ensures !AlwaysExact(st, steps)
  {
  }

  /** But for the node's clamp, the books are right throughout if and only if every purge
      still finds, when it deletes, the row it looked up with the storage it had then. */
  lemma BooksExactIff(steps: seq<Step>)
    requires Runnable(Fresh, steps)
    ensures AlwaysExact(Fresh, steps) <==> AlwaysClean(Fresh, steps)
  {
    FreshInv();
    ExactIffClean(Fresh, steps);
  }

  lemma WrongNow(st: State, steps: seq<Step>)
    requires Runnable(st, steps) && !Right(st)
    ensures !AlwaysRight(st, steps)
  {
  }

  lemma {:induction false} RightIff(st: State, steps: seq<Step>)
    requires Inv(st) && Right(st) && Runnable(st, steps)
    ensures AlwaysRight(st, steps) <==> AlwaysClean(st, steps) && AlwaysFits(st, steps)
    decreases |steps|
  {
    if steps != [] {
      StepKeeps(st, steps[0]);
      StepRightIff(st, steps[0]);
      if Right(Next(st, steps[0])) {
        RightIff(Next(st, steps[0]), steps[1..]);
      } else {
        WrongNow(Next(st, steps[0]), steps[1..]);
      }
    }
  }

  /** Whatever interleaves: both counters are right at every moment if and only if every
      purge still finds, when it deletes, the row it looked up with the storage it had then,
      and no amount is settled while the node's counter is too small for it. */
  lemma BooksRightIff(steps: seq<Step>)
    requires Runnable(Fresh, steps)
    ensures AlwaysRight(Fresh, steps) <==> AlwaysClean(Fresh, steps) && AlwaysFits(Fresh, steps)
  {
    FreshInv();
    RightIff(Fresh, steps);
  }

  /** The clamp keeps something in a run exactly if some amount does not fit. */
  lemma {:induction false} DriftsIff(st: State, steps: seq<Step>)
    requires Runnable(st, steps)
    ensures Run(st, steps).drift >= st.drift
    ensures Run(st, steps).drift == st.drift <==> AlwaysFits(st, steps)
    decreases |steps|
  {
    if steps != [] {
      DriftStep(st, steps[0]);
      DriftsIff(Next(st, steps[0]), steps[1..]);
    }
  }

  lemma CleanRun(st: State, steps: seq<Step>)
    requires Inv(st) && Exact(st) && st.drift == 0 && Runnable(st, steps) && AlwaysClean(st, steps)
    ensures Exact(Run(st, steps))
    ensures Right(Run(st, steps)) <==> AlwaysFits(st, steps)
  {
    ExactIffClean(st, steps);
    DriftsIff(st, steps);
  }

  /** What every run comes to. */
  ghost predicate Balances(st: State, clean: bool, fits: bool) {
    && WithinQuota(st) && AccountsLaw(st) && NodeLaw(st)
    && (forall u :: u in st.used ==> st.used[u] <= Owed(st, u))
    && (clean ==>
          && AccountsRight(st)
          && st.node + InFlight(st) >= StoredBytes(st)
          && (st.node + InFlight(st) == StoredBytes(st) <==> fits))
  }

  lemma BalancesAfter(st: State, steps: seq<Step>)
    requires Inv(st) && Exact(st) && st.drift == 0 && Runnable(st, steps)
    ensures Balances(Run(st, steps), AlwaysClean(st, steps), AlwaysFits(st, steps))
  {
    RunKeeps(st, steps);
    if AlwaysClean(st, steps) {
      CleanRun(st, steps);
    }
  }

  /** After any interleaving an account is within its quota and its counter shows at most
      what it uses, and both counters are off by exactly the four recorded amounts; where
      every purge was clean, accounts are exact and the node's counter never falls short,
      and is exact if and only if every settled amount fitted. */
  lemma EveryRunBalances(steps: seq<Step>)
    requires Runnable(Fresh, steps)
    ensures Balances(Run(Fresh, steps), AlwaysClean(Fresh, steps), AlwaysFits(Fresh, steps))
  {
    FreshInv();
    BalancesAfter(Fresh, steps);
  }

  /** The accounts are exact at every moment of the run. */
  ghost predicate AccountsAlwaysRight(st: State, steps: seq<Step>)
    requires Runnable(st, steps)
    decreases |steps|
  {
    AccountsRight(st) && (steps == [] || AccountsAlwaysRight(Next(st, steps[0]), steps[1..]))
  }

  /** No deletion of the run comes too late for its row. */
  ghost predicate AlwaysFindsRow(st: State, steps: seq<Step>)
    requires Runnable(st, steps)
    decreases |steps|
  {
    steps == [] || (FindsRow(st, steps[0]) && AlwaysFindsRow(Next(st, steps[0]), steps[1..]))
  }

  lemma {:induction false} AccountsIff(st: State, steps: seq<Step>)
    requires Inv(st) && AccountsRight(st) && Runnable(st, steps)
    ensures AccountsAlwaysRight(st, steps) <==> AlwaysFindsRow(st, steps)
    ensures AccountsAlwaysRight(st, steps) ==> AccountsRight(Run(st, steps))
    decreases |steps|
  {
    if steps != [] {
      var n := Next(st, steps[0]);
      StepKeeps(st, steps[0]);
      StepAccountsIff(st, steps[0]);
      if AccountsRight(n) {
        AccountsIff(n, steps[1..]);
      } else {
        assert !AccountsAlwaysRight(n, steps[1..]);
      }
    }
  }

  /** The accounts alone ask for less: they are right throughout if and only if no purge
      deletes a row that is already gone. */
  lemma AccountsRightIff(steps: seq<Step>)
    requires Runnable(Fresh, steps)
    ensures AccountsAlwaysRight(Fresh, steps) <==> AlwaysFindsRow(Fresh, steps)
    ensures AlwaysFindsRow(Fresh, steps) ==> AccountsRight(Run(Fresh, steps))
  {
    FreshInv();
    AccountsIff(Fresh, steps);
  }

  lemma QuietIsRows(st: State, u: User)
    requires AccountsRight(st) && u in st.used && st.charges == map[] && st.credits == map[]
    ensures st.used[u] == Weigh(st.rows, SizeOf(u))
  {
  }

  /** Then, with nothing of an account in flight, its counter is the sum of its rows. */
  lemma QuietAccountsAreExact(steps: seq<Step>, u: User)
    requires Runnable(Fresh, steps) && AlwaysFindsRow(Fresh, steps) && u in Run(Fresh, steps).used
    requires Run(Fresh, steps).charges == map[] && Run(Fresh, steps).credits == map[]
    ensures Run(Fresh, steps).used[u] == Weigh(Run(Fresh, steps).rows, SizeOf(u))
  {
    AccountsRightIff(steps);
    QuietIsRows(Run(Fresh, steps), u);
  }

  // ── The node's clamp ───────────────────────────────────────────────────────

  function AddedBy(): int -> int {
    (d: int) => if d > 0 then d else 0
  }

  function TakenBy(): int -> int {
    (d: int) => if d < 0 then d else 0
  }

  /** Settle the listed amounts in this order without ever meeting the clamp. */
  ghost predicate Unclamped(node: int, deltas: map<Op, int>, order: seq<Op>)
    decreases |order|
  {
    order == [] || (order[0] in deltas ==>
      node + deltas[order[0]] >= 0 && Unclamped(node + deltas[order[0]], deltas - {order[0]}, order[1..]))
  }

  lemma {:induction false} WeighParts(m: map<Op, int>)
    ensures Weigh(m, DeltaOf()) == Weigh(m, AddedBy()) + Weigh(m, TakenBy())
    decreases |m|
  {
    if m != map[] {
      var k :| k in m;
      assert |m - {k}| < |m|;
      WeighRemove(m, DeltaOf(), k);
      WeighRemove(m, AddedBy(), k);
      WeighRemove(m, TakenBy(), k);
      WeighParts(m - {k});
    }
  }

  lemma {:induction false} TakenNonPositive(m: map<Op, int>)
    ensures Weigh(m, TakenBy()) <= 0
    ensures (forall o :: o in m ==> m[o] >= 0) ==> Weigh(m, TakenBy()) == 0
    decreases |m|
  {
    if m != map[] {
      var k :| k in m;
      assert |m - {k}| < |m|;
      WeighRemove(m, TakenBy(), k);
      TakenNonPositive(m - {k});
    }
  }

  lemma {:induction false} EnoughForAll(node: int, deltas: map<Op, int>, order: seq<Op>)
    requires node + Weigh(deltas, TakenBy()) >= 0
    ensures Unclamped(node, deltas, order)
    decreases |order|
  {
    if order != [] && order[0] in deltas {
      var o := order[0];
      WeighRemove(deltas, TakenBy(), o);
      TakenNonPositive(deltas - {o});
      EnoughForAll(node + deltas[o], deltas - {o}, order[1..]);
    }
  }

  /** Subtractions first is the order that fails. */
  lemma {:induction false} TooLittle(node: nat, deltas: map<Op, int>) returns (order: seq<Op>)
    requires node + Weigh(deltas, TakenBy()) < 0
    ensures !Unclamped(node, deltas, order)
    decreases |deltas|
  {
    TakenNonPositive(deltas);
    var o :| o in deltas && deltas[o] < 0;
    order := [o];
    if node + deltas[o] >= 0 {
      WeighRemove(deltas, TakenBy(), o);
      assert |deltas - {o}| < |deltas|;
      var rest := TooLittle(node + deltas[o], deltas - {o});
      order := [o] + rest;
      assert order[1..] == rest;
    }
  }

  /** No order of settling the amounts in flight meets the clamp if and only if the counter
      covers the pending subtractions, that is, the pending additions are at most what is
      stored, but for amounts already lost or kept. */
  lemma NoOrderClampsIff(st: State)
    requires Inv(st)
    ensures (forall order :: Unclamped(st.node, st.deltas, order)) <==> st.node + Weigh(st.deltas, TakenBy()) >= 0
    ensures (forall order :: Unclamped(st.node, st.deltas, order))
       <==> Weigh(st.deltas, AddedBy()) <= StoredBytes(st) + st.drift - st.missed
  {
    WeighParts(st.deltas);
    if st.node + Weigh(st.deltas, TakenBy()) >= 0 {
      forall order ensures Unclamped(st.node, st.deltas, order) {
        EnoughForAll(st.node, st.deltas, order);
      }
    } else {
      var order := TooLittle(st.node, st.deltas);
      assert !Unclamped(st.node, st.deltas, order);
    }
  }

  /** While the node does not fall short, its clamp is out of reach as long as no addition is
      in flight. */
  lemma SettledUploadsNeverClamp(st: State, order: seq<Op>)
    requires st.node + InFlight(st) >= StoredBytes(st) && forall o :: o in st.deltas ==> st.deltas[o] <= 0
    ensures Unclamped(st.node, st.deltas, order)
  {
    WeighParts(st.deltas);
    WeighZero(st.deltas, AddedBy());
    WeighNonNegative(st.rows, StoredOf());
    EnoughForAll(st.node, st.deltas, order);
  }

  /** Subtractions wait until no addition is in flight. */
  ghost predicate Patient(st: State, s: Step)
    requires Enabled(st, s)
  {
    s.Settle? && st.deltas[s.op] < 0 ==> forall o :: o in st.deltas ==> st.deltas[o] <= 0
  }

  ghost predicate AlwaysPatient(st: State, steps: seq<Step>)
    requires Runnable(st, steps)
    decreases |steps|
  {
    steps == [] || (Patient(st, steps[0]) && AlwaysPatient(Next(st, steps[0]), steps[1..]))
  }

  lemma PatientFits(st: State, s: Step)
    requires Right(st) && Enabled(st, s) && Patient(st, s)
    ensures Fits(st, s)
  {
    if s.Settle? && st.deltas[s.op] < 0 {
      SettledUploadsNeverClamp(st, [s.op]);
    }
  }

  lemma {:induction false} PatientKeepsRight(st: State, steps: seq<Step>)
    requires Inv(st) && Right(st) && Runnable(st, steps)
    requires AlwaysClean(st, steps) && AlwaysPatient(st, steps)
    ensures AlwaysRight(st, steps)
    decreases |steps|
  {
    if steps != [] {
      PatientFits(st, steps[0]);
      StepKeeps(st, steps[0]);
      StepRightIff(st, steps[0]);
      PatientKeepsRight(Next(st, steps[0]), steps[1..]);
    }
  }

  /** A rule that suffices: purges delete what they looked up, and nothing is subtracted from
      the node while an addition is still on its way. */
  lemma PatientBooksAreRight(steps: seq<Step>)
    requires Runnable(Fresh, steps) && AlwaysClean(Fresh, steps) && AlwaysPatient(Fresh, steps)
    ensures AlwaysRight(Fresh, steps)
  {
    FreshInv();
    PatientKeepsRight(Fresh, steps);
  }

  function Settles(order: seq<Op>): (s: seq<Step>)
    ensures |s| == |order|
  {
    seq(|order|, k requires 0 <= k < |order| => Settle(order[k]))
  }

  /** The clamp keeps something in such a run exactly if the order meets it. */
  lemma {:induction false} SettlesClampIff(st: State, order: seq<Op>)
    requires Runnable(st, Settles(order))
    ensures Run(st, Settles(order)).drift >= st.drift
    ensures Run(st, Settles(order)).drift == st.drift <==> Unclamped(st.node, st.deltas, order)
    decreases |order|
  {
    if order != [] {
      assert Settles(order)[1..] == Settles(order[1..]);
      SettlesClampIff(Next(st, Settle(order[0])), order[1..]);
    }
  }

  // ── Runs in which the books go wrong ───────────────────────────────────────

  ghost predicate Reached(st: State) {
    exists steps :: Runnable(Fresh, steps) && Run(Fresh, steps) == st
  }

  lemma {:induction false} RunOneMore(st: State, steps: seq<Step>, s: Step)
    requires Runnable(st, steps) && Enabled(Run(st, steps), s)
    ensures Runnable(st, steps + [s]) && Run(st, steps + [s]) == Next(Run(st, steps), s)
    decreases |steps|
  {
    if steps == [] {
      assert steps + [s] == [s] && [s][1..] == [];
    } else {
      RunOneMore(Next(st, steps[0]), steps[1..], s);
      assert (steps + [s])[1..] == steps[1..] + [s];
    }
  }

  lemma ReachedNext(st: State, s: Step)
    requires Reached(st) && Enabled(st, s)
    ensures Reached(Next(st, s))
  {
    var steps :| Runnable(Fresh, steps) && Run(Fresh, steps) == st;
    RunOneMore(Fresh, steps, s);
  }

  /** Nothing is in flight. */
  ghost predicate Idle(st: State) {
    st.charges == map[] && st.looks == map[] && st.credits == map[] && st.deltas == map[]
  }

  /** Account 1 has uploaded `file`; its cost has yet to reach the node. */
  lemma Upload(st: State, op: Op, file: FileId, size: nat, stored: nat) returns (n: State)
    requires Reached(st) && st.charges == map[] && op !in st.deltas && file !in st.minted && 1 in st.used
    requires 1 in st.quota && st.used[1] + size <= st.quota[1]
    ensures Reached(n) && n == st.(rows := st.rows[file := Row(1, size, stored, false)], minted := st.minted + {file},
                                   used := st.used[1 := st.used[1] + size], deltas := st.deltas[op := stored])
  {
    var c, p := Charge(op, Bill(1, size)), Push(op, file, stored);
    ReachedNext(st, c);
    var mid := Next(st, c);
    ReachedNext(mid, p);
    n := Next(mid, p);
    assert n.charges == map[];
  }

  lemma Open(quota: nat) returns (n: State)
    ensures Reached(n) && n == Fresh.(used := map[1 := 0], quota := map[1 := quota])
  {
    assert Runnable(Fresh, []) && Run(Fresh, []) == Fresh;
    ReachedNext(Fresh, RaiseQuota(1, quota));
    n := Next(Fresh, RaiseQuota(1, quota));
  }

  lemma StartPurge(st: State, op: Op, file: FileId) returns (n: State)
    requires Reached(st) && op !in st.looks && file in st.rows && !st.rows[file].isPack
    ensures Reached(n) && n == st.(looks := st.looks[op := Look(file, st.rows[file])])
  {
    ReachedNext(st, LookUp(op, file));
    n := Next(st, LookUp(op, file));
  }

  /** The second statement of a purge, wherever its row has gone. */
  lemma FinishPurge(st: State, op: Op, file: FileId, row: Row) returns (n: State)
    requires Reached(st) && op in st.looks && st.looks[op] == Look(file, row) && op !in st.deltas && (op, row.user) !in st.credits
    ensures Reached(n)
    ensures n.rows == st.rows - {file} && n.looks == st.looks - {op} && n.used == st.used && n.charges == st.charges
    ensures n.credits == st.credits[(op, row.user) := Bill(row.user, row.size)]
    ensures n.node == st.node && n.deltas == st.deltas[op := 0 - row.stored]
  {
    ReachedNext(st, Delete(op));
    n := Next(st, Delete(op));
  }

  lemma PayNode(st: State, op: Op) returns (n: State)
    requires Reached(st) && op in st.deltas
    ensures Reached(n) && n.node == Clamp(st.node + st.deltas[op]) && n.deltas == st.deltas - {op}
    ensures n.rows == st.rows && n.used == st.used && n.charges == st.charges && n.looks == st.looks && n.credits == st.credits
    ensures n.minted == st.minted && n.quota == st.quota
  {
    ReachedNext(st, Settle(op));
    n := Next(st, Settle(op));
  }

  lemma PayUser(st: State, op: Op, size: nat) returns (n: State)
    requires Reached(st) && (op, 1) in st.credits && st.credits[(op, 1)] == Bill(1, size) && 1 in st.used
    ensures Reached(n) && n.used == st.used[1 := Clamp(st.used[1] - size)] && n.credits == st.credits - {(op, 1)}
    ensures n.rows == st.rows && n.charges == st.charges && n.looks == st.looks && n.node == st.node && n.deltas == st.deltas
  {
    ReachedNext(st, Credit(op, 1));
    n := Next(st, Credit(op, 1));
  }

  /** The node's clamp can bind: an upload has stored its file but not yet added it to the
      counter when the file is purged and the purge's subtraction runs first.  Nothing is
      left of the file except its bytes on the counter. */
  lemma PurgeOvertakesUpload(size: nat, stored: nat)
    ensures exists st :: Reached(st) && Idle(st) && st.rows == map[] && st.node == stored
  {
    var s0 := Open(size);
    var s1 := Upload(s0, 0, 0, size, stored);
    var row := Row(1, size, stored, false);
    var s2 := StartPurge(s1, 1, 0);
    var s3 := FinishPurge(s2, 1, 0, row);
    var s4 := PayNode(s3, 1);
    var s5 := PayNode(s4, 0);
    var s6 := PayUser(s5, 1, size);
    assert s6.rows == map[] && s6.deltas == map[] && s6.credits == map[] && s6.looks == map[];
  }

  /** An upload carried to its end. */
  lemma UploadAll(st: State, op: Op, file: FileId, size: nat, stored: nat) returns (n: State)
    requires Reached(st) && Idle(st) && file !in st.minted && 1 in st.used && 1 in st.quota && st.used[1] + size <= st.quota[1]
    ensures Reached(n) && Idle(n) && n.rows == st.rows[file := Row(1, size, stored, false)] && n.minted == st.minted + {file}
    ensures n.used == st.used[1 := st.used[1] + size] && n.quota == st.quota && n.node == st.node + stored
  {
    var mid := Upload(st, op, file, size, stored);
    n := PayNode(mid, op);
    assert n.deltas == map[];
  }

  lemma TwoFiles(a: nat, b: nat, x: nat, y: nat) returns (n: State)
    ensures Reached(n) && Idle(n) && n.used == map[1 := a + b] && n.node == x + y && n.minted == {0, 1}
    ensures n.rows == map[0 := Row(1, a, x, false), 1 := Row(1, b, y, false)]
  {
    var s0 := Open(a + b);
    var s1 := UploadAll(s0, 0, 0, a, x);
    n := UploadAll(s1, 1, 1, b, y);
  }

  lemma LookedUpTwice(a: nat, b: nat, x: nat, y: nat) returns (n: State)
    ensures Reached(n) && n.used == map[1 := a + b] && n.node == x + y
    ensures n.charges == map[] && n.credits == map[] && n.deltas == map[]
    ensures n.rows == map[0 := Row(1, a, x, false), 1 := Row(1, b, y, false)]
    ensures n.looks == map[2 := Look(0, Row(1, a, x, false)), 3 := Look(0, Row(1, a, x, false))]
  {
    var s0 := TwoFiles(a, b, x, y);
    var s1 := StartPurge(s0, 2, 0);
    n := StartPurge(s1, 3, 0);
  }

  /** Two purges of file 0 have both looked it up and both deleted it. */
  lemma DeletedTwice(a: nat, b: nat, x: nat, y: nat) returns (n: State)
    ensures Reached(n) && n.rows == map[1 := Row(1, b, y, false)] && n.used == map[1 := a + b] && n.node == x + y
    ensures n.charges == map[] && n.looks == map[] && n.deltas == map[2 := 0 - x, 3 := 0 - x]
    ensures n.credits == map[(2, 1) := Bill(1, a), (3, 1) := Bill(1, a)]
  {
    var row := Row(1, a, x, false);
    var s0 := LookedUpTwice(a, b, x, y);
    var s1 := FinishPurge(s0, 2, 0, row);
    n := FinishPurge(s1, 3, 0, row);
    assert n.looks == map[];
  }

  lemma CreditedTwice(a: nat, b: nat, x: nat, y: nat) returns (n: State)
    ensures Reached(n) && n.rows == map[1 := Row(1, b, y, false)] && n.used == map[1 := Clamp(b - a)] && n.node == x + y
    ensures n.charges == map[] && n.looks == map[] && n.credits == map[] && n.deltas == map[2 := 0 - x, 3 := 0 - x]
  {
    var s0 := DeletedTwice(a, b, x, y);
    var s1 := PayUser(s0, 2, a);
    n := PayUser(s1, 3, a);
    assert n.credits == map[];
  }

  /** Two purges of one file at the same time: both look it up, one deletes it, both credit
      it.  Account and node end up with less on their counters than is stored, or with
      counters the clamps had to stop. */
  lemma DoublePurge(a: nat, b: nat, x: nat, y: nat)
    ensures exists st :: Reached(st) && Idle(st) && st.rows == map[1 := Row(1, b, y, false)]
                      && st.used == map[1 := Clamp(b - a)] && st.node == Clamp(y - x)
  {
    var s0 := CreditedTwice(a, b, x, y);
    var s1 := PayNode(s0, 2);
    var s2 := PayNode(s1, 3);
    assert s2.deltas == map[];
  }

  lemma PackBoth(st: State, r: Row, q: Row, pack: Row) returns (n: State)
    requires Reached(st) && st.rows == map[0 := r, 1 := q] && st.minted == {0, 1} && st.deltas == map[]
    requires pack.user in st.used && pack.isPack
    ensures Reached(n) && n.rows == map[0 := r.(stored := 0), 1 := q.(stored := 0), 5 := pack]
    ensures n.deltas == map[3 := pack.stored - r.stored - q.stored] && n.node == st.node
    ensures n.used == st.used && n.looks == st.looks && n.charges == st.charges && n.credits == st.credits
  {
    var c := Pack(3, {0, 1}, 5, pack);
    ReachedNext(st, c);
    n := Next(st, c);
    BothStored(st.rows, r, q);
  }

  /** A purge has looked file 0 up, which has been packed with file 1 since. */
  lemma PackedMeanwhile(a: nat, b: nat, x: nat, y: nat, pack: Row) returns (n: State)
    requires pack.user == 1 && pack.isPack
    ensures Reached(n) && n.rows == map[0 := Row(1, a, 0, false), 1 := Row(1, b, 0, false), 5 := pack]
    ensures n.used == map[1 := a + b] && n.node == pack.stored
    ensures n.looks == map[2 := Look(0, Row(1, a, x, false))] && n.charges == map[] && n.credits == map[] && n.deltas == map[]
  {
    var s0 := TwoFiles(a, b, x, y);
    var s1 := StartPurge(s0, 2, 0);
    var s2 := PackBoth(s1, Row(1, a, x, false), Row(1, b, y, false), pack);
    n := PayNode(s2, 3);
    assert n.deltas == map[];
  }

  lemma BothStored(rows: map<FileId, Row>, r: Row, q: Row)
    requires rows == map[0 := r, 1 := q]
    ensures Weigh(Restrict(rows, {0, 1}), StoredOf()) == r.stored + q.stored
  {
    assert Restrict(rows, {0, 1}) == rows;
    WeighRemove(rows, StoredOf(), 0);
    assert rows - {0} == map[1 := q];
    WeighOne(rows - {0}, StoredOf(), 1, q);
  }

  /** A packing between the two statements of a purge: the member's storage is subtracted
      from the node twice, which then shows less than it stores. */
  lemma PackingOvertakesPurge(a: nat, b: nat, x: nat, y: nat, pack: Row)
    requires pack.user == 1 && pack.isPack
    ensures exists st :: Reached(st) && Idle(st) && StoredBytes(st) == pack.stored && st.node == Clamp(pack.stored - x)
  {
    var s0 := PackedMeanwhile(a, b, x, y, pack);
    var s1 := FinishPurge(s0, 2, 0, Row(1, a, x, false));
    var s2 := PayNode(s1, 2);
    var s3 := PayUser(s2, 2, a);
    PackOnly(s3.rows, Row(1, b, 0, false), pack);
    assert s3.deltas == map[] && s3.credits == map[] && s3.looks == map[];
  }

  lemma PackOnly(rows: map<FileId, Row>, member: Row, pack: Row)
    requires rows == map[1 := member, 5 := pack] && member.stored == 0
    ensures Weigh(rows, StoredOf()) == pack.stored
  {
    WeighRemove(rows, StoredOf(), 1);
    assert rows - {1} == map[5 := pack];
    WeighOne(rows - {1}, StoredOf(), 5, pack);
  }

  // ── The counters themselves ────────────────────────────────────────────────

  /** The part of a state the counters hold. */
  lemma SettleEffect(st: State, op: Op)
    requires Enabled(st, Settle(op))
    ensures var n := Next(st, Settle(op)); n.node == Clamp(st.node + st.deltas[op]) && n.used == st.used && n.quota == st.quota
  {
  }

  /** The `user_quota` and `node_local` rows; one method per statement, each a step of the
      books above. */
  class Ledger {
    var used: map<User, nat>
    var quota: map<User, nat>
    var node: nat
    ghost var books: State

    ghost predicate Valid() reads this {
      used == books.used && quota == books.quota && node == books.node
    }

    constructor ()
      ensures Valid() && books == Fresh
    {
      used, quota, node := map[], map[], 0;
      books := Fresh;
    }

    /** Check and charge in one guarded update. */
    method Reserve(bill: Bill, ghost op: Op) returns (ok: bool)
      requires Valid() && Enabled(books, Charge(op, bill))
      modifies this
      ensures Valid() && books == Next(old(books), Charge(op, bill))
      ensures ok <==> Charged(old(books), bill)
    {
      ok := bill.user in used && bill.user in quota && used[bill.user] + bill.size <= quota[bill.user];
      if ok {
        used := used[bill.user := used[bill.user] + bill.size];
      }
      books := Next(books, Charge(op, bill));
    }

    /** Hand a reservation back, or credit a removal. */
    method Return(bill: Bill, ghost s: Step)
      requires Valid() && Enabled(books, s)
      requires (s.Refund? && bill == books.charges[s.op]) || (s.Credit? && bill == books.credits[(s.op, s.user)])
      modifies this
      ensures Valid() && books == Next(old(books), s)
    {
      if bill.user in used {
        used := used[bill.user := if used[bill.user] < bill.size then 0 else used[bill.user] - bill.size];
      }
      books := Next(books, s);
    }

    /** Move the node's counter. */
    method AdjustNode(delta: int, ghost op: Op)
      requires Valid() && Enabled(books, Settle(op)) && delta == books.deltas[op]
      modifies this
      ensures Valid() && books == Next(old(books), Settle(op))
    {
      SettleEffect(books, op);
      node := if node + delta < 0 then 0 else node + delta;
      books := Next(books, Settle(op));
    }
  }
}