/** Concurrent requests against the tables, one statement at a time.

    Every process is one call of Checkout, Create, Update or Delete. A step of a process is one statement,
    one commit or one message; any process may move next, and any statement, commit or send may fail. The
    environment is PostgreSQL at its default level, section 13.2.1 "Read Committed" of its manual: an UPDATE or
    DELETE of a row whose last writer is still open waits for that writer and then judges the newest committed
    row; nobody sees uncommitted data. */
module Store {
  import opened Models
  import opened Tables

  // ----- Processes -----

  /** What became of the invoice message: not sent yet, appended, refused by the broker, or never attempted
      because the acknowledgement of the commit was lost. */
  datatype Delivery = Pending | Sent | Unsent | LostAck

  datatype BuyerPc =
    | Idle
    | Begun
    | Reserved(written: Row)
    | Inserted(written: Row, total: int)
    | Settled(delivery: Delivery, total: int)
    | Refused(at: nat)
    | Failed

  /** How far a product write got after its statement: `Lost` means it committed but reported an error. */
  datatype Stage = Executed | Invalidated | Announced | Silent | Lost

  datatype AdminPc =
    | Ready
    | Past(stage: Stage, id: int, hit: bool)
    | Rejected

  datatype Request = Create(row: Row) | Update(id: int, row: Row) | Delete(id: int)

  datatype Proc =
    | Buyer(user: int, email: string, product: int, quantity: int, pc: BuyerPc)
    | Admin(request: Request, apc: AdminPc)

  /** `sender` is the process whose send appended the message. */
  datatype Posted = Posted(sender: nat, invoice: Invoice)

  /** `locks` maps a row to the open transaction that wrote it; `commits` is the history of committed operations. */
  datatype State = State(
    tables: Tables, nextId: int, locks: map<int, nat>, procs: seq<Proc>, commits: seq<Commit>, invoices: seq<Posted>)

  ghost predicate Fresh(p: Proc) {
    match p
    case Buyer(_, _, _, _, pc) => pc.Idle?
    case Admin(_, apc) => apc.Ready?
  }

  ghost predicate Init(s: State, t: Tables) {
    && s.tables == t && WellTyped(t)
    && (forall id :: id in t.rows ==> id < s.nextId)
    && s.locks == map[] && s.commits == [] && s.invoices == []
    && forall i :: 0 <= i < |s.procs| ==> Fresh(s.procs[i])
  }

  // ----- Steps -----

  datatype Action =
    | Begin | Reserve | Refuse | ReserveError | Insert | InsertError | Close | Send
    | Exec | ExecError(skip: bool) | Invalidate | Announce
      // the environment's: a lost connection, a lost acknowledgement, a refused message
    | Abort | CloseLost | SendFail | Drop(skip: bool) | ExecLost | AnnounceFail

  predicate ByEnvironment(a: Action) {
    a.Abort? || a.CloseLost? || a.SendFail? || a.Drop? || a.ExecLost? || a.AnnounceFail?
  }

  predicate Holding(p: Proc) {
    p.Buyer? && (p.pc.Reserved? || p.pc.Inserted?)
  }

  /** Go computes the total in a 64-bit int. */
  function Total(written: Row, quantity: int): int {
    Wrap64(written.price * quantity)
  }

  function InvoiceOf(p: Proc): Invoice
    requires p.Buyer? && p.pc.Settled?
  {
    Invoice(p.user, p.email, p.product, p.quantity, p.pc.total)
  }

  function TxOf(p: Proc): Tx
    requires p.Buyer? && p.pc.Settled?
  {
    Tx(p.user, p.product, p.quantity, p.pc.total)
  }

  predicate BuyerEnabled(s: State, p: Proc, a: Action)
    requires p.Buyer?
  {
    match a
    case Begin => p.pc.Idle?
    case Reserve => p.pc.Begun? && ReserveStock(s.tables, p.product, p.quantity).Taken? && p.product !in s.locks
    // the committed row that the statement sees decides a refusal; an open writer does not delay it
    case Refuse => p.pc.Begun? && ReserveStock(s.tables, p.product, p.quantity).NoRows?
    case ReserveError => p.pc.Begun? && ReserveStock(s.tables, p.product, p.quantity).OutOfRange?
    case Insert =>
      && p.pc.Reserved?
      && InsertTx(s.tables, p.user, p.product, p.quantity, Total(p.pc.written, p.quantity)).Some?
    case InsertError =>
      && p.pc.Reserved?
      && InsertTx(s.tables, p.user, p.product, p.quantity, Total(p.pc.written, p.quantity)).None?
    case Close => p.pc.Inserted?
    case CloseLost => p.pc.Inserted?
    case Send => p.pc.Settled? && p.pc.delivery.Pending?
    case SendFail => p.pc.Settled? && p.pc.delivery.Pending?
    case Abort => p.pc.Idle? || p.pc.Begun? || Holding(p)
    case _ => false
  }

  /** The processes after process i reaches the given program counter. */
  function Become(s: State, i: nat, pc: BuyerPc): seq<Proc>
    requires i < |s.procs| && s.procs[i].Buyer?
  {
    s.procs[i := s.procs[i].(pc := pc)]
  }

  function BecomeAdmin(s: State, i: nat, apc: AdminPc): seq<Proc>
    requires i < |s.procs| && s.procs[i].Admin?
  {
    s.procs[i := s.procs[i].(apc := apc)]
  }

  function BuyerStep(s: State, i: nat, a: Action): State
    requires i < |s.procs| && s.procs[i].Buyer? && BuyerEnabled(s, s.procs[i], a)
  {
    var p := s.procs[i];
    match a
    case Begin => s.(procs := Become(s, i, Begun))
    case Reserve =>
      s.(procs := Become(s, i, Reserved(ReserveStock(s.tables, p.product, p.quantity).written)),
         locks := s.locks[p.product := i])
    case Refuse => s.(procs := Become(s, i, Refused(|s.commits|)))
    case ReserveError => s.(procs := Become(s, i, Failed))
    case Insert => s.(procs := Become(s, i, Inserted(p.pc.written, Total(p.pc.written, p.quantity))))
    case InsertError => s.(procs := Become(s, i, Failed), locks := s.locks - {p.product})
    case Close => Settle(s, i, Pending)
    case CloseLost => Settle(s, i, LostAck)
    case Send =>
      s.(procs := Become(s, i, Settled(Sent, p.pc.total)), invoices := s.invoices + [Posted(i, InvoiceOf(p))])
    case SendFail => s.(procs := Become(s, i, Settled(Unsent, p.pc.total)))
    case Abort =>
      s.(procs := Become(s, i, Failed), locks := if Holding(p) then s.locks - {p.product} else s.locks)
  }

  /** COMMIT installs the row version and the transaction the process wrote, and releases its lock. */
  function Settle(s: State, i: nat, d: Delivery): State
    requires i < |s.procs| && s.procs[i].Buyer? && s.procs[i].pc.Inserted?
  {
    var p := s.procs[i];
    s.(tables := s.tables.(rows := s.tables.rows[p.product := p.pc.written],
                           txs := s.tables.txs + [Tx(p.user, p.product, p.quantity, p.pc.total)]),
       locks := s.locks - {p.product},
       procs := Become(s, i, Settled(d, p.pc.total)),
       commits := s.commits + [Commit(i, Buy(p.user, p.product, p.quantity))])
  }

  function Target(s: State, r: Request): int {
    match r
    case Create(_) => s.nextId
    case Update(id, _) => id
    case Delete(id) => id
  }

  function Statement(s: State, r: Request): Write {
    match r
    case Create(row) => InsertRow(s.tables, s.nextId, row)
    case Update(id, row) => UpdateRow(s.tables, id, row)
    case Delete(id) => DeleteRow(s.tables, id)
  }

  function OpOf(r: Request, id: int): Op {
    match r
    case Create(row) => Add(id, row)
    case Update(_, row) => Edit(id, row)
    case Delete(_) => Remove(id)
  }

  predicate AdminEnabled(s: State, p: Proc, a: Action)
    requires p.Admin?
  {
    match a
    case Exec => p.apc.Ready? && Statement(s, p.request).Wrote? && Target(s, p.request) !in s.locks
    case ExecLost => p.apc.Ready? && Statement(s, p.request).Wrote? && Target(s, p.request) !in s.locks
    // an error changes nothing, so it need not wait for an open writer
    case ExecError(_) => p.apc.Ready? && Statement(s, p.request).SqlError?
    case Drop(_) => p.apc.Ready?
    case Invalidate => p.apc.Past? && p.apc.stage.Executed?
    case Announce => p.apc.Past? && p.apc.stage.Invalidated?
    case AnnounceFail => p.apc.Past? && p.apc.stage.Invalidated?
    case _ => false
  }

  /** A statement that did not take place; an INSERT may have used up an id of the sequence all the same. */
  function Reject(s: State, i: nat, skip: bool): State
    requires i < |s.procs| && s.procs[i].Admin?
  {
    s.(procs := BecomeAdmin(s, i, Rejected),
       nextId := if skip && s.procs[i].request.Create? then s.nextId + 1 else s.nextId)
  }

  function AdminStep(s: State, i: nat, a: Action): State
    requires i < |s.procs| && s.procs[i].Admin? && AdminEnabled(s, s.procs[i], a)
  {
    var p := s.procs[i];
    match a
    case Exec => Perform(s, i, Executed)
    case ExecLost => Perform(s, i, Lost)
    case ExecError(skip) => Reject(s, i, skip)
    case Drop(skip) => Reject(s, i, skip)
    case Invalidate => s.(procs := BecomeAdmin(s, i, p.apc.(stage := Invalidated)))
    case Announce => s.(procs := BecomeAdmin(s, i, p.apc.(stage := Announced)))
    case AnnounceFail => s.(procs := BecomeAdmin(s, i, p.apc.(stage := Silent)))
  }

  /** An autocommitted statement. One that affects no row leaves no operation in the history. */
  function Perform(s: State, i: nat, stage: Stage): State
    requires i < |s.procs| && s.procs[i].Admin? && Statement(s, s.procs[i].request).Wrote?
  {
    var p := s.procs[i];
    var id, w := Target(s, p.request), Statement(s, p.request);
    s.(tables := w.t,
       nextId := if p.request.Create? then s.nextId + 1 else s.nextId,
       procs := BecomeAdmin(s, i, Past(stage, id, w.affected)),
       commits := if w.affected then s.commits + [Commit(i, OpOf(p.request, id))] else s.commits)
  }

  predicate Enabled(s: State, i: nat, a: Action) {
    && i < |s.procs|
    && if s.procs[i].Buyer? then BuyerEnabled(s, s.procs[i], a) else AdminEnabled(s, s.procs[i], a)
  }

  function Step(s: State, i: nat, a: Action): State
    requires Enabled(s, i, a)
  {
    if s.procs[i].Buyer? then BuyerStep(s, i, a) else AdminStep(s, i, a)
  }

  /** A schedule: which process moves, and how. */
  datatype Move = Move(i: nat, a: Action)

  /** The state a schedule leads to, or None when it is not possible. */
  function Run(s: State, ms: seq<Move>): Option<State> {
    if ms == [] then Some(s)
    else match Run(s, ms[..|ms| - 1])
      case None => None
      case Some(u) =>
        var m := ms[|ms| - 1];
        if Enabled(u, m.i, m.a) then Some(Step(u, m.i, m.a)) else None
  }
}
