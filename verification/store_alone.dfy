/** One checkout with nobody interleaving: the concurrent store then does what the serial specification says. */
module StoreAlone {
  import opened Models
  import opened Tables
  import opened Store
  import opened StoreSafety
  import opened StoreProgress

  /** The state after process i takes the given steps with nobody else moving. */
  function Alone(s: State, i: nat, acts: seq<Action>): (u: Option<State>)
    ensures u.Some? ==> |u.value.procs| == |s.procs|
    decreases |acts|
  {
    if acts == [] then Some(s)
    else if Enabled(s, i, acts[0]) then Alone(Step(s, i, acts[0]), i, acts[1..])
    else None
  }

  /** The serial checkout of a process. */
  function OpFor(p: Proc): Op
    requires p.Buyer?
  {
    Buy(p.user, p.product, p.quantity)
  }

  /** The exact total of a checkout that starts from tables t. */
  function Price(t: Tables, p: Proc): int
    requires p.Buyer?
  {
    if p.product in t.rows then t.rows[p.product].price * p.quantity else 0
  }

  /** What process i, starting from tables t and invoices vs, has made of them so far. */
  ghost predicate OnTheWay(s: State, i: nat, t: Tables, vs: seq<Posted>, aborted: bool) {
    && i < |s.procs| && s.procs[i].Buyer?
    && var p := s.procs[i];
       match p.pc
       case Settled(d, total) =>
         && !aborted && Serial(t, OpFor(p)) == Some(s.tables) && total == Price(t, p)
         && s.invoices == vs + if d.Sent? then [Posted(i, InvoiceOf(p))] else []
       case Refused(_) => !aborted && s.tables == t && Serial(t, OpFor(p)).None? && s.invoices == vs
       case Failed => s.tables == t && (aborted || Serial(t, OpFor(p)).None?) && s.invoices == vs
       case _ => !aborted && s.tables == t && s.invoices == vs
  }

  lemma SettleOnTheWay(s: State, t: Tables, i: nat, vs: seq<Posted>, d: Delivery)
    requires Inv(s, t) && OnTheWay(s, i, s.tables, vs, false) && s.procs[i].pc.Inserted? && !d.Sent?
    ensures OnTheWay(Settle(s, i, d), i, s.tables, vs, false)
  {
    assert HolderOk(s, i);
    SettleIsSerial(s, i, d);
    TotalExact(s.tables, s.procs[i].product, s.procs[i].quantity);
  }

  /** A refused statement is one that the serial specification refuses. */
  lemma RefusalOnTheWay(s: State, t: Tables, i: nat, vs: seq<Posted>, a: Action)
    requires Inv(s, t) && OnTheWay(s, i, s.tables, vs, false) && Enabled(s, i, a)
    requires a.Refuse? || a.ReserveError? || a.InsertError?
    ensures OnTheWay(Step(s, i, a), i, s.tables, vs, false)
  {
    if a.InsertError? {
      assert HolderOk(s, i);
      TotalExact(s.tables, s.procs[i].product, s.procs[i].quantity);
    }
  }

  lemma StepOnTheWay(s: State, t: Tables, i: nat, a: Action, t0: Tables, vs: seq<Posted>, aborted: bool)
    requires Inv(s, t) && OnTheWay(s, i, t0, vs, aborted) && Enabled(s, i, a)
    ensures OnTheWay(Step(s, i, a), i, t0, vs, aborted || a.Abort?)
  {
    assert Step(s, i, a) == BuyerStep(s, i, a);
    match a
    case Close => SettleOnTheWay(s, t, i, vs, Pending);
    case CloseLost => SettleOnTheWay(s, t, i, vs, LostAck);
    case Refuse => RefusalOnTheWay(s, t, i, vs, a);
    case ReserveError => RefusalOnTheWay(s, t, i, vs, a);
    case InsertError => RefusalOnTheWay(s, t, i, vs, a);
    case _ =>
  }

  lemma {:induction false} AloneOnTheWay(
    s: State, t: Tables, i: nat, acts: seq<Action>, t0: Tables, vs: seq<Posted>, aborted: bool)
    requires Inv(s, t) && OnTheWay(s, i, t0, vs, aborted) && Alone(s, i, acts).Some?
    ensures Inv(Alone(s, i, acts).value, t)
    ensures OnTheWay(Alone(s, i, acts).value, i, t0, vs, aborted || Abort in acts)
    decreases |acts|
  {
    if acts != [] {
      StepKeepsInv(s, t, i, acts[0]);
      StepOnTheWay(s, t, i, acts[0], t0, vs, aborted);
      AloneOnTheWay(Step(s, i, acts[0]), t, i, acts[1..], t0, vs, aborted || acts[0].Abort?);
      assert Abort in acts <==> acts[0] == Abort || Abort in acts[1..];
    }
  }

  lemma {:induction false} AloneKeepsRequest(s: State, i: nat, acts: seq<Action>)
    requires i < |s.procs| && s.procs[i].Buyer? && Alone(s, i, acts).Some?
    ensures var p, q := s.procs[i], Alone(s, i, acts).value.procs[i];
            q.Buyer? && q.(pc := p.pc) == p
    decreases |acts|
  {
    if acts != [] {
      assert Step(s, i, acts[0]) == BuyerStep(s, i, acts[0]);
      AloneKeepsRequest(Step(s, i, acts[0]), i, acts[1..]);
    }
  }

  /** A checkout that nobody interleaves with is the serial checkout, whatever steps it takes: when it is
      finished, the tables are those the serial specification gives, or the old ones when that refuses or the
      connection was lost before the commit; and it has sent at most one invoice, of the exact total, which it
      can only have done after its commit. */
  lemma CheckoutAloneIsSerial(s: State, t: Tables, i: nat, acts: seq<Action>)
    requires Inv(s, t) && i < |s.procs| && s.procs[i].Buyer? && s.procs[i].pc.Idle?
    requires Alone(s, i, acts).Some? && Rank(Alone(s, i, acts).value.procs[i]) == 0
    ensures var p, u := s.procs[i], Alone(s, i, acts).value;
            && u.tables == (if Abort in acts then s.tables else Outcome(s.tables, OpFor(p)))
            && (u.invoices == s.invoices ||
                (&& Abort !in acts && Serial(s.tables, OpFor(p)).Some?
                 && u.invoices == s.invoices + [Posted(i, Invoice(p.user, p.email, p.product, p.quantity,
                                                                  Price(s.tables, p)))]))
  {
    AloneOnTheWay(s, t, i, acts, s.tables, s.invoices, false);
    AloneKeepsRequest(s, i, acts);
  }

  /** The row of a checkout that has not reserved it yet is free. */
  predicate RowFree(s: State, i: nat) {
    && i < |s.procs| && s.procs[i].Buyer?
    && (s.procs[i].pc.Idle? || s.procs[i].pc.Begun? ==> s.procs[i].product !in s.locks)
  }

  /** And it can always finish by steps of its own when its row is free at the start. */
  lemma {:induction false} CheckoutAloneFinishes(s: State, t: Tables, i: nat) returns (acts: seq<Action>)
    requires Inv(s, t) && RowFree(s, i)
    ensures Alone(s, i, acts).Some?
    ensures Rank(Alone(s, i, acts).value.procs[i]) == 0
    ensures forall k :: 0 <= k < |acts| ==> !ByEnvironment(acts[k])
    decreases Rank(s.procs[i])
  {
    if Rank(s.procs[i]) == 0 {
      acts := [];
    } else {
      if Holding(s.procs[i]) { HolderCanMove(s, i); } else { BuyerMovesOrWaits(s, i); }
      var a :| Enabled(s, i, a) && !ByEnvironment(a);
      var u := Step(s, i, a);
      StepKeepsInv(s, t, i, a);
      StepMovesOne(s, i, a);
      assert u == BuyerStep(s, i, a);
      var rest := CheckoutAloneFinishes(u, t, i);
      acts := [a] + rest;
    }
  }

  /** When a lone checkout that was not disconnected has sold: exactly if, at its start, the user and the product
      existed, the stock sufficed, down to the last unit, and quantity, remaining stock and total fit 32 bits. */
  lemma LoneBuyerSettlesExactly(s: State, t: Tables, i: nat, acts: seq<Action>)
    requires Inv(s, t) && i < |s.procs| && s.procs[i].Buyer? && s.procs[i].pc.Idle?
    requires Alone(s, i, acts).Some? && Rank(Alone(s, i, acts).value.procs[i]) == 0 && Abort !in acts
    ensures var p, q := s.procs[i], Alone(s, i, acts).value.procs[i];
            q.Buyer? &&
            (q.pc.Settled? <==>
             && p.user in s.tables.users && p.product in s.tables.rows && Fits32(p.quantity)
             && var r := s.tables.rows[p.product];
                && p.quantity <= r.stock && Fits32(r.stock - p.quantity) && Fits32(r.price * p.quantity))
  {
    AloneOnTheWay(s, t, i, acts, s.tables, s.invoices, false);
    AloneKeepsRequest(s, i, acts);
    SaleExactly(s.tables, s.procs[i].user, s.procs[i].product, s.procs[i].quantity);
  }

  /** The states a sale goes through, from an Inserted transaction on. */
  lemma CloseAndSend(s: State, t: Tables, i: nat) returns (u: State)
    requires Inv(s, t) && i < |s.procs| && s.procs[i].Buyer? && s.procs[i].pc.Inserted?
    ensures Alone(s, i, [Close, Send]) == Some(u)
    ensures var p := s.procs[i];
            && |u.procs| == |s.procs| && u.procs[i] == p.(pc := Settled(Sent, p.pc.total))
            && u.tables == s.tables.(rows := s.tables.rows[p.product := p.pc.written],
                                     txs := s.tables.txs + [Tx(p.user, p.product, p.quantity, p.pc.total)])
            && u.invoices == s.invoices + [Posted(i, Invoice(p.user, p.email, p.product, p.quantity, p.pc.total))]
            && p.product !in u.locks
  {
    var c := Step(s, i, Close);
    assert c == Settle(s, i, Pending);
    u := Step(c, i, Send);
    AloneOneMore(s, i, Close, [Send]);
    AloneOneMore(c, i, Send, []);
  }

  lemma AloneOneMore(s: State, i: nat, a: Action, acts: seq<Action>)
    requires Enabled(s, i, a)
    ensures Alone(s, i, [a] + acts) == Alone(Step(s, i, a), i, acts)
  {
  }

  /** From the start to an Inserted transaction. */
  lemma ReserveAndInsert(s: State, t: Tables, i: nat) returns (u: State)
    requires Inv(s, t) && i < |s.procs| && s.procs[i].Buyer? && s.procs[i].pc.Idle?
    requires var p := s.procs[i];
             && p.product !in s.locks
             && p.user in s.tables.users && p.product in s.tables.rows && Fits32(p.quantity)
             && var r := s.tables.rows[p.product];
                && p.quantity <= r.stock && Fits32(r.stock - p.quantity) && Fits32(r.price * p.quantity)
    ensures Inv(u, t) && |u.procs| == |s.procs| && u.tables == s.tables && u.invoices == s.invoices
    ensures var p, r := s.procs[i], s.tables.rows[s.procs[i].product];
            u.procs[i] == p.(pc := Inserted(r.(stock := r.stock - p.quantity), r.price * p.quantity))
    ensures forall acts :: Alone(u, i, acts).Some? ==>
              Alone(s, i, [Begin] + ([Reserve] + ([Insert] + acts))) == Alone(u, i, acts)
  {
    var p, r := s.procs[i], s.tables.rows[s.procs[i].product];
    assert Fits32(p.product);
    TotalExact(s.tables, p.product, p.quantity);
    var b := Step(s, i, Begin);
    StepKeepsInv(s, t, i, Begin);
    var c := Step(b, i, Reserve);
    StepKeepsInv(b, t, i, Reserve);
    u := Step(c, i, Insert);
    StepKeepsInv(c, t, i, Insert);
    forall acts | Alone(u, i, acts).Some?
      ensures Alone(s, i, [Begin] + ([Reserve] + ([Insert] + acts))) == Alone(u, i, acts)
    {
      AloneOneMore(c, i, Insert, acts);
      AloneOneMore(b, i, Reserve, [Insert] + acts);
      AloneOneMore(s, i, Begin, [Reserve] + ([Insert] + acts));
    }
  }

  /** And then it can sell: five steps take it to a sent invoice, with the stock lower by the quantity. */
  lemma LoneBuyerSells(s: State, t: Tables, i: nat) returns (acts: seq<Action>, u: State)
    requires Inv(s, t) && i < |s.procs| && s.procs[i].Buyer? && s.procs[i].pc.Idle?
    requires var p := s.procs[i];
             && p.product !in s.locks
             && p.user in s.tables.users && p.product in s.tables.rows && Fits32(p.quantity)
             && var r := s.tables.rows[p.product];
                && p.quantity <= r.stock && Fits32(r.stock - p.quantity) && Fits32(r.price * p.quantity)
    ensures Alone(s, i, acts) == Some(u) && |u.procs| == |s.procs|
    ensures forall k :: 0 <= k < |acts| ==> !ByEnvironment(acts[k])
    ensures var p, r := s.procs[i], s.tables.rows[s.procs[i].product]; var total := r.price * p.quantity;
            && u.procs[i] == p.(pc := Settled(Sent, total))
            && u.tables.rows == s.tables.rows[p.product := Row(r.name, r.price, r.stock - p.quantity)]
            && u.tables.txs == s.tables.txs + [Tx(p.user, p.product, p.quantity, total)]
            && u.invoices == s.invoices + [Posted(i, Invoice(p.user, p.email, p.product, p.quantity, total))]
  {
    var d := ReserveAndInsert(s, t, i);
    u := CloseAndSend(d, t, i);
    acts := [Begin] + ([Reserve] + ([Insert] + [Close, Send]));
  }

  /** The rows after a product write that hits, by kind of request. */
  function RowsAfter(s: State, r: Request): map<int, Row> {
    match r
    case Create(row) => s.tables.rows[s.nextId := row]
    case Update(id, row) => s.tables.rows[id := row]
    case Delete(id) => s.tables.rows - {id}
  }

  /** A lone product write whose row is free takes effect and is announced: a create with a row that fits its
      columns, an update of an existing row, a delete of one that was never sold. */
  lemma LoneWriteTakesEffect(s: State, t: Tables, i: nat) returns (u: State)
    requires Inv(s, t) && i < |s.procs| && s.procs[i].Admin? && s.procs[i].apc.Ready?
    requires Target(s, s.procs[i].request) !in s.locks
    requires match s.procs[i].request
             case Create(row) =>
               Fits32(s.nextId) && |row.name| <= 100 && Fits32(row.price) && Fits32(row.stock)
             case Update(id, row) =>
               id in s.tables.rows && |row.name| <= 100 && Fits32(row.price) && Fits32(row.stock)
             case Delete(id) =>
               id in s.tables.rows && forall k :: 0 <= k < |s.tables.txs| ==> s.tables.txs[k].product != id
    ensures Alone(s, i, [Exec, Invalidate, Announce]) == Some(u) && |u.procs| == |s.procs|
    ensures var r := s.procs[i].request;
            && u.procs[i] == Admin(r, Past(Announced, Target(s, r), true))
            && u.tables == s.tables.(rows := RowsAfter(s, r))
            && u.nextId == if r.Create? then s.nextId + 1 else s.nextId
  {
    var b := Step(s, i, Exec);
    assert b == Perform(s, i, Executed);
    var c := Step(b, i, Invalidate);
    assert c == AdminStep(b, i, Invalidate);
    u := Step(c, i, Announce);
    AloneOneMore(s, i, Exec, [Invalidate, Announce]);
    AloneOneMore(b, i, Invalidate, [Announce]);
    AloneOneMore(c, i, Announce, []);
  }
}
