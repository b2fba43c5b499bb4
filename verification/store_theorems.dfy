/** The results about every schedule of any number of concurrent checkouts, creates, updates and deletes. */
module StoreTheorems {
  import opened Models
  import opened Tables
  import opened Store
  import opened StoreSafety
  import opened StoreHistory
  import opened StoreProgress

  /** Serial refinement: whatever the schedule, the tables are those of running the committed operations one at
      a time in commit order; every process is in that order at most once, and exactly if it had an effect. */
  lemma {:induction false} SerialRefinement(s: State, t: Tables, ms: seq<Move>)
    requires Init(s, t) && Run(s, ms).Some?
    ensures var u := Run(s, ms).value;
            && Replay(t, u.commits) == Some(u.tables)
            && (forall k :: 0 <= k < |u.commits| ==>
                  u.commits[k].who < |u.procs| && Effect(u.procs[u.commits[k].who]) == Some(u.commits[k].op))
            && (forall k, l :: 0 <= k < l < |u.commits| ==> u.commits[k].who != u.commits[l].who)
            && (forall i: nat :: i < |u.procs| ==> (Effect(u.procs[i]).Some? <==> Authored(u.commits, i)))
  {
    RunKeepsHist(s, t, ms);
  }

  /** What the caller of the process was told. */
  predicate ReportsError(p: Proc) {
    match p
    case Buyer(_, _, _, _, pc) =>
      pc.Refused? || pc.Failed? || (pc.Settled? && pc.delivery.LostAck?)
    case Admin(_, apc) => apc.Rejected? || (apc.Past? && apc.stage.Lost?)
  }

  /** The schedule lost the acknowledgement of a commit or an autocommitted statement of process i. */
  predicate AckLost(ms: seq<Move>, i: nat) {
    Move(i, CloseLost) in ms || Move(i, ExecLost) in ms
  }

  /** The process has changed the tables and was told that it failed. */
  predicate LeftByLoss(p: Proc) {
    match p
    case Buyer(_, _, _, _, pc) => pc.Settled? && pc.delivery.LostAck?
    case Admin(_, apc) => apc.Past? && apc.stage.Lost?
  }

  lemma StepLosesAck(s: State, j: nat, a: Action, i: nat)
    requires Enabled(s, j, a) && i < |s.procs|
    ensures |Step(s, j, a).procs| == |s.procs|
    ensures LeftByLoss(Step(s, j, a).procs[i]) <==>
            LeftByLoss(s.procs[i]) || (j == i && (a.CloseLost? || a.ExecLost?))
  {
    StepAdvances(s, j, a);
    if s.procs[j].Buyer? {
      assert Step(s, j, a) == BuyerStep(s, j, a);
    } else {
      assert Step(s, j, a) == AdminStep(s, j, a);
    }
  }

  lemma {:induction false} LossIsInSchedule(s: State, ms: seq<Move>, i: nat)
    requires Run(s, ms).Some? && i < |s.procs| && !LeftByLoss(s.procs[i])
    ensures |Run(s, ms).value.procs| == |s.procs|
    ensures LeftByLoss(Run(s, ms).value.procs[i]) <==> AckLost(ms, i)
  {
    if ms != [] {
      var pre, m := ms[..|ms| - 1], ms[|ms| - 1];
      LossIsInSchedule(s, pre, i);
      StepLosesAck(Run(s, pre).value, m.i, m.a, i);
      assert ms == pre + [m];
    }
  }

  /** A process that reported an error left a trace in the tables exactly if the schedule lost the
      acknowledgement of its commit (and, for a product write, its statement had hit a row); any other failed
      process is not in the history; and none of them sent anything or holds a lock. */
  lemma FailureLeavesNoTrace(s: State, t: Tables, ms: seq<Move>, i: nat)
    requires Init(s, t) && Run(s, ms).Some? && i < |s.procs|
    ensures |Run(s, ms).value.procs| == |s.procs|
    ensures var u := Run(s, ms).value; var p := u.procs[i];
            ReportsError(p) ==>
              && (Authored(u.commits, i) <==> AckLost(ms, i) && (p.Admin? ==> p.apc.Past? && p.apc.hit))
              && !PostedBy(u.invoices, i)
              && forall id :: id in u.locks ==> u.locks[id] != i
  {
    LossIsInSchedule(s, ms, i);
    RunKeepsHist(s, t, ms);
  }

  /** And a process that ended without reporting an error has taken effect, unless it is an update or delete that
      found no row. */
  lemma SuccessIsInHistory(s: State, t: Tables, ms: seq<Move>, i: nat)
    requires Init(s, t) && Run(s, ms).Some? && i < |Run(s, ms).value.procs|
    requires Rank(Run(s, ms).value.procs[i]) == 0 && !ReportsError(Run(s, ms).value.procs[i])
    ensures var u := Run(s, ms).value; var p := u.procs[i];
            Authored(u.commits, i) || (p.Admin? && p.apc.Past? && !p.apc.hit)
  {
    RunKeepsHist(s, t, ms);
    assert Effect(Run(s, ms).value.procs[i]).Some? ==> Authored(Run(s, ms).value.commits, i);
  }

  lemma RunAppend(s: State, ms: seq<Move>, m: Move)
    requires Run(s, ms).Some? && Enabled(Run(s, ms).value, m.i, m.a)
    ensures Run(s, ms + [m]) == Some(Step(Run(s, ms).value, m.i, m.a))
  {
    assert (ms + [m])[..|ms + [m]| - 1] == ms;
  }

  /** It does happen: whenever a checkout can succeed at all, it can also sell and report an error. */
  lemma LostAckSells(s: State, t: Tables, i: nat) returns (ms: seq<Move>)
    requires Init(s, t) && i < |s.procs| && s.procs[i].Buyer?
    requires var p := s.procs[i]; Serial(t, Buy(p.user, p.product, p.quantity)).Some?
    ensures Run(s, ms).Some? && |Run(s, ms).value.procs| == |s.procs|
    ensures var p, u := s.procs[i], Run(s, ms).value;
            && ReportsError(u.procs[i]) && Authored(u.commits, i)
            && Serial(t, Buy(p.user, p.product, p.quantity)) == Some(u.tables)
  {
    var p := s.procs[i];
    TotalExact(t, p.product, p.quantity);
    var acts := [Begin, Reserve, Insert];
    ms := [];
    var u := s;
    for k := 0 to 3
      invariant Run(s, ms) == Some(u)
      invariant u.tables == t && u.commits == [] && |u.procs| == |s.procs|
      invariant u.procs[i].Buyer? && u.procs[i].(pc := p.pc) == p
      invariant u.locks == if k < 2 then map[] else map[p.product := i]
      invariant
        var w := ReserveStock(t, p.product, p.quantity).written;
        u.procs[i].pc == if k == 0 then Idle else if k == 1 then Begun else if k == 2 then Reserved(w)
                         else Inserted(w, Total(w, p.quantity))
    {
      RunAppend(s, ms, Move(i, acts[k]));
      u := Step(u, i, acts[k]);
      ms := ms + [Move(i, acts[k])];
    }
    RunAppend(s, ms, Move(i, CloseLost));
    ms := ms + [Move(i, CloseLost)];
    assert Run(s, ms).value.commits[0].who == i;
  }

  /** A refusal for stock is justified: at the moment of the check a serial run had brought the tables to a
      version in which the product is missing or has less stock than was asked for. */
  lemma RefusalIsJustified(s: State, t: Tables, ms: seq<Move>, i: nat)
    requires Init(s, t) && Run(s, ms).Some? && i < |Run(s, ms).value.procs|
    requires Run(s, ms).value.procs[i].Buyer? && Run(s, ms).value.procs[i].pc.Refused?
    ensures var u := Run(s, ms).value; var p := u.procs[i];
            && p.pc.at <= |u.commits|
            && Replay(t, u.commits[..p.pc.at]).Some?
            && var v := Replay(t, u.commits[..p.pc.at]).value;
               p.product !in v.rows || v.rows[p.product].stock < p.quantity
  {
    RunKeepsHist(s, t, ms);
    assert RefusedAt(Run(s, ms).value, t, Run(s, ms).value.procs[i]);
  }

  /** Every committed sale was charged exactly quantity times the price committed at that moment, and it fits. */
  lemma ChargesAreExact(s: State, t: Tables, ms: seq<Move>, k: nat)
    requires Init(s, t) && Run(s, ms).Some?
    requires k < |Run(s, ms).value.commits| && Run(s, ms).value.commits[k].op.Buy?
    ensures var u := Run(s, ms).value; var op := u.commits[k].op;
            && Replay(t, u.commits[..k]).Some?
            && op.product in Replay(t, u.commits[..k]).value.rows
            && u.commits[k].who < |u.procs| && SettledBuyer(u.procs[u.commits[k].who])
            && var total := Replay(t, u.commits[..k]).value.rows[op.product].price * op.quantity;
               TxOf(u.procs[u.commits[k].who]) == Tx(op.user, op.product, op.quantity, total) && Fits32(total)
  {
    RunKeepsHist(s, t, ms);
    var u := Run(s, ms).value;
    assert ChargedAt(t, u.commits, k, u.procs[u.commits[k].who]);
    assert Effect(u.procs[u.commits[k].who]) == Some(u.commits[k].op);
  }

  /** A reservation whose total exceeds the INT column can only be undone: the INSERT is refused, and the
      rollback gives the row back with its stock as it was. */
  lemma OversizedTotalIsUndone(s: State, t: Tables, i: nat, a: Action)
    requires Inv(s, t) && Enabled(s, i, a) && s.procs[i].Buyer? && s.procs[i].pc.Reserved?
    requires !Fits32(s.tables.rows[s.procs[i].product].price * s.procs[i].quantity)
    ensures a.InsertError? || a.Abort?
    ensures Enabled(s, i, InsertError)
    ensures Step(s, i, a).tables == s.tables && Step(s, i, a).procs[i].pc.Failed?
    ensures s.procs[i].product !in Step(s, i, a).locks
  {
    assert HolderOk(s, i);
    TotalExact(s.tables, s.procs[i].product, s.procs[i].quantity);
  }

  /** Every transaction keeps its product and its user: a product that was sold is never deleted. */
  lemma SoldProductsStay(s: State, t: Tables, ms: seq<Move>, k: nat)
    requires Init(s, t) && Run(s, ms).Some? && k < |Run(s, ms).value.tables.txs|
    ensures var u := Run(s, ms).value.tables; u.txs[k].product in u.rows && u.txs[k].user in u.users
  {
    RunKeepsInv(s, t, ms);
    assert TxFits(Run(s, ms).value.tables, Run(s, ms).value.tables.txs[k]);
  }

  // ----- Stock -----

  /** Every product write was validated by the handler before it reached the store. */
  ghost predicate Validated(s: State) {
    forall i :: 0 <= i < |s.procs| && s.procs[i].Admin? && !s.procs[i].request.Delete? ==>
      ValidProduct(AsProduct(0, s.procs[i].request.row))
  }

  lemma {:induction false} RunKeepsValidated(s: State, ms: seq<Move>)
    requires Validated(s) && Run(s, ms).Some?
    ensures Validated(Run(s, ms).value)
  {
    if ms != [] {
      RunKeepsValidated(s, ms[..|ms| - 1]);
      var u, m := Run(s, ms[..|ms| - 1]).value, ms[|ms| - 1];
      if u.procs[m.i].Admin? {
        assert Step(u, m.i, m.a) == AdminStep(u, m.i, m.a);
      } else {
        assert Step(u, m.i, m.a) == BuyerStep(u, m.i, m.a);
      }
    }
  }

  lemma {:induction false} LastWrittenOrigin(t: Tables, cs: seq<Commit>, id: int)
    requires LastWritten(t, cs, id).Some?
    ensures || (id in t.rows && LastWritten(t, cs, id).value == t.rows[id])
            || exists k :: 0 <= k < |cs| && (cs[k].op.Add? || cs[k].op.Edit?) &&
                           LastWritten(t, cs, id).value == cs[k].op.row
  {
    if cs != [] {
      var pre, op := cs[..|cs| - 1], cs[|cs| - 1].op;
      if (op.Add? || op.Edit?) && op.id == id {
        assert cs[|cs| - 1].op == op;
      } else {
        LastWrittenOrigin(t, pre, id);
        if k :| 0 <= k < |pre| && (pre[k].op.Add? || pre[k].op.Edit?) &&
                LastWritten(t, pre, id).value == pre[k].op.row {
          assert cs[k] == pre[k];
        }
      }
    }
  }

  lemma WrittenStockPositive(s: State, t: Tables, id: int)
    requires AuthorsOk(s) && Validated(s) && LastWritten(t, s.commits, id).Some?
    ensures var w := LastWritten(t, s.commits, id).value; w.stock > 0 || (id in t.rows && w == t.rows[id])
  {
    LastWrittenOrigin(t, s.commits, id);
    if k :| 0 <= k < |s.commits| && (s.commits[k].op.Add? || s.commits[k].op.Edit?) &&
            LastWritten(t, s.commits, id).value == s.commits[k].op.row {
      assert Effect(s.procs[s.commits[k].who]) == Some(s.commits[k].op);
    }
  }

  /** Stock conservation and no oversell, for every schedule: a product exists exactly if its last committed
      write is not a delete; it then has that write's name and price, its stock and the units committed since
      add up to that write's stock, its stock is not negative, and it is zero only if units were sold or the
      product started out with none and was not written since. */
  lemma StockConserved(s: State, t: Tables, ms: seq<Move>, id: int)
    requires Init(s, t) && Run(s, ms).Some? && Validated(s)
    requires id in t.rows ==> t.rows[id].stock >= 0
    ensures var u := Run(s, ms).value;
            var w := LastWritten(t, u.commits, id);
            && (id in u.tables.rows <==> w.Some?)
            && (w.Some? ==>
                  var r := u.tables.rows[id];
                  && r.name == w.value.name && r.price == w.value.price
                  && r.stock + SoldSince(u.commits, id) == w.value.stock
                  && r.stock >= 0
                  && (r.stock == 0 ==>
                        || SoldSince(u.commits, id) > 0
                        || (id in t.rows && t.rows[id].stock == 0 && w.value == t.rows[id])))
  {
    RunKeepsHist(s, t, ms);
    RunKeepsValidated(s, ms);
    var u := Run(s, ms).value;
    ReplayConserves(t, u.commits, id);
    if LastWritten(t, u.commits, id).Some? {
      WrittenStockPositive(u, t, id);
      ReplayNeverOversells(t, u.commits, id);
    }
  }

  // ----- Invoices -----

  /** f places every invoice at a transaction the run committed: different invoices at different
      transactions, with the same user, product, quantity and total. */
  ghost predicate Embedding(u: State, t: Tables, f: seq<nat>) {
    && |f| == |u.invoices|
    && (forall j, l :: 0 <= j < l < |f| ==> f[j] != f[l])
    && (forall j :: 0 <= j < |f| ==>
          && |t.txs| <= f[j] < |u.tables.txs|
          && var v := u.invoices[j].invoice; u.tables.txs[f[j]] == Tx(v.user, v.product, v.quantity, v.total))
  }

  ghost predicate PositionOf(u: State, t: Tables, j: nat, pos: nat) {
    && j < |u.invoices| && |t.txs| <= pos < |t.txs| + |Sellers(u.commits)|
    && Sellers(u.commits)[pos - |t.txs|] == u.invoices[j].sender
  }

  lemma Positions(u: State, t: Tables) returns (f: seq<nat>)
    requires AuthorsOk(u) && InvoicesOk(u)
    ensures |f| == |u.invoices| && forall j :: 0 <= j < |f| ==> PositionOf(u, t, j, f[j])
  {
    f := [];
    while |f| < |u.invoices|
      invariant |f| <= |u.invoices|
      invariant forall j :: 0 <= j < |f| ==> PositionOf(u, t, j, f[j])
    {
      var k := SellerPosition(u, u.invoices[|f|].sender);
      f := f + [|t.txs| + k];
    }
  }

  lemma PositionsEmbed(u: State, t: Tables, f: seq<nat>)
    requires TxsOk(u, t) && InvoicesOk(u)
    requires |f| == |u.invoices| && forall j :: 0 <= j < |f| ==> PositionOf(u, t, j, f[j])
    ensures Embedding(u, t, f)
  {
  }

  lemma PositionsMissUnsent(u: State, t: Tables, f: seq<nat>, k: nat)
    requires AuthorsOk(u) && TxsOk(u, t) && InvoicesOk(u) && k < |Sellers(u.commits)|
    requires |f| == |u.invoices| && forall j :: 0 <= j < |f| ==> PositionOf(u, t, j, f[j])
    ensures |t.txs| + k in f <==> u.procs[Sellers(u.commits)[k]].pc.delivery.Sent?
  {
    var i := Sellers(u.commits)[k];
    if |t.txs| + k in f {
      var j :| 0 <= j < |f| && f[j] == |t.txs| + k;
      assert PositionOf(u, t, j, f[j]);
    }
    if HasSent(u.procs[i]) {
      assert PostedBy(u.invoices, i);
      var j :| 0 <= j < |u.invoices| && u.invoices[j].sender == i;
      assert PositionOf(u, t, j, f[j]);
      SellersDistinct(u.commits);
      assert f[j] == |t.txs| + k;
    }
  }

  /** The invoice log embeds into the transactions the run committed, and a committed transaction is outside
      the image exactly if its process has not sent yet, could not send, or never learned that it committed. */
  lemma InvoicesMatchTransactions(s: State, t: Tables, ms: seq<Move>) returns (f: seq<nat>)
    requires Init(s, t) && Run(s, ms).Some?
    ensures Embedding(Run(s, ms).value, t, f)
    ensures TxsOk(Run(s, ms).value, t)
    ensures var u := Run(s, ms).value;
            forall k :: 0 <= k < |Sellers(u.commits)| ==>
              (|t.txs| + k in f <==> u.procs[Sellers(u.commits)[k]].pc.delivery.Sent?)
  {
    RunKeepsHist(s, t, ms);
    var u := Run(s, ms).value;
    f := Positions(u, t);
    PositionsEmbed(u, t, f);
    forall k | 0 <= k < |Sellers(u.commits)|
      ensures |t.txs| + k in f <==> u.procs[Sellers(u.commits)[k]].pc.delivery.Sent?
    {
      PositionsMissUnsent(u, t, f, k);
    }
  }

  lemma {:induction false} SellersComplete(cs: seq<Commit>, k: nat) returns (m: nat)
    requires k < |cs| && cs[k].op.Buy?
    ensures m < |Sellers(cs)| && Sellers(cs)[m] == cs[k].who
  {
    if k == |cs| - 1 {
      m := |Sellers(cs)| - 1;
    } else {
      m := SellersComplete(cs[..|cs| - 1], k);
    }
  }

  lemma SellerPosition(u: State, i: nat) returns (k: nat)
    requires AuthorsOk(u) && i < |u.procs| && SettledBuyer(u.procs[i])
    ensures k < |Sellers(u.commits)| && Sellers(u.commits)[k] == i
  {
    assert Effect(u.procs[i]).Some?;
    var c :| 0 <= c < |u.commits| && u.commits[c].who == i;
    k := SellersComplete(u.commits, c);
  }

  lemma {:induction false} SellersSound(cs: seq<Commit>, m: nat)
    requires m < |Sellers(cs)|
    ensures exists k :: 0 <= k < |cs| && cs[k].who == Sellers(cs)[m]
  {
    var pre := cs[..|cs| - 1];
    if m < |Sellers(pre)| {
      SellersSound(pre, m);
      var k :| 0 <= k < |pre| && pre[k].who == Sellers(pre)[m];
      assert cs[k].who == Sellers(cs)[m];
    } else {
      assert cs[|cs| - 1].who == Sellers(cs)[m];
    }
  }

  lemma {:induction false} SellersDistinct(cs: seq<Commit>)
    requires forall k, l :: 0 <= k < l < |cs| ==> cs[k].who != cs[l].who
    ensures forall k, l :: 0 <= k < l < |Sellers(cs)| ==> Sellers(cs)[k] != Sellers(cs)[l]
  {
    if cs != [] {
      var pre := cs[..|cs| - 1];
      SellersDistinct(pre);
      forall m | 0 <= m < |Sellers(pre)| ensures Sellers(pre)[m] != cs[|cs| - 1].who {
        SellersSound(pre, m);
      }
    }
  }
}
