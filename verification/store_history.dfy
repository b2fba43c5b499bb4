/** Which processes are in the commit history, what they were charged, what they announced, and why the
    others were turned away. */
module StoreHistory {
  import opened Models
  import opened Tables
  import opened Store
  import opened StoreSafety

  /** The operation a process left in the tables, if any. */
  function Effect(p: Proc): Option<Op> {
    match p
    case Buyer(user, _, product, quantity, pc) => if pc.Settled? then Some(Buy(user, product, quantity)) else None
    case Admin(r, apc) => if apc.Past? && apc.hit then Some(OpOf(r, apc.id)) else None
  }

  predicate Authored(cs: seq<Commit>, i: nat) {
    exists k :: 0 <= k < |cs| && cs[k].who == i
  }

  /** The history holds exactly the effects of the processes that had one, each once. */
  ghost predicate AuthorsOk(s: State) {
    && (forall k :: 0 <= k < |s.commits| ==>
          s.commits[k].who < |s.procs| && Effect(s.procs[s.commits[k].who]) == Some(s.commits[k].op))
    && (forall k, l :: 0 <= k < l < |s.commits| ==> s.commits[k].who != s.commits[l].who)
    && (forall i: nat :: i < |s.procs| && Effect(s.procs[i]).Some? ==> Authored(s.commits, i))
  }

  /** The price a sale was charged is the one committed when it committed. */
  ghost predicate ChargedAt(t: Tables, cs: seq<Commit>, k: nat, p: Proc)
    requires k < |cs|
  {
    && p.Buyer? && p.pc.Settled?
    && Replay(t, cs[..k]).Some?
    && p.product in Replay(t, cs[..k]).value.rows
    && p.pc.total == Replay(t, cs[..k]).value.rows[p.product].price * p.quantity
    && Fits32(p.pc.total)
  }

  ghost predicate ChargesOk(s: State, t: Tables) {
    forall k :: 0 <= k < |s.commits| && s.commits[k].op.Buy? ==>
      s.commits[k].who < |s.procs| && ChargedAt(t, s.commits, k, s.procs[s.commits[k].who])
  }

  /** The processes of the committed sales, in commit order. */
  function Sellers(cs: seq<Commit>): seq<nat> {
    if cs == [] then []
    else
      var c := cs[|cs| - 1];
      Sellers(cs[..|cs| - 1]) + if c.op.Buy? then [c.who] else []
  }

  lemma SellersAppend(cs: seq<Commit>, c: Commit)
    ensures Sellers(cs + [c]) == Sellers(cs) + if c.op.Buy? then [c.who] else []
  {
  }

  /** The transactions table is the initial one and one row per committed sale, in commit order. */
  ghost predicate TxsOk(s: State, t: Tables) {
    && |s.tables.txs| == |t.txs| + |Sellers(s.commits)|
    && s.tables.txs[..|t.txs|] == t.txs
    && forall k :: 0 <= k < |Sellers(s.commits)| ==>
         var i := Sellers(s.commits)[k];
         && i < |s.procs| && s.procs[i].Buyer? && s.procs[i].pc.Settled?
         && s.tables.txs[|t.txs| + k] == TxOf(s.procs[i])
  }

  predicate HasSent(p: Proc) {
    p.Buyer? && p.pc.Settled? && p.pc.delivery.Sent?
  }

  predicate PostedBy(ps: seq<Posted>, i: nat) {
    exists j :: 0 <= j < |ps| && ps[j].sender == i
  }

  /** The invoice log holds exactly one message per process whose send succeeded. */
  ghost predicate InvoicesOk(s: State) {
    && (forall j :: 0 <= j < |s.invoices| ==>
          var i := s.invoices[j].sender;
          i < |s.procs| && HasSent(s.procs[i]) && s.invoices[j].invoice == InvoiceOf(s.procs[i]))
    && (forall j, l :: 0 <= j < l < |s.invoices| ==> s.invoices[j].sender != s.invoices[l].sender)
    && (forall i: nat :: i < |s.procs| && HasSent(s.procs[i]) ==> PostedBy(s.invoices, i))
  }

  /** A stock refusal names a version of the tables that refused it. */
  ghost predicate RefusedAt(s: State, t: Tables, p: Proc)
    requires p.Buyer? && p.pc.Refused?
  {
    && p.pc.at <= |s.commits|
    && Replay(t, s.commits[..p.pc.at]).Some?
    && ReserveStock(Replay(t, s.commits[..p.pc.at]).value, p.product, p.quantity).NoRows?
  }

  ghost predicate RefusalsOk(s: State, t: Tables) {
    forall i :: 0 <= i < |s.procs| && s.procs[i].Buyer? && s.procs[i].pc.Refused? ==> RefusedAt(s, t, s.procs[i])
  }

  ghost predicate Hist(s: State, t: Tables) {
    AuthorsOk(s) && ChargesOk(s, t) && TxsOk(s, t) && InvoicesOk(s) && RefusalsOk(s, t)
  }

  lemma InitHist(s: State, t: Tables)
    requires Init(s, t)
    ensures Hist(s, t)
  {
  }

  // ----- How a step may change the history -----

  ghost predicate SettledBuyer(p: Proc) {
    p.Buyer? && p.pc.Settled?
  }

  /** A step either leaves the history and the tables, or appends the effect of the process that moved. */
  ghost predicate Advances(s: State, s': State, i: nat) {
    && i < |s.procs| && |s'.procs| == |s.procs|
    && (forall j :: 0 <= j < |s.procs| && j != i ==> s'.procs[j] == s.procs[j])
    && if s'.commits == s.commits
       then && s'.tables == s.tables && Effect(s'.procs[i]) == Effect(s.procs[i])
            && (SettledBuyer(s.procs[i]) ==> SettledBuyer(s'.procs[i]) && TxOf(s'.procs[i]) == TxOf(s.procs[i]))
       else && Effect(s.procs[i]).None? && Effect(s'.procs[i]).Some?
            && s'.commits == s.commits + [Commit(i, Effect(s'.procs[i]).value)]
            && s'.tables.txs == s.tables.txs + if SettledBuyer(s'.procs[i]) then [TxOf(s'.procs[i])] else []
  }

  /** A process that has sent its invoice does not move again, and only sends append to the log. */
  ghost predicate Announces(s: State, s': State, i: nat) {
    && i < |s.procs| && |s'.procs| == |s.procs|
    && (forall j :: 0 <= j < |s.procs| && j != i ==> s'.procs[j] == s.procs[j])
    && !HasSent(s.procs[i])
    && if HasSent(s'.procs[i]) then s'.invoices == s.invoices + [Posted(i, InvoiceOf(s'.procs[i]))]
       else s'.invoices == s.invoices
  }

  lemma BuyerStepAdvances(s: State, i: nat, a: Action)
    requires i < |s.procs| && s.procs[i].Buyer? && BuyerEnabled(s, s.procs[i], a)
    ensures Advances(s, BuyerStep(s, i, a), i) && Announces(s, BuyerStep(s, i, a), i)
  {
  }

  lemma AdminStepAdvances(s: State, i: nat, a: Action)
    requires i < |s.procs| && s.procs[i].Admin? && AdminEnabled(s, s.procs[i], a)
    ensures Advances(s, AdminStep(s, i, a), i) && Announces(s, AdminStep(s, i, a), i)
  {
    if a.Exec? || a.ExecLost? {
      PerformIsSerial(s, i, Executed);
    }
  }

  lemma StepAdvances(s: State, i: nat, a: Action)
    requires Enabled(s, i, a)
    ensures Advances(s, Step(s, i, a), i) && Announces(s, Step(s, i, a), i)
  {
    if s.procs[i].Buyer? {
      BuyerStepAdvances(s, i, a);
    } else {
      AdminStepAdvances(s, i, a);
    }
  }

  lemma AuthoredAppend(cs: seq<Commit>, c: Commit, i: nat)
    ensures Authored(cs + [c], i) <==> Authored(cs, i) || c.who == i
  {
    if Authored(cs, i) {
      var k :| 0 <= k < |cs| && cs[k].who == i;
      assert (cs + [c])[k].who == i;
    }
    if c.who == i {
      assert (cs + [c])[|cs|].who == i;
    }
  }

  lemma StepKeepsAuthors(s: State, s': State, i: nat)
    requires AuthorsOk(s) && Advances(s, s', i)
    ensures AuthorsOk(s')
  {
    if s'.commits != s.commits {
      forall j: nat | j < |s'.procs| && Effect(s'.procs[j]).Some? ensures Authored(s'.commits, j) {
        AuthoredAppend(s.commits, s'.commits[|s.commits|], j);
      }
    }
  }

  lemma ChargeKept(s: State, s': State, t: Tables, i: nat, k: nat)
    requires AuthorsOk(s) && ChargesOk(s, t) && Advances(s, s', i)
    requires k < |s.commits| && s.commits[k].op.Buy?
    ensures ChargedAt(t, s'.commits, k, s'.procs[s.commits[k].who])
  {
    assert s'.commits[..k] == s.commits[..k];
    assert ChargedAt(t, s.commits, k, s.procs[s.commits[k].who]);
    assert Effect(s.procs[s.commits[k].who]).Some?;
  }

  lemma NewCharge(s: State, t: Tables, i: nat, a: Action)
    requires Inv(s, t) && Enabled(s, i, a) && |Step(s, i, a).commits| > |s.commits|
    requires Step(s, i, a).commits[|s.commits|].op.Buy?
    ensures var s' := Step(s, i, a);
            s'.commits[|s.commits|].who == i && ChargedAt(t, s'.commits, |s.commits|, s'.procs[i])
  {
    var s' := Step(s, i, a);
    assert a.Close? || a.CloseLost?;
    assert HolderOk(s, i);
    TotalExact(s.tables, s.procs[i].product, s.procs[i].quantity);
    assert s'.commits[..|s.commits|] == s.commits;
  }

  lemma StepKeepsCharges(s: State, t: Tables, i: nat, a: Action)
    requires Inv(s, t) && AuthorsOk(s) && ChargesOk(s, t) && Enabled(s, i, a)
    ensures ChargesOk(Step(s, i, a), t)
  {
    var s' := Step(s, i, a);
    StepAdvances(s, i, a);
    forall k | 0 <= k < |s'.commits| && s'.commits[k].op.Buy?
      ensures s'.commits[k].who < |s'.procs| && ChargedAt(t, s'.commits, k, s'.procs[s'.commits[k].who])
    {
      if k < |s.commits| {
        ChargeKept(s, s', t, i, k);
      } else {
        NewCharge(s, t, i, a);
      }
    }
  }

  lemma StepKeepsTxs(s: State, s': State, t: Tables, i: nat)
    requires AuthorsOk(s) && TxsOk(s, t) && Advances(s, s', i)
    ensures TxsOk(s', t)
  {
    if s'.commits != s.commits {
      var c := s'.commits[|s.commits|];
      SellersAppend(s.commits, c);
      assert c.op.Buy? <==> SettledBuyer(s'.procs[i]);
    }
  }

  lemma StepKeepsInvoices(s: State, s': State, i: nat)
    requires InvoicesOk(s) && Announces(s, s', i)
    ensures InvoicesOk(s')
  {
    forall j: nat | j < |s'.procs| && HasSent(s'.procs[j]) ensures PostedBy(s'.invoices, j) {
      if j == i {
        assert s'.invoices[|s.invoices|].sender == i;
      } else {
        var l :| 0 <= l < |s.invoices| && s.invoices[l].sender == j;
        assert s'.invoices[l].sender == j;
      }
    }
  }

  lemma StepKeepsRefusals(s: State, t: Tables, i: nat, a: Action)
    requires Refines(s, t) && RefusalsOk(s, t) && Enabled(s, i, a)
    ensures RefusalsOk(Step(s, i, a), t)
  {
    var s' := Step(s, i, a);
    StepAdvances(s, i, a);
    forall j | 0 <= j < |s'.procs| && s'.procs[j].Buyer? && s'.procs[j].pc.Refused?
      ensures RefusedAt(s', t, s'.procs[j])
    {
      if j == i {
        assert a.Refuse?;
        assert s'.commits[..|s.commits|] == s.commits;
      } else {
        assert RefusedAt(s, t, s.procs[j]);
        assert s'.commits[..s.procs[j].pc.at] == s.commits[..s.procs[j].pc.at];
      }
    }
  }

  lemma StepKeepsHist(s: State, t: Tables, i: nat, a: Action)
    requires Inv(s, t) && Hist(s, t) && Enabled(s, i, a)
    ensures Hist(Step(s, i, a), t)
  {
    StepAdvances(s, i, a);
    StepKeepsAuthors(s, Step(s, i, a), i);
    StepKeepsCharges(s, t, i, a);
    StepKeepsTxs(s, Step(s, i, a), t, i);
    StepKeepsInvoices(s, Step(s, i, a), i);
    StepKeepsRefusals(s, t, i, a);
  }

  lemma {:induction false} RunKeepsHist(s: State, t: Tables, ms: seq<Move>)
    requires Init(s, t) && Run(s, ms).Some?
    ensures Inv(Run(s, ms).value, t) && Hist(Run(s, ms).value, t)
  {
    RunKeepsInv(s, t, ms);
    if ms == [] {
      InitHist(s, t);
    } else {
      RunKeepsHist(s, t, ms[..|ms| - 1]);
      StepKeepsHist(Run(s, ms[..|ms| - 1]).value, t, ms[|ms| - 1].i, ms[|ms| - 1].a);
    }
  }
}
