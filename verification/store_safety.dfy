/** What every reachable state of the concurrent store keeps: it is a serial run of the operations that
    committed, in commit order. */
module StoreSafety {
  import opened Models
  import opened Tables
  import opened Store

  // ----- Locks -----

  ghost predicate LocksHeld(s: State) {
    forall id :: id in s.locks ==>
      s.locks[id] < |s.procs| && Holding(s.procs[s.locks[id]]) && s.procs[s.locks[id]].product == id
  }

  /** An open transaction owns its row, and what it wrote is what the statement would still write now. */
  ghost predicate HolderOk(s: State, i: nat)
    requires i < |s.procs| && Holding(s.procs[i])
  {
    var p := s.procs[i];
    && p.product in s.locks && s.locks[p.product] == i
    && ReserveStock(s.tables, p.product, p.quantity) == Taken(p.pc.written)
    && (p.pc.Inserted? ==>
          && p.pc.total == Total(p.pc.written, p.quantity)
          && InsertTx(s.tables, p.user, p.product, p.quantity, p.pc.total).Some?)
  }

  ghost predicate HoldersOk(s: State) {
    forall i :: 0 <= i < |s.procs| && Holding(s.procs[i]) ==> HolderOk(s, i)
  }

  ghost predicate Refines(s: State, t: Tables) {
    Replay(t, s.commits) == Some(s.tables)
  }

  ghost predicate IdsBelow(s: State) {
    forall id :: id in s.tables.rows ==> id < s.nextId
  }

  ghost predicate Inv(s: State, t: Tables) {
    && LocksHeld(s)
    && HoldersOk(s)
    && Refines(s, t)
    && WellTyped(s.tables)
    && IdsBelow(s)
  }

  lemma InitInv(s: State, t: Tables)
    requires Init(s, t)
    ensures Inv(s, t)
  {
  }

  /** The total a commit writes is the exact product of the price and the quantity. */
  lemma TotalExact(t: Tables, id: int, quantity: int)
    requires WellTyped(t) && ReserveStock(t, id, quantity).Taken?
    ensures Total(ReserveStock(t, id, quantity).written, quantity) == t.rows[id].price * quantity
  {
    ProductFits64(t.rows[id].price, quantity);
  }

  /** Committing a transaction that still owns its row is the serial operation. */
  lemma SettleIsSerial(s: State, i: nat, d: Delivery)
    requires WellTyped(s.tables) && i < |s.procs| && Holding(s.procs[i]) && HolderOk(s, i) && s.procs[i].pc.Inserted?
    ensures var p := s.procs[i]; Serial(s.tables, Buy(p.user, p.product, p.quantity)) == Some(Settle(s, i, d).tables)
  {
    TotalExact(s.tables, s.procs[i].product, s.procs[i].quantity);
  }

  lemma PerformIsSerial(s: State, i: nat, stage: Stage)
    requires i < |s.procs| && s.procs[i].Admin? && Statement(s, s.procs[i].request).Wrote?
    ensures var r, w := s.procs[i].request, Statement(s, s.procs[i].request);
            if w.affected then Serial(s.tables, OpOf(r, Target(s, r))) == Some(w.t) else w.t == s.tables
  {
  }

  /** A transaction that owns its row is not disturbed by a write of another row. */
  lemma HolderUndisturbed(s: State, s': State, j: nat)
    requires j < |s.procs| == |s'.procs| && s'.procs[j] == s.procs[j]
    requires Holding(s.procs[j]) && HolderOk(s, j)
    requires s'.tables.users == s.tables.users
    requires var id := s.procs[j].product;
             && id in s'.tables.rows && s'.tables.rows[id] == s.tables.rows[id]
             && id in s'.locks && s'.locks[id] == j
    ensures HolderOk(s', j)
  {
  }

  // ----- Each step keeps the invariant -----

  lemma SettleKeepsInv(s: State, t: Tables, i: nat, d: Delivery)
    requires Inv(s, t) && i < |s.procs| && s.procs[i].Buyer? && s.procs[i].pc.Inserted?
    ensures Inv(Settle(s, i, d), t)
  {
    var s' := Settle(s, i, d);
    var p := s.procs[i];
    SettleIsSerial(s, i, d);
    ReplayAppend(t, s.commits, Commit(i, Buy(p.user, p.product, p.quantity)));
    SerialKeepsWellTyped(s.tables, Buy(p.user, p.product, p.quantity));
    forall j | 0 <= j < |s'.procs| && Holding(s'.procs[j]) ensures HolderOk(s', j) {
      assert j != i && HolderOk(s, i) && HolderOk(s, j);
      HolderUndisturbed(s, s', j);
    }
  }

  lemma PerformKeepsHolder(s: State, i: nat, stage: Stage, j: nat)
    requires i < |s.procs| && s.procs[i].Admin?
    requires Statement(s, s.procs[i].request).Wrote? && Target(s, s.procs[i].request) !in s.locks
    requires j < |s.procs| && Holding(s.procs[j]) && HolderOk(s, j)
    ensures HolderOk(Perform(s, i, stage), j)
  {
  }

  lemma PerformKeepsTables(s: State, t: Tables, i: nat, stage: Stage)
    requires Refines(s, t) && WellTyped(s.tables) && IdsBelow(s) && i < |s.procs| && s.procs[i].Admin?
    requires Statement(s, s.procs[i].request).Wrote?
    ensures var s' := Perform(s, i, stage); Refines(s', t) && WellTyped(s'.tables) && IdsBelow(s')
  {
    var r := s.procs[i].request;
    var op := OpOf(r, Target(s, r));
    PerformIsSerial(s, i, stage);
    if Statement(s, r).affected {
      ReplayAppend(t, s.commits, Commit(i, op));
      SerialKeepsWellTyped(s.tables, op);
    }
  }

  lemma PerformKeepsInv(s: State, t: Tables, i: nat, stage: Stage)
    requires Inv(s, t) && i < |s.procs| && s.procs[i].Admin?
    requires Statement(s, s.procs[i].request).Wrote? && Target(s, s.procs[i].request) !in s.locks
    ensures Inv(Perform(s, i, stage), t)
  {
    var s' := Perform(s, i, stage);
    PerformKeepsTables(s, t, i, stage);
    forall j | 0 <= j < |s'.procs| && Holding(s'.procs[j]) ensures HolderOk(s', j) {
      assert s.procs[j] == s'.procs[j] && HolderOk(s, j);
      PerformKeepsHolder(s, i, stage, j);
    }
  }

  lemma BuyerStepKeepsInv(s: State, t: Tables, i: nat, a: Action)
    requires Inv(s, t) && i < |s.procs| && s.procs[i].Buyer? && BuyerEnabled(s, s.procs[i], a)
    ensures Inv(BuyerStep(s, i, a), t)
  {
    if a.Close? {
      SettleKeepsInv(s, t, i, Pending);
    } else if a.CloseLost? {
      SettleKeepsInv(s, t, i, LostAck);
    } else {
      var s' := BuyerStep(s, i, a);
      assert Holding(s.procs[i]) ==> HolderOk(s, i);
      forall j | 0 <= j < |s'.procs| && Holding(s'.procs[j]) ensures HolderOk(s', j) {
        if j != i {
          assert HolderOk(s, j);
          HolderUndisturbed(s, s', j);
        }
      }
    }
  }

  lemma AdminStepKeepsInv(s: State, t: Tables, i: nat, a: Action)
    requires Inv(s, t) && i < |s.procs| && s.procs[i].Admin? && AdminEnabled(s, s.procs[i], a)
    ensures Inv(AdminStep(s, i, a), t)
  {
    if a.Exec? {
      PerformKeepsInv(s, t, i, Executed);
    } else if a.ExecLost? {
      PerformKeepsInv(s, t, i, Lost);
    } else {
      var s' := AdminStep(s, i, a);
      forall j | 0 <= j < |s'.procs| && Holding(s'.procs[j]) ensures HolderOk(s', j) {
        assert HolderOk(s, j);
        HolderUndisturbed(s, s', j);
      }
    }
  }

  lemma StepKeepsInv(s: State, t: Tables, i: nat, a: Action)
    requires Inv(s, t) && Enabled(s, i, a)
    ensures Inv(Step(s, i, a), t)
  {
    if s.procs[i].Buyer? {
      BuyerStepKeepsInv(s, t, i, a);
    } else {
      AdminStepKeepsInv(s, t, i, a);
    }
  }

  lemma {:induction false} RunKeepsInv(s: State, t: Tables, ms: seq<Move>)
    requires Init(s, t) && Run(s, ms).Some?
    ensures Inv(Run(s, ms).value, t)
  {
    if ms == [] {
      InitInv(s, t);
    } else {
      RunKeepsInv(s, t, ms[..|ms| - 1]);
      StepKeepsInv(Run(s, ms[..|ms| - 1]).value, t, ms[|ms| - 1].i, ms[|ms| - 1].a);
    }
  }
}
