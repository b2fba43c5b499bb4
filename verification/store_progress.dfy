/** Checkouts and product writes never deadlock, and every schedule ends. */
module StoreProgress {
  import opened Models
  import opened Tables
  import opened Store
  import opened StoreSafety

  /** The most steps a process can still take. */
  function Rank(p: Proc): nat {
    match p
    case Buyer(_, _, _, _, pc) => (
      match pc
      case Idle => 5
      case Begun => 4
      case Reserved(_) => 3
      case Inserted(_, _) => 2
      case Settled(d, _) => if d.Pending? then 1 else 0
      case Refused(_) => 0
      case Failed => 0)
    case Admin(_, apc) => (
      match apc
      case Ready => 3
      case Past(stage, _, _) => if stage.Executed? then 2 else if stage.Invalidated? then 1 else 0
      case Rejected => 0)
  }

  function Remaining(ps: seq<Proc>): nat {
    if ps == [] then 0 else Remaining(ps[..|ps| - 1]) + Rank(ps[|ps| - 1])
  }

  lemma {:induction false} RemainingUpdate(ps: seq<Proc>, i: nat, p: Proc)
    requires i < |ps|
    ensures Remaining(ps[i := p]) == Remaining(ps) - Rank(ps[i]) + Rank(p)
  {
    var pre := ps[..|ps| - 1];
    if i == |ps| - 1 {
      assert ps[i := p][..|ps| - 1] == pre;
    } else {
      RemainingUpdate(pre, i, p);
      assert ps[i := p][..|ps| - 1] == pre[i := p];
    }
  }

  lemma StepMovesOne(s: State, i: nat, a: Action)
    requires Enabled(s, i, a)
    ensures var s' := Step(s, i, a);
            && |s'.procs| == |s.procs| && s'.procs == s.procs[i := s'.procs[i]]
            && Rank(s'.procs[i]) < Rank(s.procs[i])
  {
    if s.procs[i].Buyer? {
      assert Step(s, i, a) == BuyerStep(s, i, a);
    } else {
      assert Step(s, i, a) == AdminStep(s, i, a);
    }
  }

  lemma StepDecreases(s: State, i: nat, a: Action)
    requires Enabled(s, i, a)
    ensures Remaining(Step(s, i, a).procs) < Remaining(s.procs)
  {
    StepMovesOne(s, i, a);
    RemainingUpdate(s.procs, i, Step(s, i, a).procs[i]);
  }

  /** No schedule is longer than the steps its processes had at the start. */
  lemma {:induction false} RunIsBounded(s: State, ms: seq<Move>)
    requires Run(s, ms).Some?
    ensures |ms| + Remaining(Run(s, ms).value.procs) <= Remaining(s.procs)
  {
    if ms != [] {
      RunIsBounded(s, ms[..|ms| - 1]);
      StepDecreases(Run(s, ms[..|ms| - 1]).value, ms[|ms| - 1].i, ms[|ms| - 1].a);
    }
  }

  // ----- No deadlock -----

  ghost predicate CanMove(s: State, i: nat) {
    exists a :: Enabled(s, i, a) && !ByEnvironment(a)
  }

  /** The row a process is waiting for, if it has a statement to run on a locked row. */
  function Awaits(s: State, p: Proc): Option<int> {
    match p
    case Buyer(_, _, product, _, pc) => if pc.Begun? then Some(product) else None
    case Admin(r, apc) => if apc.Ready? then Some(Target(s, r)) else None
  }

  lemma HolderCanMove(s: State, j: nat)
    requires j < |s.procs| && Holding(s.procs[j])
    ensures CanMove(s, j)
  {
    var p := s.procs[j];
    if p.pc.Inserted? {
      assert Enabled(s, j, Close);
    } else if InsertTx(s.tables, p.user, p.product, p.quantity, Total(p.pc.written, p.quantity)).Some? {
      assert Enabled(s, j, Insert);
    } else {
      assert Enabled(s, j, InsertError);
    }
  }

  lemma BuyerMovesOrWaits(s: State, i: nat)
    requires i < |s.procs| && s.procs[i].Buyer? && Rank(s.procs[i]) > 0 && !Holding(s.procs[i])
    ensures CanMove(s, i) || (s.procs[i].pc.Begun? && s.procs[i].product in s.locks)
  {
    var p := s.procs[i];
    match p.pc
    case Idle => assert Enabled(s, i, Begin);
    case Settled(_, _) => assert Enabled(s, i, Send);
    case Begun => {
      match ReserveStock(s.tables, p.product, p.quantity)
      case OutOfRange => assert Enabled(s, i, ReserveError);
      case NoRows => assert Enabled(s, i, Refuse);
      case Taken(_) => if p.product !in s.locks { assert Enabled(s, i, Reserve); }
    }
  }

  lemma AdminMovesOrWaits(s: State, i: nat)
    requires i < |s.procs| && s.procs[i].Admin? && Rank(s.procs[i]) > 0
    ensures CanMove(s, i) || (s.procs[i].apc.Ready? && Target(s, s.procs[i].request) in s.locks)
  {
    var p := s.procs[i];
    if p.apc.Past? {
      if p.apc.stage.Executed? { assert Enabled(s, i, Invalidate); } else { assert Enabled(s, i, Announce); }
    } else if Statement(s, p.request).SqlError? {
      assert Enabled(s, i, ExecError(false));
    } else if Target(s, p.request) !in s.locks {
      assert Enabled(s, i, Exec);
    }
  }

  /** No deadlock: an unfinished process either has a step of its own, or holds nothing and waits for one row
      whose holder has one. */
  lemma NobodyIsStuck(s: State, t: Tables, i: nat)
    requires Inv(s, t) && i < |s.procs| && Rank(s.procs[i]) > 0
    ensures || CanMove(s, i)
            || (&& !Holding(s.procs[i]) && Awaits(s, s.procs[i]).Some?
                && Awaits(s, s.procs[i]).value in s.locks
                && CanMove(s, s.locks[Awaits(s, s.procs[i]).value]))
  {
    if Holding(s.procs[i]) {
      HolderCanMove(s, i);
    } else {
      if s.procs[i].Buyer? { BuyerMovesOrWaits(s, i); } else { AdminMovesOrWaits(s, i); }
      if !CanMove(s, i) {
        HolderCanMove(s, s.locks[Awaits(s, s.procs[i]).value]);
      }
    }
  }

  ghost predicate Finished(s: State) {
    forall i :: 0 <= i < |s.procs| ==> Rank(s.procs[i]) == 0
  }

  lemma {:induction false} RunFrom(s: State, m: Move, ms: seq<Move>)
    requires Enabled(s, m.i, m.a) && Run(Step(s, m.i, m.a), ms).Some?
    ensures Run(s, [m] + ms) == Run(Step(s, m.i, m.a), ms)
  {
    var all := [m] + ms;
    if ms == [] {
      assert all[..|all| - 1] == [];
    } else {
      RunFrom(s, m, ms[..|ms| - 1]);
      assert all[..|all| - 1] == [m] + ms[..|ms| - 1];
    }
  }

  /** From every state the invariant allows, every process can be brought to its end without any failure of
      the environment. */
  lemma {:induction false} EveryoneCanFinish(s: State, t: Tables) returns (ms: seq<Move>)
    requires Inv(s, t)
    ensures Run(s, ms).Some? && Finished(Run(s, ms).value)
    ensures forall k :: 0 <= k < |ms| ==> !ByEnvironment(ms[k].a)
    decreases Remaining(s.procs)
  {
    if Finished(s) {
      ms := [];
    } else {
      var i :| 0 <= i < |s.procs| && Rank(s.procs[i]) > 0;
      NobodyIsStuck(s, t, i);
      var j := if CanMove(s, i) then i else s.locks[Awaits(s, s.procs[i]).value];
      var a :| Enabled(s, j, a) && !ByEnvironment(a);
      StepDecreases(s, j, a);
      StepKeepsInv(s, t, j, a);
      var rest := EveryoneCanFinish(Step(s, j, a), t);
      RunFrom(s, Move(j, a), rest);
      ms := [Move(j, a)] + rest;
    }
  }
}
