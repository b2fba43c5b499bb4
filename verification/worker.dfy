/** The Kafka worker: it takes the messages of its partitions in order, projects them, appends to the audit
    index and marks offsets; it may be restarted at any time from the offsets committed last. */
module Worker {
  import opened Models
  import opened Keys
  import opened Projection

  /** A message is marked unless it is a product event that does not parse. */
  predicate Marks(m: Message) {
    !(m.topic.ProductEvents? && m.payload.None?)
  }

  /** One partition and the worker's place in it. `high` is the furthest place ever reached and `done` the
      offsets that were worked off and marked: both are history. */
  datatype Claim = Claim(log: seq<Message>, pos: nat, marked: nat, committed: nat, high: nat, done: set<nat>)

  datatype Worker = Worker(claims: seq<Claim>, index: Index, audit: seq<ProductEvent>)

  /** Append: the producer. Take: the consumer loop. Flush: the periodic commit of marked offsets. */
  datatype WorkerStep = Append(p: nat, m: Message) | Take(p: nat) | Flush(p: nat) | Restart(p: nat)

  predicate CanTake(w: Worker, st: WorkerStep) {
    && st.p < |w.claims|
    && (st.Take? ==> w.claims[st.p].pos < |w.claims[st.p].log|)
  }

  function TakeClaim(c: Claim): Claim
    requires c.pos < |c.log|
  {
    var next := c.pos + 1;
    var c' := c.(pos := next, high := if c.high < next then next else c.high);
    if Marks(c.log[c.pos]) then c'.(marked := next, done := c.done + {c.pos}) else c'
  }

  function WorkerNext(w: Worker, st: WorkerStep): Worker
    requires CanTake(w, st)
  {
    var c := w.claims[st.p];
    match st
    case Append(p, m) => w.(claims := w.claims[p := c.(log := c.log + [m])])
    case Take(p) =>
      var m := c.log[c.pos];
      Worker(w.claims[p := TakeClaim(c)], SyncMessage(w.index, m),
             if Carries(m) then w.audit + [m.payload.value] else w.audit)
    case Flush(p) => w.(claims := w.claims[p := c.(committed := c.marked)])
    case Restart(p) => w.(claims := w.claims[p := c.(pos := c.committed, marked := c.committed)])
  }

  function WorkerRun(w: Worker, sts: seq<WorkerStep>): Option<Worker> {
    if sts == [] then Some(w)
    else match WorkerRun(w, sts[..|sts| - 1])
      case None => None
      case Some(u) => if CanTake(u, sts[|sts| - 1]) then Some(WorkerNext(u, sts[|sts| - 1])) else None
  }

  ghost predicate WorkerInit(w: Worker) {
    && w.index == map[] && w.audit == []
    && forall p :: 0 <= p < |w.claims| ==>
         var c := w.claims[p]; c.pos == c.marked == c.committed == c.high == 0 && c.done == {}
  }

  // ----- Offsets -----

  ghost predicate OffsetsOk(c: Claim) {
    && c.committed <= c.marked <= c.pos <= c.high <= |c.log|
    && (forall o: nat :: o < c.pos ==> o in c.done || !Marks(c.log[o]))
    && (forall o: nat :: c.marked <= o < c.pos ==> !Marks(c.log[o]))
    && (c.marked > 0 ==> Marks(c.log[c.marked - 1])) && (c.committed > 0 ==> Marks(c.log[c.committed - 1]))
  }

  // ----- The index during replay -----

  /** The document of id is the one after some prefix that ends between the position and the furthest place. */
  ghost predicate ShownUpTo(index: Index, c: Claim, id: int, e: nat) {
    && c.pos <= e <= c.high <= |c.log|
    && Lookup(index, id) == Document(LastOn(c.log[..e], id))
  }

  ghost predicate Shown(index: Index, c: Claim, id: int) {
    exists e: nat :: ShownUpTo(index, c, id, e)
  }

  /** Product events are in the partition of their product's key. */
  ghost predicate RoutedTo(route: string -> nat, p: nat, m: Message) {
    Carries(m) ==> route(Dec(m.payload.value.product.id)) == p
  }

  ghost predicate Routed(route: string -> nat, w: Worker) {
    && (forall key :: route(key) < |w.claims|)
    && forall p, o :: 0 <= p < |w.claims| && 0 <= o < |w.claims[p].log| ==> RoutedTo(route, p, w.claims[p].log[o])
  }

  ghost predicate IndexOk(route: string -> nat, w: Worker)
    requires forall key :: route(key) < |w.claims|
  {
    KeyedById(w.index) && forall id: int :: Shown(w.index, w.claims[route(Dec(id))], id)
  }

  ghost predicate WorkerInv(route: string -> nat, w: Worker) {
    && Routed(route, w)
    && (forall p :: 0 <= p < |w.claims| ==> OffsetsOk(w.claims[p]))
    && IndexOk(route, w)
  }

  lemma WorkerInitInv(route: string -> nat, w: Worker)
    requires WorkerInit(w) && Routed(route, w)
    ensures WorkerInv(route, w)
  {
    forall id: int ensures Shown(w.index, w.claims[route(Dec(id))], id) {
      assert ShownUpTo(w.index, w.claims[route(Dec(id))], id, 0);
    }
  }

  lemma TakeKeepsOffsets(c: Claim)
    requires OffsetsOk(c) && c.pos < |c.log|
    ensures OffsetsOk(TakeClaim(c))
  {
  }

  /** Taking the message at the position keeps the index between the two marks, whether it is new or a repeat. */
  lemma TakeShows(index: Index, c: Claim, id: int)
    requires OffsetsOk(c) && c.pos < |c.log| && Shown(index, c, id)
    ensures Shown(SyncMessage(index, c.log[c.pos]), TakeClaim(c), id)
  {
    var m, c' := c.log[c.pos], TakeClaim(c);
    var e: nat :| ShownUpTo(index, c, id, e);
    SyncShows(index, m, id);
    assert c.log[..c.pos + 1] == c.log[..c.pos] + [m];
    LastOnAppend(c.log[..c.pos], m, id);
    if Concerns(m, id) || e == c.pos {
      assert ShownUpTo(SyncMessage(index, m), c', id, c.pos + 1);
    } else {
      assert ShownUpTo(SyncMessage(index, m), c', id, e);
    }
  }

  /** A message of another partition does not touch the document of id. */
  lemma TakeElsewhere(index: Index, c: Claim, id: int, m: Message)
    requires Shown(index, c, id) && !Concerns(m, id)
    ensures Shown(SyncMessage(index, m), c, id)
  {
    var e: nat :| ShownUpTo(index, c, id, e);
    SyncShows(index, m, id);
    assert ShownUpTo(SyncMessage(index, m), c, id, e);
  }

  lemma TakeKeepsInv(route: string -> nat, w: Worker, st: WorkerStep)
    requires WorkerInv(route, w) && st.Take? && CanTake(w, st)
    ensures WorkerInv(route, WorkerNext(w, st))
  {
    var w', c := WorkerNext(w, st), w.claims[st.p];
    var m := c.log[c.pos];
    TakeKeepsOffsets(c);
    SyncKeepsKeys(w.index, m);
    forall id: int ensures Shown(w'.index, w'.claims[route(Dec(id))], id) {
      var q := route(Dec(id));
      if q == st.p {
        TakeShows(w.index, c, id);
      } else {
        assert RoutedTo(route, st.p, m);
        TakeElsewhere(w.index, w.claims[q], id, m);
      }
    }
  }

  /** A step that keeps the old log as a prefix and does not advance keeps what the index shows. */
  lemma StandStillShows(index: Index, c: Claim, c': Claim, id: int)
    requires Shown(index, c, id) && c'.pos <= c.pos && c'.high == c.high
    requires |c.log| <= |c'.log| && c'.log[..|c.log|] == c.log
    ensures Shown(index, c', id)
  {
    var e: nat :| ShownUpTo(index, c, id, e);
    assert c'.log[..e] == c'.log[..|c.log|][..e] == c.log[..e];
    assert ShownUpTo(index, c', id, e);
  }

  lemma OtherStepKeepsOffsets(w: Worker, st: WorkerStep)
    requires !st.Take? && CanTake(w, st) && OffsetsOk(w.claims[st.p])
    ensures OffsetsOk(WorkerNext(w, st).claims[st.p])
  {
  }

  lemma OtherStepKeepsRoutes(route: string -> nat, w: Worker, st: WorkerStep)
    requires Routed(route, w) && !st.Take? && CanTake(w, st) && (st.Append? ==> RoutedTo(route, st.p, st.m))
    ensures Routed(route, WorkerNext(w, st))
  {
  }

  lemma OtherStepKeepsInv(route: string -> nat, w: Worker, st: WorkerStep)
    requires WorkerInv(route, w) && !st.Take? && CanTake(w, st)
    requires st.Append? ==> RoutedTo(route, st.p, st.m)
    ensures WorkerInv(route, WorkerNext(w, st))
  {
    var w', c := WorkerNext(w, st), w.claims[st.p];
    OtherStepKeepsRoutes(route, w, st);
    OtherStepKeepsOffsets(w, st);
    forall id: int ensures Shown(w'.index, w'.claims[route(Dec(id))], id) {
      StandStillShows(w.index, w.claims[route(Dec(id))], w'.claims[route(Dec(id))], id);
    }
  }

  lemma StepKeepsWorkerInv(route: string -> nat, w: Worker, st: WorkerStep)
    requires WorkerInv(route, w) && CanTake(w, st)
    requires st.Append? ==> RoutedTo(route, st.p, st.m)
    ensures WorkerInv(route, WorkerNext(w, st))
  {
    if st.Take? { TakeKeepsInv(route, w, st); } else { OtherStepKeepsInv(route, w, st); }
  }

  ghost predicate AppendsRouted(route: string -> nat, sts: seq<WorkerStep>) {
    forall k :: 0 <= k < |sts| && sts[k].Append? ==> RoutedTo(route, sts[k].p, sts[k].m)
  }

  lemma {:induction false} RunKeepsWorkerInv(route: string -> nat, w: Worker, sts: seq<WorkerStep>)
    requires WorkerInit(w) && Routed(route, w) && AppendsRouted(route, sts) && WorkerRun(w, sts).Some?
    ensures WorkerInv(route, WorkerRun(w, sts).value)
  {
    if sts == [] {
      WorkerInitInv(route, w);
    } else {
      RunKeepsWorkerInv(route, w, sts[..|sts| - 1]);
      StepKeepsWorkerInv(route, WorkerRun(w, sts[..|sts| - 1]).value, sts[|sts| - 1]);
    }
  }

  // ----- Results -----

  /** Offset safety: below the committed offset every message was worked off and marked, or is a product event
      that does not parse; and the mark is one past the last message below the position that is not such an event,
      so a message of another topic counts whether or not it parses. */
  lemma OffsetsAreSafe(route: string -> nat, w: Worker, sts: seq<WorkerStep>, p: nat)
    requires WorkerInit(w) && Routed(route, w) && AppendsRouted(route, sts) && WorkerRun(w, sts).Some?
    requires p < |WorkerRun(w, sts).value.claims|
    ensures var c := WorkerRun(w, sts).value.claims[p];
            && c.committed <= c.marked <= c.pos <= |c.log|
            && (forall o: nat :: o < c.committed ==>
                  o in c.done || (c.log[o].topic.ProductEvents? && c.log[o].payload.None?))
            && (forall o: nat :: c.marked <= o < c.pos ==> c.log[o].topic.ProductEvents? && c.log[o].payload.None?)
            && (c.marked > 0 ==> !c.log[c.marked - 1].topic.ProductEvents? || c.log[c.marked - 1].payload.Some?)
  {
    RunKeepsWorkerInv(route, w, sts);
    assert OffsetsOk(WorkerRun(w, sts).value.claims[p]);
  }

  /** What is marked is committed by the next flush, and a restart resumes there: once the worker has taken a whole
      partition whose last message is not an unparsable product event, a flush makes a restart repeat nothing. */
  lemma FlushedIsNotRepeated(route: string -> nat, w: Worker, p: nat)
    requires WorkerInv(route, w) && p < |w.claims|
    ensures var c := w.claims[p];
            var u := WorkerNext(WorkerNext(w, Flush(p)), Restart(p));
            && u.claims == w.claims[p := c.(committed := c.marked, pos := c.marked)]
            && u.index == w.index && u.audit == w.audit
            && (c.log != [] && c.pos == |c.log|
                && (!c.log[c.pos - 1].topic.ProductEvents? || c.log[c.pos - 1].payload.Some?) ==>
                  u.claims[p].pos == |c.log|)
  {
    assert OffsetsOk(w.claims[p]);
  }

  /** The messages the worker has seen of all partitions, one partition after the other. */
  function Seen(cs: seq<Claim>): seq<Message>
    requires forall p :: 0 <= p < |cs| ==> cs[p].high <= |cs[p].log|
  {
    if cs == [] then [] else Seen(cs[..|cs| - 1]) + cs[|cs| - 1].log[..cs[|cs| - 1].high]
  }

  lemma {:induction false} LastOnConcat(a: seq<Message>, b: seq<Message>, id: int)
    ensures LastOn(a + b, id) == if LastOn(b, id).Some? then LastOn(b, id) else LastOn(a, id)
  {
    if b == [] {
      assert a + b == a;
    } else {
      LastOnConcat(a, b[..|b| - 1], id);
      assert (a + b)[..|a + b| - 1] == a + b[..|b| - 1];
    }
  }

  lemma {:induction false} NothingElsewhere(route: string -> nat, p: nat, log: seq<Message>, id: int)
    requires route(Dec(id)) != p && forall o :: 0 <= o < |log| ==> RoutedTo(route, p, log[o])
    ensures LastOn(log, id).None?
  {
    if log != [] {
      NothingElsewhere(route, p, log[..|log| - 1], id);
      assert RoutedTo(route, p, log[|log| - 1]);
    }
  }

  lemma {:induction false} SeenDecides(route: string -> nat, cs: seq<Claim>, id: int)
    requires forall p :: 0 <= p < |cs| ==> cs[p].high <= |cs[p].log|
    requires forall p, o :: 0 <= p < |cs| && 0 <= o < |cs[p].log| ==> RoutedTo(route, p, cs[p].log[o])
    ensures var q := route(Dec(id));
            LastOn(Seen(cs), id) == if q < |cs| then LastOn(cs[q].log[..cs[q].high], id) else None
  {
    if cs != [] {
      var n := |cs| - 1;
      SeenDecides(route, cs[..n], id);
      LastOnConcat(Seen(cs[..n]), cs[n].log[..cs[n].high], id);
      if route(Dec(id)) != n {
        NothingElsewhere(route, n, cs[n].log[..cs[n].high], id);
      }
    }
  }

  ghost predicate BackAtHigh(w: Worker) {
    forall p :: 0 <= p < |w.claims| ==> w.claims[p].pos == w.claims[p].high <= |w.claims[p].log|
  }

  /** Replay convergence: however often the worker was restarted and repeated what it had seen, once it is back
      at the furthest place it had reached in every partition, the index is that of one single pass. */
  lemma ReplayConverges(route: string -> nat, w: Worker, sts: seq<WorkerStep>)
    requires WorkerInit(w) && Routed(route, w) && AppendsRouted(route, sts) && WorkerRun(w, sts).Some?
    requires BackAtHigh(WorkerRun(w, sts).value)
    ensures WorkerRun(w, sts).value.index == Fold(map[], Seen(WorkerRun(w, sts).value.claims))
  {
    RunKeepsWorkerInv(route, w, sts);
    var u := WorkerRun(w, sts).value;
    var pass := Fold(map[], Seen(u.claims));
    FoldKeepsKeys(map[], Seen(u.claims));
    forall id: int ensures Lookup(u.index, id) == Lookup(pass, id) {
      OnePassShows(route, u, id);
    }
    SameDocuments(u.index, pass);
  }

  lemma OnePassShows(route: string -> nat, u: Worker, id: int)
    requires WorkerInv(route, u)
    requires BackAtHigh(u)
    ensures Lookup(u.index, id) == Lookup(Fold(map[], Seen(u.claims)), id)
  {
    var c := u.claims[route(Dec(id))];
    var e: nat :| ShownUpTo(u.index, c, id, e);
    assert e == c.high;
    SeenDecides(route, u.claims, id);
    FoldShows(map[], Seen(u.claims), id);
  }

  // ----- The audit index -----

  function Carried(log: seq<Message>): multiset<ProductEvent> {
    if log == [] then multiset{}
    else if Carries(log[|log| - 1]) then Carried(log[..|log| - 1]) + multiset{log[|log| - 1].payload.value}
    else Carried(log[..|log| - 1])
  }

  function SeenEvents(cs: seq<Claim>): multiset<ProductEvent>
    requires forall p :: 0 <= p < |cs| ==> cs[p].high <= |cs[p].log|
  {
    if cs == [] then multiset{}
    else SeenEvents(cs[..|cs| - 1]) + Carried(cs[|cs| - 1].log[..cs[|cs| - 1].high])
  }

  lemma {:induction false} SeenEventsUpdate(cs: seq<Claim>, p: nat, c: Claim, more: multiset<ProductEvent>)
    requires p < |cs| && c.high <= |c.log| && forall q :: 0 <= q < |cs| ==> cs[q].high <= |cs[q].log|
    requires Carried(c.log[..c.high]) == Carried(cs[p].log[..cs[p].high]) + more
    ensures SeenEvents(cs[p := c]) == SeenEvents(cs) + more
  {
    var n := |cs| - 1;
    if p == n {
      assert cs[p := c][..n] == cs[..n];
    } else {
      SeenEventsUpdate(cs[..n], p, c, more);
      assert cs[p := c][..n] == cs[..n][p := c];
    }
  }

  ghost predicate AuditOk(w: Worker) {
    && (forall p :: 0 <= p < |w.claims| ==> w.claims[p].pos <= w.claims[p].high <= |w.claims[p].log|)
    && SeenEvents(w.claims) <= multiset(w.audit)
  }

  /** What taking a message adds to the messages seen: nothing new on a repeat. */
  lemma TakeCarries(c: Claim)
    requires c.pos < |c.log| && c.pos <= c.high <= |c.log|
    ensures var c', m := TakeClaim(c), c.log[c.pos];
            && c'.high <= |c'.log|
            && Carried(c'.log[..c'.high]) ==
                 Carried(c.log[..c.high])
                 + if c.pos == c.high && Carries(m) then multiset{m.payload.value} else multiset{}
  {
    if c.pos == c.high {
      assert c.log[..c.pos + 1][..c.pos] == c.log[..c.pos];
    }
  }

  lemma TakeKeepsAudit(w: Worker, st: WorkerStep)
    requires AuditOk(w) && st.Take? && CanTake(w, st)
    ensures AuditOk(WorkerNext(w, st))
  {
    var w', c := WorkerNext(w, st), w.claims[st.p];
    var m := c.log[c.pos];
    var more := if c.pos == c.high && Carries(m) then multiset{m.payload.value} else multiset{};
    TakeCarries(c);
    SeenEventsUpdate(w.claims, st.p, TakeClaim(c), more);
    assert w'.claims == w.claims[st.p := TakeClaim(c)];
    if Carries(m) {
      assert multiset(w'.audit) == multiset(w.audit) + multiset{m.payload.value};
    }
  }

  lemma StepKeepsAudit(w: Worker, st: WorkerStep)
    requires AuditOk(w) && CanTake(w, st) && OffsetsOk(w.claims[st.p])
    ensures AuditOk(WorkerNext(w, st))
  {
    if st.Take? {
      TakeKeepsAudit(w, st);
    } else {
      var c, c' := w.claims[st.p], WorkerNext(w, st).claims[st.p];
      assert c'.log[..c'.high] == c.log[..c.high];
      SeenEventsUpdate(w.claims, st.p, c', multiset{});
    }
  }

  lemma {:induction false} NothingSeen(cs: seq<Claim>)
    requires forall p :: 0 <= p < |cs| ==> cs[p].high == 0
    ensures SeenEvents(cs) == multiset{}
  {
    if cs != [] {
      NothingSeen(cs[..|cs| - 1]);
    }
  }

  /** The audit index holds at least one entry per well-formed product event seen, counted with repetition. */
  lemma {:induction false} AuditIsComplete(route: string -> nat, w: Worker, sts: seq<WorkerStep>)
    requires WorkerInit(w) && Routed(route, w) && AppendsRouted(route, sts) && WorkerRun(w, sts).Some?
    ensures AuditOk(WorkerRun(w, sts).value)
  {
    if sts == [] {
      NothingSeen(w.claims);
    } else {
      var pre, st := sts[..|sts| - 1], sts[|sts| - 1];
      AuditIsComplete(route, w, pre);
      RunKeepsWorkerInv(route, w, pre);
      StepKeepsAudit(WorkerRun(w, pre).value, st);
    }
  }
}
