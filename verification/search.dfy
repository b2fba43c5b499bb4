/** The whole path from the tables to the search index: product writes commit and then announce themselves,
    checkouts change stock and announce nothing to the index, the worker follows behind and may be restarted. */
module Search {
  import opened Models
  import opened Tables
  import opened Store
  import opened StoreSafety
  import opened StoreHistory
  import opened Keys
  import opened Projection
  import opened Worker

  datatype Site = Site(store: State, worker: Worker)

  datatype SiteEvent = Stored(i: nat, a: Action) | Worked(st: WorkerStep)

  /** The event a product write sends: a delete carries only the id. */
  function EventOf(p: Proc): ProductEvent
    requires p.Admin? && p.apc.Past?
  {
    match p.request
    case Create(row) => ProductEvent(Created, AsProduct(p.apc.id, row))
    case Update(_, row) => ProductEvent(Updated, AsProduct(p.apc.id, row))
    case Delete(_) => ProductEvent(Deleted, Product(p.apc.id, "", 0, 0))
  }

  /** The write has been committed and its event is still to be sent. */
  predicate InFlight(p: Proc, id: int) {
    p.Admin? && p.apc.Past? && (p.apc.stage.Executed? || p.apc.stage.Invalidated?) && p.apc.id == id
  }

  ghost predicate Quiet(s: State, id: int) {
    forall i :: 0 <= i < |s.procs| ==> !InFlight(s.procs[i], id)
  }

  /** The hypotheses on product writes: no write of a product starts its statement while another write of it
      waits to be announced, an update hits an existing row, and no acknowledgement or send is lost.
      Checkouts are not restricted. */
  ghost predicate Disciplined(s: State, i: nat, a: Action)
    requires Enabled(s, i, a)
  {
    var p := s.procs[i];
    p.Admin? ==>
      && !a.ExecLost? && !a.AnnounceFail?
      && (a.Exec? ==> Quiet(s, Target(s, p.request)) && (p.request.Update? ==> p.request.id in s.tables.rows))
  }

  function Announcement(p: Proc): Message
    requires p.Admin? && p.apc.Past?
  {
    Message(ProductEvents, Some(EventOf(p)))
  }

  /** The producer appends an announcement to the partition of the decimal id. */
  function Sending(route: string -> nat, p: Proc): WorkerStep
    requires p.Admin? && p.apc.Past?
  {
    Append(route(Dec(EventOf(p).product.id)), Announcement(p))
  }

  /** What the code can do at all. */
  predicate SiteCan(route: string -> nat, x: Site, e: SiteEvent) {
    match e
    case Stored(i, a) =>
      Enabled(x.store, i, a) && (a.Announce? ==> CanTake(x.worker, Sending(route, x.store.procs[i])))
    case Worked(st) => !st.Append? && CanTake(x.worker, st)
  }

  ghost predicate SitePossible(route: string -> nat, x: Site, e: SiteEvent) {
    SiteCan(route, x, e) && (e.Stored? ==> Disciplined(x.store, e.i, e.a))
  }

  function SiteNext(route: string -> nat, x: Site, e: SiteEvent): Site
    requires SiteCan(route, x, e)
  {
    match e
    case Stored(i, a) =>
      Site(Step(x.store, i, a),
           if a.Announce? then WorkerNext(x.worker, Sending(route, x.store.procs[i])) else x.worker)
    case Worked(st) => x.(worker := WorkerNext(x.worker, st))
  }

  ghost function SiteRun(route: string -> nat, x: Site, es: seq<SiteEvent>): Option<Site> {
    if es == [] then Some(x)
    else match SiteRun(route, x, es[..|es| - 1])
      case None => None
      case Some(y) =>
        if SitePossible(route, y, es[|es| - 1]) then Some(SiteNext(route, y, es[|es| - 1])) else None
  }

  /** An empty catalogue, an empty log and an empty index; users and processes are arbitrary. */
  ghost predicate SiteInit(route: string -> nat, x: Site) {
    && Init(x.store, x.store.tables) && x.store.tables.rows == map[]
    && WorkerInit(x.worker) && Routed(route, x.worker)
    && forall p :: 0 <= p < |x.worker.claims| ==> x.worker.claims[p].log == []
  }

  // ----- The drift equation -----

  /** The event and the table agree on id: no document exactly if no row; otherwise the same name and price,
      and the document's stock is the row's stock plus what was sold since the row was last written. */
  ghost predicate Agrees(s: State, id: int, document: Option<Product>) {
    match document
    case None => id !in s.tables.rows
    case Some(p) =>
      && id in s.tables.rows
      && p.id == id && p.name == s.tables.rows[id].name && p.price == s.tables.rows[id].price
      && p.stock == s.tables.rows[id].stock + SoldSince(s.commits, id)
  }

  function LogOf(route: string -> nat, w: Worker, id: int): seq<Message> {
    if route(Dec(id)) < |w.claims| then w.claims[route(Dec(id))].log else []
  }

  /** Per product: either one write waits to be announced and its event agrees with the table, or none does and
      the last event in the log agrees. */
  ghost predicate Drift(route: string -> nat, x: Site, id: int) {
    && (forall i :: 0 <= i < |x.store.procs| && InFlight(x.store.procs[i], id) ==>
          Agrees(x.store, id, Document(Some(EventOf(x.store.procs[i])))))
    && (Quiet(x.store, id) ==> Agrees(x.store, id, Document(LastOn(LogOf(route, x.worker, id), id))))
  }

  ghost predicate OneInFlight(s: State) {
    forall i, j, id: int :: 0 <= i < j < |s.procs| && InFlight(s.procs[i], id) ==> !InFlight(s.procs[j], id)
  }

  ghost predicate SiteInv(route: string -> nat, x: Site, t: Tables) {
    && Inv(x.store, t) && WorkerInv(route, x.worker)
    && OneInFlight(x.store)
    && forall id: int :: Drift(route, x, id)
  }

  lemma SoldSinceAppend(cs: seq<Commit>, c: Commit, id: int)
    ensures SoldSince(cs + [c], id) ==
            match c.op
            case Buy(_, product, quantity) => SoldSince(cs, id) + if product == id then quantity else 0
            case Add(j, _) => if j == id then 0 else SoldSince(cs, id)
            case Edit(j, _) => if j == id then 0 else SoldSince(cs, id)
            case Remove(j) => if j == id then 0 else SoldSince(cs, id)
  {
  }

  /** A sale, and any operation on another product, keeps agreement. */
  lemma AgreementSurvives(s: State, s': State, c: Commit, id: int, document: Option<Product>)
    requires Serial(s.tables, c.op) == Some(s'.tables) && s'.commits == s.commits + [c]
    requires c.op.Buy? || Touches(c.op) != id
    requires Agrees(s, id, document)
    ensures Agrees(s', id, document)
  {
  }

  /** The committed operation of a step is a serial operation on the tables before it. */
  lemma StepIsSerial(s: State, t: Tables, i: nat, a: Action)
    requires Inv(s, t) && Enabled(s, i, a)
    ensures var s' := Step(s, i, a);
            if s'.commits == s.commits then s'.tables == s.tables
            else && |s'.commits| == |s.commits| + 1
                 && s'.commits == s.commits + [s'.commits[|s.commits|]]
                 && Serial(s.tables, s'.commits[|s.commits|].op) == Some(s'.tables)
                 && Effect(s'.procs[i]) == Some(s'.commits[|s.commits|].op)
  {
    var s' := Step(s, i, a);
    StepAdvances(s, i, a);
    StepKeepsInv(s, t, i, a);
    if s'.commits != s.commits {
      ReplayAppend(t, s.commits, s'.commits[|s.commits|]);
    }
  }

  // ----- Each event keeps the equation -----

  /** A step that changes neither what is in flight nor the log, and commits at most a sale. */
  lemma CalmKeepsDrift(route: string -> nat, x: Site, x': Site, id: int)
    requires Drift(route, x, id) && |x'.store.procs| == |x.store.procs|
    requires forall i :: 0 <= i < |x.store.procs| ==>
               && (InFlight(x'.store.procs[i], id) <==> InFlight(x.store.procs[i], id))
               && (InFlight(x.store.procs[i], id) ==> EventOf(x'.store.procs[i]) == EventOf(x.store.procs[i]))
    requires LogOf(route, x'.worker, id) == LogOf(route, x.worker, id)
    requires forall d: Option<Product> :: Agrees(x.store, id, d) ==> Agrees(x'.store, id, d)
    ensures Drift(route, x', id)
  {
  }

  lemma BuyerKeepsDrift(route: string -> nat, x: Site, t: Tables, i: nat, a: Action, id: int)
    requires Inv(x.store, t) && Enabled(x.store, i, a) && x.store.procs[i].Buyer? && Drift(route, x, id)
    ensures Drift(route, x.(store := Step(x.store, i, a)), id)
  {
    var s, s' := x.store, Step(x.store, i, a);
    StepIsSerial(s, t, i, a);
    StepAdvances(s, i, a);
    assert s'.procs[i].Buyer?;
    forall d: Option<Product> | Agrees(s, id, d) ensures Agrees(s', id, d) {
      if s'.commits != s.commits {
        AgreementSurvives(s, s', s'.commits[|s.commits|], id, d);
      }
    }
    CalmKeepsDrift(route, x, x.(store := s'), id);
  }

  /** An administrator's step that is neither a statement nor a send. */
  lemma SilentKeepsDrift(route: string -> nat, x: Site, i: nat, a: Action, id: int)
    requires Enabled(x.store, i, a) && x.store.procs[i].Admin? && (a.ExecError? || a.Drop? || a.Invalidate?)
    requires Drift(route, x, id)
    ensures Drift(route, x.(store := Step(x.store, i, a)), id)
  {
    CalmKeepsDrift(route, x, x.(store := Step(x.store, i, a)), id);
  }

  lemma ExecAgrees(s: State, i: nat)
    requires Enabled(s, i, Exec) && s.procs[i].Admin? && Disciplined(s, i, Exec)
    ensures var s' := Step(s, i, Exec); var id := Target(s, s.procs[i].request);
            && s'.procs[i].apc == Past(Executed, id, s'.procs[i].apc.hit)
            && Agrees(s', id, Document(Some(EventOf(s'.procs[i]))))
  {
    var s' := Step(s, i, Exec);
    assert s' == Perform(s, i, Executed);
    var id := Target(s, s.procs[i].request);
    SoldSinceAppend(s.commits, Commit(i, OpOf(s.procs[i].request, id)), id);
  }

  lemma ExecKeepsDrift(route: string -> nat, x: Site, t: Tables, i: nat, id: int)
    requires Inv(x.store, t) && Enabled(x.store, i, Exec) && x.store.procs[i].Admin?
    requires Disciplined(x.store, i, Exec) && Drift(route, x, id)
    ensures Drift(route, x.(store := Step(x.store, i, Exec)), id)
  {
    var s, s' := x.store, Step(x.store, i, Exec);
    ExecAgrees(s, i);
    StepAdvances(s, i, Exec);
    if id == Target(s, s.procs[i].request) {
      assert InFlight(s'.procs[i], id);
    } else {
      StepIsSerial(s, t, i, Exec);
      forall d: Option<Product> | Agrees(s, id, d) ensures Agrees(s', id, d) {
        if s'.commits != s.commits {
          AgreementSurvives(s, s', s'.commits[|s.commits|], id, d);
        }
      }
      CalmKeepsDrift(route, x, x.(store := s'), id);
    }
  }

  /** What a send changes: one stage, and one message at the end of one partition. */
  lemma AnnounceEffect(route: string -> nat, x: Site, i: nat)
    requires SiteCan(route, x, Stored(i, Announce)) && x.store.procs[i].Admin?
    ensures var p, x' := x.store.procs[i], SiteNext(route, x, Stored(i, Announce));
            && p.apc.Past? && InFlight(p, p.apc.id)
            && x'.store == x.store.(procs := x.store.procs[i := p.(apc := p.apc.(stage := Announced))])
            && x'.worker == WorkerNext(x.worker, Append(route(Dec(p.apc.id)), Announcement(p)))
  {
  }

  lemma AnnounceKeepsOwnDrift(route: string -> nat, x: Site, i: nat)
    requires SitePossible(route, x, Stored(i, Announce)) && x.store.procs[i].Admin?
    requires x.store.procs[i].apc.Past?
    requires OneInFlight(x.store) && Drift(route, x, x.store.procs[i].apc.id)
    ensures Drift(route, SiteNext(route, x, Stored(i, Announce)), x.store.procs[i].apc.id)
  {
    AnnounceEffect(route, x, i);
    var p, x' := x.store.procs[i], SiteNext(route, x, Stored(i, Announce));
    var log := LogOf(route, x.worker, p.apc.id);
    assert LogOf(route, x'.worker, p.apc.id) == log + [Announcement(p)];
    LastOnAppend(log, Announcement(p), p.apc.id);
    assert Agrees(x.store, p.apc.id, Document(Some(EventOf(p))));
    assert Quiet(x'.store, p.apc.id);
  }

  lemma AnnounceKeepsOtherDrift(route: string -> nat, x: Site, i: nat, id: int)
    requires SitePossible(route, x, Stored(i, Announce)) && x.store.procs[i].Admin?
    requires x.store.procs[i].apc.Past? && x.store.procs[i].apc.id != id && Drift(route, x, id)
    ensures Drift(route, SiteNext(route, x, Stored(i, Announce)), id)
  {
    AnnounceEffect(route, x, i);
    var p, x' := x.store.procs[i], SiteNext(route, x, Stored(i, Announce));
    LastOnAppend(LogOf(route, x.worker, id), Announcement(p), id);
    assert LastOn(LogOf(route, x'.worker, id), id) == LastOn(LogOf(route, x.worker, id), id);
    forall j | 0 <= j < |x.store.procs|
      ensures InFlight(x'.store.procs[j], id) <==> InFlight(x.store.procs[j], id)
    {
      if j == i {
        assert !InFlight(p, id) && !InFlight(x'.store.procs[i], id);
      }
    }
    if Quiet(x'.store, id) {
      assert forall j :: 0 <= j < |x.store.procs| ==> !InFlight(x.store.procs[j], id) by {
        forall j | 0 <= j < |x.store.procs| ensures !InFlight(x.store.procs[j], id) {
          assert !InFlight(x'.store.procs[j], id);
        }
      }
    }
  }

  lemma AnnounceKeepsDrift(route: string -> nat, x: Site, i: nat, id: int)
    requires SitePossible(route, x, Stored(i, Announce)) && x.store.procs[i].Admin?
    requires OneInFlight(x.store) && Drift(route, x, id)
    ensures Drift(route, SiteNext(route, x, Stored(i, Announce)), id)
  {
    AnnounceEffect(route, x, i);
    if x.store.procs[i].apc.id == id {
      AnnounceKeepsOwnDrift(route, x, i);
    } else {
      AnnounceKeepsOtherDrift(route, x, i, id);
    }
  }

  lemma WorkedKeepsDrift(route: string -> nat, x: Site, st: WorkerStep, id: int)
    requires Drift(route, x, id) && !st.Append? && CanTake(x.worker, st)
    ensures Drift(route, SiteNext(route, x, Worked(st)), id)
  {
  }

  lemma StoredKeepsDrift(route: string -> nat, x: Site, t: Tables, i: nat, a: Action, id: int)
    requires SiteInv(route, x, t) && SitePossible(route, x, Stored(i, a))
    ensures Drift(route, SiteNext(route, x, Stored(i, a)), id)
  {
    assert Drift(route, x, id);
    if x.store.procs[i].Buyer? {
      BuyerKeepsDrift(route, x, t, i, a, id);
    } else if a.Exec? {
      ExecKeepsDrift(route, x, t, i, id);
    } else if a.Announce? {
      AnnounceKeepsDrift(route, x, i, id);
    } else {
      SilentKeepsDrift(route, x, i, a, id);
    }
  }

  lemma StoredKeepsOneInFlight(s: State, i: nat, a: Action)
    requires OneInFlight(s) && Enabled(s, i, a) && Disciplined(s, i, a)
    ensures OneInFlight(Step(s, i, a))
  {
  }

  lemma StoredKeepsWorker(route: string -> nat, x: Site, t: Tables, i: nat, a: Action)
    requires SiteInv(route, x, t) && SitePossible(route, x, Stored(i, a))
    ensures WorkerInv(route, SiteNext(route, x, Stored(i, a)).worker)
  {
    if a.Announce? {
      StepKeepsWorkerInv(route, x.worker, Sending(route, x.store.procs[i]));
    }
  }

  lemma SiteNextKeepsInv(route: string -> nat, x: Site, t: Tables, e: SiteEvent)
    requires SiteInv(route, x, t) && SitePossible(route, x, e)
    ensures SiteInv(route, SiteNext(route, x, e), t)
  {
    match e
    case Stored(i, a) => {
      StepKeepsInv(x.store, t, i, a);
      StoredKeepsWorker(route, x, t, i, a);
      StoredKeepsOneInFlight(x.store, i, a);
      forall id: int ensures Drift(route, SiteNext(route, x, e), id) {
        StoredKeepsDrift(route, x, t, i, a, id);
      }
    }
    case Worked(st) => {
      StepKeepsWorkerInv(route, x.worker, st);
      forall id: int ensures Drift(route, SiteNext(route, x, e), id) {
        assert Drift(route, x, id);
        WorkedKeepsDrift(route, x, st, id);
      }
    }
  }

  lemma {:induction false} SiteRunKeepsInv(route: string -> nat, x: Site, es: seq<SiteEvent>)
    requires SiteInit(route, x) && SiteRun(route, x, es).Some?
    ensures SiteInv(route, SiteRun(route, x, es).value, x.store.tables)
  {
    if es == [] {
      InitInv(x.store, x.store.tables);
      WorkerInitInv(route, x.worker);
    } else {
      SiteRunKeepsInv(route, x, es[..|es| - 1]);
      SiteNextKeepsInv(route, SiteRun(route, x, es[..|es| - 1]).value, x.store.tables, es[|es| - 1]);
    }
  }

  // ----- Results -----

  /** The worker has taken everything in the partition of id. */
  predicate CaughtUp(route: string -> nat, w: Worker, id: int) {
    route(Dec(id)) < |w.claims| && w.claims[route(Dec(id))].pos == |w.claims[route(Dec(id))].log|
  }

  /** The projection drift equation. After any run of interleaved checkouts and announced product writes, with
      any number of partitions and worker restarts: once no write of a product waits to be announced and the
      worker has caught up with its partition, the index has a document for it exactly if the table has a row,
      with the same name and price, and the document's stock exceeds the row's by exactly the quantity sold
      since the product was last created or updated. */
  lemma ProjectionDrift(route: string -> nat, x: Site, es: seq<SiteEvent>, id: int)
    requires SiteInit(route, x) && SiteRun(route, x, es).Some?
    requires Quiet(SiteRun(route, x, es).value.store, id) && CaughtUp(route, SiteRun(route, x, es).value.worker, id)
    ensures var y := SiteRun(route, x, es).value; Agrees(y.store, id, Lookup(y.worker.index, id))
  {
    SiteRunKeepsInv(route, x, es);
    var y := SiteRun(route, x, es).value;
    var c := y.worker.claims[route(Dec(id))];
    assert Drift(route, y, id);
    assert Shown(y.worker.index, c, id);
    var e: nat :| ShownUpTo(y.worker.index, c, id, e);
    assert c.log[..e] == c.log;
  }

  /** When this holds for every product, the ids of the index are the ids of the table. */
  lemma IndexIdsAreTableIds(route: string -> nat, x: Site, es: seq<SiteEvent>)
    requires SiteInit(route, x) && SiteRun(route, x, es).Some?
    requires forall id: int :: Quiet(SiteRun(route, x, es).value.store, id)
                               && CaughtUp(route, SiteRun(route, x, es).value.worker, id)
    ensures var y := SiteRun(route, x, es).value;
            y.worker.index.Keys == set id | id in y.store.tables.rows :: Dec(id)
  {
    SiteRunKeepsInv(route, x, es);
    var y := SiteRun(route, x, es).value;
    forall key | key in y.worker.index ensures exists id :: id in y.store.tables.rows && key == Dec(id) {
      var id: int :| key == Dec(id);
      ProjectionDrift(route, x, es, id);
    }
    forall id | id in y.store.tables.rows ensures Dec(id) in y.worker.index {
      ProjectionDrift(route, x, es, id);
    }
  }
}
