/** The path from the tables to the index with no hypothesis on product writes: they may overlap, miss their row,
    lose acknowledgements and fail to announce themselves. What the index shows is then decided by two processes
    per product, the one that wrote its row last and the one whose announcement came last. */
module SearchExact {
  import opened Models
  import opened Tables
  import opened Store
  import opened StoreSafety
  import opened StoreHistory
  import opened Keys
  import opened Projection
  import opened Worker
  import opened Search
  import C = Consumer

  function FreeRun(route: string -> nat, x: Site, es: seq<SiteEvent>): Option<Site> {
    if es == [] then Some(x)
    else match FreeRun(route, x, es[..|es| - 1])
      case None => None
      case Some(y) => if SiteCan(route, y, es[|es| - 1]) then Some(SiteNext(route, y, es[|es| - 1])) else None
  }

  /** The runs of Search are those of them that keep the discipline. */
  lemma {:induction false} DisciplinedIsFree(route: string -> nat, x: Site, es: seq<SiteEvent>)
    requires SiteRun(route, x, es).Some?
    ensures FreeRun(route, x, es) == SiteRun(route, x, es)
  {
    if es != [] {
      DisciplinedIsFree(route, x, es[..|es| - 1]);
    }
  }

  ghost predicate FreeInv(route: string -> nat, x: Site, t: Tables) {
    Inv(x.store, t) && AuthorsOk(x.store) && WorkerInv(route, x.worker)
  }

  lemma FreeNextKeepsInv(route: string -> nat, x: Site, t: Tables, e: SiteEvent)
    requires FreeInv(route, x, t) && SiteCan(route, x, e)
    ensures FreeInv(route, SiteNext(route, x, e), t)
  {
    match e
    case Stored(i, a) => {
      StepKeepsInv(x.store, t, i, a);
      StepAdvances(x.store, i, a);
      StepKeepsAuthors(x.store, Step(x.store, i, a), i);
      if a.Announce? {
        StepKeepsWorkerInv(route, x.worker, Sending(route, x.store.procs[i]));
      }
    }
    case Worked(st) => StepKeepsWorkerInv(route, x.worker, st);
  }

  lemma {:induction false} FreeRunKeepsInv(route: string -> nat, x: Site, es: seq<SiteEvent>)
    requires SiteInit(route, x) && FreeRun(route, x, es).Some?
    ensures FreeInv(route, FreeRun(route, x, es).value, x.store.tables)
  {
    if es == [] {
      InitInv(x.store, x.store.tables);
      InitHist(x.store, x.store.tables);
      WorkerInitInv(route, x.worker);
    } else {
      FreeRunKeepsInv(route, x, es[..|es| - 1]);
      FreeNextKeepsInv(route, FreeRun(route, x, es[..|es| - 1]).value, x.store.tables, es[|es| - 1]);
    }
  }

  // ----- The index against the last write -----

  function WrittenDocument(t: Tables, cs: seq<Commit>, id: int): Option<Product> {
    match LastWritten(t, cs, id) case Some(r) => Some(AsProduct(id, r)) case None => None
  }

  /** A document agrees with the tables exactly if it is the product as it was last written. */
  lemma AgreesIsWritten(s: State, t: Tables, id: int, document: Option<Product>)
    requires Refines(s, t)
    ensures Agrees(s, id, document) <==> document == WrittenDocument(t, s.commits, id)
  {
    ReplayConserves(t, s.commits, id);
  }

  lemma CaughtUpShowsLast(route: string -> nat, w: Worker, id: int)
    requires WorkerInv(route, w) && CaughtUp(route, w, id)
    ensures Lookup(w.index, id) == Document(LastOn(LogOf(route, w, id), id))
  {
    var c := w.claims[route(Dec(id))];
    assert Shown(w.index, c, id);
    var e: nat :| ShownUpTo(w.index, c, id, e);
    assert c.log[..e] == c.log;
  }

  /** Along every run whatever: once the worker has caught up on a product, the drift equation holds of the index
      exactly if the last message about the product carries what the last write put into its row. */
  lemma IndexAgreesExactly(route: string -> nat, x: Site, es: seq<SiteEvent>, id: int)
    requires SiteInit(route, x) && FreeRun(route, x, es).Some?
    requires CaughtUp(route, FreeRun(route, x, es).value.worker, id)
    ensures var y := FreeRun(route, x, es).value;
            Agrees(y.store, id, Lookup(y.worker.index, id)) <==>
            Document(LastOn(LogOf(route, y.worker, id), id)) ==
              WrittenDocument(x.store.tables, y.store.commits, id)
  {
    FreeRunKeepsInv(route, x, es);
    var y := FreeRun(route, x, es).value;
    CaughtUpShowsLast(route, y.worker, id);
    AgreesIsWritten(y.store, x.store.tables, id, Lookup(y.worker.index, id));
  }

  /** With index calls that fail as well: what one pass over the product's partition has made of an empty index
      agrees exactly if the last event that was carried out is what the last write put into the row. */
  lemma IndexAgreesUnderFailures(route: string -> nat, x: Site, es: seq<SiteEvent>, id: int, ws: seq<C.Weather>)
    requires SiteInit(route, x) && FreeRun(route, x, es).Some?
    requires |ws| == |LogOf(route, FreeRun(route, x, es).value.worker, id)|
    ensures var y := FreeRun(route, x, es).value; var log := LogOf(route, y.worker, id);
            Agrees(y.store, id, Lookup(C.FoldWith(map[], log, ws), id)) <==>
            Document(C.LastApplied(log, ws, id)) == WrittenDocument(x.store.tables, y.store.commits, id)
  {
    FreeRunKeepsInv(route, x, es);
    var y := FreeRun(route, x, es).value;
    var log := LogOf(route, y.worker, id);
    C.LastAppliedWins(map[], log, ws, id);
    AgreesIsWritten(y.store, x.store.tables, id, Lookup(C.FoldWith(map[], log, ws), id));
  }

  // ----- The two processes that decide -----

  /** The process whose operation wrote the row of id last. */
  function LastWriter(cs: seq<Commit>, id: int): Option<nat> {
    if cs == [] then None
    else
      var c := cs[|cs| - 1];
      if !c.op.Buy? && Touches(c.op) == id then Some(c.who) else LastWriter(cs[..|cs| - 1], id)
  }

  /** The process that sent the last event about id. */
  function LastAnnouncer(route: string -> nat, x: Site, es: seq<SiteEvent>, id: int): Option<nat>
    requires FreeRun(route, x, es).Some?
  {
    if es == [] then None
    else
      var pre, e := es[..|es| - 1], es[|es| - 1];
      if e.Stored? && e.a.Announce? && FreeRun(route, x, pre).value.store.procs[e.i].apc.id == id then Some(e.i)
      else LastAnnouncer(route, x, pre, id)
  }

  /** The process announced its write of id. */
  predicate HasAnnounced(p: Proc, id: int) {
    p.Admin? && p.apc.Past? && p.apc.stage.Announced? && p.apc.id == id
  }

  /** The process changed the row of id and will not do so again. */
  predicate HasWritten(p: Proc, id: int) {
    p.Admin? && p.apc.Past? && p.apc.hit && p.apc.id == id
  }

  /** What a process has to say about its product, if it got past its statement. */
  function EventBy(s: State, who: Option<nat>): Option<ProductEvent> {
    if who.Some? && who.value < |s.procs| && s.procs[who.value].Admin? && s.procs[who.value].apc.Past?
    then Some(EventOf(s.procs[who.value])) else None
  }

  lemma AnnouncedStays(s: State, i: nat, a: Action, who: nat, id: int)
    requires Enabled(s, i, a) && who < |s.procs| && HasAnnounced(s.procs[who], id)
    ensures |Step(s, i, a).procs| == |s.procs| && Step(s, i, a).procs[who] == s.procs[who]
  {
    StepAdvances(s, i, a);
  }

  /** A send puts the process's event at the end of its product's partition. */
  lemma AnnounceIsLast(route: string -> nat, x: Site, i: nat, id: int)
    requires SiteCan(route, x, Stored(i, Announce)) && x.store.procs[i].Admin?
    ensures var x' := SiteNext(route, x, Stored(i, Announce));
            && |x'.store.procs| == |x.store.procs| && x'.store.procs[i].Admin? && x'.store.procs[i].apc.Past?
            && HasAnnounced(x'.store.procs[i], x.store.procs[i].apc.id)
            && LastOn(LogOf(route, x'.worker, id), id) ==
               if x.store.procs[i].apc.id == id then Some(EventOf(x'.store.procs[i]))
               else LastOn(LogOf(route, x.worker, id), id)
  {
    AnnounceEffect(route, x, i);
    LastOnAppend(LogOf(route, x.worker, id), Announcement(x.store.procs[i]), id);
  }

  lemma OthersSendNothing(route: string -> nat, x: Site, e: SiteEvent, id: int)
    requires SiteCan(route, x, e) && (e.Stored? ==> !e.a.Announce?)
    ensures LogOf(route, SiteNext(route, x, e).worker, id) == LogOf(route, x.worker, id)
  {
  }

  /** The last message about a product is its last announcer's. */
  lemma {:induction false} AnnouncerDecides(route: string -> nat, x: Site, es: seq<SiteEvent>, id: int)
    requires SiteInit(route, x) && FreeRun(route, x, es).Some?
    ensures var y, who := FreeRun(route, x, es).value, LastAnnouncer(route, x, es, id);
            && (who.Some? ==> who.value < |y.store.procs| && HasAnnounced(y.store.procs[who.value], id))
            && LastOn(LogOf(route, y.worker, id), id) == EventBy(y.store, who)
  {
    if es != [] {
      var pre, e := es[..|es| - 1], es[|es| - 1];
      var y, who := FreeRun(route, x, pre).value, LastAnnouncer(route, x, pre, id);
      AnnouncerDecides(route, x, pre, id);
      if e.Stored? && who.Some? {
        AnnouncedStays(y.store, e.i, e.a, who.value, id);
      }
      if e.Stored? && e.a.Announce? {
        AnnounceIsLast(route, y, e.i, id);
      } else {
        OthersSendNothing(route, y, e, id);
      }
    }
  }

  /** The last write of a product is its last writer's. */
  lemma {:induction false} WriterDecides(s: State, t: Tables, cs: seq<Commit>, id: int)
    requires id !in t.rows
    requires forall k :: 0 <= k < |cs| ==> cs[k].who < |s.procs| && Effect(s.procs[cs[k].who]) == Some(cs[k].op)
    ensures var who := LastWriter(cs, id);
            && (who.Some? ==> who.value < |s.procs| && HasWritten(s.procs[who.value], id))
            && Document(EventBy(s, who)) == WrittenDocument(t, cs, id)
  {
    if cs != [] {
      WriterDecides(s, t, cs[..|cs| - 1], id);
    }
  }

  /** The same condition in terms of the processes: the drift equation holds of a caught-up product exactly if its
      last announcer and its last writer have the same to say about it; the announcer has announced, so it is no
      process whose send or acknowledgement was lost, and the writer hit its row. When they are one process, as
      they are when writes of the product do not overlap, the equation holds. */
  lemma LastAnnouncerMustAgree(route: string -> nat, x: Site, es: seq<SiteEvent>, id: int)
    requires SiteInit(route, x) && FreeRun(route, x, es).Some?
    requires CaughtUp(route, FreeRun(route, x, es).value.worker, id)
    ensures var y := FreeRun(route, x, es).value;
            var announcer, writer := LastAnnouncer(route, x, es, id), LastWriter(y.store.commits, id);
            && (announcer.Some? ==>
                  announcer.value < |y.store.procs| && HasAnnounced(y.store.procs[announcer.value], id))
            && (writer.Some? ==> writer.value < |y.store.procs| && HasWritten(y.store.procs[writer.value], id))
            && (Agrees(y.store, id, Lookup(y.worker.index, id)) <==>
                Document(EventBy(y.store, announcer)) == Document(EventBy(y.store, writer)))
            && (announcer == writer ==> Agrees(y.store, id, Lookup(y.worker.index, id)))
  {
    FreeRunKeepsInv(route, x, es);
    var y := FreeRun(route, x, es).value;
    IndexAgreesExactly(route, x, es, id);
    AnnouncerDecides(route, x, es, id);
    WriterDecides(y.store, x.store.tables, y.store.commits, id);
  }

  /** Two updates: of the product updated last by process j and announced last by process i, the index agrees with
      the table exactly if i is j, or both asked for the same row. */
  lemma OverlapAgreesExactlyInOrder(route: string -> nat, x: Site, es: seq<SiteEvent>, id: int, i: nat, j: nat)
    requires SiteInit(route, x) && FreeRun(route, x, es).Some?
    requires CaughtUp(route, FreeRun(route, x, es).value.worker, id)
    requires LastAnnouncer(route, x, es, id) == Some(i)
    requires LastWriter(FreeRun(route, x, es).value.store.commits, id) == Some(j)
    ensures var y := FreeRun(route, x, es).value;
            && i < |y.store.procs| && j < |y.store.procs| && y.store.procs[i].Admin? && y.store.procs[j].Admin?
            && (y.store.procs[i].request.Update? && y.store.procs[j].request.Update? ==>
                  (Agrees(y.store, id, Lookup(y.worker.index, id)) <==>
                   i == j || y.store.procs[i].request.row == y.store.procs[j].request.row))
  {
    LastAnnouncerMustAgree(route, x, es, id);
  }

  /** An update agrees with the table after its statement exactly if it hit a row: the repository announces an
      update of a missing product all the same, and the index then shows a product the table does not have. */
  lemma UpdateAgreesExactlyOnHit(s: State, i: nat)
    requires Enabled(s, i, Exec) && s.procs[i].Admin? && s.procs[i].request.Update?
    ensures var s' := Step(s, i, Exec);
            && s'.procs[i].apc.Past?
            && (s'.procs[i].apc.hit <==> s.procs[i].request.id in s.tables.rows)
            && (Agrees(s', s.procs[i].request.id, Document(Some(EventOf(s'.procs[i])))) <==> s'.procs[i].apc.hit)
  {
    var s' := Step(s, i, Exec);
    assert s' == Perform(s, i, Executed);
    var id := s.procs[i].request.id;
    SoldSinceAppend(s.commits, Commit(i, Edit(id, s.procs[i].request.row)), id);
  }

  // ----- Runs without any failure that end in disagreement -----

  /** No failure of the environment and no restart. */
  ghost predicate Smooth(es: seq<SiteEvent>) {
    forall k :: 0 <= k < |es| ==> if es[k].Stored? then !ByEnvironment(es[k].a) else es[k].st.Take?
  }

  /** A run that has come to y. */
  ghost predicate CameTo(route: string -> nat, x: Site, es: seq<SiteEvent>, y: Site) {
    FreeRun(route, x, es) == Some(y) && Smooth(es)
  }

  lemma Go(route: string -> nat, x: Site, es: seq<SiteEvent>, y: Site, e: SiteEvent)
    requires CameTo(route, x, es, y) && SiteCan(route, y, e)
    requires if e.Stored? then !ByEnvironment(e.a) else e.st.Take?
    ensures CameTo(route, x, es + [e], SiteNext(route, y, e))
  {
    assert (es + [e])[..|es + [e]| - 1] == es;
  }

  /** An empty catalogue, one partition, and the given product writes. */
  function EmptyShop(users: set<int>, nextId: int, requests: seq<Request>): Site {
    var procs := seq(|requests|, k requires 0 <= k < |requests| => Admin(requests[k], Ready));
    Site(State(Tables(users, map[], []), nextId, map[], procs, [], []),
         Worker([Claim([], 0, 0, 0, 0, {})], map[], []))
  }

  ghost predicate OnePartition(route: string -> nat, w: Worker) {
    (forall key :: route(key) == 0) && |w.claims| == 1
  }

  lemma ExecNow(route: string -> nat, x: Site, es: seq<SiteEvent>, y: Site, i: nat)
    returns (all: seq<SiteEvent>, z: Site)
    requires CameTo(route, x, es, y) && i < |y.store.procs| && y.store.procs[i].Admin? && y.store.procs[i].apc.Ready?
    requires Statement(y.store, y.store.procs[i].request).Wrote? && y.store.locks == map[]
    ensures CameTo(route, x, all, z) && z == y.(store := Perform(y.store, i, Executed))
  {
    Go(route, x, es, y, Stored(i, Exec));
    z := SiteNext(route, y, Stored(i, Exec));
    assert Step(y.store, i, Exec) == AdminStep(y.store, i, Exec);
    all := es + [Stored(i, Exec)];
  }

  lemma DropNow(route: string -> nat, x: Site, es: seq<SiteEvent>, y: Site, i: nat)
    returns (all: seq<SiteEvent>, z: Site)
    requires CameTo(route, x, es, y) && i < |y.store.procs|
    requires y.store.procs[i].Admin? && y.store.procs[i].apc.Past? && y.store.procs[i].apc.stage.Executed?
    ensures CameTo(route, x, all, z)
    ensures var p := y.store.procs[i];
            z == y.(store := y.store.(procs := y.store.procs[i := p.(apc := p.apc.(stage := Invalidated))]))
  {
    Go(route, x, es, y, Stored(i, Invalidate));
    z := SiteNext(route, y, Stored(i, Invalidate));
    assert Step(y.store, i, Invalidate) == AdminStep(y.store, i, Invalidate);
    all := es + [Stored(i, Invalidate)];
  }

  lemma SendNow(route: string -> nat, x: Site, es: seq<SiteEvent>, y: Site, i: nat)
    returns (all: seq<SiteEvent>, z: Site)
    requires CameTo(route, x, es, y) && OnePartition(route, y.worker) && i < |y.store.procs|
    requires y.store.procs[i].Admin? && y.store.procs[i].apc.Past? && y.store.procs[i].apc.stage.Invalidated?
    ensures CameTo(route, x, all, z)
    ensures var p, c := y.store.procs[i], y.worker.claims[0];
            && z.store == y.store.(procs := y.store.procs[i := p.(apc := p.apc.(stage := Announced))])
            && z.worker == y.worker.(claims := y.worker.claims[0 := c.(log := c.log + [Announcement(p)])])
  {
    Go(route, x, es, y, Stored(i, Announce));
    AnnounceEffect(route, y, i);
    z := SiteNext(route, y, Stored(i, Announce));
    all := es + [Stored(i, Announce)];
  }

  /** Process i, past its statement, drops its keys and announces its write. */
  lemma AnnounceNow(route: string -> nat, x: Site, es: seq<SiteEvent>, y: Site, i: nat)
    returns (all: seq<SiteEvent>, z: Site)
    requires CameTo(route, x, es, y) && OnePartition(route, y.worker) && i < |y.store.procs|
    requires y.store.procs[i].Admin? && y.store.procs[i].apc.Past? && y.store.procs[i].apc.stage.Executed?
    ensures CameTo(route, x, all, z) && OnePartition(route, z.worker)
    ensures var p := y.store.procs[i];
            && z.store == y.store.(procs := y.store.procs[i := p.(apc := p.apc.(stage := Announced))])
            && z.worker.claims[0].log == y.worker.claims[0].log + [Announcement(p)]
            && z.worker.claims[0].pos == y.worker.claims[0].pos
  {
    var some, u := DropNow(route, x, es, y, i);
    all, z := SendNow(route, x, some, u, i);
  }

  /** The worker takes what is left in the one partition. */
  lemma {:induction false} CatchUp(route: string -> nat, x: Site, es: seq<SiteEvent>, y: Site)
    returns (all: seq<SiteEvent>, z: Site)
    requires CameTo(route, x, es, y) && OnePartition(route, y.worker)
    requires y.worker.claims[0].pos <= |y.worker.claims[0].log|
    ensures CameTo(route, x, all, z) && OnePartition(route, z.worker) && z.store == y.store
    ensures z.worker.claims[0].log == y.worker.claims[0].log && z.worker.claims[0].pos == |z.worker.claims[0].log|
    decreases |y.worker.claims[0].log| - y.worker.claims[0].pos
  {
    if y.worker.claims[0].pos == |y.worker.claims[0].log| {
      all, z := es, y;
    } else {
      Go(route, x, es, y, Worked(Take(0)));
      all, z := CatchUp(route, x, es + [Worked(Take(0))], SiteNext(route, y, Worked(Take(0))));
    }
  }

  /** A run from an empty catalogue that ends with the given message last shows that message. */
  lemma EndsWith(
    route: string -> nat, x: Site, es: seq<SiteEvent>, y: Site, id: int, before: seq<Message>, m: Message)
    requires SiteInit(route, x) && CameTo(route, x, es, y) && OnePartition(route, y.worker)
    requires y.worker.claims[0].log == before + [m] && y.worker.claims[0].pos == |before| + 1 && Concerns(m, id)
    ensures CaughtUp(route, y.worker, id) && Lookup(y.worker.index, id) == Document(m.payload)
  {
    FreeRunKeepsInv(route, x, es);
    CaughtUpShowsLast(route, y.worker, id);
    LastOnAppend(before, m, id);
  }

  /** An update of a product that does not exist is announced all the same: in a run without any failure the index
      ends up with a product that the table does not have. */
  lemma MissingUpdateDiffers(route: string -> nat, users: set<int>, id: int, row: Row)
    returns (es: seq<SiteEvent>, y: Site)
    requires (forall key :: route(key) == 0) && Fits32(id) && RowFits(row)
    ensures SiteInit(route, EmptyShop(users, 1, [Update(id, row)]))
    ensures CameTo(route, EmptyShop(users, 1, [Update(id, row)]), es, y)
    ensures CaughtUp(route, y.worker, id) && Quiet(y.store, id)
    ensures id !in y.store.tables.rows && Lookup(y.worker.index, id) == Some(AsProduct(id, row))
    ensures !Agrees(y.store, id, Lookup(y.worker.index, id))
  {
    var x := EmptyShop(users, 1, [Update(id, row)]);
    assert x.store.procs == [Admin(Update(id, row), Ready)];
    var first, u := ExecNow(route, x, [], x, 0);
    assert u.store == x.store.(procs := [Admin(Update(id, row), Past(Executed, id, false))]);
    var second, v := AnnounceNow(route, x, first, u, 0);
    es, y := CatchUp(route, x, second, v);
    EndsWith(route, x, es, y, id, [], Announcement(u.store.procs[0]));
  }

  /** A product is created and announced. */
  lemma CreateFirst(route: string -> nat, x: Site, id: int, first: Row, p1: Proc, p2: Proc)
    returns (es: seq<SiteEvent>, y: Site)
    requires OnePartition(route, x.worker) && Fits32(id) && RowFits(first)
    requires x.store.procs == [Admin(Create(first), Ready), p1, p2] && x.store.nextId == id
    requires x.store.tables.rows == map[] && x.store.locks == map[] && x.store.commits == []
    ensures CameTo(route, x, es, y) && OnePartition(route, y.worker)
    ensures y.store.procs == [Admin(Create(first), Past(Announced, id, true)), p1, p2]
    ensures y.store.tables.rows == map[id := first] && y.store.locks == map[]
    ensures |y.worker.claims[0].log| == |x.worker.claims[0].log| + 1
    ensures y.worker.claims[0].pos == x.worker.claims[0].pos
  {
    var es1, y1 := ExecNow(route, x, [], x, 0);
    assert y1.store.procs == [Admin(Create(first), Past(Executed, id, true)), p1, p2];
    es, y := AnnounceNow(route, x, es1, y1, 0);
  }

  /** Then it is updated twice, and neither update is announced yet. */
  lemma TwoUpdatesCommit(
    route: string -> nat, x: Site, es: seq<SiteEvent>, y: Site, id: int, p0: Proc, row: Row, a: Row, b: Row)
    returns (all: seq<SiteEvent>, z: Site)
    requires CameTo(route, x, es, y) && Fits32(id) && RowFits(a) && RowFits(b)
    requires y.store.procs == [p0, Admin(Update(id, a), Ready), Admin(Update(id, b), Ready)]
    requires y.store.tables.rows == map[id := row] && y.store.locks == map[]
    ensures CameTo(route, x, all, z) && z.worker == y.worker && z.store.tables.rows == map[id := b]
    ensures z.store.procs ==
            [p0, Admin(Update(id, a), Past(Executed, id, true)), Admin(Update(id, b), Past(Executed, id, true))]
    ensures SoldSince(z.store.commits, id) == 0
  {
    var es1, y1 := ExecNow(route, x, es, y, 1);
    assert y1.store.procs == [p0, Admin(Update(id, a), Past(Executed, id, true)), Admin(Update(id, b), Ready)];
    all, z := ExecNow(route, x, es1, y1, 2);
  }

  /** And the second is announced before the first, and everything is taken. */
  lemma SecondThenFirst(
    route: string -> nat, x: Site, es: seq<SiteEvent>, y: Site, id: int, p0: Proc, p1: Proc, p2: Proc)
    returns (all: seq<SiteEvent>, z: Site)
    requires SiteInit(route, x) && CameTo(route, x, es, y) && OnePartition(route, y.worker)
    requires y.store.procs == [p0, p1, p2] && y.worker.claims[0].pos <= |y.worker.claims[0].log|
    requires p1.Admin? && p1.apc.Past? && p1.apc.stage.Executed? && p1.apc.id == id
    requires p2.Admin? && p2.apc.Past? && p2.apc.stage.Executed?
    ensures CameTo(route, x, all, z) && CaughtUp(route, z.worker, id)
    ensures z.store == y.store.(procs := [p0, p1.(apc := p1.apc.(stage := Announced)),
                                              p2.(apc := p2.apc.(stage := Announced))])
    ensures Lookup(z.worker.index, id) == Document(Some(EventOf(p1)))
  {
    var es3, y3 := AnnounceNow(route, x, es, y, 2);
    assert y3.store.procs == [p0, p1, p2.(apc := p2.apc.(stage := Announced))];
    var es4, y4 := AnnounceNow(route, x, es3, y3, 1);
    all, z := CatchUp(route, x, es4, y4);
    EndsWith(route, x, all, z, id, y3.worker.claims[0].log, Announcement(p1));
  }

  /** Two overlapping updates announced in the other order: in a run without any failure the second to commit is in
      the table, the first is in the index, and the two agree only if both updates asked for the same row. */
  lemma ReversedAnnouncementsDiffer(route: string -> nat, users: set<int>, id: int, first: Row, a: Row, b: Row)
    returns (es: seq<SiteEvent>, y: Site)
    requires (forall key :: route(key) == 0) && Fits32(id) && RowFits(first) && RowFits(a) && RowFits(b)
    ensures var x := EmptyShop(users, id, [Create(first), Update(id, a), Update(id, b)]);
            SiteInit(route, x) && CameTo(route, x, es, y)
    ensures CaughtUp(route, y.worker, id) && Quiet(y.store, id)
    ensures y.store.tables.rows == map[id := b] && Lookup(y.worker.index, id) == Some(AsProduct(id, a))
    ensures Agrees(y.store, id, Lookup(y.worker.index, id)) <==> a == b
  {
    var x := EmptyShop(users, id, [Create(first), Update(id, a), Update(id, b)]);
    var p1, p2 := Admin(Update(id, a), Ready), Admin(Update(id, b), Ready);
    assert x.store.procs == [Admin(Create(first), Ready), p1, p2];
    var es1, y1 := CreateFirst(route, x, id, first, p1, p2);
    var es2, y2 := TwoUpdatesCommit(route, x, es1, y1, id, y1.store.procs[0], first, a, b);
    es, y := SecondThenFirst(route, x, es2, y2, id, y2.store.procs[0], y2.store.procs[1], y2.store.procs[2]);
  }
}
