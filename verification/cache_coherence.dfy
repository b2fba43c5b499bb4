/** What dropping a key buys: with timely fills, a product entry can be wrong only between the statement of an
    update or delete and the drop that follows it. */
module CacheCoherence {
  import opened Models
  import opened Tables
  import opened Store
  import opened StoreSafety
  import opened StoreHistory
  import opened Keys
  import opened Cache
  import opened CacheSafety

  /** An update or delete of id that changed the table and has not come to its drop yet. */
  predicate Undropped(p: Proc, id: int) {
    p.Admin? && !p.request.Create? && p.apc.Past? && p.apc.stage.Executed? && p.apc.hit && p.apc.id == id
  }

  ghost predicate DropPending(s: State, id: int) {
    exists i :: 0 <= i < |s.procs| && Undropped(s.procs[i], id)
  }

  /** The hypotheses: drops succeed, no acknowledgement of a write is lost, and a product is put into the cache
      before anything but a sale happened to it since it was read. Everything else is free. */
  ghost predicate Timely(w: World, e: Event)
    requires Possible(w, e)
  {
    match e
    case Moved(_, a, _, oneDropped) => !a.ExecLost? && (a.Invalidate? ==> oneDropped)
    case Fill(r) =>
      w.readers[r].ask.ById? ==> OnlySold(w.store.commits, w.readers[r].pc.version, w.readers[r].ask.id)
    case _ => true
  }

  ghost predicate TimelyRun(w: World, es: seq<Event>) {
    es != [] ==>
      && TimelyRun(w, es[..|es| - 1])
      && Play(w, es[..|es| - 1]).Some?
      && Possible(Play(w, es[..|es| - 1]).value, es[|es| - 1])
      && Timely(Play(w, es[..|es| - 1]).value, es[|es| - 1])
  }

  ghost predicate EntryCoherent(w: World, id: int) {
    ProductKey(id) in w.redis ==>
      && ProductKey(id) in w.origins && id < w.store.nextId
      && (OnlySold(w.store.commits, w.origins[ProductKey(id)].version, id) || DropPending(w.store, id))
  }

  ghost predicate ReadersBelow(w: World) {
    forall r :: 0 <= r < |w.readers| && w.readers[r].pc.Loaded? && w.readers[r].ask.ById? ==>
      w.readers[r].ask.id < w.store.nextId
  }

  ghost predicate Coherent(w: World) {
    ReadersBelow(w) && forall id: int :: EntryCoherent(w, id)
  }

  lemma OnlySoldAppend(cs: seq<Commit>, c: Commit, v: nat, id: int)
    requires v <= |cs| && OnlySold(cs, v, id) && (c.op.Buy? || Touches(c.op) != id)
    ensures OnlySold(cs + [c], v, id)
  {
  }

  /** What a step does to the writes that still owe a drop. */
  lemma StepAndDrops(s: State, t: Tables, i: nat, a: Action, id: int)
    requires Inv(s, t) && Enabled(s, i, a) && !a.ExecLost? && id < s.nextId
    ensures var s' := Step(s, i, a);
            && s.nextId <= s'.nextId
            && (s'.commits != s.commits ==>
                  var c := s'.commits[|s.commits|];
                  && s'.commits == s.commits + [c]
                  && (c.op.Buy? || Touches(c.op) != id || Undropped(s'.procs[i], id)))
            && (Undropped(s.procs[i], id) ==> a.Invalidate?)
  {
    StepAdvances(s, i, a);
    if s.procs[i].Admin? && a.Exec? {
      assert Step(s, i, a) == Perform(s, i, Executed);
    }
  }

  lemma MovedKeepsEntry(w: World, t: Tables, e: Event, id: int)
    requires WorldInv(w, t) && e.Moved? && Possible(w, e) && Timely(w, e) && EntryCoherent(w, id)
    ensures EntryCoherent(Next(w, e), id)
  {
    var w' := Next(w, e);
    var s, s' := w.store, w'.store;
    if ProductKey(id) in w'.redis {
      StepAdvances(s, e.i, e.a);
      StepAndDrops(s, t, e.i, e.a, id);
      var v := w.origins[ProductKey(id)].version;
      assert EntryOk(w, t, ById(id));
      if DropPending(s, id) {
        var j :| 0 <= j < |s.procs| && Undropped(s.procs[j], id);
        assert j != e.i;
        assert Undropped(s'.procs[j], id);
      } else if s'.commits != s.commits {
        var c := s'.commits[|s.commits|];
        if !Undropped(s'.procs[e.i], id) {
          OnlySoldAppend(s.commits, c, v, id);
        }
      }
    }
  }

  lemma FillKeepsEntry(w: World, e: Event, id: int)
    requires e.Fill? && Possible(w, e) && Timely(w, e) && ReadersBelow(w) && EntryCoherent(w, id)
    ensures EntryCoherent(Next(w, e), id)
  {
    var q := w.readers[e.r].ask;
    if KeyOf(q) == ProductKey(id) {
      KeyOfInjective(q, ById(id));
    }
  }

  lemma NextKeepsCoherent(w: World, t: Tables, e: Event)
    requires WorldInv(w, t) && Possible(w, e) && Timely(w, e) && Coherent(w)
    ensures Coherent(Next(w, e))
  {
    var w' := Next(w, e);
    assert w.store.nextId <= w'.store.nextId by {
      if e.Moved? {
        StepAndDrops(w.store, t, e.i, e.a, w.store.nextId - 1);
      }
    }
    forall id: int ensures EntryCoherent(w', id) {
      assert EntryCoherent(w, id);
      if e.Moved? {
        MovedKeepsEntry(w, t, e, id);
      } else if e.Fill? {
        FillKeepsEntry(w, e, id);
      }
    }
  }

  lemma {:induction false} TimelyRunKeepsCoherent(w: World, t: Tables, es: seq<Event>)
    requires WorldInit(w, t) && Play(w, es).Some? && TimelyRun(w, es)
    ensures Coherent(Play(w, es).value)
  {
    if es != [] {
      TimelyRunKeepsCoherent(w, t, es[..|es| - 1]);
      PlayKeepsInv(w, t, es[..|es| - 1]);
      NextKeepsCoherent(Play(w, es[..|es| - 1]).value, t, es[|es| - 1]);
    }
  }

  /** Invalidation works as far as it can: along every interleaved run with timely fills, at every moment at
      which no write of the product still owes its drop, a cached product has its row, with the same name and
      price, and a stock higher by exactly what was sold since the entry was read. */
  lemma {:induction false} CacheDriftsBetweenDrops(w: World, t: Tables, es: seq<Event>, id: int)
    requires WorldInit(w, t) && Play(w, es).Some? && TimelyRun(w, es)
    requires ProductKey(id) in Play(w, es).value.redis && !DropPending(Play(w, es).value.store, id)
    ensures var u := Play(w, es).value;
            var v, rows := u.redis[ProductKey(id)].value, u.store.tables.rows;
            && ProductKey(id) in u.origins && u.origins[ProductKey(id)].version <= |u.store.commits|
            && v.One? && id in rows
            && v.p == AsProduct(id, rows[id]).(
                        stock := rows[id].stock
                                 + SoldAfter(u.store.commits, u.origins[ProductKey(id)].version, id))
  {
    TimelyRunKeepsCoherent(w, t, es);
    assert EntryCoherent(Play(w, es).value, id);
    assert KeyOf(ById(id)) == ProductKey(id);
    EntryDriftsBySales(w, t, es, id);
  }

  // ----- Why fills must be timely -----

  lemma PlayAppend(w: World, es: seq<Event>, u: World, e: Event)
    requires Play(w, es) == Some(u) && Possible(u, e)
    ensures Play(w, es + [e]) == Some(Next(u, e))
  {
    assert (es + [e])[..|es + [e]| - 1] == es;
  }

  lemma ReadNext(u: World, id: int, row: Row)
    requires u.readers == [Reader(ById(id), Missed)] && u.store.tables.rows == map[id := row]
    ensures var e := Load(0, [AsProduct(id, row)], false);
            && Possible(u, e)
            && Next(u, e) ==
               u.(readers := [Reader(ById(id), Loaded(One(AsProduct(id, row)), |u.store.commits|, u.clock))])
  {
  }

  lemma UpdateNext(u: World, i: nat, id: int, row: Row)
    requires i < |u.store.procs| && u.store.procs[i] == Admin(Update(id, row), Ready)
    requires id in u.store.tables.rows && id !in u.store.locks && Fits32(id) && RowFits(row)
    ensures Possible(u, Moved(i, Exec, true, true))
    ensures var s := u.store;
            Next(u, Moved(i, Exec, true, true)) ==
            u.(store := s.(tables := s.tables.(rows := s.tables.rows[id := row]),
                           procs := s.procs[i := Admin(Update(id, row), Past(Executed, id, true))],
                           commits := s.commits + [Commit(i, Edit(id, row))]),
               stamps := u.stamps + [u.clock])
  {
    var e := Moved(i, Exec, true, true);
    assert Step(u.store, i, Exec) == Perform(u.store, i, Executed);
    assert Dropped(u.store.procs[i], e) == {};
    assert u.redis - {} == u.redis;
  }

  lemma DropNext(u: World, i: nat, id: int, row: Row)
    requires i < |u.store.procs| && u.store.procs[i] == Admin(Update(id, row), Past(Executed, id, true))
    ensures Possible(u, Moved(i, Invalidate, true, true))
    ensures var s := u.store;
            Next(u, Moved(i, Invalidate, true, true)) ==
            u.(store := s.(procs := s.procs[i := Admin(Update(id, row), Past(Invalidated, id, true))]),
               redis := u.redis - ({ALL_KEY} + {ProductKey(id)}))
  {
    assert Step(u.store, i, Invalidate) == AdminStep(u.store, i, Invalidate);
  }

  /** The cache shows a row that an update has replaced, and nobody owes a drop any more. */
  ghost predicate PutBack(u: World, id: int, before: Row, after: Row) {
    && u.store.tables.rows == map[id := after] && u.store.commits == [Commit(0, Edit(id, after))]
    && !DropPending(u.store, id)
    && ProductKey(id) in u.redis && u.redis[ProductKey(id)].value == One(AsProduct(id, before))
    && ProductKey(id) in u.origins && u.origins[ProductKey(id)].version == 0
  }

  /** One product, one update of it, and one reader of it. */
  function SmallWorld(users: set<int>, id: int, before: Row, after: Row, now: int): World {
    World(State(Tables(users, map[id := before], []), id + 1, map[], [Admin(Update(id, after), Ready)], [], []),
          [], now, map[], map[], [Reader(ById(id), Looking)])
  }

  /** The events contain no failure of the environment, of a drop or of a fill. */
  ghost predicate Faultless(es: seq<Event>) {
    forall k :: 0 <= k < |es| ==>
      match es[k]
      case Moved(_, a, allDropped, oneDropped) => !ByEnvironment(a) && allDropped && oneDropped
      case FillFail(_) => false
      case Fail(_) => false
      case Evict(_) => false
      case _ => true
  }

  /** One more faultless event. */
  lemma PlayMore(w: World, es: seq<Event>, u: World, e: Event) returns (all: seq<Event>, v: World)
    requires Play(w, es) == Some(u) && Faultless(es) && Possible(u, e) && Faultless([e])
    ensures Play(w, all) == Some(v) && v == Next(u, e) && Faultless(all)
  {
    PlayAppend(w, es, u, e);
    assert [e][0] == e;
    all, v := es + [e], Next(u, e);
  }

  lemma ReadFirst(w: World, id: int, row: Row) returns (es: seq<Event>)
    requires w.readers == [Reader(ById(id), Looking)] && w.store.tables.rows == map[id := row]
    ensures Faultless(es)
    ensures Play(w, es) ==
            Some(w.(readers := [Reader(ById(id), Loaded(One(AsProduct(id, row)), |w.store.commits|, w.clock))]))
  {
    PlayAppend(w, [], w, Miss(0));
    assert [] + [Miss(0)] == [Miss(0)];
    var u := Next(w, Miss(0));
    assert u == w.(readers := [Reader(ById(id), Missed)]);
    ReadNext(u, id, row);
    PlayAppend(w, [Miss(0)], u, Load(0, [AsProduct(id, row)], false));
    es := [Miss(0)] + [Load(0, [AsProduct(id, row)], false)];
  }

  /** The world of one product after its only update has dropped its keys. */
  ghost predicate Overtook(u: World, id: int, after: Row) {
    && u.store.procs == [Admin(Update(id, after), Past(Invalidated, id, true))]
    && u.store.tables.rows == map[id := after] && u.store.commits == [Commit(0, Edit(id, after))]
  }

  lemma UpdateOvertakes(u: World, id: int, before: Row, after: Row)
    requires Fits32(id) && RowFits(after)
    requires u.store.procs == [Admin(Update(id, after), Ready)] && u.store.commits == []
    requires u.store.tables.rows == map[id := before] && u.store.locks == map[]
    ensures Possible(u, Moved(0, Exec, true, true))
    ensures var x := Next(u, Moved(0, Exec, true, true));
            && Possible(x, Moved(0, Invalidate, true, true))
            && var v := Next(x, Moved(0, Invalidate, true, true)); Overtook(v, id, after) && v.readers == u.readers
  {
    UpdateNext(u, 0, id, after);
    DropNext(Next(u, Moved(0, Exec, true, true)), 0, id, after);
  }

  lemma UpdateSecond(w: World, es: seq<Event>, u: World, id: int, before: Row, after: Row)
    returns (all: seq<Event>, v: World)
    requires Play(w, es) == Some(u) && Faultless(es) && Fits32(id) && RowFits(after)
    requires u.store.procs == [Admin(Update(id, after), Ready)] && u.store.commits == []
    requires u.store.tables.rows == map[id := before] && u.store.locks == map[]
    ensures Play(w, all) == Some(v) && Faultless(all) && Overtook(v, id, after) && v.readers == u.readers
  {
    UpdateOvertakes(u, id, before, after);
    var some, x := PlayMore(w, es, u, Moved(0, Exec, true, true));
    all, v := PlayMore(w, some, x, Moved(0, Invalidate, true, true));
  }

  lemma FillLast(w: World, es: seq<Event>, u: World, id: int, before: Row, after: Row, at: int)
    returns (all: seq<Event>, v: World)
    requires Play(w, es) == Some(u) && Faultless(es) && Overtook(u, id, after)
    requires u.readers == [Reader(ById(id), Loaded(One(AsProduct(id, before)), 0, at))]
    ensures Play(w, all) == Some(v) && Faultless(all) && PutBack(v, id, before, after)
  {
    all, v := PlayMore(w, es, u, Fill(0));
    assert v.store == u.store && KeyOf(ById(id)) == ProductKey(id);
  }

  lemma SmallWorldInit(users: set<int>, id: int, before: Row, after: Row, now: int)
    requires Fits32(id) && RowFits(before)
    ensures var w := SmallWorld(users, id, before, after, now); WorldInit(w, w.store.tables)
  {
  }

  /** A reader that reads before an update and fills after its drop puts the old row back: no call fails, both
      drops are made, and the cache then holds the row from before the update. */
  lemma SlowFillPutsBack(users: set<int>, id: int, before: Row, after: Row, now: int)
    returns (es: seq<Event>, v: World)
    requires Fits32(id) && RowFits(before) && RowFits(after)
    ensures var w := SmallWorld(users, id, before, after, now);
            WorldInit(w, w.store.tables) && Play(w, es) == Some(v)
    ensures Faultless(es) && PutBack(v, id, before, after)
  {
    SmallWorldInit(users, id, before, after, now);
    var w := SmallWorld(users, id, before, after, now);
    var first := ReadFirst(w, id, before);
    var most, u := UpdateSecond(w, first, Play(w, first).value, id, before, after);
    es, v := FillLast(w, most, u, id, before, after, now);
  }

  /** So the drift equation fails there, unless the update wrote the row as it was. */
  lemma PutBackDrifts(u: World, id: int, before: Row, after: Row)
    requires PutBack(u, id, before, after)
    ensures Exceeds(u.redis[ProductKey(id)].value.p, u.store.tables.rows, id, SoldAfter(u.store.commits, 0, id))
            <==> before == after
  {
    assert SoldAfter(u.store.commits, 0, id) == 0;
  }
}
