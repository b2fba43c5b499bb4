/** What every reachable state of the cache keeps, and how stale an answer can be. */
module CacheSafety {
  import opened Models
  import opened Tables
  import opened StoreSafety
  import opened StoreHistory
  import opened Keys
  import opened Query
  import opened Cache

  /** A table state answers a read with this value. */
  ghost predicate Answers(t: Tables, q: Ask, v: Value) {
    exists order, early :: Lists(order, t.rows) && Select(t, q, order, early) == Some(v)
  }

  /** What such an answer is: the product as the row has it, or a right list of the rows in some order. */
  lemma AnswersAreRight(t: Tables, q: Ask, v: Value)
    requires Answers(t, q, v)
    ensures q.ById? ==>
              q.id in t.rows && v == One(Product(q.id, t.rows[q.id].name, t.rows[q.id].price, t.rows[q.id].stock))
    ensures q.ByPage? ==>
              v.Many? && exists order, early :: Lists(order, t.rows) && RightList(q.f, early, order, v.ps)
  {
    var order, early :| Lists(order, t.rows) && Select(t, q, order, early) == Some(v);
    if q.ByPage? {
      PageIsRightList(q.f, early, order, t.rows);
    }
  }

  /** Version v of the tables was the committed one at time at. */
  ghost predicate CurrentAt(w: World, v: nat, at: int) {
    && v <= |w.stamps| && at <= w.clock
    && (forall k :: 0 <= k < v ==> w.stamps[k] <= at)
    && (forall k :: v <= k < |w.stamps| ==> at <= w.stamps[k])
  }

  /** The value is what the database answered to q at time at, from its committed version v. */
  ghost predicate Genuine(w: World, t: Tables, q: Ask, value: Value, v: nat, at: int) {
    && CurrentAt(w, v, at)
    && v <= |w.store.commits| && Replay(t, w.store.commits[..v]).Some?
    && Answers(Replay(t, w.store.commits[..v]).value, q, value)
  }

  ghost predicate StampsOk(w: World) {
    |w.stamps| == |w.store.commits| && forall k :: 0 <= k < |w.stamps| ==> w.stamps[k] <= w.clock
  }

  ghost predicate EntryOk(w: World, t: Tables, q: Ask)
    requires KeyOf(q) in w.redis
  {
    && KeyOf(q) in w.origins
    && var e, o := w.redis[KeyOf(q)], w.origins[KeyOf(q)];
       && Genuine(w, t, q, e.value, o.version, o.readAt)
       && o.readAt <= o.setAt <= w.clock && e.expires == o.setAt + Ttl(q)
  }

  ghost predicate RedisOk(w: World, t: Tables) {
    forall q: Ask :: KeyOf(q) in w.redis ==> EntryOk(w, t, q)
  }

  ghost predicate ReaderOk(w: World, t: Tables, rd: Reader) {
    match rd.pc
    case Loaded(value, v, at) => Genuine(w, t, rd.ask, value, v, at)
    case FromDatabase(value, v, at) => Genuine(w, t, rd.ask, value, v, at)
    case FromCache(value, o, at) =>
      && Genuine(w, t, rd.ask, value, o.version, o.readAt)
      && o.readAt <= o.setAt && at < o.setAt + Ttl(rd.ask)
    case _ => true
  }

  ghost predicate ReadersOk(w: World, t: Tables) {
    forall r :: 0 <= r < |w.readers| ==> ReaderOk(w, t, w.readers[r])
  }

  ghost predicate WorldInv(w: World, t: Tables) {
    Inv(w.store, t) && StampsOk(w) && RedisOk(w, t) && ReadersOk(w, t)
  }

  // ----- Time only adds -----

  /** From w to w' the history only grew, and what was added is not older than w. */
  ghost predicate Later(w: World, w': World) {
    && |w.stamps| <= |w'.stamps| && w'.stamps[..|w.stamps|] == w.stamps
    && |w.store.commits| <= |w'.store.commits| && w'.store.commits[..|w.store.commits|] == w.store.commits
    && w.clock <= w'.clock
    && forall k :: |w.stamps| <= k < |w'.stamps| ==> w.clock <= w'.stamps[k] <= w'.clock
  }

  lemma GenuineStays(w: World, w': World, t: Tables, q: Ask, value: Value, v: nat, at: int)
    requires StampsOk(w) && Later(w, w') && Genuine(w, t, q, value, v, at)
    ensures Genuine(w', t, q, value, v, at)
  {
    assert w'.store.commits[..v] == w.store.commits[..|w.store.commits|][..v] == w.store.commits[..v];
    forall k | 0 <= k < v ensures w'.stamps[k] <= at {
      assert w'.stamps[..|w.stamps|][k] == w.stamps[k];
    }
    forall k | v <= k < |w'.stamps| ensures at <= w'.stamps[k] {
      if k < |w.stamps| {
        assert w'.stamps[..|w.stamps|][k] == w.stamps[k];
      }
    }
  }

  lemma ReaderStays(w: World, w': World, t: Tables, rd: Reader)
    requires StampsOk(w) && Later(w, w') && ReaderOk(w, t, rd)
    ensures ReaderOk(w', t, rd)
  {
    match rd.pc
    case Loaded(value, v, at) => GenuineStays(w, w', t, rd.ask, value, v, at);
    case FromDatabase(value, v, at) => GenuineStays(w, w', t, rd.ask, value, v, at);
    case FromCache(value, o, at) => GenuineStays(w, w', t, rd.ask, value, o.version, o.readAt);
    case _ =>
  }

  lemma EntryStays(w: World, w': World, t: Tables, q: Ask)
    requires StampsOk(w) && Later(w, w') && KeyOf(q) in w.redis && EntryOk(w, t, q)
    requires KeyOf(q) in w'.redis && w'.redis[KeyOf(q)] == w.redis[KeyOf(q)]
    requires KeyOf(q) in w'.origins && w'.origins[KeyOf(q)] == w.origins[KeyOf(q)]
    ensures EntryOk(w', t, q)
  {
    var o := w.origins[KeyOf(q)];
    GenuineStays(w, w', t, q, w.redis[KeyOf(q)].value, o.version, o.readAt);
  }

  /** An event that fills nothing keeps the entries that remain and the readers that do not move. */
  lemma RestStays(w: World, w': World, t: Tables)
    requires WorldInv(w, t) && Later(w, w') && w'.origins == w.origins
    requires forall key :: key in w'.redis ==> key in w.redis && w'.redis[key] == w.redis[key]
    ensures RedisOk(w', t)
    ensures forall r :: 0 <= r < |w.readers| ==> ReaderOk(w', t, w.readers[r])
  {
    forall q: Ask | KeyOf(q) in w'.redis ensures EntryOk(w', t, q) {
      assert EntryOk(w, t, q);
      EntryStays(w, w', t, q);
    }
    forall r | 0 <= r < |w.readers| ensures ReaderOk(w', t, w.readers[r]) {
      ReaderStays(w, w', t, w.readers[r]);
    }
  }

  /** Different reads use different keys. */
  lemma KeyOfInjective(q: Ask, p: Ask)
    requires KeyOf(q) == KeyOf(p)
    ensures q == p
  {
    match (q, p)
    case (ById(m), ById(n)) => ProductKeyInjective(m, n);
    case (ByPage(f), ByPage(g)) => ListKeyInjective(f.page, f.limit, f.search, g.page, g.limit, g.search);
    case (ById(m), ByPage(g)) => KeyFamiliesDisjoint(m, g.page, g.limit, g.search);
    case (ByPage(f), ById(n)) => KeyFamiliesDisjoint(n, f.page, f.limit, f.search);
  }

  // ----- Each event keeps the invariant -----

  lemma MovedKeepsInv(w: World, t: Tables, e: Event)
    requires WorldInv(w, t) && e.Moved? && Possible(w, e)
    ensures WorldInv(Next(w, e), t)
  {
    StepKeepsInv(w.store, t, e.i, e.a);
    StepAdvances(w.store, e.i, e.a);
    RestStays(w, Next(w, e), t);
  }

  lemma QuietKeepsInv(w: World, t: Tables, e: Event)
    requires WorldInv(w, t) && (e.Tick? || e.Evict? || e.Miss? || e.Fail?) && Possible(w, e)
    ensures WorldInv(Next(w, e), t)
  {
    RestStays(w, Next(w, e), t);
  }

  lemma HitKeepsInv(w: World, t: Tables, e: Event)
    requires WorldInv(w, t) && e.Hit? && Possible(w, e)
    ensures WorldInv(Next(w, e), t)
  {
    var w' := Next(w, e);
    RestStays(w, w', t);
    var q := w.readers[e.r].ask;
    assert EntryOk(w, t, q);
    assert ReaderOk(w, t, w'.readers[e.r]);
    ReaderStays(w, w', t, w'.readers[e.r]);
  }

  lemma LoadKeepsInv(w: World, t: Tables, e: Event)
    requires WorldInv(w, t) && e.Load? && Possible(w, e)
    ensures WorldInv(Next(w, e), t)
  {
    var w' := Next(w, e);
    RestStays(w, w', t);
    assert w.store.commits[..|w.store.commits|] == w.store.commits;
    assert ReaderOk(w', t, w'.readers[e.r]);
  }

  lemma FillKeepsInv(w: World, t: Tables, e: Event)
    requires WorldInv(w, t) && (e.Fill? || e.FillFail?) && Possible(w, e)
    ensures WorldInv(Next(w, e), t)
  {
    var w' := Next(w, e);
    var rd := w.readers[e.r];
    assert ReaderOk(w, t, rd);
    GenuineStays(w, w', t, rd.ask, rd.pc.value, rd.pc.version, rd.pc.readAt);
    forall q: Ask | KeyOf(q) in w'.redis ensures EntryOk(w', t, q) {
      if e.Fill? && KeyOf(q) == KeyOf(rd.ask) {
        KeyOfInjective(q, rd.ask);
      } else {
        assert EntryOk(w, t, q);
        EntryStays(w, w', t, q);
      }
    }
    forall r | 0 <= r < |w'.readers| ensures ReaderOk(w', t, w'.readers[r]) {
      if r != e.r {
        ReaderStays(w, w', t, w.readers[r]);
      }
    }
  }

  lemma NextKeepsInv(w: World, t: Tables, e: Event)
    requires WorldInv(w, t) && Possible(w, e)
    ensures WorldInv(Next(w, e), t)
  {
    match e
    case Moved(_, _, _, _) => MovedKeepsInv(w, t, e);
    case Hit(_) => HitKeepsInv(w, t, e);
    case Load(_, _, _) => LoadKeepsInv(w, t, e);
    case Fill(_) => FillKeepsInv(w, t, e);
    case FillFail(_) => FillKeepsInv(w, t, e);
    case _ => QuietKeepsInv(w, t, e);
  }

  lemma {:induction false} PlayKeepsInv(w: World, t: Tables, es: seq<Event>)
    requires WorldInit(w, t) && Play(w, es).Some?
    ensures WorldInv(Play(w, es).value, t)
  {
    if es == [] {
      InitInv(w.store, t);
    } else {
      PlayKeepsInv(w, t, es[..|es| - 1]);
      NextKeepsInv(Play(w, es[..|es| - 1]).value, t, es[|es| - 1]);
    }
  }

  // ----- Results -----

  /** Bounded staleness. An answer from the cache at time `at` is what the database answered to the same read,
      from a version that was the committed one at a time later than at minus the entry's lifetime minus the
      delay between the database read and the fill. It holds whatever was written in between. */
  lemma {:induction false} StalenessIsBounded(w: World, t: Tables, es: seq<Event>, r: nat)
    requires WorldInit(w, t) && Play(w, es).Some? && r < |Play(w, es).value.readers|
    requires Play(w, es).value.readers[r].pc.FromCache?
    ensures var u := Play(w, es).value;
            var q, pc := u.readers[r].ask, u.readers[r].pc;
            && Genuine(u, t, q, pc.value, pc.origin.version, pc.origin.readAt)
            && pc.origin.readAt > pc.at - (if q.ById? then 600_000 else 300_000) - (pc.origin.setAt - pc.origin.readAt)
  {
    PlayKeepsInv(w, t, es);
    assert ReaderOk(Play(w, es).value, t, Play(w, es).value.readers[r]);
  }

  /** The cache does answer: after a fill, a reader with the same question is given the value until ten minutes have
      passed for a product and five for a page, and not any more then. */
  lemma FilledIsHit(w: World, t: Tables, r: nat, other: nat, elapsed: nat)
    requires WorldInv(w, t) && Possible(w, Fill(r)) && other < |w.readers| && other != r
    requires w.readers[other] == Reader(w.readers[r].ask, Looking)
    ensures var u := Next(Next(w, Fill(r)), Tick(elapsed));
            && (Possible(u, Hit(other)) <==> elapsed < if w.readers[r].ask.ById? then 600_000 else 300_000)
            && (Possible(u, Hit(other)) ==>
                  && Next(u, Hit(other)).readers[other].pc.FromCache?
                  && Next(u, Hit(other)).readers[other].pc.value == w.readers[r].pc.value)
  {
  }

  /** Every entry, expired or not, is a committed version's answer to the read its key stands for: a product
      entry is a row version committed earlier, a page entry is a page of one committed table state. */
  lemma {:induction false} EntriesAreHistory(w: World, t: Tables, es: seq<Event>, q: Ask)
    requires WorldInit(w, t) && Play(w, es).Some? && KeyOf(q) in Play(w, es).value.redis
    ensures var u := Play(w, es).value;
            && KeyOf(q) in u.origins
            && Genuine(u, t, q, u.redis[KeyOf(q)].value, u.origins[KeyOf(q)].version, u.origins[KeyOf(q)].readAt)
  {
    PlayKeepsInv(w, t, es);
    assert EntryOk(Play(w, es).value, t, q);
  }

  /** The drift of the cache under every interleaving: unless the product was created, updated or deleted after
      the version its entry was read from, the row exists, with the entry's name and price, and the entry's
      stock exceeds the row's by exactly what was sold since that version. */
  lemma EntryDriftsBySales(w: World, t: Tables, es: seq<Event>, id: int)
    requires WorldInit(w, t) && Play(w, es).Some? && KeyOf(ById(id)) in Play(w, es).value.redis
    requires var u := Play(w, es).value;
             KeyOf(ById(id)) in u.origins ==> OnlySold(u.store.commits, u.origins[KeyOf(ById(id))].version, id)
    ensures var u := Play(w, es).value;
            var v, rows := u.redis[KeyOf(ById(id))].value, u.store.tables.rows;
            && KeyOf(ById(id)) in u.origins && u.origins[KeyOf(ById(id))].version <= |u.store.commits|
            && v.One? && id in rows
            && v.p == AsProduct(id, rows[id]).(
                        stock := rows[id].stock
                                 + SoldAfter(u.store.commits, u.origins[KeyOf(ById(id))].version, id))
  {
    PlayKeepsInv(w, t, es);
    EntriesAreHistory(w, t, es, ById(id));
    var u := Play(w, es).value;
    OnlySoldDrifts(t, u.store.commits, u.origins[KeyOf(ById(id))].version, id);
  }

  /** The product has the row's id, name and price, and its stock exceeds the row's by the given units. */
  predicate Exceeds(p: Product, rows: map<int, Row>, id: int, units: int) {
    id in rows && p == AsProduct(id, rows[id]).(stock := rows[id].stock + units)
  }

  /** What an entry shows, and which history since its version keeps it drifting by sales only. */
  ghost predicate DriftsByHistory(u: World, t: Tables, id: int) {
    var key, cs := KeyOf(ById(id)), u.store.commits;
    && key in u.redis && key in u.origins && u.origins[key].version <= |cs|
    && var v := u.origins[key].version;
       && Replay(t, cs[..v]).Some? && id in Replay(t, cs[..v]).value.rows
       && var before := Replay(t, cs[..v]).value.rows[id];
          && u.redis[key].value == One(AsProduct(id, before))
          && (Exceeds(AsProduct(id, before), u.store.tables.rows, id, SoldAfter(cs, v, id)) <==>
              LastWriteRestores(cs, v, id, before))
  }

  lemma EntryDrifts(u: World, t: Tables, id: int)
    requires WorldInv(u, t) && KeyOf(ById(id)) in u.redis
    ensures DriftsByHistory(u, t, id)
  {
    assert EntryOk(u, t, ById(id));
    VersionDriftsExactly(t, u.store.commits, u.origins[KeyOf(ById(id))].version, id);
  }

  /** When that drift holds, exactly, under every interleaving and with no hypothesis on fills and drops: an entry
      shows the row of its version, and exceeds the row of now by exactly the units sold since if and only if the
      last create, update or delete committed since that version, if there is one, put the row back as sales alone
      would have left it. With no such write it is EntryDriftsBySales. */
  lemma {:induction false} EntryDriftsExactly(w: World, t: Tables, es: seq<Event>, id: int)
    requires WorldInit(w, t) && Play(w, es).Some? && KeyOf(ById(id)) in Play(w, es).value.redis
    ensures DriftsByHistory(Play(w, es).value, t, id)
  {
    PlayKeepsInv(w, t, es);
    EntryDrifts(Play(w, es).value, t, id);
  }

  /** The product behind a genuine answer to a read by id fits 32 bits. */
  lemma GenuineFits(w: World, t: Tables, id: int, value: Value, v: nat, at: int)
    requires WellTyped(t) && Genuine(w, t, ById(id), value, v, at)
    ensures value.One? && value.p.id == id && Narrow32(id) == id && Narrow32(value.p.stock) == value.p.stock
  {
    ReplayKeepsWellTyped(t, w.store.commits[..v]);
  }

  /** GetStock narrows to int32; no product in the cache loses anything by it. */
  lemma {:induction false} StockSurvivesNarrowing(w: World, t: Tables, es: seq<Event>, id: int)
    requires WorldInit(w, t) && Play(w, es).Some? && KeyOf(ById(id)) in Play(w, es).value.redis
    ensures var v := Play(w, es).value.redis[KeyOf(ById(id))].value;
            v.One? && v.p.id == id && Narrow32(v.p.id) == v.p.id && Narrow32(v.p.stock) == v.p.stock
  {
    EntriesAreHistory(w, t, es, ById(id));
    var u := Play(w, es).value;
    var o := u.origins[KeyOf(ById(id))];
    GenuineFits(u, t, id, u.redis[KeyOf(ById(id))].value, o.version, o.readAt);
  }

  /** Nor does any product that a read by id returns, be it from the cache or from the table. */
  lemma {:induction false} AnswerSurvivesNarrowing(w: World, t: Tables, es: seq<Event>, r: nat, id: int)
    requires WorldInit(w, t) && Play(w, es).Some? && r < |Play(w, es).value.readers|
    requires Play(w, es).value.readers[r].ask == ById(id)
    requires Play(w, es).value.readers[r].pc.FromCache? || Play(w, es).value.readers[r].pc.FromDatabase?
    ensures var v := Play(w, es).value.readers[r].pc.value;
            v.One? && v.p.id == id && Narrow32(v.p.id) == v.p.id && Narrow32(v.p.stock) == v.p.stock
  {
    PlayKeepsInv(w, t, es);
    var u := Play(w, es).value;
    assert ReaderOk(u, t, u.readers[r]);
    match u.readers[r].pc
    case FromCache(value, o, _) => GenuineFits(u, t, id, value, o.version, o.readAt);
    case FromDatabase(value, v, at) => GenuineFits(u, t, id, value, v, at);
    case _ =>
  }
}
