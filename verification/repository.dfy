/** The repository's code, statement by statement, as one request at a time runs it: ProductRepository over its
    four stores. What concurrent requests do to each other is in Store, Cache and Search. */
module Repository {
  import opened Models
  import opened Tables
  import opened Keys
  import opened Query
  import opened Cache
  import opened Projection
  import B = Breaker

  /** What the outside does during one operation: which calls fail, whether a commit that reports an error took
      place all the same, and whether a failed INSERT used up an id of the sequence. */
  datatype Faults = Faults(
    begin: bool, statement: bool, insert: bool, commit: bool, ackLost: bool, idUsed: bool,
    get: bool, put: bool, delAll: bool, delOne: bool, send: bool)

  datatype CheckoutError = OutOfStock | DatabaseError

  datatype Listing = Listed(ps: seq<Product>) | Unavailable | ListError

  // ----- The drift of the product cache -----

  function SoldIn(txs: seq<Tx>, id: int): int {
    if txs == [] then 0
    else SoldIn(txs[..|txs| - 1], id) + if txs[|txs| - 1].product == id then txs[|txs| - 1].quantity else 0
  }

  /** A cached product is the row, except that its stock is higher by what was sold since the fill. */
  predicate Shows(t: Tables, id: int, v: Value, filled: nat) {
    && v.One? && id in t.rows && filled <= |t.txs|
    && v.p == AsProduct(id, t.rows[id]).(stock := t.rows[id].stock + SoldIn(t.txs[filled..], id))
  }

  /** `filled` is history: how many transactions there were when a key was filled. */
  ghost predicate CacheDrift(t: Tables, redis: map<string, Entry>, filled: map<string, nat>) {
    forall id: int :: ProductKey(id) in redis ==>
      ProductKey(id) in filled && Shows(t, id, redis[ProductKey(id)].value, filled[ProductKey(id)])
  }

  ghost predicate ListsOnly(redis: map<string, Entry>) {
    forall f: Filter :: KeyOf(ByPage(f)) in redis ==> redis[KeyOf(ByPage(f))].value.Many?
  }

  lemma SaleShows(t: Tables, op: Op, id: int, v: Value, filled: nat)
    requires op.Buy? && Serial(t, op).Some? && Shows(t, id, v, filled)
    ensures Shows(Serial(t, op).value, id, v, filled)
  {
    var u := Serial(t, op).value;
    var more := u.txs[filled..];
    assert more[..|more| - 1] == t.txs[filled..];
  }

  /** A checkout moves the cache and the table apart by exactly what it sold. */
  lemma SaleKeepsDrift(t: Tables, op: Op, redis: map<string, Entry>, filled: map<string, nat>)
    requires op.Buy? && Serial(t, op).Some? && CacheDrift(t, redis, filled)
    ensures CacheDrift(Serial(t, op).value, redis, filled)
  {
    forall id: int | ProductKey(id) in redis
      ensures Shows(Serial(t, op).value, id, redis[ProductKey(id)].value, filled[ProductKey(id)])
    {
      SaleShows(t, op, id, redis[ProductKey(id)].value, filled[ProductKey(id)]);
    }
  }

  lemma FillKeepsDrift(t: Tables, redis: map<string, Entry>, filled: map<string, nat>, id: int, expires: int)
    requires CacheDrift(t, redis, filled) && id in t.rows
    ensures CacheDrift(t, redis[ProductKey(id) := Entry(One(AsProduct(id, t.rows[id])), expires)],
                       filled[ProductKey(id) := |t.txs|])
  {
    forall j: int | ProductKey(j) == ProductKey(id) ensures j == id {
      ProductKeyInjective(j, id);
    }
  }

  lemma PageKeepsDrift(t: Tables, redis: map<string, Entry>, filled: map<string, nat>, f: Filter, e: Entry)
    requires CacheDrift(t, redis, filled) && ListsOnly(redis) && e.value.Many?
    ensures CacheDrift(t, redis[KeyOf(ByPage(f)) := e], filled) && ListsOnly(redis[KeyOf(ByPage(f)) := e])
  {
    forall id: int ensures ProductKey(id) != KeyOf(ByPage(f)) {
      KeyFamiliesDisjoint(id, f.page, f.limit, f.search);
    }
  }

  lemma DropKeepsDrift(t: Tables, redis: map<string, Entry>, filled: map<string, nat>, keys: set<string>)
    requires CacheDrift(t, redis, filled)
    ensures CacheDrift(t, redis - keys, filled)
  {
  }

  /** Adding a row cannot disturb the cache: no id without a row is cached. */
  lemma AddKeepsDrift(t: Tables, id: int, r: Row, redis: map<string, Entry>, filled: map<string, nat>)
    requires CacheDrift(t, redis, filled) && id !in t.rows
    ensures CacheDrift(t.(rows := t.rows[id := r]), redis, filled)
  {
  }

  /** After an update of an existing row the cache still only drifts by sales exactly if the key was dropped, or
      was not there, or the update wrote the row as it was. */
  lemma EditKeepsDriftExactly(
    t: Tables, id: int, r: Row, redis: map<string, Entry>, filled: map<string, nat>, dropped: bool)
    requires CacheDrift(t, redis, filled) && id in t.rows
    ensures var t' := t.(rows := t.rows[id := r]);
            CacheDrift(t', if dropped then redis - {ProductKey(id)} else redis, filled) <==>
            dropped || ProductKey(id) !in redis || r == t.rows[id]
  {
    var t' := t.(rows := t.rows[id := r]);
    if ProductKey(id) in redis {
      assert Shows(t, id, redis[ProductKey(id)].value, filled[ProductKey(id)]);
    }
    forall j: int | j != id && ProductKey(j) in redis
      ensures ProductKey(j) != ProductKey(id)
      ensures Shows(t', j, redis[ProductKey(j)].value, filled[ProductKey(j)])
    {
      if ProductKey(j) == ProductKey(id) {
        ProductKeyInjective(j, id);
      }
      assert Shows(t, j, redis[ProductKey(j)].value, filled[ProductKey(j)]);
    }
  }

  /** An update whose drop fails leaves a wrong entry behind: here a product that was just read, with any two
      different rows before and after. */
  lemma FailedDropLeavesWrongEntry(users: set<int>, id: int, before: Row, after: Row, expires: int)
    returns (t: Tables, redis: map<string, Entry>, filled: map<string, nat>)
    requires before != after && Fits32(id) && RowFits(before) && RowFits(after)
    ensures CacheDrift(t, redis, filled) && Serial(t, Edit(id, after)).Some?
    ensures redis == map[ProductKey(id) := Entry(One(AsProduct(id, before)), expires)]
    ensures !CacheDrift(Serial(t, Edit(id, after)).value, redis, filled)
  {
    t := Tables(users, map[id := before], []);
    redis := map[ProductKey(id) := Entry(One(AsProduct(id, before)), expires)];
    filled := map[ProductKey(id) := 0];
    forall j: int | ProductKey(j) in redis ensures j == id {
      ProductKeyInjective(j, id);
    }
    EditKeepsDriftExactly(t, id, after, redis, filled, false);
  }

  /** After a delete the cache is right exactly if the key was dropped or was not there. */
  lemma DeleteKeepsDriftExactly(
    t: Tables, id: int, redis: map<string, Entry>, filled: map<string, nat>, dropped: bool)
    requires CacheDrift(t, redis, filled) && id in t.rows
    ensures var t' := t.(rows := t.rows - {id});
            CacheDrift(t', if dropped then redis - {ProductKey(id)} else redis, filled) <==>
            dropped || ProductKey(id) !in redis
  {
  }

  ghost predicate TablesOk(t: Tables, nextId: int) {
    WellTyped(t) && forall id :: id in t.rows ==> id < nextId
  }

  lemma UpdateKeepsTables(t: Tables, nextId: int, id: int, r: Row)
    requires TablesOk(t, nextId) && UpdateRow(t, id, r).Wrote?
    ensures TablesOk(UpdateRow(t, id, r).t, nextId)
    ensures UpdateRow(t, id, r).t == Outcome(t, Edit(id, r))
  {
  }

  lemma DeleteKeepsTables(t: Tables, nextId: int, id: int)
    requires TablesOk(t, nextId) && DeleteRow(t, id).Wrote?
    ensures TablesOk(DeleteRow(t, id).t, nextId)
    ensures DeleteRow(t, id).t == Outcome(t, Remove(id))
  {
  }

  lemma UpdateStatement(t: Tables, id: int, r: Row)
    requires WellTyped(t)
    ensures UpdateRow(t, id, r).Wrote? <==>
            Fits32(id) && Fits32(r.price) && Fits32(r.stock) && (id in t.rows ==> |r.name| <= 100)
    ensures UpdateRow(t, id, r).Wrote? ==>
              UpdateRow(t, id, r).t ==
              Tables(t.users, if id !in t.rows then t.rows else t.rows[id := r], t.txs)
  {
  }

  lemma DeleteStatement(t: Tables, id: int)
    requires WellTyped(t)
    ensures DeleteRow(t, id).Wrote? <==>
            Fits32(id) && forall k :: 0 <= k < |t.txs| ==> t.txs[k].product != id
    ensures DeleteRow(t, id).Wrote? ==> DeleteRow(t, id).t == Tables(t.users, t.rows - {id}, t.txs)
  {
  }

  /** The product the table holds for id. */
  function ProductIn(t: Tables, id: int): Option<Product> {
    if id in t.rows then Some(Product(id, t.rows[id].name, t.rows[id].price, t.rows[id].stock)) else None
  }

  /** One pass over the log, ended by a product event, shows what that event carries. */
  lemma AnnouncedShows(log: seq<Message>, kind: Kind, p: Product)
    requires !kind.Unknown?
    ensures Lookup(Fold(map[], log + [Message(ProductEvents, Some(ProductEvent(kind, p)))]), p.id) ==
            if kind.Deleted? then None else Some(p)
  {
    var m := Message(ProductEvents, Some(ProductEvent(kind, p)));
    assert (log + [m])[..|log|] == log;
    SyncShows(Fold(map[], log), m, p.id);
  }

  /** An update that is announced shows what the table holds exactly if it hit a row. */
  lemma UpdateShows(t: Tables, p: Product, log: seq<Message>)
    requires UpdateRow(t, p.id, AsRow(p)).Wrote?
    ensures var index := Fold(map[], log + [Message(ProductEvents, Some(ProductEvent(Updated, p)))]);
            Lookup(index, p.id) == ProductIn(UpdateRow(t, p.id, AsRow(p)).t, p.id) <==> p.id in t.rows
  {
    AnnouncedShows(log, Updated, p);
  }

  /** Redis after a write of id asked for both keys to be dropped. */
  function AfterDrops(redis: map<string, Entry>, id: int, f: Faults): map<string, Entry> {
    var r := if f.delAll then redis else redis - {ALL_KEY};
    if f.delOne then r else r - {ProductKey(id)}
  }

  /** What decides, before an update of id to row r, whether the cache is right after it. */
  predicate EditLeavesRight(t: Tables, id: int, r: Row, redis: map<string, Entry>, f: Faults) {
    !f.delOne || ProductKey(id) !in redis || (id in t.rows && r == t.rows[id])
  }

  lemma AllDropKeepsProducts(t: Tables, redis: map<string, Entry>, filled: map<string, nat>, id: int)
    requires CacheDrift(t, redis, filled)
    ensures CacheDrift(t, redis - {ALL_KEY}, filled)
    ensures ProductKey(id) in redis - {ALL_KEY} <==> ProductKey(id) in redis
  {
    KeyFamiliesDisjoint(id, 0, 0, "");
  }

  /** An update statement and both drops, any of which may fail, whether or not a row was hit. */
  lemma UpdateAndDrops(
    t: Tables, id: int, r: Row, redis: map<string, Entry>, filled: map<string, nat>, f: Faults)
    requires CacheDrift(t, redis, filled) && ListsOnly(redis) && UpdateRow(t, id, r).Wrote?
    ensures ListsOnly(AfterDrops(redis, id, f))
    ensures CacheDrift(UpdateRow(t, id, r).t, AfterDrops(redis, id, f), filled) <==>
            EditLeavesRight(t, id, r, redis, f)
  {
    AllDropKeepsProducts(t, redis, filled, id);
    var rest := if f.delAll then redis else redis - {ALL_KEY};
    if id in t.rows {
      EditKeepsDriftExactly(t, id, r, rest, filled, !f.delOne);
    } else {
      assert CacheDrift(t, rest, filled);
      assert ProductKey(id) !in redis;
    }
  }

  lemma DeleteAndDrops(t: Tables, id: int, redis: map<string, Entry>, filled: map<string, nat>, f: Faults)
    requires CacheDrift(t, redis, filled) && ListsOnly(redis) && DeleteRow(t, id).Wrote?
    ensures ListsOnly(AfterDrops(redis, id, f))
    ensures CacheDrift(DeleteRow(t, id).t, AfterDrops(redis, id, f), filled) <==>
            !f.delOne || ProductKey(id) !in redis
  {
    AllDropKeepsProducts(t, redis, filled, id);
    var rest := if f.delAll then redis else redis - {ALL_KEY};
    if id in t.rows {
      DeleteKeepsDriftExactly(t, id, rest, filled, !f.delOne);
    } else {
      assert CacheDrift(t, rest, filled);
      assert ProductKey(id) !in redis;
    }
  }

  /** The query is run without an SQL error. */
  predicate QuerySucceeds(f: Filter, early: bool, x: Faults) {
    !x.statement && Answerable(f, early)
  }

  /** The breaker after a query that it was asked to run at time now. */
  function AfterQuery(b: B.Breaker, now: int, good: bool): B.Breaker {
    match B.Admit(b, now)
    case Admitted(ticket) => B.After(B.Before(b, now), ticket, now, good)
    case _ => B.Before(b, now)
  }

  /** What one list query does to a closed breaker within its interval: a failed one trips it exactly if it is at
      least the third failure and makes three fifths, and any other outcome is only counted. */
  lemma ListQueryCounts(b: B.Breaker, now: int, good: bool)
    requires b.mode.Closed? && now <= b.expiry && b.counts.failures <= b.counts.requests
    ensures B.Admit(b, now).Admitted?
    ensures var n, b' := b.counts, AfterQuery(b, now, good);
            && (b'.mode.Open? <==>
                  !good && n.failures + 1 >= 3 && 5 * (n.failures + 1) >= 3 * (n.requests + 1))
            && (b'.mode.Open? ==> forall at :: B.Admit(b', at).OpenState? <==> at <= now + 30_000)
            && (!b'.mode.Open? ==>
                  && b'.mode.Closed? && b'.expiry == b.expiry && b'.counts.requests == n.requests + 1
                  && b'.counts.failures == n.failures + if good then 0 else 1)
  {
  }

  /** After the pause one query is tried: it closes the breaker with fresh counts, or opens it again. */
  lemma ListQueryProbes(b: B.Breaker, now: int, good: bool)
    requires b.mode.Open? && now > b.expiry
    ensures B.Admit(b, now).Admitted?
    ensures AfterQuery(b, now, good).counts == B.Counts(0, 0, 0, 0)
    ensures if good then AfterQuery(b, now, good).mode.Closed? && AfterQuery(b, now, good).expiry == now + 60_000
            else AfterQuery(b, now, good).mode.Open? && AfterQuery(b, now, good).expiry == now + 30_000
  {
  }

  /** Three failing list queries in the first sixty seconds, one after another, and the lists are refused without a
      query for the next thirty. */
  lemma ThreeFailedListsOpen(b: B.Breaker, began: int, first: int, second: int, third: int, now: int)
    requires b == B.NewGeneration(B.Breaker(B.Open, 0, B.NO_COUNTS, 0), B.Closed, began)
    requires began <= first <= second <= third <= began + 60_000
    ensures var b' := AfterQuery(AfterQuery(AfterQuery(b, first, false), second, false), third, false);
            b'.mode.Open? && (B.Admit(b', now).OpenState? <==> now <= third + 30_000)
  {
    var b1 := AfterQuery(b, first, false);
    var b2 := AfterQuery(b1, second, false);
    ListQueryCounts(b, first, false);
    ListQueryCounts(b1, second, false);
    ListQueryCounts(b2, third, false);
  }

  /** Redis after a list was filled. */
  function Filled(redis: map<string, Entry>, f: Filter, ps: seq<Product>, now: int): map<string, Entry> {
    redis[KeyOf(ByPage(f)) := Entry(Many(ps), now + LIST_TTL)]
  }

  /** A list is filled under its own key and lasts five minutes; nothing else changes. */
  lemma FilledExactly(redis: map<string, Entry>, f: Filter, ps: seq<Product>, now: int)
    ensures Filled(redis, f, ps, now) == redis[ListKey(f.page, f.limit, f.search) := Entry(Many(ps), now + 300_000)]
  {
  }

  // ----- The class -----

  class ProductRepository {
    var tables: Tables
    var nextId: int
    var redis: map<string, Entry>
    var breaker: B.Breaker
    var productEvents: seq<Message>
    var invoices: seq<Invoice>
    var clock: int
    ghost var filled: map<string, nat>

    ghost predicate StoresOk()
      reads this
    {
      TablesOk(tables, nextId) && ListsOnly(redis)
    }

    /** The stores agree as well as this code makes them agree when requests do not overlap. */
    ghost predicate Valid()
      reads this
    {
      StoresOk() && CacheDrift(tables, redis, filled)
    }

    constructor (users: set<int>, now: int)
      ensures Valid() && tables == Tables(users, map[], []) && redis == map[]
      ensures productEvents == [] && invoices == [] && clock == now
    {
      tables := Tables(users, map[], []);
      nextId := 1;
      redis := map[];
      filled := map[];
      breaker := B.NewGeneration(B.Breaker(B.Open, 0, B.NO_COUNTS, 0), B.Closed, now);
      productEvents, invoices, clock := [], [], now;
    }

    /** Time passes between two requests; only then do entries expire and the breaker's pauses end. */
    method PassTime(elapsed: nat)
      modifies this`clock
      ensures clock == old(clock) + elapsed && (old(Valid()) ==> Valid())
    {
      clock := clock + elapsed;
    }

    predicate CacheHit(key: string, f: Faults)
      reads this
    {
      !f.get && key in redis && clock < redis[key].expires
    }

    /** r.Redis.Del: the code ignores its error. */
    method Del(key: string, fails: bool)
      modifies this`redis
      ensures redis == if fails then old(redis) else old(redis) - {key}
    {
      if !fails {
        redis := redis - {key};
      }
    }

    /** The two drops of a product write, either of which may fail. */
    method DropKeys(id: int, f: Faults)
      modifies this`redis
      ensures redis == AfterDrops(old(redis), id, f)
      ensures redis == old(redis) - (if f.delAll then {} else {ALL_KEY}) - (if f.delOne then {} else {ProductKey(id)})
    {
      Del(ALL_KEY, f.delAll);
      Del(ProductKey(id), f.delOne);
    }

    /** r.Kafka.SendMessage to "product-events": its error is logged and dropped. */
    method SendProductEvent(evt: ProductEvent, fails: bool)
      modifies this`productEvents
      ensures productEvents == old(productEvents) + if fails then [] else [Message(ProductEvents, Some(evt))]
    {
      if !fails {
        productEvents := productEvents + [Message(ProductEvents, Some(evt))];
      }
    }

    /** r.Redis.Set for a product just read: the code ignores its error. */
    method SetProduct(id: int, fails: bool)
      requires Valid() && id in tables.rows
      modifies this`redis, this`filled
      ensures Valid()
      ensures var e := Entry(One(AsProduct(id, tables.rows[id])), clock + PRODUCT_TTL);
              redis == if fails then old(redis) else old(redis)[ProductKey(id) := e]
    {
      if !fails {
        FillKeepsDrift(tables, redis, filled, id, clock + PRODUCT_TTL);
        ProductKeyIsNoList(id);
        redis := redis[ProductKey(id) := Entry(One(AsProduct(id, tables.rows[id])), clock + PRODUCT_TTL)];
        filled := filled[ProductKey(id) := |tables.txs|];
      }
    }

    /** Look in the cache, then in the table, then fill the cache. A cached product implies that its row exists. */
    method GetByID(id: int, f: Faults) returns (r: Option<Product>)
      requires Valid()
      modifies this`redis, this`filled
      ensures Valid()
      ensures r.Some? ==> id in tables.rows
                          && r.value.(stock := 0) == AsProduct(id, tables.rows[id]).(stock := 0)
      ensures r.None? <==> !old(CacheHit(ProductKey(id), f)) && (f.statement || id !in tables.rows)
      ensures r.Some? && !old(CacheHit(ProductKey(id), f)) ==> r == ProductIn(tables, id)
      ensures r.Some? && old(CacheHit(ProductKey(id), f)) ==>
                Shows(tables, id, One(r.value), old(filled[ProductKey(id)]))
      ensures old(CacheHit(ProductKey(id), f)) <==>
                !f.get && ProductKey(id) in old(redis) && clock < old(redis)[ProductKey(id)].expires
      ensures r.Some? && old(CacheHit(ProductKey(id), f)) ==> One(r.value) == old(redis)[ProductKey(id)].value
      ensures redis == if old(CacheHit(ProductKey(id), f)) || r.None? || f.put then old(redis)
                       else old(redis)[ProductKey(id) := Entry(One(r.value), clock + 600_000)]
    {
      var cacheKey := ProductKey(id);
      if !f.get && cacheKey in redis && clock < redis[cacheKey].expires {
        assert Shows(tables, id, redis[cacheKey].value, filled[cacheKey]);
        return Some(redis[cacheKey].value.p);
      }
      if f.statement || id !in tables.rows {
        return None;
      }
      var p := AsProduct(id, tables.rows[id]);
      SetProduct(id, f.put);
      return Some(p);
    }

    /** The id the sequence hands out, or None when the statement failed. */
    method Create(p: Product, f: Faults) returns (id: Option<int>)
      requires Valid()
      modifies this`tables, this`nextId, this`redis, this`productEvents
      ensures Valid()
      ensures id.Some? <==>
                !f.statement && Fits32(old(nextId)) && |p.name| <= 100 && Fits32(p.price) && Fits32(p.stock)
      ensures id.Some? ==>
                && id.value == old(nextId) && nextId == old(nextId) + 1
                && Serial(old(tables), Add(id.value, AsRow(p))) == Some(tables)
                && tables == Tables(old(tables).users, old(tables).rows[id.value := Row(p.name, p.price, p.stock)],
                                    old(tables).txs)
                && redis == (if f.delAll then old(redis) else old(redis) - {ALL_KEY})
                && productEvents == old(productEvents) + if f.send then [] else
                     [Message(ProductEvents, Some(ProductEvent(Created, Product(id.value, p.name, p.price, p.stock))))]
      ensures id.Some? && !f.send ==> Lookup(Fold(map[], productEvents), id.value) == ProductIn(tables, id.value)
      ensures id.None? ==>
                && nextId == (if f.idUsed then old(nextId) + 1 else old(nextId))
                && tables == old(tables) && redis == old(redis) && productEvents == old(productEvents)
    {
      var w := InsertRow(tables, nextId, AsRow(p));
      if f.statement || w.SqlError? {
        if f.idUsed {
          nextId := nextId + 1;
        }
        return None;
      }
      AddKeepsDrift(tables, nextId, AsRow(p), redis, filled);
      AnnouncedShows(productEvents, Created, p.(id := nextId));
      SerialKeepsWellTyped(tables, Add(nextId, AsRow(p)));
      id := Some(nextId);
      tables := w.t;
      nextId := nextId + 1;
      DropKeepsDrift(tables, redis, filled, {ALL_KEY});
      Del(ALL_KEY, f.delAll);
      SendProductEvent(ProductEvent(Created, p.(id := id.value)), f.send);
    }

    /** True unless the statement failed; an update that hits no row is announced all the same. */
    method Update(p: Product, f: Faults) returns (ok: bool)
      requires Valid()
      modifies this`tables, this`redis, this`productEvents
      ensures StoresOk()
      ensures Valid() <==>
                || !ok || !f.delOne || ProductKey(p.id) !in old(redis)
                || (p.id in old(tables).rows && old(tables).rows[p.id] == Row(p.name, p.price, p.stock))
      ensures ok <==>
                && !f.statement && Fits32(p.id) && Fits32(p.price) && Fits32(p.stock)
                && (p.id in old(tables).rows ==> |p.name| <= 100)
      ensures ok ==>
                && tables == Outcome(old(tables), Edit(p.id, AsRow(p)))
                && tables == Tables(old(tables).users,
                                    if p.id !in old(tables).rows then old(tables).rows
                                    else old(tables).rows[p.id := Row(p.name, p.price, p.stock)], old(tables).txs)
                && redis == old(redis) - (if f.delAll then {} else {ALL_KEY})
                                       - (if f.delOne then {} else {ProductKey(p.id)})
                && productEvents == old(productEvents) + if f.send then [] else
                     [Message(ProductEvents, Some(ProductEvent(Updated, Product(p.id, p.name, p.price, p.stock))))]
      ensures ok && !f.send ==>
                (Lookup(Fold(map[], productEvents), p.id) == ProductIn(tables, p.id) <==> p.id in old(tables).rows)
      ensures !ok ==> tables == old(tables) && redis == old(redis) && productEvents == old(productEvents)
    {
      var w := UpdateRow(tables, p.id, AsRow(p));
      if f.statement || w.SqlError? {
        return false;
      }
      UpdateKeepsTables(tables, nextId, p.id, AsRow(p));
      UpdateStatement(tables, p.id, AsRow(p));
      UpdateShows(tables, p, productEvents);
      UpdateAndDrops(tables, p.id, AsRow(p), redis, filled, f);
      tables := w.t;
      DropKeys(p.id, f);
      SendProductEvent(ProductEvent(Updated, p), f.send);
      return true;
    }

    /** True unless the statement failed, as it does for a product that was ever sold. */
    method Delete(id: int, f: Faults) returns (ok: bool)
      requires Valid()
      modifies this`tables, this`redis, this`productEvents
      ensures StoresOk()
      ensures Valid() <==> !ok || !f.delOne || ProductKey(id) !in old(redis)
      ensures ok <==>
                && !f.statement && Fits32(id)
                && forall k :: 0 <= k < |old(tables).txs| ==> old(tables).txs[k].product != id
      ensures ok ==>
                && tables == Outcome(old(tables), Remove(id))
                && tables == Tables(old(tables).users, old(tables).rows - {id}, old(tables).txs)
                && redis == old(redis) - (if f.delAll then {} else {ALL_KEY})
                                       - (if f.delOne then {} else {ProductKey(id)})
                && productEvents == old(productEvents) + if f.send then [] else
                     [Message(ProductEvents, Some(ProductEvent(Deleted, Product(id, "", 0, 0))))]
      ensures ok && !f.send ==> Lookup(Fold(map[], productEvents), id) == ProductIn(tables, id) == None
      ensures !ok ==> tables == old(tables) && redis == old(redis) && productEvents == old(productEvents)
    {
      var w := DeleteRow(tables, id);
      if f.statement || w.SqlError? {
        return false;
      }
      DeleteKeepsTables(tables, nextId, id);
      DeleteStatement(tables, id);
      AnnouncedShows(productEvents, Deleted, Product(id, "", 0, 0));
      DeleteAndDrops(tables, id, redis, filled, f);
      tables := w.t;
      DropKeys(id, f);
      SendProductEvent(ProductEvent(Deleted, Product(id, "", 0, 0)), f.send);
      return true;
    }

    /** The transaction: begin, guarded UPDATE, INSERT, commit; then the invoice message. Every early return
        rolls back, so the work of the transaction is in locals until the commit. A reported error means that
        nothing happened, unless the commit took place and only its acknowledgement was lost. */
    method Checkout(userID: int, userEmail: string, req: CheckoutRequest, f: Faults) returns (e: Option<CheckoutError>)
      requires Valid()
      modifies this`tables, this`invoices
      ensures Valid()
      ensures e.None? ==>
                && Serial(old(tables), Buy(userID, req.productId, req.quantity)) == Some(tables)
                && invoices == old(invoices) + if f.send then [] else
                     [Invoice(userID, userEmail, req.productId, req.quantity,
                              old(tables).rows[req.productId].price * req.quantity)]
      ensures e.None? ==>
                var r := old(tables).rows[req.productId];
                tables == Tables(old(tables).users,
                                 old(tables).rows[req.productId := Row(r.name, r.price, r.stock - req.quantity)],
                                 old(tables).txs + [Tx(userID, req.productId, req.quantity, r.price * req.quantity)])
      ensures e.Some? ==> invoices == old(invoices)
      ensures e.Some? ==>
                || tables == old(tables)
                || (f.ackLost && Serial(old(tables), Buy(userID, req.productId, req.quantity)) == Some(tables))
      ensures !f.begin && !f.statement && !f.insert && !f.commit && !f.ackLost ==>
                (e.None? <==>
                 && userID in old(tables).users && req.productId in old(tables).rows && Fits32(req.quantity)
                 && var r := old(tables).rows[req.productId];
                    && req.quantity <= r.stock && Fits32(r.stock - req.quantity) && Fits32(r.price * req.quantity))
      ensures e == Some(OutOfStock) ==> tables == old(tables)
      ensures !f.begin && !f.statement ==>
                (e == Some(OutOfStock) <==>
                 && Fits32(req.productId) && Fits32(req.quantity)
                 && (req.productId !in old(tables).rows || old(tables).rows[req.productId].stock < req.quantity))
    {
      SaleExactly(tables, userID, req.productId, req.quantity);
      if f.begin {
        return Some(DatabaseError);
      }
      var updated := ReserveStock(tables, req.productId, req.quantity);
      if f.statement || updated.OutOfRange? {
        return Some(DatabaseError);
      }
      if updated.NoRows? {
        return Some(OutOfStock);
      }
      var totalPrice := Wrap64(updated.written.price * req.quantity);
      ProductFits64(updated.written.price, req.quantity);
      var inserted := InsertTx(tables, userID, req.productId, req.quantity, totalPrice);
      if f.insert || inserted.None? {
        return Some(DatabaseError);
      }
      if f.commit {
        return Some(DatabaseError);
      }
      var op := Buy(userID, req.productId, req.quantity);
      SaleKeepsDrift(tables, op, redis, filled);
      SerialKeepsWellTyped(tables, op);
      tables := tables.(rows := tables.rows[req.productId := updated.written], txs := tables.txs + [inserted.value]);
      if f.ackLost {
        return Some(DatabaseError);
      }
      var task := Invoice(userID, userEmail, req.productId, req.quantity, totalPrice);
      if !f.send {
        invoices := invoices + [task];
      }
      return None;
    }

    /** The function GetAll gives to the breaker: build the query, run it, scan the rows. */
    method QueryPage(f: Filter, order: seq<Product>, early: bool, x: Faults) returns (r: Option<seq<Product>>)
      ensures r == if QuerySucceeds(f, early, x) then Some(Page(f, early, order)) else None
    {
      var query, args := BuildQuery(f, early);
      var rows := Evaluate(query, args, order);
      if x.statement || rows.None? {
        return None;
      }
      var products := ScanRows(rows.value);
      return Some(products);
    }

    /** r.Redis.Set for a list: the code ignores its error. */
    method SetPage(f: Filter, ps: seq<Product>, fails: bool)
      requires Valid()
      modifies this`redis
      ensures Valid()
      ensures redis == if fails then old(redis) else Filled(old(redis), f, ps, clock)
    {
      if !fails {
        PageKeepsDrift(tables, redis, filled, f, Entry(Many(ps), clock + LIST_TTL));
        redis := redis[KeyOf(ByPage(f)) := Entry(Many(ps), clock + LIST_TTL)];
      }
    }

    /** r.Breaker.Execute around that function: whether it ran at all is the breaker's decision. */
    method Execute(f: Filter, order: seq<Product>, early: bool, x: Faults)
      returns (a: B.Admission, r: Option<seq<Product>>)
      modifies this`breaker
      ensures a == B.Admit(old(breaker), clock)
      ensures breaker == AfterQuery(old(breaker), clock, QuerySucceeds(f, early, x))
      ensures r == if a.Admitted? && QuerySucceeds(f, early, x) then Some(Page(f, early, order)) else None
    {
      a := B.Admit(breaker, clock);
      breaker := B.Before(breaker, clock);
      if !a.Admitted? {
        return a, None;
      }
      r := QueryPage(f, order, early, x);
      breaker := B.After(breaker, a.generation, clock, r.Some?);
    }

    /** What GetAll does on a miss. */
    method Fetch(f: Filter, order: seq<Product>, early: bool, x: Faults) returns (r: Listing)
      requires Valid() && Lists(order, tables.rows)
      modifies this`redis, this`breaker
      ensures Valid()
      ensures breaker == AfterQuery(old(breaker), clock, QuerySucceeds(f, early, x))
      ensures r == (if B.Admit(old(breaker), clock).OpenState? then Unavailable
                    else if B.Admit(old(breaker), clock).Admitted? && QuerySucceeds(f, early, x)
                    then Listed(Page(f, early, order)) else ListError)
      ensures r.Listed? ==> RightList(f, early, order, r.ps)
      ensures redis == if r.Listed? && !x.put then Filled(old(redis), f, r.ps, clock) else old(redis)
    {
      var a, products := Execute(f, order, early, x);
      if a.OpenState? {
        return Unavailable;
      }
      if products.None? {
        return ListError;
      }
      PageIsRightList(f, early, order, tables.rows);
      SetPage(f, products.value, x.put);
      return Listed(products.value);
    }

    /** The list: cache, then the query behind the breaker, then the fill. `order` is the row order the database
        chooses. A cache hit does not reach the breaker, and an open breaker no table. */
    method GetAll(f: Filter, order: seq<Product>, early: bool, x: Faults) returns (r: Listing)
      requires Valid() && Lists(order, tables.rows)
      modifies this`redis, this`breaker
      ensures Valid()
      ensures old(CacheHit(KeyOf(ByPage(f)), x)) ==>
                && old(redis)[KeyOf(ByPage(f))].value.Many?
                && !x.get && clock < old(redis)[KeyOf(ByPage(f))].expires
                && r == Listed(old(redis)[KeyOf(ByPage(f))].value.ps)
                && breaker == old(breaker) && redis == old(redis)
      ensures !old(CacheHit(KeyOf(ByPage(f)), x)) ==>
                x.get || KeyOf(ByPage(f)) !in old(redis) || clock >= old(redis)[KeyOf(ByPage(f))].expires
      ensures !old(CacheHit(KeyOf(ByPage(f)), x)) ==>
                var a := B.Admit(old(breaker), clock);
                && breaker == AfterQuery(old(breaker), clock, QuerySucceeds(f, early, x))
                && r == (if a.OpenState? then Unavailable
                         else if a.Admitted? && QuerySucceeds(f, early, x) then Listed(Page(f, early, order))
                         else ListError)
                && (r.Listed? ==> RightList(f, early, order, r.ps))
                && redis == if r.Listed? && !x.put then Filled(old(redis), f, r.ps, clock) else old(redis)
    {
      var cacheKey := ListKey(f.page, f.limit, f.search);
      assert cacheKey == KeyOf(ByPage(f));
      if !x.get && cacheKey in redis && clock < redis[cacheKey].expires {
        return Listed(redis[cacheKey].value.ps);
      }
      r := Fetch(f, order, early, x);
    }
  }

  /** The row loop of GetAll. */
  method ScanRows(rows: seq<Product>) returns (products: seq<Product>)
    ensures products == rows
  {
    products := [];
    var i := 0;
    while i < |rows|
      invariant 0 <= i <= |rows| && products == rows[..i]
    {
      products := products + [Product(rows[i].id, rows[i].name, rows[i].price, rows[i].stock)];
      i := i + 1;
    }
  }

  lemma ProductKeyIsNoList(id: int)
    ensures forall f: Filter :: KeyOf(ByPage(f)) != ProductKey(id)
  {
    forall f: Filter ensures KeyOf(ByPage(f)) != ProductKey(id) {
      KeyFamiliesDisjoint(id, f.page, f.limit, f.search);
    }
  }
}
