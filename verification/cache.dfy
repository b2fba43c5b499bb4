/** Cache-aside reads next to concurrent writes. GetByID and GetAll look in Redis, read the database on a miss
    and then fill the entry, as three separate steps; Update and Delete drop an entry after their statement;
    Checkout drops nothing. Entries expire, may vanish at any time, and any Redis call may fail. */
module Cache {
  import opened Models
  import opened Tables
  import opened Store
  import opened Keys
  import opened Query

  // Times are in milliseconds.
  const PRODUCT_TTL := 600_000
  const LIST_TTL := 300_000

  datatype Value = One(p: Product) | Many(ps: seq<Product>)

  datatype Entry = Entry(value: Value, expires: int)

  /** History of an entry: the commit version and the time of the database read, and the time of the fill. */
  datatype Origin = Origin(version: nat, readAt: int, setAt: int)

  datatype Ask = ById(id: int) | ByPage(f: Filter)

  function KeyOf(q: Ask): string {
    match q
    case ById(id) => ProductKey(id)
    case ByPage(f) => ListKey(f.page, f.limit, f.search)
  }

  function Ttl(q: Ask): int {
    if q.ById? then PRODUCT_TTL else LIST_TTL
  }

  datatype ReaderPc =
    | Looking
    | Missed
    | Loaded(value: Value, version: nat, readAt: int)
    | FromDatabase(value: Value, version: nat, readAt: int)
    | FromCache(value: Value, origin: Origin, at: int)
    | Erred

  datatype Reader = Reader(ask: Ask, pc: ReaderPc)

  /** `stamps[k]` is the time of commit k; `origins` is the history of the entries. */
  datatype World = World(
    store: State, stamps: seq<int>, clock: int, redis: map<string, Entry>, origins: map<string, Origin>,
    readers: seq<Reader>)

  datatype Event =
    | Moved(i: nat, a: Action, allDropped: bool, oneDropped: bool)
    | Tick(elapsed: nat)
    | Evict(key: string)
    | Hit(r: nat)
    | Miss(r: nat)
    | Load(r: nat, order: seq<Product>, early: bool)
    | Fill(r: nat)
    | FillFail(r: nat)
    | Fail(r: nat)

  ghost predicate WorldInit(w: World, t: Tables) {
    && Init(w.store, t)
    && w.stamps == [] && w.redis == map[] && w.origins == map[]
    && forall r :: 0 <= r < |w.readers| ==> w.readers[r].pc.Looking?
  }

  // ----- Steps -----

  /** The keys a product write asks Redis to drop. Only Create leaves the product's own key alone. */
  function Dropped(p: Proc, e: Event): set<string>
    requires e.Moved?
  {
    if p.Admin? && p.apc.Past? && e.a.Invalidate? then
      (if e.allDropped then {ALL_KEY} else {})
      + if e.oneDropped && !p.request.Create? then {ProductKey(p.apc.id)} else {}
    else {}
  }

  /** The answer of the database to a read, from the committed tables. A page needs a row order. */
  function Select(t: Tables, q: Ask, order: seq<Product>, early: bool): Option<Value> {
    match q
    case ById(id) => if id in t.rows then Some(One(AsProduct(id, t.rows[id]))) else None
    case ByPage(f) => if Answerable(f, early) then Some(Many(Page(f, early, order))) else None
  }

  ghost predicate Possible(w: World, e: Event) {
    match e
    case Moved(i, a, _, _) => Enabled(w.store, i, a)
    case Tick(_) => true
    case Evict(_) => true
    case Hit(r) =>
      && r < |w.readers| && w.readers[r].pc.Looking?
      && KeyOf(w.readers[r].ask) in w.redis && w.clock < w.redis[KeyOf(w.readers[r].ask)].expires
    case Miss(r) => r < |w.readers| && w.readers[r].pc.Looking?
    case Load(r, order, _) =>
      && r < |w.readers| && w.readers[r].pc.Missed? && Lists(order, w.store.tables.rows)
    case Fill(r) => r < |w.readers| && w.readers[r].pc.Loaded?
    case FillFail(r) => r < |w.readers| && w.readers[r].pc.Loaded?
    case Fail(r) => r < |w.readers| && (w.readers[r].pc.Looking? || w.readers[r].pc.Missed?)
  }

  function Arrive(w: World, r: nat, pc: ReaderPc): seq<Reader>
    requires r < |w.readers|
  {
    w.readers[r := w.readers[r].(pc := pc)]
  }

  ghost function Next(w: World, e: Event): World
    requires Possible(w, e)
  {
    match e
    case Moved(i, a, _, _) =>
      var s := Step(w.store, i, a);
      w.(store := s,
         stamps := if s.commits == w.store.commits then w.stamps else w.stamps + [w.clock],
         redis := w.redis - Dropped(w.store.procs[i], e))
    case Tick(d) => w.(clock := w.clock + d)
    case Evict(key) => w.(redis := w.redis - {key})
    case Hit(r) =>  // an entry always has an origin, see RedisOk
      var key := KeyOf(w.readers[r].ask);
      w.(readers := Arrive(w, r, if key in w.origins
                                 then FromCache(w.redis[key].value, w.origins[key], w.clock) else Erred))
    case Miss(r) => w.(readers := Arrive(w, r, Missed))
    case Load(r, order, early) =>
      w.(readers := Arrive(w, r, match Select(w.store.tables, w.readers[r].ask, order, early)
                                 case None => Erred
                                 case Some(v) => Loaded(v, |w.store.commits|, w.clock)))
    case Fill(r) =>
      var q, pc := w.readers[r].ask, w.readers[r].pc;
      w.(redis := w.redis[KeyOf(q) := Entry(pc.value, w.clock + Ttl(q))],
         origins := w.origins[KeyOf(q) := Origin(pc.version, pc.readAt, w.clock)],
         readers := Arrive(w, r, FromDatabase(pc.value, pc.version, pc.readAt)))
    case FillFail(r) =>
      var pc := w.readers[r].pc;
      w.(readers := Arrive(w, r, FromDatabase(pc.value, pc.version, pc.readAt)))
    case Fail(r) => w.(readers := Arrive(w, r, Erred))
  }

  /** The world after a sequence of events, or None when it is not possible. */
  ghost function Play(w: World, es: seq<Event>): Option<World> {
    if es == [] then Some(w)
    else match Play(w, es[..|es| - 1])
      case None => None
      case Some(u) => if Possible(u, es[|es| - 1]) then Some(Next(u, es[|es| - 1])) else None
  }
}
