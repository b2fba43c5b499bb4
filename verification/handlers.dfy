/** The HTTP handlers over the repository: validation, and the guards that look a product up before writing it. */
module Handlers {
  import opened Models
  import opened Tables
  import opened Query
  import opened Cache
  import opened Projection
  import opened Repository

  const OK := 200
  const CREATED := 201
  const BAD_REQUEST := 400
  const UNAUTHORIZED := 401
  const NOT_FOUND := 404
  const SERVER_ERROR := 500
  const UNAVAILABLE := 503

  /** No call to the outside fails. */
  predicate NoFaults(f: Faults) {
    && !f.begin && !f.statement && !f.insert && !f.commit && !f.ackLost
    && !f.get && !f.put && !f.delAll && !f.delOne && !f.send
  }

  class ProductHandler {
    const repo: ProductRepository

    constructor (repo: ProductRepository)
      ensures this.repo == repo
    {
      this.repo := repo;
    }

    /** `body` is None when the request does not decode. */
    method CreateProduct(body: Option<Product>, f: Faults) returns (status: int)
      requires repo.Valid()
      modifies repo
      ensures repo.Valid()
      ensures status == BAD_REQUEST <==>
                body.None? || |body.value.name| < 3 || body.value.price <= 0 || body.value.stock <= 0
      ensures status == CREATED <==>
                && status != BAD_REQUEST && !f.statement && Fits32(old(repo.nextId)) && |body.value.name| <= 100
                && Fits32(body.value.price) && Fits32(body.value.stock)
      ensures status in {BAD_REQUEST, CREATED, SERVER_ERROR}
      ensures status == CREATED ==>
                var id, p := old(repo.nextId), body.value;
                && Serial(old(repo.tables), Add(id, AsRow(p))) == Some(repo.tables)
                && repo.tables.rows == old(repo.tables).rows[id := Row(p.name, p.price, p.stock)]
                && repo.productEvents == old(repo.productEvents) + if f.send then [] else
                     [Message(ProductEvents, Some(ProductEvent(Created, Product(id, p.name, p.price, p.stock))))]
      ensures status != CREATED ==> repo.tables == old(repo.tables) && repo.productEvents == old(repo.productEvents)
    {
      if body.None? || !ValidProduct(body.value) {
        return BAD_REQUEST;
      }
      var id := repo.Create(body.value, f);
      return if id.None? then SERVER_ERROR else CREATED;
    }

    /** The guard reads through the cache, yet it never passes for a missing row while deletes of keys succeed: a
        successful update hits a row, and its event announces what the table now holds. */
    method UpdateProduct(id: int, body: Option<Product>, guard: Faults, f: Faults) returns (status: int)
      requires repo.Valid()
      modifies repo
      ensures !f.delOne ==> repo.Valid()
      ensures status == BAD_REQUEST <==>
                body.None? || |body.value.name| < 3 || body.value.price <= 0 || body.value.stock <= 0
      ensures status == OK ==>
                var p := body.value;
                && id in old(repo.tables).rows
                && repo.tables == old(repo.tables).(rows := old(repo.tables).rows[id := Row(p.name, p.price, p.stock)])
                && repo.productEvents == old(repo.productEvents) + if f.send then [] else
                     [Message(ProductEvents, Some(ProductEvent(Updated, Product(id, p.name, p.price, p.stock))))]
      ensures status == OK && !f.send ==> Lookup(Fold(map[], repo.productEvents), id) == ProductIn(repo.tables, id)
      ensures NoFaults(guard) && !f.statement ==>
                (status == OK <==>
                 && status != BAD_REQUEST && id in old(repo.tables).rows && |body.value.name| <= 100
                 && Fits32(body.value.price) && Fits32(body.value.stock))
      ensures status != OK ==> repo.tables == old(repo.tables) && repo.productEvents == old(repo.productEvents)
      ensures status == NOT_FOUND && NoFaults(guard) ==> id !in repo.tables.rows
    {
      if body.None? {
        return BAD_REQUEST;
      }
      var p := body.value.(id := id);
      if !ValidProduct(p) {
        return BAD_REQUEST;
      }
      var found := repo.GetByID(id, guard);
      if found.None? {
        return NOT_FOUND;
      }
      var ok := repo.Update(p, f);
      if ok {
        return OK;
      }
      return SERVER_ERROR;
    }

    method DeleteProduct(id: int, guard: Faults, f: Faults) returns (status: int)
      requires repo.Valid()
      modifies repo
      ensures !f.delOne ==> repo.Valid()
      ensures status == OK ==>
                && id in old(repo.tables).rows && !Referenced(old(repo.tables), id)
                && repo.tables == old(repo.tables).(rows := old(repo.tables).rows - {id})
                && repo.productEvents == old(repo.productEvents) + if f.send then [] else
                     [Message(ProductEvents, Some(ProductEvent(Deleted, Product(id, "", 0, 0))))]
      ensures status == OK && !f.send ==> Lookup(Fold(map[], repo.productEvents), id) == None
      ensures NoFaults(guard) && !f.statement ==>
                (status == OK <==> id in old(repo.tables).rows && !Referenced(old(repo.tables), id))
      ensures status != OK ==> repo.tables == old(repo.tables) && repo.productEvents == old(repo.productEvents)
      ensures status == NOT_FOUND && NoFaults(guard) ==> id !in repo.tables.rows
    {
      var found := repo.GetByID(id, guard);
      if found.None? {
        return NOT_FOUND;
      }
      var ok := repo.Delete(id, f);
      if ok {
        return OK;
      }
      return SERVER_ERROR;
    }

    /** `userID` and `email` come from the authenticated request, when they are there. */
    method HandleCheckout(userID: Option<int>, email: Option<string>, body: Option<CheckoutRequest>, f: Faults)
      returns (status: int)
      requires repo.Valid()
      modifies repo
      ensures repo.Valid()
      ensures status in {OK, BAD_REQUEST, UNAUTHORIZED} && (status == UNAUTHORIZED <==> userID.None?)
      ensures status == OK ==>
                && body.Some? && body.value.productId != 0 && body.value.quantity > 0
                && var id, quantity, before := body.value.productId, body.value.quantity, old(repo.tables);
                   && id in before.rows && 0 <= before.rows[id].stock - quantity
                   && repo.tables.rows == before.rows[id := before.rows[id].(stock := before.rows[id].stock - quantity)]
                   && repo.tables.txs == before.txs + [Tx(userID.value, id, quantity, before.rows[id].price * quantity)]
                   && repo.invoices == old(repo.invoices) + if f.send then [] else
                        [Invoice(userID.value, if email.None? then "" else email.value, id, quantity,
                                 before.rows[id].price * quantity)]
      ensures status != OK ==> repo.invoices == old(repo.invoices) && (!f.ackLost ==> repo.tables == old(repo.tables))
      ensures userID.Some? && body.Some? && NoFaults(f) ==>
                (status == OK <==>
                 && body.value.productId != 0 && body.value.quantity > 0 && Fits32(body.value.quantity)
                 && userID.value in old(repo.tables).users && body.value.productId in old(repo.tables).rows
                 && var r := old(repo.tables).rows[body.value.productId];
                    && body.value.quantity <= r.stock && Fits32(r.stock - body.value.quantity)
                    && Fits32(r.price * body.value.quantity))
    {
      if userID.None? {
        return UNAUTHORIZED;
      }
      var userEmail := if email.None? then "" else email.value;
      if body.None? || !ValidCheckout(body.value) {
        return BAD_REQUEST;
      }
      var e := repo.Checkout(userID.value, userEmail, body.value, f);
      return if e.Some? then BAD_REQUEST else OK;
    }

    /** page and limit as Atoi leaves them: zero when missing or unreadable. */
    method GetAllProducts(page: int, limit: int, search: string, order: seq<Product>, early: bool, x: Faults)
      returns (status: int, products: seq<Product>)
      requires repo.Valid() && Lists(order, repo.tables.rows)
      modifies repo
      ensures repo.Valid() && repo.tables == old(repo.tables) && repo.clock == old(repo.clock)
      ensures var f := Filter(if page == 0 then 1 else page, if limit == 0 then 10 else limit, search);
              var key := KeyOf(ByPage(f));
              if old(repo.CacheHit(key, x)) then
                && old(repo.redis)[key].value.Many?
                && status == OK && products == old(repo.redis)[key].value.ps
                && repo.breaker == old(repo.breaker) && repo.redis == old(repo.redis)
              else
                var a := B.Admit(old(repo.breaker), repo.clock);
                var runs := a.Admitted? && QuerySucceeds(f, early, x);
                && status == (if a.OpenState? then UNAVAILABLE else if runs then OK else SERVER_ERROR)
                && products == (if runs then Page(f, early, order) else [])
                && (status == OK ==> RightList(f, early, order, products))
                && repo.breaker == AfterQuery(old(repo.breaker), repo.clock, QuerySucceeds(f, early, x))
                && repo.redis == if runs && !x.put then Filled(old(repo.redis), f, products, repo.clock)
                                 else old(repo.redis)
    {
      var p := if page == 0 then 1 else page;
      var l := if limit == 0 then 10 else limit;
      var f := Filter(p, l, search);
      var r := repo.GetAll(f, order, early, x);
      match r {
        case Listed(ps) => return OK, ps;
        case Unavailable => return UNAVAILABLE, [];
        case ListError => return SERVER_ERROR, [];
      }
    }
  }
}
