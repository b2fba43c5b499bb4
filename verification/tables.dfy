/** The PostgreSQL tables, the SQL statements the repository sends to them, and the serial
    specification: what one operation running alone does to the tables. */
module Tables {
  import opened Models

  datatype Row = Row(name: string, price: int, stock: int)

  datatype Tx = Tx(user: int, product: int, quantity: int, total: int)

  /** `users` holds the ids that fk_user can refer to; nothing modelled here changes it. */
  datatype Tables = Tables(users: set<int>, rows: map<int, Row>, txs: seq<Tx>)

  predicate RowFits(r: Row) {
    |r.name| <= 100 && Fits32(r.price) && Fits32(r.stock)
  }

  predicate TxFits(t: Tables, x: Tx) {
    && x.user in t.users && x.product in t.rows
    && Fits32(x.quantity) && Fits32(x.total)
  }

  /** Column widths and both foreign keys hold. */
  ghost predicate WellTyped(t: Tables) {
    && (forall id :: id in t.rows ==> Fits32(id) && RowFits(t.rows[id]))
    && (forall k :: 0 <= k < |t.txs| ==> TxFits(t, t.txs[k]))
  }

  predicate Referenced(t: Tables, id: int) {
    exists k :: 0 <= k < |t.txs| && t.txs[k].product == id
  }

  function AsProduct(id: int, r: Row): Product {
    Product(id, r.name, r.price, r.stock)
  }

  function AsRow(p: Product): Row {
    Row(p.name, p.price, p.stock)
  }

  // ----- The statements -----

  /** The guarded UPDATE of Checkout. `Taken` carries the row version the statement writes and returns the price. */
  datatype Reservation = Taken(written: Row) | NoRows | OutOfRange

  function ReserveStock(t: Tables, id: int, quantity: int): Reservation {
    if !Fits32(id) || !Fits32(quantity) then OutOfRange
    else if id !in t.rows || t.rows[id].stock < quantity then NoRows
    else if !Fits32(t.rows[id].stock - quantity) then OutOfRange
    else Taken(t.rows[id].(stock := t.rows[id].stock - quantity))
  }

  /** The INSERT of Checkout: refused when a value does not fit its column or a foreign key has no target. */
  function InsertTx(t: Tables, user: int, id: int, quantity: int, total: int): Option<Tx> {
    var x := Tx(user, id, quantity, total);
    if TxFits(t, x) then Some(x) else None
  }

  /** An autocommitted statement: the new tables and whether a row was affected, or an SQL error. */
  datatype Write = Wrote(t: Tables, affected: bool) | SqlError

  function InsertRow(t: Tables, id: int, r: Row): Write {
    if id !in t.rows && Fits32(id) && RowFits(r) then Wrote(t.(rows := t.rows[id := r]), true) else SqlError
  }

  function UpdateRow(t: Tables, id: int, r: Row): Write {
    if !Fits32(id) || !Fits32(r.price) || !Fits32(r.stock) then SqlError
    else if id !in t.rows then Wrote(t, false)
    else if |r.name| > 100 then SqlError
    else Wrote(t.(rows := t.rows[id := r]), true)
  }

  /** fk_product has no ON DELETE action, so a product with a transaction cannot be deleted. */
  function DeleteRow(t: Tables, id: int): Write {
    if !Fits32(id) then SqlError
    else if id !in t.rows then Wrote(t, false)
    else if Referenced(t, id) then SqlError
    else Wrote(t.(rows := t.rows - {id}), true)
  }

  // ----- The serial specification -----

  /** An operation that changed the tables; `Add` names the id the sequence handed out. */
  datatype Op =
    | Buy(user: int, product: int, quantity: int)
    | Add(id: int, row: Row)
    | Edit(id: int, row: Row)
    | Remove(id: int)

  /** One operation alone, from start to end: the tables it leaves, or None when it changes nothing. */
  function Serial(t: Tables, op: Op): Option<Tables> {
    match op
    case Buy(user, product, quantity) =>
      if && Fits32(quantity) && user in t.users && product in t.rows
         && quantity <= t.rows[product].stock && Fits32(t.rows[product].stock - quantity)
         && Fits32(t.rows[product].price * quantity)
      then
        var r := t.rows[product];
        Some(t.(rows := t.rows[product := r.(stock := r.stock - quantity)],
                txs := t.txs + [Tx(user, product, quantity, r.price * quantity)]))
      else None
    case Add(id, row) =>
      if id !in t.rows && Fits32(id) && RowFits(row) then Some(t.(rows := t.rows[id := row])) else None
    case Edit(id, row) =>
      if id in t.rows && RowFits(row) then Some(t.(rows := t.rows[id := row])) else None
    case Remove(id) =>
      if id in t.rows && !Referenced(t, id) then Some(t.(rows := t.rows - {id})) else None
  }

  /** The tables after one operation alone, whether it changed them or was refused. */
  function Outcome(t: Tables, op: Op): Tables {
    match Serial(t, op) case Some(u) => u case None => t
  }

  /** When a sale takes place and what it leaves: the user and the product exist, the stock suffices, down to the
      last unit, and quantity, remaining stock and total fit their columns. */
  lemma SaleExactly(t: Tables, user: int, id: int, quantity: int)
    ensures Serial(t, Buy(user, id, quantity)).Some? <==>
            && user in t.users && id in t.rows && Fits32(quantity)
            && quantity <= t.rows[id].stock && Fits32(t.rows[id].stock - quantity)
            && Fits32(t.rows[id].price * quantity)
    ensures Serial(t, Buy(user, id, quantity)).Some? ==>
              var u, r := Serial(t, Buy(user, id, quantity)).value, t.rows[id];
              && u.users == t.users
              && u.rows == t.rows[id := Row(r.name, r.price, r.stock - quantity)]
              && u.txs == t.txs + [Tx(user, id, quantity, r.price * quantity)]
  {
  }

  /** When a product write changes the tables and what it leaves. */
  lemma WriteExactly(t: Tables, id: int, r: Row)
    requires WellTyped(t)
    ensures Serial(t, Add(id, r)).Some? <==>
            id !in t.rows && Fits32(id) && |r.name| <= 100 && Fits32(r.price) && Fits32(r.stock)
    ensures Serial(t, Edit(id, r)).Some? <==>
            id in t.rows && |r.name| <= 100 && Fits32(r.price) && Fits32(r.stock)
    ensures Serial(t, Remove(id)).Some? <==> id in t.rows && forall k :: 0 <= k < |t.txs| ==> t.txs[k].product != id
    ensures Serial(t, Add(id, r)).Some? ==>
              Serial(t, Add(id, r)).value == Tables(t.users, t.rows[id := r], t.txs)
    ensures Serial(t, Edit(id, r)).Some? ==>
              Serial(t, Edit(id, r)).value == Tables(t.users, t.rows[id := r], t.txs)
    ensures Serial(t, Remove(id)).Some? ==>
              Serial(t, Remove(id)).value == Tables(t.users, t.rows - {id}, t.txs)
  {
  }

  /** The product an operation is about. */
  function Touches(op: Op): int {
    match op
    case Buy(_, product, _) => product
    case Add(id, _) => id
    case Edit(id, _) => id
    case Remove(id) => id
  }

  /** An operation in the commit history, with the index of the process that ran it. */
  datatype Commit = Commit(who: nat, op: Op)

  /** The operations of a history, one at a time; None as soon as one of them would be refused. */
  function Replay(t: Tables, cs: seq<Commit>): Option<Tables> {
    if cs == [] then Some(t)
    else match Replay(t, cs[..|cs| - 1])
      case None => None
      case Some(u) => Serial(u, cs[|cs| - 1].op)
  }

  lemma ReplayAppend(t: Tables, cs: seq<Commit>, c: Commit)
    ensures Replay(t, cs + [c]) ==
            match Replay(t, cs) case None => None case Some(u) => Serial(u, c.op)
  {
  }

  /** A successful history has a defined table state at every point, so `version v` makes sense. */
  lemma {:induction false} ReplayPrefix(t: Tables, cs: seq<Commit>, v: nat)
    requires Replay(t, cs).Some? && v <= |cs|
    ensures Replay(t, cs[..v]).Some?
  {
    if v == |cs| {
      assert cs[..v] == cs;
    } else {
      ReplayPrefix(t, cs[..|cs| - 1], v);
      assert cs[..|cs| - 1][..v] == cs[..v];
    }
  }

  // ----- What a serial run keeps -----

  lemma SerialKeepsWellTyped(t: Tables, op: Op)
    requires WellTyped(t) && Serial(t, op).Some?
    ensures WellTyped(Serial(t, op).value)
  {
  }

  lemma {:induction false} ReplayKeepsWellTyped(t: Tables, cs: seq<Commit>)
    requires WellTyped(t) && Replay(t, cs).Some?
    ensures WellTyped(Replay(t, cs).value)
  {
    if cs != [] {
      var pre := cs[..|cs| - 1];
      ReplayKeepsWellTyped(t, pre);
      SerialKeepsWellTyped(Replay(t, pre).value, cs[|cs| - 1].op);
    }
  }

  /** Units of `id` sold since the last operation that wrote its stock. */
  function SoldSince(cs: seq<Commit>, id: int): int {
    if cs == [] then 0
    else
      var pre := cs[..|cs| - 1];
      match cs[|cs| - 1].op
      case Buy(_, product, quantity) => SoldSince(pre, id) + if product == id then quantity else 0
      case Add(j, _) => if j == id then 0 else SoldSince(pre, id)
      case Edit(j, _) => if j == id then 0 else SoldSince(pre, id)
      case Remove(j) => if j == id then 0 else SoldSince(pre, id)
  }

  /** The row that the last Create or Update of `id` wrote, or the initial one. */
  function LastWritten(t: Tables, cs: seq<Commit>, id: int): Option<Row> {
    if cs == [] then if id in t.rows then Some(t.rows[id]) else None
    else
      var pre := cs[..|cs| - 1];
      match cs[|cs| - 1].op
      case Buy(_, _, _) => LastWritten(t, pre, id)
      case Add(j, r) => if j == id then Some(r) else LastWritten(t, pre, id)
      case Edit(j, r) => if j == id then Some(r) else LastWritten(t, pre, id)
      case Remove(j) => if j == id then None else LastWritten(t, pre, id)
  }

  /** Conservation: a row exists exactly when its last write was not a delete, it keeps the name and price
      written last, and its stock plus the units sold since is the stock written last. */
  lemma {:induction false} ReplayConserves(t: Tables, cs: seq<Commit>, id: int)
    requires Replay(t, cs).Some?
    ensures var u, w := Replay(t, cs).value, LastWritten(t, cs, id);
            && (id in u.rows <==> w.Some?)
            && (w.Some? ==> u.rows[id] == w.value.(stock := w.value.stock - SoldSince(cs, id)))
  {
    if cs != [] {
      ReplayConserves(t, cs[..|cs| - 1], id);
    }
  }

  /** No oversell: a product whose last written stock is non-negative never has a negative stock. */
  lemma {:induction false} ReplayNeverOversells(t: Tables, cs: seq<Commit>, id: int)
    requires Replay(t, cs).Some? && id in Replay(t, cs).value.rows
    requires LastWritten(t, cs, id).Some? ==> LastWritten(t, cs, id).value.stock >= 0
    ensures Replay(t, cs).value.rows[id].stock >= 0
  {
    if cs != [] && id in Replay(t, cs[..|cs| - 1]).value.rows {
      match cs[|cs| - 1].op
      case Buy(_, _, _) => ReplayNeverOversells(t, cs[..|cs| - 1], id);
      case Add(j, _) => if j != id { ReplayNeverOversells(t, cs[..|cs| - 1], id); }
      case Edit(j, _) => if j != id { ReplayNeverOversells(t, cs[..|cs| - 1], id); }
      case Remove(_) => ReplayNeverOversells(t, cs[..|cs| - 1], id);
    }
  }

  /** Units of `id` sold by the operations from version v on. */
  function SoldAfter(cs: seq<Commit>, v: nat, id: int): int
    requires v <= |cs|
    decreases |cs|
  {
    if v == |cs| then 0
    else
      var op := cs[|cs| - 1].op;
      SoldAfter(cs[..|cs| - 1], v, id) + if op.Buy? && op.product == id then op.quantity else 0
  }

  /** From version v on, `id` was sold at most: neither created, updated nor deleted. */
  ghost predicate OnlySold(cs: seq<Commit>, v: nat, id: int) {
    forall k :: v <= k < |cs| && Touches(cs[k].op) == id ==> cs[k].op.Buy?
  }

  /** A product that was only sold since version v still is the row of that version, less what was sold. */
  lemma {:induction false} OnlySoldDrifts(t: Tables, cs: seq<Commit>, v: nat, id: int)
    requires Replay(t, cs).Some? && v <= |cs| && OnlySold(cs, v, id)
    ensures Replay(t, cs[..v]).Some?
    ensures var before, now := Replay(t, cs[..v]).value.rows, Replay(t, cs).value.rows;
            && (id in now <==> id in before)
            && (id in now ==> now[id] == before[id].(stock := before[id].stock - SoldAfter(cs, v, id)))
    decreases |cs|
  {
    if v == |cs| {
      assert cs[..v] == cs;
    } else {
      var pre := cs[..|cs| - 1];
      OnlySoldDrifts(t, pre, v, id);
      assert pre[..v] == cs[..v];
    }
  }

  /** Commit k is the last one from version v on that created, updated or deleted `id`. */
  ghost predicate LastWriteAt(cs: seq<Commit>, v: nat, k: nat, id: int) {
    && v <= k < |cs| && Touches(cs[k].op) == id && !cs[k].op.Buy?
    && OnlySold(cs, k + 1, id)
  }

  /** The last write of `id` since version v, if there is one, put back the row of that version, less exactly what
      was sold between that version and the write. */
  ghost predicate LastWriteRestores(cs: seq<Commit>, v: nat, id: int, before: Row) {
    forall k: nat :: LastWriteAt(cs, v, k, id) ==>
      && (cs[k].op.Add? || cs[k].op.Edit?)
      && cs[k].op.row == before.(stock := before.stock - SoldAfter(cs[..k], v, id))
  }

  lemma {:induction false} FindLastWrite(cs: seq<Commit>, v: nat, n: nat, id: int) returns (k: nat)
    requires v <= n <= |cs| && OnlySold(cs, n, id) && !OnlySold(cs, v, id)
    ensures LastWriteAt(cs, v, k, id)
    decreases n
  {
    if Touches(cs[n - 1].op) == id && !cs[n - 1].op.Buy? {
      k := n - 1;
    } else {
      k := FindLastWrite(cs, v, n - 1, id);
    }
  }

  lemma {:induction false} SoldAfterAdds(cs: seq<Commit>, v: nat, k: nat, id: int)
    requires v <= k <= |cs|
    ensures SoldAfter(cs, v, id) == SoldAfter(cs[..k], v, id) + SoldAfter(cs, k, id)
    decreases |cs|
  {
    if k == |cs| {
      assert cs[..k] == cs;
    } else {
      SoldAfterAdds(cs[..|cs| - 1], v, k, id);
      assert cs[..|cs| - 1][..k] == cs[..k];
    }
  }

  /** From the last write on, the row is what that write left, less what was sold after it. */
  lemma LastWriteDecides(t: Tables, cs: seq<Commit>, v: nat, k: nat, id: int)
    requires Replay(t, cs).Some? && LastWriteAt(cs, v, k, id)
    ensures var now, op := Replay(t, cs).value.rows, cs[k].op;
            && (id in now <==> op.Add? || op.Edit?)
            && (id in now ==> now[id] == op.row.(stock := op.row.stock - SoldAfter(cs, k + 1, id)))
  {
    ReplayPrefix(t, cs, k + 1);
    assert cs[..k + 1] == cs[..k] + [cs[k]];
    ReplayAppend(t, cs[..k], cs[k]);
    OnlySoldDrifts(t, cs, k + 1, id);
  }

  /** Which histories keep a version's row up to sales: exactly those whose last write of it since, if any, put
      the row back as if it had only been sold. */
  lemma {:induction false} VersionDriftsExactly(t: Tables, cs: seq<Commit>, v: nat, id: int)
    requires Replay(t, cs).Some? && v <= |cs|
    requires Replay(t, cs[..v]).Some? && id in Replay(t, cs[..v]).value.rows
    ensures var before, now := Replay(t, cs[..v]).value.rows[id], Replay(t, cs).value.rows;
            (id in now && now[id] == before.(stock := before.stock - SoldAfter(cs, v, id))) <==>
            LastWriteRestores(cs, v, id, before)
  {
    if OnlySold(cs, v, id) {
      OnlySoldDrifts(t, cs, v, id);
    } else {
      var k := FindLastWrite(cs, v, |cs|, id);
      LastWriteDecides(t, cs, v, k, id);
      SoldAfterAdds(cs, v, k, id);
      SoldAfterAdds(cs, k, k + 1, id);
      assert cs[..k + 1][..k] == cs[..k];
      assert SoldAfter(cs[..k + 1], k, id) == 0;
      forall j: nat | LastWriteAt(cs, v, j, id) ensures j == k {
      }
    }
  }
}
