/** The projection of the event log into the search index: a document per product id, last writer wins. */
module Projection {
  import opened Models
  import opened Keys

  /** event.ProductEvent; the action is free text on the wire, three values of which mean something. */
  datatype Kind = Created | Updated | Deleted | Unknown(name: string)

  datatype ProductEvent = ProductEvent(kind: Kind, product: Product)

  datatype Topic = ProductEvents | CheckoutEvents | OtherTopic

  /** A message as the worker sees it: for a product event, the decoded payload or None if it does not parse. */
  datatype Message = Message(topic: Topic, payload: Option<ProductEvent>)

  type Index = map<string, Product>

  /** syncProductToES, when Elasticsearch answers. */
  function Sync(index: Index, ev: ProductEvent): Index {
    match ev.kind
    case Created => index[Dec(ev.product.id) := ev.product]
    case Updated => index[Dec(ev.product.id) := ev.product]
    case Deleted => index - {Dec(ev.product.id)}
    case Unknown(_) => index
  }

  predicate Carries(m: Message) {
    m.topic.ProductEvents? && m.payload.Some?
  }

  function SyncMessage(index: Index, m: Message): Index {
    if Carries(m) then Sync(index, m.payload.value) else index
  }

  function Fold(index: Index, log: seq<Message>): Index {
    if log == [] then index else SyncMessage(Fold(index, log[..|log| - 1]), log[|log| - 1])
  }

  // ----- What the index shows for one product -----

  predicate Concerns(m: Message, id: int) {
    Carries(m) && m.payload.value.product.id == id && !m.payload.value.kind.Unknown?
  }

  /** The last event of a log that decides the document of id. */
  function LastOn(log: seq<Message>, id: int): Option<ProductEvent> {
    if log == [] then None
    else if Concerns(log[|log| - 1], id) then log[|log| - 1].payload
    else LastOn(log[..|log| - 1], id)
  }

  lemma LastOnAppend(log: seq<Message>, m: Message, id: int)
    ensures LastOn(log + [m], id) == if Concerns(m, id) then m.payload else LastOn(log, id)
  {
  }

  function Document(ev: Option<ProductEvent>): Option<Product> {
    if ev.Some? && (ev.value.kind.Created? || ev.value.kind.Updated?) then Some(ev.value.product) else None
  }

  function Lookup(index: Index, id: int): Option<Product> {
    if Dec(id) in index then Some(index[Dec(id)]) else None
  }

  lemma SyncShows(index: Index, m: Message, id: int)
    ensures Lookup(SyncMessage(index, m), id) == if Concerns(m, id) then Document(m.payload) else Lookup(index, id)
  {
    if Carries(m) && Dec(m.payload.value.product.id) == Dec(id) {
      DecInjective(m.payload.value.product.id, id);
    }
  }

  /** Last writer wins: one pass over a log leaves, for every id, the document of its last event. */
  lemma {:induction false} FoldShows(index: Index, log: seq<Message>, id: int)
    ensures Lookup(Fold(index, log), id) ==
            if LastOn(log, id).Some? then Document(LastOn(log, id)) else Lookup(index, id)
  {
    if log != [] {
      FoldShows(index, log[..|log| - 1], id);
      SyncShows(Fold(index, log[..|log| - 1]), log[|log| - 1], id);
    }
  }

  /** Every document is filed under the decimal form of some id. */
  ghost predicate KeyedById(index: Index) {
    forall key :: key in index ==> exists id: int :: key == Dec(id)
  }

  lemma SyncKeepsKeys(index: Index, m: Message)
    requires KeyedById(index)
    ensures KeyedById(SyncMessage(index, m))
  {
  }

  lemma {:induction false} FoldKeepsKeys(index: Index, log: seq<Message>)
    requires KeyedById(index)
    ensures KeyedById(Fold(index, log))
  {
    if log != [] {
      FoldKeepsKeys(index, log[..|log| - 1]);
      SyncKeepsKeys(Fold(index, log[..|log| - 1]), log[|log| - 1]);
    }
  }

  /** Two indexes that show the same document for every id are the same index. */
  lemma SameDocuments(a: Index, b: Index)
    requires KeyedById(a) && KeyedById(b)
    requires forall id: int :: Lookup(a, id) == Lookup(b, id)
    ensures a == b
  {
    forall key | key in a ensures key in b && a[key] == b[key] {
      var id: int :| key == Dec(id);
      assert Lookup(a, id) == Lookup(b, id);
    }
    forall key | key in b ensures key in a {
      var id: int :| key == Dec(id);
      assert Lookup(a, id) == Lookup(b, id);
    }
    assert a.Keys == b.Keys;
  }

  // ----- Partitions -----

  /** The part of a log that went to partition p, when keys are routed by `route`. */
  function InPartition(route: string -> nat, log: seq<Message>, p: nat): seq<Message> {
    if log == [] then []
    else
      var before, m := InPartition(route, log[..|log| - 1], p), log[|log| - 1];
      if Carries(m) && route(Dec(m.payload.value.product.id)) == p then before + [m] else before
  }

  /** All events of a product are in the partition of its key, so that partition alone decides its document. */
  lemma {:induction false} PartitionDecides(route: string -> nat, log: seq<Message>, id: int)
    ensures LastOn(log, id) == LastOn(InPartition(route, log, route(Dec(id))), id)
  {
    if log != [] {
      var pre, m := log[..|log| - 1], log[|log| - 1];
      PartitionDecides(route, pre, id);
      LastOnAppend(InPartition(route, pre, route(Dec(id))), m, id);
    }
  }

  /** Partition confluence: any delivery that keeps each partition's order ends in the index of the send order. */
  lemma {:induction false} PartitionConfluence(
    route: string -> nat, sent: seq<Message>, delivered: seq<Message>, index: Index)
    requires KeyedById(index)
    requires forall p: nat :: InPartition(route, delivered, p) == InPartition(route, sent, p)
    ensures Fold(index, delivered) == Fold(index, sent)
  {
    FoldKeepsKeys(index, sent);
    FoldKeepsKeys(index, delivered);
    forall id: int ensures Lookup(Fold(index, delivered), id) == Lookup(Fold(index, sent), id) {
      FoldShows(index, sent, id);
      FoldShows(index, delivered, id);
      PartitionDecides(route, sent, id);
      PartitionDecides(route, delivered, id);
    }
    SameDocuments(Fold(index, delivered), Fold(index, sent));
  }
}
