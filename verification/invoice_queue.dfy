/** The Redis list of invoices to send: pop, drop what does not parse, push back what could not be sent. */
module InvoiceQueue {
  import opened Models

  /** A list element as the worker sees it: the task it decodes to, or text that does not decode. */
  datatype Payload = Task(invoice: Invoice) | Garbage(text: string)

  datatype Fate = Delivered | Discarded | Retried | PushFailed

  /** The list, what the workers hold between pop and outcome, and where everything else went. */
  datatype Depot = Depot(
    queue: seq<Payload>, held: seq<Payload>,
    delivered: multiset<Payload>, discarded: multiset<Payload>, lost: multiset<Payload>)

  /** One worker's pop, or the end of one worker's attempt. */
  datatype QueueStep = Pop | Finish(k: nat, o: Fate)

  predicate DepotCan(d: Depot, st: QueueStep) {
    match st
    case Pop => d.queue != []
    case Finish(k, o) => k < |d.held| && (d.held[k].Garbage? <==> o.Discarded?)
  }

  function Without<T>(s: seq<T>, k: nat): seq<T>
    requires k < |s|
  {
    s[..k] + s[k + 1..]
  }

  function DepotNext(d: Depot, st: QueueStep): Depot
    requires DepotCan(d, st)
  {
    match st
    case Pop => d.(queue := d.queue[1..], held := d.held + [d.queue[0]])
    case Finish(k, o) =>
      var p, rest := d.held[k], d.(held := Without(d.held, k));
      match o
      case Delivered => rest.(delivered := d.delivered + multiset{p})
      case Discarded => rest.(discarded := d.discarded + multiset{p})
      case Retried => rest.(queue := d.queue + [p])
      case PushFailed => rest.(lost := d.lost + multiset{p})
  }

  function DepotRun(d: Depot, sts: seq<QueueStep>): Option<Depot> {
    if sts == [] then Some(d)
    else match DepotRun(d, sts[..|sts| - 1])
      case None => None
      case Some(u) => if DepotCan(u, sts[|sts| - 1]) then Some(DepotNext(u, sts[|sts| - 1])) else None
  }

  function Everything(d: Depot): multiset<Payload> {
    multiset(d.queue) + multiset(d.held) + d.delivered + d.discarded + d.lost
  }

  lemma WithoutTakesOne<T>(s: seq<T>, k: nat)
    requires k < |s|
    ensures multiset(s) == multiset(Without(s, k)) + multiset{s[k]}
  {
    assert s == s[..k] + [s[k]] + s[k + 1..];
  }

  lemma PopConserves(d: Depot)
    requires d.queue != []
    ensures Everything(DepotNext(d, Pop)) == Everything(d)
  {
    assert d.queue == [d.queue[0]] + d.queue[1..];
  }

  lemma FinishConserves(d: Depot, k: nat, o: Fate)
    requires DepotCan(d, Finish(k, o))
    ensures Everything(DepotNext(d, Finish(k, o))) == Everything(d)
  {
    var p := d.held[k];
    WithoutTakesOne(d.held, k);
    assert multiset(d.held) == multiset(Without(d.held, k)) + multiset{p};
    if o.Retried? {
      assert multiset(d.queue + [p]) == multiset(d.queue) + multiset{p};
    }
  }

  lemma NextConserves(d: Depot, st: QueueStep)
    requires DepotCan(d, st)
    ensures Everything(DepotNext(d, st)) == Everything(d)
  {
    match st
    case Pop => PopConserves(d);
    case Finish(k, o) => FinishConserves(d, k, o);
  }

  function Count(sts: seq<QueueStep>, o: Fate): nat {
    if sts == [] then 0
    else Count(sts[..|sts| - 1], o) + if sts[|sts| - 1].Finish? && sts[|sts| - 1].o == o then 1 else 0
  }

  function Load(d: Depot): nat {
    2 * |d.queue| + |d.held|
  }

  /** Conservation: with any number of workers, every payload is, unchanged, in the list, in a worker's hands,
      delivered, discarded as unreadable, or lost; and exactly the failed pushes lose one each. */
  lemma {:induction false} TasksConserved(d: Depot, sts: seq<QueueStep>)
    requires DepotRun(d, sts).Some?
    ensures var u := DepotRun(d, sts).value;
            && Everything(u) == Everything(d)
            && |u.lost| == |d.lost| + Count(sts, PushFailed)
            && |u.discarded| == |d.discarded| + Count(sts, Discarded)
  {
    if sts != [] {
      TasksConserved(d, sts[..|sts| - 1]);
      NextConserves(DepotRun(d, sts[..|sts| - 1]).value, sts[|sts| - 1]);
    }
  }

  /** Only unreadable payloads are discarded, and only readable ones are delivered or lost. */
  lemma {:induction false} OutcomesFit(d: Depot, sts: seq<QueueStep>, p: Payload)
    requires DepotRun(d, sts).Some? && d.delivered == d.discarded == d.lost == multiset{}
    ensures var u := DepotRun(d, sts).value;
            && (p in u.discarded ==> p.Garbage?)
            && (p in u.delivered || p in u.lost ==> p.Task?)
  {
    if sts != [] {
      OutcomesFit(d, sts[..|sts| - 1], p);
    }
  }

  /** Termination: the length of a run is fixed by what is left and by the number of retries, so with finitely
      many failed sends no run goes on for ever. */
  lemma {:induction false} RunLength(d: Depot, sts: seq<QueueStep>)
    requires DepotRun(d, sts).Some?
    ensures |sts| + Load(DepotRun(d, sts).value) == Load(d) + 2 * Count(sts, Retried)
  {
    if sts != [] {
      RunLength(d, sts[..|sts| - 1]);
    }
  }

  function Pops(sts: seq<QueueStep>): nat {
    if sts == [] then 0 else Pops(sts[..|sts| - 1]) + if sts[|sts| - 1].Pop? then 1 else 0
  }

  lemma NextMovesUp(d: Depot, st: QueueStep, j: nat)
    requires DepotCan(d, st) && j < |d.queue| && (st.Pop? ==> j > 0)
    ensures var j' := if st.Pop? then j - 1 else j;
            j' < |DepotNext(d, st).queue| && DepotNext(d, st).queue[j'] == d.queue[j]
  {
  }

  /** No starvation: retries join at the tail, so the payload in place k is still waiting, k - n places from the
      head, after n <= k pops. */
  lemma {:induction false} QueueIsFair(d: Depot, sts: seq<QueueStep>, k: nat)
    requires DepotRun(d, sts).Some? && k < |d.queue| && Pops(sts) <= k
    ensures var q := DepotRun(d, sts).value.queue;
            k - Pops(sts) < |q| && q[k - Pops(sts)] == d.queue[k]
  {
    if sts != [] {
      var pre, st := sts[..|sts| - 1], sts[|sts| - 1];
      QueueIsFair(d, pre, k);
      NextMovesUp(DepotRun(d, pre).value, st, k - Pops(pre));
    }
  }

  ghost predicate Stuck(d: Depot) {
    forall st :: !DepotCan(d, st)
  }

  /** A run can only stop where the list and all hands are empty, and then every payload was delivered, found
      unreadable, or lost to a failed push. */
  lemma QueueDrains(d: Depot, sts: seq<QueueStep>)
    requires DepotRun(d, sts).Some?
    ensures var u := DepotRun(d, sts).value;
            && (Stuck(u) <==> u.queue == [] && u.held == [])
            && (Stuck(u) ==> u.delivered + u.discarded + u.lost == Everything(d))
  {
    var u := DepotRun(d, sts).value;
    TasksConserved(d, sts);
    if u.queue != [] {
      assert DepotCan(u, Pop);
    } else if u.held != [] {
      assert DepotCan(u, Finish(0, if u.held[0].Garbage? then Discarded else Delivered));
    }
  }

  // ----- One worker call -----

  /** What the environment does to one call: the connection, the simulated mail failure, the push. */
  datatype CallFaults = CallFaults(popFails: bool, mailFails: bool, pushFails: bool)

  function FateOf(p: Payload, w: CallFaults): Fate {
    if p.Garbage? then Discarded
    else if !w.mailFails then Delivered
    else if w.pushFails then PushFailed
    else Retried
  }

  class InvoiceWorker {
    var depot: Depot

    constructor (queue: seq<Payload>)
      ensures depot == Depot(queue, [], multiset{}, multiset{}, multiset{})
    {
      depot := Depot(queue, [], multiset{}, multiset{}, multiset{});
    }

    /** BLPop waits until there is an element, so a call that pops starts with one. The call is a pop followed by
        its outcome, and reports an error exactly if the pop or the push failed. */
    method ProcessTaskInvoice(w: CallFaults) returns (failed: bool)
      requires !w.popFails ==> depot.queue != []
      modifies this
      ensures w.popFails ==> failed && depot == old(depot)
      ensures !w.popFails ==>
                var o := FateOf(old(depot.queue[0]), w);
                && DepotCan(old(depot), Pop)
                && DepotCan(DepotNext(old(depot), Pop), Finish(|old(depot.held)|, o))
                && depot == DepotNext(DepotNext(old(depot), Pop), Finish(|old(depot.held)|, o))
                && (failed <==> o.PushFailed?)
      ensures !w.popFails ==>
                var d, p := old(depot), old(depot.queue[0]);
                var rest := d.(queue := d.queue[1..]);
                match p
                case Garbage(_) => !failed && depot == rest.(discarded := d.discarded + multiset{p})
                case Task(_) =>
                  if !w.mailFails then !failed && depot == rest.(delivered := d.delivered + multiset{p})
                  else if !w.pushFails then !failed && depot == rest.(queue := d.queue[1..] + [p])
                  else failed && depot == rest.(lost := d.lost + multiset{p})
    {
      if w.popFails {
        return true;
      }
      var payload := depot.queue[0];
      assert Without(depot.held + [payload], |depot.held|) == depot.held;
      depot := depot.(queue := depot.queue[1..]);
      match payload {
        case Garbage(_) =>
          depot := depot.(discarded := depot.discarded + multiset{payload});
          return false;
        case Task(_) =>
          if w.mailFails {
            if w.pushFails {
              depot := depot.(lost := depot.lost + multiset{payload});
              return true;
            }
            depot := depot.(queue := depot.queue + [payload]);
            return false;
          }
          depot := depot.(delivered := depot.delivered + multiset{payload});
          return false;
      }
    }
  }
}
