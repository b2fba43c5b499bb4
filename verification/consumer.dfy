/** The worker's code: ConsumerHandler.ConsumeClaim and syncProductToES, with every answer Elasticsearch may give. */
module Consumer {
  import opened Models
  import opened Keys
  import opened Projection
  import opened Worker

  /** The call reported an error of its own, such as a timeout, or an error status, either of which may hide that
      Elasticsearch did what was asked; or it reported success (as for a 404 to the delete of a missing document). */
  datatype Answer = Unreachable(done: bool) | ErrorStatus(done: bool) | Applied

  predicate CarriedOut(a: Answer) {
    match a
    case Unreachable(done) => done
    case ErrorStatus(done) => done
    case Applied => true
  }

  /** Per message: the answer to the document call, and whether the audit call, if made, wrote its entry. */
  datatype Weather = Weather(document: Answer, audited: bool)

  function SyncWith(index: Index, m: Message, a: Answer): Index {
    if CarriedOut(a) then SyncMessage(index, m) else index
  }

  /** An unreachable document call returns before the audit entry is written. */
  function AuditWith(audit: seq<ProductEvent>, m: Message, w: Weather): seq<ProductEvent> {
    if Carries(m) && w.audited && (m.payload.value.kind.Unknown? || !w.document.Unreachable?)
    then audit + [m.payload.value] else audit
  }

  function FoldWith(index: Index, log: seq<Message>, ws: seq<Weather>): Index
    requires |ws| == |log|
  {
    if log == [] then index
    else
      var n := |log| - 1;
      SyncWith(FoldWith(index, log[..n], ws[..n]), log[n], ws[n].document)
  }

  function AuditAll(audit: seq<ProductEvent>, log: seq<Message>, ws: seq<Weather>): seq<ProductEvent>
    requires |ws| == |log|
  {
    if log == [] then audit
    else
      var n := |log| - 1;
      AuditWith(AuditAll(audit, log[..n], ws[..n]), log[n], ws[n])
  }

  /** The session's mark after the messages from offset `start` on. */
  function MarkAfter(mark: nat, start: nat, log: seq<Message>): (r: nat)
    ensures mark <= start ==> r <= start + |log|
  {
    if log == [] then mark
    else
      var n := |log| - 1;
      if Marks(log[n]) then start + n + 1 else MarkAfter(mark, start, log[..n])
  }

  /** The mark is one past the last message that is not a product event without a payload, or stays. */
  lemma {:induction false} MarkIsLast(mark: nat, start: nat, log: seq<Message>)
    requires mark <= start
    ensures var r := MarkAfter(mark, start, log);
            && (forall k :: 0 <= k < |log| && !(log[k].topic.ProductEvents? && log[k].payload.None?) ==>
                  r >= start + k + 1)
            && (r == mark || exists k :: 0 <= k < |log| && r == start + k + 1
                                         && !(log[k].topic.ProductEvents? && log[k].payload.None?))
            && ((forall k :: 0 <= k < |log| ==> log[k].topic.ProductEvents? && log[k].payload.None?) ==> r == mark)
  {
    if log != [] {
      MarkIsLast(mark, start, log[..|log| - 1]);
    }
  }

  class Session {
    var marked: nat

    constructor (committed: nat)
      ensures marked == committed
    {
      marked := committed;
    }

    method MarkMessage(offset: nat)
      modifies this
      ensures marked == if offset + 1 > old(marked) then offset + 1 else old(marked)
    {
      if offset + 1 > marked {
        marked := offset + 1;
      }
    }
  }

  class ConsumerHandler {
    var index: Index
    var audit: seq<ProductEvent>

    constructor ()
      ensures index == map[] && audit == []
    {
      index, audit := map[], [];
    }

    method SyncProductToES(evt: ProductEvent, w: Weather)
      modifies this
      ensures var m := Message(ProductEvents, Some(evt));
              && index == SyncWith(old(index), m, w.document)
              && audit == AuditWith(old(audit), m, w)
      ensures index ==
                if evt.kind.Unknown? || !CarriedOut(w.document) then old(index)
                else if evt.kind.Deleted? then old(index) - {Dec(evt.product.id)}
                else old(index)[Dec(evt.product.id) := evt.product]
      ensures audit ==
                old(audit) + if w.audited && (evt.kind.Unknown? || !w.document.Unreachable?) then [evt] else []
    {
      match evt.kind {
        case Unknown(_) =>
        case Deleted =>
          if CarriedOut(w.document) {
            index := index - {Dec(evt.product.id)};
          }
          if w.document.Unreachable? {
            return;
          }
        case _ =>
          if CarriedOut(w.document) {
            index := index[Dec(evt.product.id) := evt.product];
          }
          if w.document.Unreachable? {
            return;
          }
      }
      if w.audited {
        audit := audit + [evt];
      }
    }

    /** Works off the messages of a claim from offset start on, whatever Elasticsearch answers. */
    method ConsumeClaim(session: Session, start: nat, log: seq<Message>, ws: seq<Weather>)
      requires |ws| == |log| && session.marked <= start
      modifies this, session
      ensures index == FoldWith(old(index), log, ws)
      ensures audit == AuditAll(old(audit), log, ws)
      ensures session.marked == MarkAfter(old(session.marked), start, log)
      ensures forall k :: 0 <= k < |log| && !(log[k].topic.ProductEvents? && log[k].payload.None?) ==>
                session.marked >= start + k + 1
      ensures || session.marked == old(session.marked)
              || exists k :: 0 <= k < |log| && session.marked == start + k + 1
                             && !(log[k].topic.ProductEvents? && log[k].payload.None?)
      ensures (forall k :: 0 <= k < |log| ==> log[k].topic.ProductEvents? && log[k].payload.None?) ==>
                session.marked == old(session.marked)
    {
      MarkIsLast(session.marked, start, log);
      var i := 0;
      while i < |log|
        invariant 0 <= i <= |log|
        invariant index == FoldWith(old(index), log[..i], ws[..i])
        invariant audit == AuditAll(old(audit), log[..i], ws[..i])
        invariant session.marked == MarkAfter(old(session.marked), start, log[..i])
        invariant session.marked <= start + i
      {
        var m := log[i];
        assert log[..i + 1][..i] == log[..i] && ws[..i + 1][..i] == ws[..i];
        i := i + 1;
        if m.topic.ProductEvents? {
          if m.payload.None? {
            continue;
          }
          SyncProductToES(m.payload.value, ws[i - 1]);
          assert Message(ProductEvents, Some(m.payload.value)) == m;
        }
        session.MarkMessage(start + i - 1);
      }
      assert log[..i] == log && ws[..i] == ws;
    }
  }

  // ----- What that loop is -----

  function Takes(p: nat, n: nat): seq<WorkerStep> {
    seq(n, _ => Take(p))
  }

  ghost predicate AllWell(ws: seq<Weather>) {
    forall k :: 0 <= k < |ws| ==> ws[k].document.Applied? && ws[k].audited
  }

  /** u is what the loop makes of w with the next n messages of partition p. */
  ghost predicate Looped(w: Worker, u: Worker, p: nat, n: nat, ws: seq<Weather>) {
    && p < |w.claims| && w.claims[p].pos + n <= |w.claims[p].log| && |ws| == n
    && var c := w.claims[p]; var log := c.log[c.pos..c.pos + n];
       && u.index == FoldWith(w.index, log, ws)
       && u.audit == AuditAll(w.audit, log, ws)
       && |u.claims| == |w.claims| && u.claims[p].log == c.log && u.claims[p].pos == c.pos + n
       && u.claims[p].marked == MarkAfter(c.marked, c.pos, log)
  }

  lemma OneMoreTake(w: Worker, u: Worker, p: nat, n: nat, ws: seq<Weather>)
    requires n > 0 && |ws| == n && AllWell(ws) && Looped(w, u, p, n - 1, ws[..n - 1])
    requires w.claims[p].pos + n <= |w.claims[p].log|
    ensures CanTake(u, Take(p)) && Looped(w, WorkerNext(u, Take(p)), p, n, ws)
  {
    var c := w.claims[p];
    var log := c.log[c.pos..c.pos + n];
    assert log[..n - 1] == c.log[c.pos..c.pos + (n - 1)];
    assert log[n - 1] == c.log[c.pos + n - 1];
  }

  /** When every call succeeds, a pass of the loop over the next n messages is n steps of the worker machine:
      the same index, the same audit entries, the same mark. */
  lemma {:induction false} LoopIsTakes(w: Worker, p: nat, n: nat, ws: seq<Weather>)
    requires p < |w.claims| && w.claims[p].pos + n <= |w.claims[p].log| && |ws| == n && AllWell(ws)
    ensures WorkerRun(w, Takes(p, n)).Some? && Looped(w, WorkerRun(w, Takes(p, n)).value, p, n, ws)
  {
    if n > 0 {
      LoopIsTakes(w, p, n - 1, ws[..n - 1]);
      assert Takes(p, n)[..n - 1] == Takes(p, n - 1);
      OneMoreTake(w, WorkerRun(w, Takes(p, n - 1)).value, p, n, ws);
    }
  }

  /** The last event on id whose document call was carried out. */
  function LastApplied(log: seq<Message>, ws: seq<Weather>, id: int): Option<ProductEvent>
    requires |ws| == |log|
  {
    if log == [] then None
    else
      var n := |log| - 1;
      if Concerns(log[n], id) && CarriedOut(ws[n].document) then log[n].payload
      else LastApplied(log[..n], ws[..n], id)
  }

  /** With failing calls the index shows, for every id, the last event that was carried out. */
  lemma {:induction false} LastAppliedWins(index: Index, log: seq<Message>, ws: seq<Weather>, id: int)
    requires |ws| == |log|
    ensures Lookup(FoldWith(index, log, ws), id) ==
            if LastApplied(log, ws, id).Some? then Document(LastApplied(log, ws, id)) else Lookup(index, id)
  {
    if log != [] {
      var n := |log| - 1;
      LastAppliedWins(index, log[..n], ws[..n], id);
      SyncShows(FoldWith(index, log[..n], ws[..n]), log[n], id);
    }
  }

  // ----- Failed calls -----

  /** Failing calls leave the right document exactly if the last event that was carried out and the last event of
      the log have the same document. */
  lemma {:induction false} FailuresShowExactly(log: seq<Message>, ws: seq<Weather>, id: int)
    requires |ws| == |log|
    ensures Lookup(FoldWith(map[], log, ws), id) == Lookup(Fold(map[], log), id) <==>
            Document(LastApplied(log, ws, id)) == Document(LastOn(log, id))
  {
    LastAppliedWins(map[], log, ws, id);
    FoldShows(map[], log, id);
  }

  /** The event that decides the document of id was carried out. */
  predicate LastCallApplied(log: seq<Message>, ws: seq<Weather>, id: int)
    requires |ws| == |log|
  {
    log != [] &&
    var n := |log| - 1;
    if Concerns(log[n], id) then CarriedOut(ws[n].document) else LastCallApplied(log[..n], ws[..n], id)
  }

  lemma {:induction false} LastCallDecides(log: seq<Message>, ws: seq<Weather>, id: int)
    requires |ws| == |log|
    ensures LastCallApplied(log, ws, id) ==> LastOn(log, id).Some? && LastApplied(log, ws, id) == LastOn(log, id)
  {
    if log != [] {
      LastCallDecides(log[..|log| - 1], ws[..|log| - 1], id);
    }
  }

  /** Earlier failures do no harm: if the call for the last event of a product is carried out, its document is
      right, whatever happened to the calls before. */
  lemma LastCallSuffices(log: seq<Message>, ws: seq<Weather>, id: int)
    requires |ws| == |log| && LastCallApplied(log, ws, id)
    ensures Lookup(FoldWith(map[], log, ws), id) == Lookup(Fold(map[], log), id)
  {
    LastCallDecides(log, ws, id);
    FailuresShowExactly(log, ws, id);
  }

  function EventMessage(kind: Kind, p: Product): Message {
    Message(ProductEvents, Some(ProductEvent(kind, p)))
  }

  /** An update whose call fails is marked, and leaves the document of the create behind. */
  lemma {:induction false} FailedCallLeavesOldDocument(p: Product, q: Product, a: Answer)
    requires p.id == q.id && p != q && !CarriedOut(a)
    ensures var log, ws := [EventMessage(Created, p), EventMessage(Updated, q)],
                           [Weather(Applied, true), Weather(a, true)];
            && MarkAfter(0, 0, log) == |log|
            && Lookup(FoldWith(map[], log, ws), p.id) == Some(p)
            && Lookup(Fold(map[], log), p.id) == Some(q)
  {
    var log, ws := [EventMessage(Created, p), EventMessage(Updated, q)],
                   [Weather(Applied, true), Weather(a, true)];
    assert log[..1] == [EventMessage(Created, p)] && ws[..1] == [Weather(Applied, true)];
    LastAppliedWins(map[], log, ws, p.id);
    FoldShows(map[], log, p.id);
  }

  // ----- What a restart repairs -----

  lemma FoldWithAppend(index: Index, log: seq<Message>, ws: seq<Weather>, m: Message, w: Weather)
    requires |ws| == |log|
    ensures FoldWith(index, log + [m], ws + [w]) == SyncWith(FoldWith(index, log, ws), m, w.document)
  {
    assert (log + [m])[..|log|] == log && (ws + [w])[..|log|] == ws;
  }

  lemma {:induction false} FoldWithConcat(
    index: Index, log: seq<Message>, ws: seq<Weather>, more: seq<Message>, us: seq<Weather>)
    requires |ws| == |log| && |us| == |more|
    ensures FoldWith(index, log + more, ws + us) == FoldWith(FoldWith(index, log, ws), more, us)
  {
    if more == [] {
      assert log + more == log && ws + us == ws;
    } else {
      var n := |more| - 1;
      FoldWithConcat(index, log, ws, more[..n], us[..n]);
      FoldWithAppend(index, log + more[..n], ws + us[..n], more[n], us[n]);
      assert log + more == log + more[..n] + [more[n]];
      assert ws + us == ws + us[..n] + [us[n]];
    }
  }

  /** After a restart the messages from the committed offset c on are delivered again, whatever Elasticsearch
      answers this time: the document of id is the right one exactly if the last event on id that was carried out,
      in the second pass or else in the first, has the document of the last event in the log. */
  lemma {:induction false} RedeliveryShowsExactly(
    log: seq<Message>, ws: seq<Weather>, us: seq<Weather>, c: nat, id: int)
    requires |ws| == |log| && c <= |log| && |us| == |log| - c
    ensures Lookup(FoldWith(map[], log + log[c..], ws + us), id) == Lookup(Fold(map[], log), id) <==>
            var again := LastApplied(log[c..], us, id);
            Document(if again.Some? then again else LastApplied(log, ws, id)) == Document(LastOn(log, id))
  {
    FoldWithConcat(map[], log, ws, log[c..], us);
    LastAppliedWins(FoldWith(map[], log, ws), log[c..], us, id);
    LastAppliedWins(map[], log, ws, id);
    FoldShows(map[], log, id);
  }

  /** If all calls succeed in the second pass, the document is right exactly if one of the messages delivered again
      concerns id, or it was right before the restart. */
  lemma {:induction false} RestartRepairsExactly(
    log: seq<Message>, ws: seq<Weather>, us: seq<Weather>, c: nat, id: int)
    requires |ws| == |log| && c <= |log| && |us| == |log| - c && AllWell(us)
    ensures Lookup(FoldWith(map[], log + log[c..], ws + us), id) == Lookup(Fold(map[], log), id) <==>
            || LastOn(log[c..], id).Some?
            || Document(LastApplied(log, ws, id)) == Document(LastOn(log, id))
  {
    RedeliveryShowsExactly(log, ws, us, c, id);
    WellIsLast(log[c..], us, id);
    assert log[..c] + log[c..] == log;
    LastOnConcat(log[..c], log[c..], id);
  }

  lemma {:induction false} WellIsLast(log: seq<Message>, ws: seq<Weather>, id: int)
    requires |ws| == |log| && AllWell(ws)
    ensures LastApplied(log, ws, id) == LastOn(log, id)
  {
    if log != [] {
      WellIsLast(log[..|log| - 1], ws[..|log| - 1], id);
    }
  }

  lemma {:induction false} NothingPastMark(log: seq<Message>, mark: nat, id: int)
    requires mark == MarkAfter(0, 0, log)
    ensures LastOn(log[mark..], id).None?
  {
    if log != [] {
      var n := |log| - 1;
      if !Marks(log[n]) {
        NothingPastMark(log[..n], mark, id);
        assert log[mark..] == log[..n][mark..] + [log[n]];
        LastOnAppend(log[..n][mark..], log[n], id);
      }
    }
  }

  /** A failed call is marked like any other. Once the mark has been committed a restart repeats nothing that
      matters: the document of id is right afterwards exactly if it was right before. */
  lemma {:induction false} CommittedFailureStays(log: seq<Message>, ws: seq<Weather>, us: seq<Weather>, id: int)
    requires |ws| == |log| && |us| == |log| - MarkAfter(0, 0, log) && AllWell(us)
    ensures Lookup(FoldWith(map[], log + log[MarkAfter(0, 0, log)..], ws + us), id) == Lookup(Fold(map[], log), id) <==>
            Lookup(FoldWith(map[], log, ws), id) == Lookup(Fold(map[], log), id)
  {
    RestartRepairsExactly(log, ws, us, MarkAfter(0, 0, log), id);
    NothingPastMark(log, MarkAfter(0, 0, log), id);
    FailuresShowExactly(log, ws, id);
  }
}
