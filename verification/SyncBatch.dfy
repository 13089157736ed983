/** The server's loop over one pushed batch: what it refuses for order and shape, and what it hands to the
    services. A batch drawn from the client's queue passes untouched. */
module SyncBatch {
  import opened Entities
  import opened OfflineClient
  import opened SyncMachine
  import opened SyncInvariant
  import opened Queue
  import Convergence

  const MAX_ITEMS: nat := 100

  // After a version conflict the handler reads the current entity.
  datatype CurrentRead = Found(entity: Entity) | Gone | Unreadable

  datatype ServiceAnswer =
    | Done(entities: seq<(Key, Entity)>)
    | Clash(code: string, current: CurrentRead)
    | Failed(code: string)

  // One element of the request body; `wellTyped` says whether its payload is a JSON object.
  datatype Wire = Wire(item: Item, wellTyped: bool)

  // A missing id is read as the nil UUID.
  const NIL: string := ""

  predicate WellFormed(w: Wire) {
    w.item.id != NIL && w.item.key.id != NIL && Shaped(w.item.operation, w.item.base) && w.wellTyped
  }

  predicate Validates(w: Wire, previous: nat) {
    w.item.sequence > previous && WellFormed(w)
  }

  /** The sequence of the last item that validated, 0 if none did. */
  function Previous(items: seq<Wire>): nat {
    if items == [] then 0
    else
      var before, last := Previous(items[..|items| - 1]), items[|items| - 1];
      if Validates(last, before) then last.item.sequence else before
  }

  predicate Accepts(items: seq<Wire>, i: nat)
    requires i < |items|
  {
    Validates(items[i], Previous(items[..i]))
  }

  /** The items that validate, in order. */
  function Handed(items: seq<Wire>): (r: seq<Wire>)
    ensures |r| <= |items|
  {
    if items == [] then []
    else
      var init, last := items[..|items| - 1], items[|items| - 1];
      if Validates(last, Previous(init)) then Handed(init) + [last] else Handed(init)
  }

  function OutcomeOf(answer: ServiceAnswer): Outcome {
    match answer
    case Done(entities) => Success(entities)
    case Clash(code, Found(e)) => VersionConflict(code, Some(e))
    case Clash(_, Gone) => VersionConflict("ENTITY_DELETED", None)
    case Clash(_, Unreadable) => Refused("INTERNAL_ERROR")
    case Failed(code) => Refused(code)
  }

  /** One result per item, in order: a refusal, or what the services answered to it. */
  function Results(items: seq<Wire>, answers: seq<ServiceAnswer>): (r: seq<Outcome>)
    requires |items| <= |answers|
    ensures |r| == |items|
  {
    if items == [] then []
    else
      var init, last := items[..|items| - 1], items[|items| - 1];
      Results(init, answers)
      + [if Validates(last, Previous(init)) then OutcomeOf(answers[|Handed(init)|]) else Refused("VALIDATION_FAILED")]
  }

  /** The i-th result is the answer to the i-th item: a success exactly if the services did it, with what they show; a
      conflict exactly if the current entity could be read or is gone; and a refusal in all other cases, by the services
      or because the item was not handed on. */
  lemma {:induction false} ResultsSay(items: seq<Wire>, answers: seq<ServiceAnswer>, i: nat)
    requires i < |items| <= |answers|
    ensures var r := Results(items, answers)[i];
            if Accepts(items, i) then
              var a := answers[|Handed(items[..i])|];
              && (forall es :: r == Success(es) <==> a == Done(es))
              && (forall code, e :: r == VersionConflict(code, Some(e)) <==> a == Clash(code, Found(e)))
              && (forall code :: r == VersionConflict(code, None) <==> a.Clash? && a.current == Gone && code == "ENTITY_DELETED")
              && (forall code :: r == Refused(code) <==>
                    a == Failed(code) || (a.Clash? && a.current == Unreadable && code == "INTERNAL_ERROR"))
            else r == Refused("VALIDATION_FAILED")
  {
    var init := items[..|items| - 1];
    if i < |init| {
      ResultsSay(init, answers, i);
      assert init[..i] == items[..i] && init[i] == items[i];
      assert Accepts(init, i) <==> Accepts(items, i);
    }
  }

  /** `answers` are the services' answers to the items handed to them, in order. */
  method SyncMutations(items: seq<Wire>, answers: seq<ServiceAnswer>)
    returns (results: Option<seq<Outcome>>, handed: seq<Wire>)
    requires |items| <= |answers|
    ensures results == if 1 <= |items| <= 100 then Some(Results(items, answers)) else None
    ensures handed == if results.Some? then Handed(items) else []
  {
    handed := [];
    if |items| < 1 || |items| > MAX_ITEMS {
      return None, handed;
    }
    var previous: nat, answered: seq<Outcome> := 0, [];
    for i := 0 to |items|
      invariant previous == Previous(items[..i])
      invariant handed == Handed(items[..i])
      invariant answered == Results(items[..i], answers)
    {
      var item, wellTyped := items[i].item, items[i].wellTyped;
      assert items[..i + 1][..i] == items[..i];
      if item.id == NIL || item.key.id == NIL || item.sequence <= previous
         || (item.operation == Create && item.base != 0) || (item.operation != Create && item.base < 1) || !wellTyped {
        answered := answered + [Refused("VALIDATION_FAILED")];
      } else {
        previous := item.sequence;
        answered := answered + [OutcomeOf(answers[|handed|])];
        handed := handed + [items[i]];
      }
    }
    assert items[..|items|] == items;
    results := Some(answered);
  }

  ghost predicate InOrder(items: seq<Wire>) {
    && (forall i :: 0 <= i < |items| ==> items[i].item.sequence >= 1)
    && (forall i, j :: 0 <= i < j < |items| ==> items[i].item.sequence < items[j].item.sequence)
  }

  ghost predicate AllWellFormed(items: seq<Wire>) {
    forall i :: 0 <= i < |items| ==> WellFormed(items[i])
  }

  /** What reaches the services is in strictly increasing sequence order and well shaped. */
  lemma {:induction false} HandedInOrder(items: seq<Wire>)
    ensures InOrder(Handed(items)) && AllWellFormed(Handed(items))
    ensures Previous(items) == (if Handed(items) == [] then 0 else Handed(items)[|Handed(items)| - 1].item.sequence)
  {
    if items != [] {
      HandedInOrder(items[..|items| - 1]);
    }
  }

  /** An item is accepted exactly when it is well shaped and comes after every item accepted before it: an item
      that is refused does not hold back the ones behind it. */
  lemma {:induction false} AcceptedExactly(items: seq<Wire>, i: nat)
    requires i < |items|
    ensures Accepts(items, i) <==>
              && items[i].item.sequence >= 1 && items[i].item.id != "" && items[i].item.key.id != "" && items[i].wellTyped
              && (if items[i].item.operation == Create then items[i].item.base == 0 else items[i].item.base >= 1)
              && forall n :: 0 <= n < |Handed(items[..i])| ==> Handed(items[..i])[n].item.sequence < items[i].item.sequence
  {
    HandedInOrder(items[..i]);
    var handed := Handed(items[..i]);
    if handed != [] {
      assert forall n :: 0 <= n < |handed| - 1 ==> handed[n].item.sequence < handed[|handed| - 1].item.sequence;
    }
  }

  lemma {:induction false} OrderedPasses(items: seq<Wire>, n: nat)
    requires InOrder(items) && AllWellFormed(items) && n <= |items|
    ensures Handed(items[..n]) == items[..n]
    ensures Previous(items[..n]) == (if n == 0 then 0 else items[n - 1].item.sequence)
  {
    if n > 0 {
      OrderedPasses(items, n - 1);
      assert items[..n][..n - 1] == items[..n - 1];
    }
  }

  /** Nothing is refused exactly when all items are well shaped and in strictly increasing order. */
  lemma NothingRefusedExactly(items: seq<Wire>)
    ensures Handed(items) == items <==> InOrder(items) && AllWellFormed(items)
  {
    HandedInOrder(items);
    if InOrder(items) && AllWellFormed(items) {
      OrderedPasses(items, |items|);
      assert items[..|items|] == items;
    }
  }

  /** The client's payloads are objects by their type. */
  function Outgoing(batch: seq<Mutation>): (r: seq<Wire>)
    ensures |r| == |batch|
    ensures forall i :: 0 <= i < |r| ==> r[i] == Wire(Outbound(batch[i]), true)
  {
    if batch == [] then [] else Outgoing(batch[..|batch| - 1]) + [Wire(Outbound(batch[|batch| - 1]), true)]
  }

  /** The ids that the UI draws and the entities it edits are never nil. */
  ghost predicate NamedEdits(events: seq<Event>) {
    forall i :: 0 <= i < |events| && events[i].EnqueueEdit? ==> events[i].edit.id != NIL && events[i].edit.key.id != NIL
  }

  ghost predicate Named(w: World) {
    forall id :: id in w.used ==> id != NIL && w.used[id].id != NIL
  }

  lemma NamedStep(w: World, e: Event, w': World)
    requires Named(w) && Next(w, e, w') && (e.EnqueueEdit? ==> e.edit.id != NIL && e.edit.key.id != NIL)
    ensures Named(w')
  {
  }

  lemma {:induction false} NamedInvariant(worlds: seq<World>, events: seq<Event>, i: nat)
    requires IsRun(worlds, events) && NamedEdits(events) && i < |worlds|
    ensures Named(worlds[i])
  {
    if i > 0 {
      NamedInvariant(worlds, events, i - 1);
      NamedStep(worlds[i - 1], events[i - 1], worlds[i]);
    }
  }

  lemma BatchInOrder(w: World)
    requires QueueOK(w) && CapturedShaped(w.phase) && w.phase.Awaiting? && IdsUsed(w) && Named(w)
    ensures InOrder(Outgoing(w.phase.batch)) && AllWellFormed(Outgoing(w.phase.batch))
  {
    var batch, items := w.phase.batch, Outgoing(w.phase.batch);
    forall n | 0 <= n < |items| ensures items[n].item.sequence >= 1 && WellFormed(items[n]) {
      assert Captured(w.phase, batch[n]);
      assert Ticket(w, batch[n]) && TicketOK(w, batch[n]);
      assert batch[n].id in w.used && w.used[batch[n].id] == batch[n].key;
    }
  }

  /** Over any run of well-shaped edits, no item of any batch is refused for number, order or shape. */
  lemma BatchesPass(worlds: seq<World>, events: seq<Event>, i: nat)
    requires IsRun(worlds, events) && ShapedEdits(worlds, events) && NamedEdits(events)
    requires i < |events| && events[i].SendBatch?
    ensures worlds[i + 1].phase.Awaiting?
    ensures var items := Outgoing(worlds[i + 1].phase.batch);
            1 <= |items| <= MAX_ITEMS && Handed(items) == items
  {
    assert Next(worlds[i], SendBatch, worlds[i + 1]);
    var batch := worlds[i + 1].phase.batch;
    QueueInvariant(worlds, events, i + 1);
    ShapeInvariant(worlds, events, i + 1);
    NamedInvariant(worlds, events, i + 1);
    Convergence.RunsKeep(worlds, events, i + 1);
    BatchInOrder(worlds[i + 1]);
    NothingRefusedExactly(Outgoing(batch));
  }
}
