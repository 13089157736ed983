/** Even after its claim has expired, a pushed mutation does not take effect twice: versions only grow, deletes are
    final and ids are not reused. */
module OnceByVersion {
  import opened Entities
  import opened SyncServer
  import opened SyncMachine
  import opened SyncInvariant
  import Convergence

  /** The step executes the item and commits its effect, rather than answering from the idempotency table. */
  ghost predicate TakesEffect(w: World, e: Event, item: Item) {
    e.Execute? && e.item == item && e.outcome.Success? && item.id !in w.claims
  }

  lemma ServerGrows(w: World, e: Event, w': World)
    requires Consistent(w.server) && Next(w, e, w')
    ensures Extends(w.server, w'.server)
  {
    ExtendsRefl(w.server);
    match e
    case Execute(item, outcome, writes) =>
      if item.id !in w.claims && outcome.Success? { CommitAllGrows(w.server, writes); }
    case OthersWrite(writes) => CommitAllGrows(w.server, writes);
    case _ =>
  }

  /** A clash caused by a row that has moved past the item's base is for ever. */
  ghost predicate Spent(s: Server, item: Item) {
    && item.key in s.rows
    && (item.operation != Create ==> s.rows[item.key].deleted || Version(s.rows[item.key]) > item.base)
  }

  lemma SpentClashes(s: Server, item: Item)
    requires Spent(s, item)
    ensures Clashes(s, item)
  {
  }

  lemma SpentForever(s: Server, s': Server, item: Item)
    requires Extends(s, s') && Spent(s, item)
    ensures Spent(s', item)
  {
    assert RowGrows(s.rows[item.key], s'.rows[item.key]);
  }

  lemma EffectSpends(w: World, e: Event, w': World, item: Item)
    requires Consistent(w.server) && Next(w, e, w') && TakesEffect(w, e, item)
    ensures Spent(w'.server, item)
  {
    FirstWriteStays(w.server, e.writes, item.key);
  }

  lemma RunGrows(worlds: seq<World>, events: seq<Event>, n: nat)
    requires IsRun(worlds, events) && n < |events|
    ensures Consistent(worlds[n].server) && Extends(worlds[n].server, worlds[n + 1].server)
  {
    Convergence.RunsKeep(worlds, events, n);
    ServerGrows(worlds[n], events[n], worlds[n + 1]);
  }

  lemma EffectSpendsAt(worlds: seq<World>, events: seq<Event>, i: nat, item: Item)
    requires IsRun(worlds, events) && i < |events| && TakesEffect(worlds[i], events[i], item)
    ensures Spent(worlds[i + 1].server, item)
  {
    RunGrows(worlds, events, i);
    EffectSpends(worlds[i], events[i], worlds[i + 1], item);
  }

  lemma SpentStays(worlds: seq<World>, events: seq<Event>, n: nat, item: Item)
    requires IsRun(worlds, events) && n < |events| && Spent(worlds[n].server, item)
    ensures Spent(worlds[n + 1].server, item)
  {
    RunGrows(worlds, events, n);
    SpentForever(worlds[n].server, worlds[n + 1].server, item);
  }

  lemma {:induction false} SpentAfter(worlds: seq<World>, events: seq<Event>, i: nat, n: nat, item: Item)
    requires IsRun(worlds, events) && i < n < |worlds| && TakesEffect(worlds[i], events[i], item)
    ensures Spent(worlds[n].server, item)
  {
    if n == i + 1 {
      EffectSpendsAt(worlds, events, i, item);
    } else {
      SpentAfter(worlds, events, i, n - 1, item);
      SpentStays(worlds, events, n - 1, item);
    }
  }

  lemma EffectDoesNotClash(w: World, e: Event, w': World, item: Item)
    requires Next(w, e, w') && TakesEffect(w, e, item)
    ensures !Clashes(w.server, item)
  {
  }

  lemma SpentTakesNoEffect(w: World, e: Event, w': World, item: Item)
    requires Next(w, e, w') && Spent(w.server, item)
    ensures !TakesEffect(w, e, item)
  {
    SpentClashes(w.server, item);
    if TakesEffect(w, e, item) {
      EffectDoesNotClash(w, e, w', item);
      assert false;
    }
  }

  /** Over every run, with claims expiring at any time and the network repeating at will, an item that has taken
      effect never does so again: a later execution is answered from the table, or is a version conflict. */
  lemma ItemTakesEffectOnce(worlds: seq<World>, events: seq<Event>, i: nat, j: nat, item: Item)
    requires IsRun(worlds, events) && i < j < |events| && TakesEffect(worlds[i], events[i], item)
    ensures Clashes(worlds[j].server, item) && !TakesEffect(worlds[j], events[j], item)
  {
    SpentAfter(worlds, events, i, j, item);
    SpentClashes(worlds[j].server, item);
    SpentTakesNoEffect(worlds[j], events[j], worlds[j + 1], item);
  }

  /** Of all updates and deletes of one entity on one base version, at most one takes effect, whatever their ids
      and payloads. */
  lemma OneEffectPerBase(worlds: seq<World>, events: seq<Event>, i: nat, j: nat, a: Item, b: Item)
    requires IsRun(worlds, events) && i < j < |events| && TakesEffect(worlds[i], events[i], a)
    requires a.key == b.key && a.operation != Create && b.operation != Create && b.base <= a.base
    ensures !TakesEffect(worlds[j], events[j], b)
  {
    SpentAfter(worlds, events, i, j, a);
    assert Spent(worlds[j].server, b);
    SpentTakesNoEffect(worlds[j], events[j], worlds[j + 1], b);
  }
}
