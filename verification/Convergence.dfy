/** What the protocol invariant gives, over every run: convergence after the last page of a pull. */
module Convergence {
  import opened Entities
  import opened OfflineClient
  import opened SyncServer
  import opened SyncMachine
  import opened SyncInvariant
  import ClientSteps
  import PullSteps

  lemma StepKeeps(w: World, e: Event, w': World)
    requires Inv(w) && Next(w, e, w')
    ensures Inv(w')
  {
    match e
    case EnqueueEdit(edit) => ClientSteps.EnqueueKeeps(w, edit, w');
    case StartPush(queue) => ClientSteps.StartPushKeeps(w, queue, w');
    case SendBatch => ClientSteps.SendBatchKeeps(w, w');
    case SettleBatch(results) => ClientSteps.SettleKeeps(w, results, w');
    case FinishPush => ClientSteps.FinishPushKeeps(w, w');
    case ReadPage => PullSteps.ReadPageKeeps(w, w');
    case ApplyReadPage(queue) => PullSteps.ApplyReadPageKeeps(w, queue, w');
    case Bootstrap => PullSteps.BootstrapKeeps(w, w');
    case ReadEntity(key) => PullSteps.ReadEntityKeeps(w, key, w');
    case ReplaceAll(order) => PullSteps.ReplaceAllKeeps(w, order, w');
    case Fail => PullSteps.FailKeeps(w, w');
    case Execute(item, outcome, writes) => ExecuteKeeps(w, item, outcome, writes, w');
    case ExpireClaim(id) => ExpireKeeps(w, id, w');
    case OthersWrite(writes) => OthersWriteKeeps(w, writes, w');
  }

  lemma {:induction false} RunsKeep(worlds: seq<World>, events: seq<Event>, i: nat)
    requires IsRun(worlds, events) && i < |worlds|
    ensures Inv(worlds[i])
  {
    if i == 0 {
      InitialInv(worlds[0]);
    } else {
      RunsKeep(worlds, events, i - 1);
      StepKeeps(worlds[i - 1], events[i - 1], worlds[i]);
    }
  }

  /** However edits, other devices' writes, snapshot reads, lost replies and repeated requests interleave: once a
      pull applies a page without a successor, every entity without a mutation record is cached exactly as the
      server held it when that page was read. The exceptions, which are then absent, are milestones and tags the last
      snapshot did not list, and entities whose pending create was dropped since although the server had them. */
  lemma CaughtUp(worlds: seq<World>, events: seq<Event>, i: nat, k: Key)
    requires IsRun(worlds, events) && i < |events|
    requires events[i].ApplyReadPage? && worlds[i].phase.PageReady? && !worlds[i].phase.page.hasMore
    requires Cacheable(k.kind) && RecordFree(worlds[i + 1].client, k)
    ensures var cached := worlds[i + 1].client.entities;
            || Lookup(cached, k) == View(worlds[i].phase.at, k)
            || (k in worlds[i + 1].missed && Leaky(k.kind) && k !in cached)
            || (k in worlds[i + 1].dropped && k !in cached)
  {
    var w, w' := worlds[i], worlds[i + 1];
    RunsKeep(worlds, events, i);
    PullSteps.ApplyReadPageKeeps(w, events[i].queue, w');
    assert ViewOK(w'.client, w.phase.at, Lost(w'), k);
    LastPageIsLast(w.phase.at, w.client.cursor.value, PAGE, k);
  }

  /** At any moment of any run, the cached copy of an entity without a mutation record is a version the server
      has really had, unless the server has deleted the entity since. */
  lemma NothingMadeUp(worlds: seq<World>, events: seq<Event>, i: nat, k: Key)
    requires IsRun(worlds, events) && i < |worlds|
    requires RecordFree(worlds[i].client, k) && k in worlds[i].client.entities
    ensures k in worlds[i].server.rows
    ensures worlds[i].server.rows[k].deleted || Historical(worlds[i].server, k, worlds[i].client.entities[k])
  {
    RunsKeep(worlds, events, i);
    assert Faithful(worlds[i].server, k, Lookup(worlds[i].client.entities, k));
  }
}
