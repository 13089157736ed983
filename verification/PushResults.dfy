/** What settling a push batch does to the user's work: a mutation leaves the queue only when the server has it, and
    otherwise stays with everything the user entered. */
module PushResults {
  import opened Entities
  import opened OfflineClient
  import PullPages

  /** How one answer is settled in the queue. */
  ghost predicate SettledAs(c': Client, m: Mutation, outcome: Outcome) {
    match outcome
    case Success(_) => m.id !in c'.mutations
    case VersionConflict(code, current) =>
      && m.id in c'.mutations && PullPages.KeepsWork(m, c'.mutations[m.id])
      && c'.mutations[m.id].status == Conflict && c'.mutations[m.id].errorCode == Some(code)
      && c'.mutations[m.id].serverData == current && c'.mutations[m.id].attempts == m.attempts + 1
      && c'.mutations[m.id].localCopy == Some(if m.optimistic.Some? then OfEntity(m.optimistic.value) else OfPayload(m.payload))
    case Refused(code) =>
      && m.id in c'.mutations && PullPages.KeepsWork(m, c'.mutations[m.id])
      && c'.mutations[m.id].status == Rejected && c'.mutations[m.id].errorCode == Some(code)
      && c'.mutations[m.id].localCopy == m.localCopy && c'.mutations[m.id].serverData == None && c'.mutations[m.id].attempts == m.attempts + 1
  }

  lemma {:induction false} OtherRecordsUntouched(c: Client, batch: seq<Mutation>, results: map<MutationId, Outcome>, id: MutationId)
    requires forall i :: 0 <= i < |batch| && batch[i].id in results ==> batch[i].id != id
    ensures id in Settle(c, batch, results).mutations <==> id in c.mutations
    ensures id in c.mutations ==> Settle(c, batch, results).mutations[id] == c.mutations[id]
  {
    if batch != [] {
      OtherRecordsUntouched(c, batch[..|batch| - 1], results, id);
    }
  }

  /** Every answered mutation of a batch is settled as its answer says; records without an answer stay as they are. */
  lemma {:induction false} BatchSettled(c: Client, batch: seq<Mutation>, results: map<MutationId, Outcome>, i: nat)
    requires DistinctIds(batch) && i < |batch|
    ensures var m, c' := batch[i], Settle(c, batch, results);
            if m.id in results then SettledAs(c', m, results[m.id])
            else (m.id in c'.mutations <==> m.id in c.mutations) && (m.id in c.mutations ==> c'.mutations[m.id] == c.mutations[m.id])
  {
    var m, last := batch[i], batch[|batch| - 1];
    if m.id !in results {
      OtherRecordsUntouched(c, batch, results, m.id);
    } else if i < |batch| - 1 {
      assert batch[..|batch| - 1][i] == m;
      BatchSettled(c, batch[..|batch| - 1], results, i);
      assert last.id != m.id;
    }
  }

  /** The cache takes from the answers what they show, and changes nowhere else. */
  lemma {:induction false} CacheTakesAnswers(c: Client, batch: seq<Mutation>, results: map<MutationId, Outcome>, k: Key)
    ensures var c' := Settle(c, batch, results);
            || Lookup(c'.entities, k) == Lookup(c.entities, k)
            || exists i :: 0 <= i < |batch| && batch[i].id in results && batch[i].operation != Delete
                           && results[batch[i].id].Success? && k in c'.entities && (k, c'.entities[k]) in results[batch[i].id].entities
  {
    if batch != [] {
      var n := |batch| - 1;
      CacheTakesAnswers(c, batch[..n], results, k);
      var before, after, m := Settle(c, batch[..n], results), Settle(c, batch, results), batch[n];
      if Lookup(after.entities, k) == Lookup(before.entities, k) {
        if Lookup(before.entities, k) != Lookup(c.entities, k) {
          var i :| 0 <= i < n && batch[..n][i].id in results && batch[..n][i].operation != Delete
                   && results[batch[..n][i].id].Success? && k in before.entities && (k, before.entities[k]) in results[batch[..n][i].id].entities;
          assert batch[i] == batch[..n][i];
          assert after.entities[k] == before.entities[k];
        }
      } else {
        assert m.id in results && results[m.id].Success? && m.operation != Delete;
        assert (k, after.entities[k]) in results[m.id].entities;
      }
    }
  }
}
