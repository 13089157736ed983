/** Names shared by the browser client and the API server: entity keys, entity
    values, the three operations, and the mutation items that travel between them. */
module Entities {

  datatype Option<+T> = None | Some(value: T)

  // The ten cached entity types, and the two agent types that only appear in the feed.
  datatype Kind =
    | Goal | Milestone | Task | CalendarEvent | Reminder | Record | Note | DailyReview | Tag | Settings
    | AgentRun | AgentChange

  // The agent kinds have no cached counterpart on the client and are not resolved by the server.
  predicate Cacheable(kind: Kind) {
    !kind.AgentRun? && !kind.AgentChange?
  }

  datatype Key = Key(kind: Kind, id: string)

  function Lookup<V>(m: map<Key, V>, k: Key): Option<V> {
    if k in m then Some(m[k]) else None
  }

  lemma SameMap<V>(a: map<Key, V>, b: map<Key, V>)
    requires forall k :: Lookup(a, k) == Lookup(b, k)
    ensures a == b
  {
    forall k ensures k in a <==> k in b { assert Lookup(a, k) == Lookup(b, k); }
    forall k | k in a ensures a[k] == b[k] { assert Lookup(a, k) == Lookup(b, k); }
  }

  function Flatten<T>(parts: seq<seq<T>>): seq<T> {
    if parts == [] then [] else Flatten(parts[..|parts| - 1]) + parts[|parts| - 1]
  }

  // The fields of an entity other than its version.
  type Body = string

  datatype Entity = Entity(version: nat, body: Body)

  datatype Operation = Create | Update | Delete

  type MutationId = string

  // One element of a push batch, as it goes over the network.
  datatype Item = Item(id: MutationId, sequence: nat, key: Key, operation: Operation, base: nat, payload: Body)

  // What the server answers for one item. Applied and duplicate items carry the entities of the response body.
  datatype Outcome =
    | Success(entities: seq<(Key, Entity)>)
    | VersionConflict(code: string, current: Option<Entity>)
    | Refused(code: string)

  /** Later entries win, as when puts are issued in order. */
  function PutAll(m: map<Key, Entity>, entries: seq<(Key, Entity)>): (r: map<Key, Entity>)
    ensures forall k :: k in r ==> (k in m && r[k] == m[k]) || (k, r[k]) in entries
    ensures forall k :: k in m ==> k in r
    ensures forall e :: e in entries ==> e.0 in r
    ensures forall k :: k in m && (forall e :: e in entries ==> e.0 != k) ==> r[k] == m[k]
    ensures forall k :: k in r && k !in m ==> (k, r[k]) in entries
    ensures forall k :: k in r && (exists e :: e in entries && e.0 == k) ==> (k, r[k]) in entries
  {
    if entries == [] then m
    else
      var rest := entries[..|entries| - 1];
      var last := entries[|entries| - 1];
      assert entries == rest + [last];
      PutAll(m, rest)[last.0 := last.1]
  }
}
