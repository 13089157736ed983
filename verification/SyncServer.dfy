/** The server's side of synchronisation as values: versioned rows, the append-only change feed, and the
    pages read from it. A row keeps every body it ever had, so an id and a version determine the data. */
module SyncServer {
  import opened Entities
  import opened OfflineClient

  // Version v of the entity is log[v - 1]; the soft delete takes one more version.
  datatype Row = Row(log: seq<Body>, deleted: bool)

  datatype FeedEntry = FeedEntry(sequence: nat, key: Key, operation: Operation, version: nat)

  datatype Server = Server(rows: map<Key, Row>, feed: seq<FeedEntry>)

  datatype Write = Put(key: Key, body: Body) | Remove(key: Key)

  function Version(row: Row): nat {
    |row.log| + if row.deleted then 1 else 0
  }

  function View(s: Server, k: Key): Option<Entity> {
    if k in s.rows && !s.rows[k].deleted && |s.rows[k].log| > 0
    then Some(Entity(|s.rows[k].log|, s.rows[k].log[|s.rows[k].log| - 1]))
    else None
  }

  /** e is some version that the entity has had. */
  predicate Historical(s: Server, k: Key, e: Entity) {
    k in s.rows && 1 <= e.version <= |s.rows[k].log| && s.rows[k].log[e.version - 1] == e.body
  }

  function LastSequence(s: Server): nat {
    if s.feed == [] then 0 else s.feed[|s.feed| - 1].sequence
  }

  ghost predicate HasAfter(s: Server, k: Key, cursor: nat) {
    exists i :: 0 <= i < |s.feed| && s.feed[i].key == k && s.feed[i].sequence > cursor
  }

  // ---------- writing ----------

  predicate CanWrite(s: Server, w: Write) {
    if w.Put? then w.key !in s.rows || !s.rows[w.key].deleted
    else w.key in s.rows && !s.rows[w.key].deleted
  }

  function WrittenRow(s: Server, w: Write): Row {
    var log := if w.key in s.rows then s.rows[w.key].log else [];
    match w
    case Put(_, body) => Row(log + [body], false)
    case Remove(_) => Row(log, true)
  }

  /** A row write, its version bump and its feed entry, in one. */
  function Commit(s: Server, w: Write, sequence: nat): Server {
    var row := WrittenRow(s, w);
    var operation := if w.Remove? then Delete else if w.key in s.rows then Update else Create;
    Server(s.rows[w.key := row], s.feed + [FeedEntry(sequence, w.key, operation, Version(row))])
  }

  predicate CanCommitAll(s: Server, writes: seq<(Write, nat)>) {
    writes == [] ||
    (var init, last := writes[..|writes| - 1], writes[|writes| - 1];
     && CanCommitAll(s, init)
     && CanWrite(CommitAll(s, init), last.0)
     && last.1 > LastSequence(CommitAll(s, init)))
  }

  function CommitAll(s: Server, writes: seq<(Write, nat)>): Server {
    if writes == [] then s
    else Commit(CommitAll(s, writes[..|writes| - 1]), writes[|writes| - 1].0, writes[|writes| - 1].1)
  }

  // ---------- invariant and growth ----------

  ghost predicate Ordered(feed: seq<FeedEntry>) {
    forall i, j :: 0 <= i < j < |feed| ==> feed[i].sequence < feed[j].sequence
  }

  ghost predicate Grounded(rows: map<Key, Row>, entry: FeedEntry) {
    && entry.key in rows
    && 1 <= entry.version <= Version(rows[entry.key])
    && (entry.operation == Delete ==> rows[entry.key].deleted)
  }

  // No later entry of the feed is about the same entity.
  ghost predicate Latest(feed: seq<FeedEntry>, i: nat)
    requires i < |feed|
  {
    forall j :: i < j < |feed| ==> feed[j].key != feed[i].key
  }

  ghost predicate TipsMatch(s: Server) {
    forall i {:trigger Latest(s.feed, i)} :: 0 <= i < |s.feed| && Latest(s.feed, i) ==>
      s.feed[i].key in s.rows && s.feed[i].version == Version(s.rows[s.feed[i].key])
  }

  ghost predicate Consistent(s: Server) {
    && Ordered(s.feed)
    && (forall k :: k in s.rows ==> |s.rows[k].log| > 0)
    && (forall i :: 0 <= i < |s.feed| ==> Grounded(s.rows, s.feed[i]))
    && TipsMatch(s)
  }

  ghost predicate RowGrows(a: Row, b: Row) {
    && a.log <= b.log
    && (a.deleted ==> a == b)
  }

  /** s' is s after some further commits. */
  ghost predicate Extends(s: Server, s': Server) {
    && s.feed <= s'.feed
    && (forall k :: k in s.rows ==> k in s'.rows && RowGrows(s.rows[k], s'.rows[k]))
    && (forall i :: |s.feed| <= i < |s'.feed| ==> s'.feed[i].sequence > LastSequence(s))
    && (forall k :: k in s'.rows && !HasAfter(s', k, LastSequence(s)) ==> k in s.rows && s.rows[k] == s'.rows[k])
  }

  lemma ExtendsRefl(s: Server)
    requires Consistent(s)
    ensures Extends(s, s)
  {
  }

  lemma CommitKeepsTips(s: Server, w: Write, sequence: nat)
    requires TipsMatch(s)
    ensures TipsMatch(Commit(s, w, sequence))
  {
    var s' := Commit(s, w, sequence);
    var n := |s.feed|;
    forall i | 0 <= i < n && Latest(s'.feed, i)
      ensures s'.feed[i].key in s'.rows && s'.feed[i].version == Version(s'.rows[s'.feed[i].key])
    {
      assert s'.feed[n].key == w.key;
      assert s'.feed[i] == s.feed[i];
      forall j | i < j < n ensures s.feed[j].key != s.feed[i].key { assert s'.feed[j] == s.feed[j]; }
      assert Latest(s.feed, i);
    }
  }

  lemma CommitConsistent(s: Server, w: Write, sequence: nat)
    requires Consistent(s) && CanWrite(s, w) && sequence > LastSequence(s)
    ensures Consistent(Commit(s, w, sequence))
  {
    CommitKeepsTips(s, w, sequence);
    var s' := Commit(s, w, sequence);
    forall i | 0 <= i < |s'.feed| ensures Grounded(s'.rows, s'.feed[i]) {
      if i < |s.feed| { assert Grounded(s.rows, s.feed[i]); }
    }
  }

  lemma CommitExtends(s: Server, w: Write, sequence: nat)
    requires CanWrite(s, w) && sequence > LastSequence(s)
    ensures Extends(s, Commit(s, w, sequence))
  {
    var s' := Commit(s, w, sequence);
    assert s'.feed[|s.feed|].key == w.key && s'.feed[|s.feed|].sequence == sequence;
    assert HasAfter(s', w.key, LastSequence(s));
  }

  lemma LastSequenceGrows(s: Server, s': Server)
    requires Ordered(s'.feed) && s.feed <= s'.feed
    ensures LastSequence(s) <= LastSequence(s')
  {
    if s.feed != [] {
      assert s'.feed[|s.feed| - 1] == s.feed[|s.feed| - 1];
    }
  }

  lemma HasAfterGrows(s: Server, s': Server, k: Key, cursor: nat)
    requires s.feed <= s'.feed && HasAfter(s, k, cursor)
    ensures HasAfter(s', k, cursor)
  {
    var i :| 0 <= i < |s.feed| && s.feed[i].key == k && s.feed[i].sequence > cursor;
    assert s'.feed[i] == s.feed[i];
  }

  lemma HasAfterEarlier(s: Server, k: Key, cursor: nat, earlier: nat)
    requires earlier <= cursor && HasAfter(s, k, cursor)
    ensures HasAfter(s, k, earlier)
  {
    var i :| 0 <= i < |s.feed| && s.feed[i].key == k && s.feed[i].sequence > cursor;
    assert s.feed[i].sequence > earlier;
  }

  lemma ExtendsTransitive(a: Server, b: Server, c: Server)
    requires Ordered(b.feed) && Ordered(c.feed)
    requires Extends(a, b) && Extends(b, c)
    ensures Extends(a, c)
  {
    LastSequenceGrows(a, b);
    forall k | k in c.rows && !HasAfter(c, k, LastSequence(a))
      ensures k in a.rows && a.rows[k] == c.rows[k]
    {
      if HasAfter(c, k, LastSequence(b)) { HasAfterEarlier(c, k, LastSequence(b), LastSequence(a)); }
      if HasAfter(b, k, LastSequence(a)) { HasAfterGrows(b, c, k, LastSequence(a)); }
    }
    forall i | |a.feed| <= i < |c.feed| ensures c.feed[i].sequence > LastSequence(a) {
      if i < |b.feed| { assert c.feed[i] == b.feed[i]; }
    }
  }

  lemma {:induction false} CommitAllGrows(s: Server, writes: seq<(Write, nat)>)
    requires Consistent(s) && CanCommitAll(s, writes)
    ensures Consistent(CommitAll(s, writes))
    ensures Extends(s, CommitAll(s, writes))
  {
    if writes == [] {
      ExtendsRefl(s);
    } else {
      var init, last := writes[..|writes| - 1], writes[|writes| - 1];
      CommitAllGrows(s, init);
      CommitConsistent(CommitAll(s, init), last.0, last.1);
      CommitExtends(CommitAll(s, init), last.0, last.1);
      ExtendsTransitive(s, CommitAll(s, init), CommitAll(s, writes));
    }
  }

  /** Growth keeps history and keeps deletes. */
  lemma HistoryGrows(s: Server, s': Server, k: Key)
    requires Extends(s, s') && k in s.rows
    ensures k in s'.rows && (s.rows[k].deleted ==> s'.rows[k].deleted)
    ensures forall e :: Historical(s, k, e) ==> Historical(s', k, e)
  {
    assert RowGrows(s.rows[k], s'.rows[k]);
  }

  /** A view changes only together with a new feed entry. */
  lemma ViewStable(s: Server, s': Server, k: Key, cursor: nat)
    requires Extends(s, s') && cursor <= LastSequence(s) && !HasAfter(s', k, cursor)
    ensures k in s'.rows <==> k in s.rows
    ensures k in s.rows ==> s.rows[k] == s'.rows[k]
    ensures View(s', k) == View(s, k)
  {
    if HasAfter(s', k, LastSequence(s)) { HasAfterEarlier(s', k, LastSequence(s), cursor); }
  }

  // ---------- reading pages ----------

  /** Resolution at reading time: the current representation, or a delete when the entity is gone or not resolvable. */
  function Resolve(s: Server, entry: FeedEntry): Change {
    if entry.operation == Delete || !Cacheable(entry.key.kind) || View(s, entry.key).None?
    then Removal(entry.sequence, entry.key, entry.version)
    else Upsert(entry.sequence, entry.key, entry.version, View(s, entry.key).value)
  }

  /** Index of the first feed entry after the cursor. */
  function FirstAfter(feed: seq<FeedEntry>, cursor: nat): (r: nat)
    ensures r <= |feed|
  {
    if feed == [] then 0
    else if feed[0].sequence > cursor then 0
    else 1 + FirstAfter(feed[1..], cursor)
  }

  function PageEnd(s: Server, cursor: nat, size: nat): (r: nat)
    ensures FirstAfter(s.feed, cursor) <= r <= |s.feed|
  {
    var start := FirstAfter(s.feed, cursor);
    if start + size <= |s.feed| then start + size else |s.feed|
  }

  function ResolveAll(s: Server, entries: seq<FeedEntry>): (r: seq<Change>)
    ensures |r| == |entries|
    ensures forall i :: 0 <= i < |r| ==> r[i] == Resolve(s, entries[i])
  {
    if entries == [] then []
    else ResolveAll(s, entries[..|entries| - 1]) + [Resolve(s, entries[|entries| - 1])]
  }

  function PageOf(s: Server, cursor: nat, size: nat): Page {
    var start, end := FirstAfter(s.feed, cursor), PageEnd(s, cursor, size);
    Page(ResolveAll(s, s.feed[start..end]),
         if start < end then s.feed[end - 1].sequence else cursor,
         end < |s.feed|)
  }

  lemma {:induction false} FirstAfterSplits(feed: seq<FeedEntry>, cursor: nat)
    requires forall i, j :: 0 <= i < j < |feed| ==> feed[i].sequence < feed[j].sequence
    ensures forall i :: 0 <= i < |feed| ==> (feed[i].sequence > cursor <==> i >= FirstAfter(feed, cursor))
  {
    if feed != [] && feed[0].sequence <= cursor {
      FirstAfterSplits(feed[1..], cursor);
      forall i | 0 <= i < |feed|
        ensures feed[i].sequence > cursor <==> i >= FirstAfter(feed, cursor)
      {
        if i > 0 { assert feed[1..][i - 1] == feed[i]; }
      }
    } else if feed != [] {
      assert forall i :: 0 < i < |feed| ==> feed[0].sequence < feed[i].sequence;
    }
  }

  /** The cursors of a page. */
  lemma PageBounds(s: Server, cursor: nat, size: nat)
    requires Ordered(s.feed) && size > 0
    ensures var p := PageOf(s, cursor, size);
            && cursor <= p.next
            && (p.changes != [] ==> p.next > cursor)
            && (cursor <= LastSequence(s) ==> p.next <= LastSequence(s))
            && (p.hasMore ==> p.changes != [])
  {
    FirstAfterSplits(s.feed, cursor);
  }

  /** Every entry between the two cursors of a page is in it, resolved. */
  lemma PageHasAll(s: Server, cursor: nat, size: nat, i: nat)
    requires Ordered(s.feed) && size > 0
    requires i < |s.feed| && cursor < s.feed[i].sequence <= PageOf(s, cursor, size).next
    ensures FirstAfter(s.feed, cursor) <= i < PageEnd(s, cursor, size)
    ensures PageOf(s, cursor, size).changes[i - FirstAfter(s.feed, cursor)] == Resolve(s, s.feed[i])
  {
    FirstAfterSplits(s.feed, cursor);
    var start, end := FirstAfter(s.feed, cursor), PageEnd(s, cursor, size);
    assert s.feed[start..end][i - start] == s.feed[i];
  }

  /** The n-th change of a page is the n-th entry after the cursor, resolved. */
  lemma PageOnly(s: Server, cursor: nat, size: nat, n: nat)
    requires Ordered(s.feed) && size > 0
    requires n < |PageOf(s, cursor, size).changes|
    ensures var i := FirstAfter(s.feed, cursor) + n;
            && i < |s.feed|
            && PageOf(s, cursor, size).changes[n] == Resolve(s, s.feed[i])
            && cursor < s.feed[i].sequence <= PageOf(s, cursor, size).next
  {
    FirstAfterSplits(s.feed, cursor);
    var start, end := FirstAfter(s.feed, cursor), PageEnd(s, cursor, size);
    assert s.feed[start..end][n] == s.feed[start + n];
  }

  lemma LastPageIsLast(s: Server, cursor: nat, size: nat, k: Key)
    requires Ordered(s.feed) && size > 0 && !PageOf(s, cursor, size).hasMore
    ensures !HasAfter(s, k, PageOf(s, cursor, size).next)
  {
    FirstAfterSplits(s.feed, cursor);
  }
}
