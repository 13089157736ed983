/** The change feed as the server reads it page by page and the client pulls it: every later entry, in order, once
    each, whatever the page size and however the feed grows in between. */
module FeedPaging {
  import opened Entities
  import opened OfflineClient
  import opened SyncServer

  const MAX_PAGE: nat := 500

  // A listed feed row; resolution fills in the data or turns the operation into a delete.
  datatype Listed = Listed(sequence: nat, key: Key, operation: Operation, version: nat, data: Option<Entity>)

  function Unresolved(entry: FeedEntry): Listed {
    Listed(entry.sequence, entry.key, entry.operation, entry.version, None)
  }

  function Resolved(s: Server, entry: FeedEntry): (r: Listed)
    ensures r.operation != Delete ==> r.data.Some?
  {
    var row := Unresolved(entry);
    if entry.operation == Delete then row
    else if !Cacheable(entry.key.kind) || View(s, entry.key).None? then row.(operation := Delete)
    else row.(data := View(s, entry.key))
  }

  function AsChange(row: Listed): Change
    requires row.operation != Delete ==> row.data.Some?
  {
    if row.operation == Delete then Removal(row.sequence, row.key, row.version)
    else Upsert(row.sequence, row.key, row.version, row.data.value)
  }

  lemma ResolvedIs(s: Server, entry: FeedEntry)
    ensures AsChange(Resolved(s, entry)) == Resolve(s, entry)
  {
  }

  /** At most `limit` feed rows after the cursor. */
  function ListAfter(s: Server, cursor: nat, limit: nat): (r: seq<FeedEntry>)
    ensures |r| <= limit
  {
    s.feed[FirstAfter(s.feed, cursor)..PageEnd(s, cursor, limit)]
  }

  /** The service's resolve loop, in place over the visible rows. */
  method ResolveVisible(s: Server, visible: array<Listed>, entries: seq<FeedEntry>)
    requires visible.Length == |entries|
    requires forall i :: 0 <= i < |entries| ==> visible[i] == Unresolved(entries[i])
    modifies visible
    ensures forall i :: 0 <= i < |entries| ==> visible[i] == Resolved(s, entries[i])
  {
    for i := 0 to visible.Length
      invariant forall j :: 0 <= j < i ==> visible[j] == Resolved(s, entries[j])
      invariant forall j :: i <= j < |entries| ==> visible[j] == Unresolved(entries[j])
    {
      if visible[i].operation == Delete { continue; }
      var current := View(s, visible[i].key);
      if !Cacheable(visible[i].key.kind) || current.None? {
        visible[i] := visible[i].(operation := Delete, data := None);
        continue;
      }
      visible[i] := visible[i].(data := current);
    }
  }

  method AsChanges(s: Server, visible: array<Listed>, entries: seq<FeedEntry>) returns (changes: seq<Change>)
    requires visible.Length == |entries|
    requires forall i :: 0 <= i < |entries| ==> visible[i] == Resolved(s, entries[i])
    ensures changes == ResolveAll(s, entries)
  {
    changes := [];
    for i := 0 to |entries|
      invariant changes == ResolveAll(s, entries[..i])
    {
      assert entries[..i + 1][..i] == entries[..i];
      ResolvedIs(s, entries[i]);
      changes := changes + [AsChange(visible[i])];
    }
    assert entries[..|entries|] == entries;
  }

  /** One request for changes: one row more than the page is listed to learn whether there is more. */
  method Changes(s: Server, cursor: nat, size: int) returns (page: Option<Page>)
    ensures page == if 1 <= size <= 500 then Some(PageOf(s, cursor, size)) else None
  {
    if size < 1 || size > MAX_PAGE {
      return None;
    }
    var listed := ListAfter(s, cursor, size + 1);
    var hasMore := |listed| > size;
    var shown := if hasMore then listed[..size] else listed;
    ListedPage(s, cursor, size);
    assert shown == ListAfter(s, cursor, size);
    var visible := new Listed[|shown|](i requires 0 <= i < |shown| => Unresolved(shown[i]));
    ResolveVisible(s, visible, shown);
    var changes := AsChanges(s, visible, shown);
    var next := if |shown| > 0 then shown[|shown| - 1].sequence else cursor;
    page := Some(Page(changes, next, hasMore));
  }

  lemma ListedPage(s: Server, cursor: nat, size: nat)
    ensures var listed := ListAfter(s, cursor, size + 1);
            && (|listed| > size <==> PageEnd(s, cursor, size) < |s.feed|)
            && (if |listed| > size then listed[..size] else listed) == ListAfter(s, cursor, size)
  {
  }

  /** What a change of a page says: place, entity and version are its feed entry's; it shows the entity as it is now, and
      a removal exactly if the entry is a delete, is about an agent run or change, or the entity is gone. */
  lemma ChangesSay(s: Server, cursor: nat, size: nat, n: nat)
    requires Ordered(s.feed) && size > 0 && n < |PageOf(s, cursor, size).changes|
    ensures FirstAfter(s.feed, cursor) + n < |s.feed|
    ensures var change, entry := PageOf(s, cursor, size).changes[n], s.feed[FirstAfter(s.feed, cursor) + n];
            && change.sequence == entry.sequence > cursor && change.key == entry.key && change.version == entry.version
            && (change.Removal? <==> entry.operation == Delete || entry.key.kind.AgentRun? || entry.key.kind.AgentChange?
                                     || View(s, entry.key).None?)
            && (change.Upsert? ==> View(s, entry.key) == Some(change.data))
  {
    PageOnly(s, cursor, size, n);
    FirstAfterSplits(s.feed, cursor);
  }

  // ---------- pulling ----------

  function Concat(pages: seq<Page>): seq<Change> {
    if pages == [] then [] else Concat(pages[..|pages| - 1]) + pages[|pages| - 1].changes
  }

  lemma {:induction false} ResolveAllConcat(s: Server, a: seq<FeedEntry>, b: seq<FeedEntry>)
    ensures ResolveAll(s, a + b) == ResolveAll(s, a) + ResolveAll(s, b)
  {
    forall i | 0 <= i < |a + b| ensures ResolveAll(s, a + b)[i] == (ResolveAll(s, a) + ResolveAll(s, b))[i] { }
  }

  /** The next page starts where this one ends, even if the feed has grown. */
  lemma NextPageStart(s: Server, s': Server, cursor: nat, size: nat)
    requires Ordered(s.feed) && Ordered(s'.feed) && Extends(s, s') && size > 0 && cursor <= LastSequence(s)
    ensures FirstAfter(s'.feed, PageOf(s, cursor, size).next) == PageEnd(s, cursor, size)
  {
    var end, next := PageEnd(s, cursor, size), PageOf(s, cursor, size).next;
    FirstAfterSplits(s.feed, cursor);
    FirstAfterSplits(s'.feed, next);
    LastSequenceGrows(s, s');
    if end > 0 {
      assert s'.feed[end - 1] == s.feed[end - 1];
      assert s.feed[end - 1].sequence <= next by {
        if FirstAfter(s.feed, cursor) == end { assert s.feed[end - 1].sequence <= cursor; }
      }
    }
    if end < |s'.feed| {
      assert s'.feed[end].sequence > next by {
        if end < |s.feed| { assert s'.feed[end] == s.feed[end]; }
        else { assert s'.feed[end].sequence > LastSequence(s); PageBounds(s, cursor, size); }
      }
    }
  }

  /** The changes of the pages read so far are the resolved entries between the first cursor and the next one. */
  ghost predicate Pulled(s: Server, cursor: nat, next: nat, pages: seq<Page>) {
    && cursor <= next <= LastSequence(s)
    && FirstAfter(s.feed, cursor) <= FirstAfter(s.feed, next)
    && Concat(pages) == ResolveAll(s, s.feed[FirstAfter(s.feed, cursor)..FirstAfter(s.feed, next)])
  }

  lemma ResolveStretch(s: Server, start: nat, from: nat, to: nat)
    requires start <= from <= to <= |s.feed|
    ensures ResolveAll(s, s.feed[start..to]) == ResolveAll(s, s.feed[start..from]) + ResolveAll(s, s.feed[from..to])
  {
    assert s.feed[start..to] == s.feed[start..from] + s.feed[from..to];
    ResolveAllConcat(s, s.feed[start..from], s.feed[from..to]);
  }

  lemma ConcatAppend(pages: seq<Page>, page: Page)
    ensures Concat(pages + [page]) == Concat(pages) + page.changes
  {
    assert (pages + [page])[..|pages|] == pages;
  }

  lemma PullStep(s: Server, cursor: nat, next: nat, pages: seq<Page>, size: nat)
    requires Consistent(s) && size > 0 && Pulled(s, cursor, next, pages)
    ensures Pulled(s, cursor, PageOf(s, next, size).next, pages + [PageOf(s, next, size)])
    ensures FirstAfter(s.feed, PageOf(s, next, size).next) == PageEnd(s, next, size)
  {
    var page := PageOf(s, next, size);
    ExtendsRefl(s);
    NextPageStart(s, s, next, size);
    PageBounds(s, next, size);
    ResolveStretch(s, FirstAfter(s.feed, cursor), FirstAfter(s.feed, next), PageEnd(s, next, size));
    ConcatAppend(pages, page);
  }

  lemma PullDone(s: Server, cursor: nat, next: nat, pages: seq<Page>)
    requires Consistent(s) && Pulled(s, cursor, next, pages) && FirstAfter(s.feed, next) == |s.feed|
    ensures Concat(pages) == ResolveAll(s, s.feed[FirstAfter(s.feed, cursor)..]) && next == LastSequence(s)
  {
    FirstAfterSplits(s.feed, next);
    assert s.feed[FirstAfter(s.feed, cursor)..|s.feed|] == s.feed[FirstAfter(s.feed, cursor)..];
  }

  /** Reading page after page until there is no more: all later entries in order, once each; and it ends. */
  method PullChanges(s: Server, cursor: nat, size: nat) returns (pages: seq<Page>, next: nat)
    requires Consistent(s) && cursor <= LastSequence(s) && 1 <= size <= MAX_PAGE
    ensures Concat(pages) == ResolveAll(s, s.feed[FirstAfter(s.feed, cursor)..])
    ensures next == LastSequence(s)
  {
    pages, next := [], cursor;
    var hasMore := true;
    while hasMore
      invariant Pulled(s, cursor, next, pages)
      invariant !hasMore ==> FirstAfter(s.feed, next) == |s.feed|
      decreases hasMore, |s.feed| - FirstAfter(s.feed, next)
    {
      PullStep(s, cursor, next, pages, size);
      var answer := Changes(s, next, size);
      var page := answer.value;
      pages := pages + [page];
      next := page.next;
      hasMore := page.hasMore;
    }
    PullDone(s, cursor, next, pages);
  }

  /** Servers at the moments at which the pages of one pull were read. */
  ghost predicate Growing(servers: seq<Server>) {
    && (forall i :: 0 <= i < |servers| ==> Consistent(servers[i]))
    && (forall i :: 0 <= i < |servers| - 1 ==> Extends(servers[i], servers[i + 1]))
  }

  function CursorAt(servers: seq<Server>, cursor: nat, size: nat, n: nat): nat
    requires n <= |servers|
  {
    if n == 0 then cursor else PageOf(servers[n - 1], CursorAt(servers, cursor, size, n - 1), size).next
  }

  function EntriesUpTo(servers: seq<Server>, cursor: nat, size: nat, n: nat): seq<FeedEntry>
    requires n <= |servers|
  {
    if n == 0 then []
    else EntriesUpTo(servers, cursor, size, n - 1) + ListAfter(servers[n - 1], CursorAt(servers, cursor, size, n - 1), size)
  }

  /** However the feed grows between the pages, together they list a gapless stretch of it, once. */
  lemma {:induction false} NoEntrySkippedOrRepeated(servers: seq<Server>, cursor: nat, size: nat, n: nat)
    requires Growing(servers) && 1 <= n <= |servers| && size > 0 && cursor <= LastSequence(servers[0])
    ensures CursorAt(servers, cursor, size, n - 1) <= LastSequence(servers[n - 1])
    ensures CursorAt(servers, cursor, size, n) <= LastSequence(servers[n - 1])
    ensures var feed, start := servers[n - 1].feed, FirstAfter(servers[0].feed, cursor);
            var end := PageEnd(servers[n - 1], CursorAt(servers, cursor, size, n - 1), size);
            start <= end && EntriesUpTo(servers, cursor, size, n) == feed[start..end]
  {
    var s := servers[n - 1];
    if n == 1 {
      PageBounds(s, cursor, size);
      assert EntriesUpTo(servers, cursor, size, 0) == [];
      assert CursorAt(servers, cursor, size, 0) == cursor;
    } else {
      NoEntrySkippedOrRepeated(servers, cursor, size, n - 1);
      var before, mid := servers[n - 2], CursorAt(servers, cursor, size, n - 1);
      assert Extends(before, servers[n - 2 + 1]);
      LastSequenceGrows(before, s);
      PageBounds(s, mid, size);
      NextStretch(before, s, CursorAt(servers, cursor, size, n - 2), size,
                  FirstAfter(servers[0].feed, cursor), EntriesUpTo(servers, cursor, size, n - 1));
    }
  }

  lemma NextStretch(s: Server, s': Server, cursor: nat, size: nat, start: nat, read: seq<FeedEntry>)
    requires Consistent(s) && Consistent(s') && Extends(s, s') && size > 0 && cursor <= LastSequence(s)
    requires start <= PageEnd(s, cursor, size) && read == s.feed[start..PageEnd(s, cursor, size)]
    ensures var mid := PageOf(s, cursor, size).next;
            && start <= PageEnd(s', mid, size)
            && read + ListAfter(s', mid, size) == s'.feed[start..PageEnd(s', mid, size)]
  {
    var mid := PageOf(s, cursor, size).next;
    NextPageStart(s, s', cursor, size);
    StretchGrows(s, s', start, PageEnd(s, cursor, size), PageEnd(s', mid, size));
  }

  lemma StretchGrows(s: Server, s': Server, start: nat, mid: nat, end: nat)
    requires s.feed <= s'.feed && start <= mid <= |s.feed| && mid <= end <= |s'.feed|
    ensures s.feed[start..mid] + s'.feed[mid..end] == s'.feed[start..end]
  {
    assert s'.feed[start..mid] == s.feed[start..mid];
  }
}
