/** The non-atomic snapshot of a rebuild: listings read page by page, by keyset, while other devices keep writing. A row
    that stays put is read exactly once; a goal that moves takes its untouched milestones out of the snapshot. */
module Snapshot {
  import opened Entities
  import opened SyncServer
  import opened SyncMachine

  const TAG_LIMIT: nat := 500

  // The place of every live row of one kind in the order of its listing.
  type Ranks = map<Key, int>

  datatype ListingPage = ListingPage(items: seq<Key>, next: Option<int>, hasMore: bool)

  predicate Beyond(ranks: Ranks, k: Key, after: Option<int>) {
    k in ranks && (after.Some? ==> ranks[k] > after.value)
  }

  ghost predicate Sorted(ranks: Ranks, rows: seq<Key>) {
    && (forall i :: 0 <= i < |rows| ==> rows[i] in ranks)
    && (forall i, j :: 0 <= i < j < |rows| ==> ranks[rows[i]] < ranks[rows[j]])
  }

  /** What the listing query returns: the first `limit` rows beyond the position, in order. */
  ghost predicate IsRows(ranks: Ranks, after: Option<int>, limit: nat, rows: seq<Key>) {
    && |rows| <= limit && Sorted(ranks, rows)
    && (forall i :: 0 <= i < |rows| ==> Beyond(ranks, rows[i], after))
    && (forall k :: Beyond(ranks, k, after) && k !in rows ==>
          |rows| == limit && (limit > 0 ==> ranks[rows[limit - 1]] < ranks[k]))
  }

  /** A page: the first `size` rows beyond the position, whether there are more, and the position to go on from. */
  ghost predicate IsPage(ranks: Ranks, after: Option<int>, size: nat, page: ListingPage) {
    && IsRows(ranks, after, size, page.items)
    && (page.hasMore <==> exists k :: Beyond(ranks, k, after) && k !in page.items)
    && (page.hasMore ==> page.items != [] && page.next == Some(ranks[page.items[|page.items| - 1]]))
    && (!page.hasMore ==> page.next == None)
  }

  lemma OneMoreRow(ranks: Ranks, after: Option<int>, size: nat, rows: seq<Key>)
    requires size >= 1 && IsRows(ranks, after, size + 1, rows) && |rows| > size
    ensures IsRows(ranks, after, size, rows[..size])
    ensures Beyond(ranks, rows[size], after) && rows[size] !in rows[..size]
  {
    var items, more := rows[..size], rows[size];
    assert forall j :: 0 <= j < size ==> ranks[items[j]] < ranks[more];
    assert rows == items + [more];
    forall k | Beyond(ranks, k, after) && k !in items ensures ranks[items[size - 1]] < ranks[k] {
      assert k in rows ==> k == more;
    }
  }

  /** The service's list operation: one row more than the page is fetched to learn whether there is more. */
  method ListPage(ranks: Ranks, ghost after: Option<int>, size: nat, rows: seq<Key>) returns (page: ListingPage)
    requires size >= 1 && IsRows(ranks, after, size + 1, rows)
    ensures IsPage(ranks, after, size, page)
  {
    var hasMore := |rows| > size;
    var items := if hasMore then rows[..size] else rows;
    if hasMore { OneMoreRow(ranks, after, size, rows); }
    var next := None;
    if hasMore && |items| > 0 {
      next := Some(ranks[items[|items| - 1]]);
    }
    page := ListingPage(items, next, hasMore);
  }

  function Concat(pages: seq<ListingPage>): seq<Key> {
    if pages == [] then [] else Concat(pages[..|pages| - 1]) + pages[|pages| - 1].items
  }

  /** The client's loop over one listing; `answers` are the pages its requests are answered with. */
  method AllCursorPages(answers: seq<ListingPage>) returns (values: seq<Key>, read: nat)
    requires exists i :: 0 <= i < |answers| && !answers[i].hasMore
    ensures 1 <= read <= |answers| && values == Concat(answers[..read])
    ensures !answers[read - 1].hasMore && forall i :: 0 <= i < read - 1 ==> answers[i].hasMore
  {
    values, read := [], 0;
    var more := true;
    while more
      invariant read <= |answers| && values == Concat(answers[..read])
      invariant forall i :: 0 <= i < read - 1 ==> answers[i].hasMore
      invariant read > 0 ==> answers[read - 1].hasMore == more
      invariant read == 0 ==> more
      decreases |answers| - read, more
    {
      assert read < |answers| by {
        var i :| 0 <= i < |answers| && !answers[i].hasMore;
        assert i >= read;
      }
      assert answers[..read + 1][..read] == answers[..read];
      values := values + answers[read].items;
      more := answers[read].hasMore;
      read := read + 1;
    }
  }

  // ---------- a row that stays put ----------

  function After(answers: seq<ListingPage>, i: nat): Option<int>
    requires i <= |answers|
  {
    if i == 0 then None else answers[i - 1].next
  }

  /** Page i was read from the listing as it then was, from where page i - 1 left off; only the last has no successor. */
  ghost predicate Served(ranks: seq<Ranks>, answers: seq<ListingPage>, size: nat) {
    && |ranks| == |answers| > 0
    && (forall i :: 0 <= i < |answers| ==> IsPage(ranks[i], After(answers, i), size, answers[i]))
    && (forall i :: 0 <= i < |answers| ==> (answers[i].hasMore <==> i < |answers| - 1))
  }

  /** The row keeps its place while the first n pages are read. */
  ghost predicate StaysPut(ranks: seq<Ranks>, k: Key, rank: int, n: nat) {
    forall i :: 0 <= i < |ranks| && i < n ==> k in ranks[i] && ranks[i][k] == rank
  }

  lemma {:induction false} SortedOnce(ranks: Ranks, rows: seq<Key>, k: Key)
    requires Sorted(ranks, rows)
    ensures multiset(rows)[k] == if k in rows then 1 else 0
  {
    if rows != [] {
      var init, last := rows[..|rows| - 1], rows[|rows| - 1];
      assert rows == init + [last];
      SortedOnce(ranks, init, k);
      assert last !in init;
    }
  }

  /** Between two positions, a page holds the row exactly when its rank lies there. */
  lemma PageHolds(ranks: Ranks, after: Option<int>, size: nat, page: ListingPage, k: Key)
    requires IsPage(ranks, after, size, page) && k in ranks
    ensures multiset(page.items)[k]
            == if Beyond(ranks, k, after) && (page.next.Some? ==> ranks[k] <= page.next.value) then 1 else 0
  {
    SortedOnce(ranks, page.items, k);
    if k in page.items && page.hasMore {
      var i :| 0 <= i < |page.items| && page.items[i] == k;
      assert i < |page.items| - 1 ==> ranks[page.items[i]] < ranks[page.items[|page.items| - 1]];
    }
  }

  lemma ConcatOneMore(answers: seq<ListingPage>, n: nat)
    requires n < |answers|
    ensures Concat(answers[..n + 1]) == Concat(answers[..n]) + answers[n].items
  {
    assert answers[..n + 1][..n] == answers[..n];
  }

  predicate Advances(answers: seq<ListingPage>, i: nat)
    requires i < |answers|
  {
    && (i > 0 ==> After(answers, i).Some?)
    && (After(answers, i).Some? && answers[i].next.Some? ==> After(answers, i).value < answers[i].next.value)
  }

  /** Page i holds the row once if its place is beyond the start of the page and not beyond its end. */
  predicate Counts(answers: seq<ListingPage>, i: nat, k: Key, rank: int)
    requires i < |answers|
  {
    && Advances(answers, i)
    && multiset(answers[i].items)[k]
       == if (After(answers, i).Some? ==> rank > After(answers, i).value) && (answers[i].next.Some? ==> rank <= answers[i].next.value)
          then 1 else 0
  }

  lemma PageCounts(ranks: seq<Ranks>, answers: seq<ListingPage>, size: nat, k: Key, rank: int, i: nat)
    requires Served(ranks, answers, size) && i < |answers| && k in ranks[i] && ranks[i][k] == rank
    ensures Counts(answers, i, k, rank)
  {
    PageHolds(ranks[i], After(answers, i), size, answers[i], k);
    CursorsAdvance(ranks, answers, size, i);
  }

  lemma {:induction false} ReadSoFar(answers: seq<ListingPage>, k: Key, rank: int, n: nat)
    requires n <= |answers| && forall i :: 0 <= i < n ==> Counts(answers, i, k, rank)
    ensures multiset(Concat(answers[..n]))[k]
            == if n > 0 && (After(answers, n).Some? ==> rank <= After(answers, n).value) then 1 else 0
  {
    if n > 0 {
      ReadSoFar(answers, k, rank, n - 1);
      ConcatOneMore(answers, n - 1);
      assert Counts(answers, n - 1, k, rank);
    }
  }

  lemma CursorsAdvance(ranks: seq<Ranks>, answers: seq<ListingPage>, size: nat, i: nat)
    requires Served(ranks, answers, size) && i < |answers|
    ensures Advances(answers, i)
  {
    if i > 0 { assert answers[i - 1].hasMore; }
    if answers[i].hasMore {
      assert Beyond(ranks[i], answers[i].items[|answers[i].items| - 1], After(answers, i));
    }
  }

  /** A row whose place in the order does not change while the pages are read is read exactly once, however the
      other rows come, go and move. */
  lemma StaysPutReadOnce(ranks: seq<Ranks>, answers: seq<ListingPage>, size: nat, k: Key, rank: int)
    requires Served(ranks, answers, size) && StaysPut(ranks, k, rank, |ranks|)
    ensures multiset(Concat(answers))[k] == 1
  {
    forall i | 0 <= i < |answers| ensures Counts(answers, i, k, rank) { PageCounts(ranks, answers, size, k, rank, i); }
    ReadSoFar(answers, k, rank, |answers|);
    assert answers[..|answers|] == answers;
    assert !answers[|answers| - 1].hasMore;
  }

  // ---------- a row that moves to the front ----------

  /** From page n on, the row is gone or in front of where page n starts. */
  ghost predicate InFront(ranks: seq<Ranks>, answers: seq<ListingPage>, k: Key, n: nat)
    requires n <= |answers| && After(answers, n).Some?
  {
    forall i :: n <= i < |ranks| && k in ranks[i] ==> ranks[i][k] <= After(answers, n).value
  }

  lemma {:induction false} LaterCursors(answers: seq<ListingPage>, n: nat, m: nat)
    requires forall i :: 0 <= i < |answers| ==> Advances(answers, i)
    requires 0 < n <= m <= |answers| && After(answers, n).Some?
    ensures After(answers, m).Some? ==> After(answers, m).value >= After(answers, n).value
  {
    if n < m {
      LaterCursors(answers, n, m - 1);
      assert Advances(answers, m - 1);
    }
  }

  lemma NotOnLaterPage(ranks: seq<Ranks>, answers: seq<ListingPage>, size: nat, k: Key, n: nat, m: nat)
    requires Served(ranks, answers, size) && 0 < n <= m < |answers| && After(answers, n).Some? && InFront(ranks, answers, k, n)
    ensures k !in answers[m].items
  {
    forall i | 0 <= i < |answers| ensures Advances(answers, i) { CursorsAdvance(ranks, answers, size, i); }
    LaterCursors(answers, n, m);
    assert Advances(answers, m);
    forall i | 0 <= i < |answers[m].items| ensures answers[m].items[i] != k {
      assert Beyond(ranks[m], answers[m].items[i], After(answers, m));
    }
  }

  lemma {:induction false} NotReadLater(answers: seq<ListingPage>, k: Key, n: nat, m: nat)
    requires n <= m <= |answers| && forall i :: n <= i < m ==> k !in answers[i].items
    ensures multiset(Concat(answers[..m]))[k] == multiset(Concat(answers[..n]))[k]
  {
    if n < m {
      NotReadLater(answers, k, n, m - 1);
      ConcatOneMore(answers, m - 1);
    }
  }

  /** A row that moves to the front before page n is read, as every update of a goal does, is listed exactly if its old
      place is not beyond the position where page n starts. */
  lemma MovedRowListedExactly(ranks: seq<Ranks>, answers: seq<ListingPage>, size: nat, k: Key, place: int, n: nat)
    requires Served(ranks, answers, size) && 0 < n < |answers|
    requires StaysPut(ranks, k, place, n) && After(answers, n).Some? && InFront(ranks, answers, k, n)
    ensures k in Concat(answers) <==> place <= After(answers, n).value
    ensures multiset(Concat(answers))[k] <= 1
  {
    forall i | 0 <= i < n ensures Counts(answers, i, k, place) { PageCounts(ranks, answers, size, k, place, i); }
    ReadSoFar(answers, k, place, n);
    forall i | n <= i < |answers| ensures k !in answers[i].items { NotOnLaterPage(ranks, answers, size, k, n, i); }
    NotReadLater(answers, k, n, |answers|);
    assert answers[..|answers|] == answers;
  }

  // ---------- the snapshot as the protocol needs it ----------

  // One listing of a rebuild: the server and the row order at the moment each page was read.
  datatype Listing = Listing(kind: Kind, servers: seq<Server>, ranks: seq<Ranks>, answers: seq<ListingPage>)

  // The reads behind a snapshot. `parent` gives the goal of a milestone and the event of a reminder; `details` and
  // `tagServer` are the server as it was when a listed row's children, and the tags, were read; `tags` are all its
  // live tags, by name.
  datatype Reads = Reads(listings: map<Kind, Listing>, parent: map<Key, Key>, details: map<Key, Server>,
                         tagServer: Server, tags: seq<Key>)

  predicate PagedKind(kind: Kind) {
    kind == Goal || kind == Task || kind == Record || kind == Note || kind == CalendarEvent || kind == DailyReview
  }

  predicate Child(k: Key) {
    k.kind == Milestone || k.kind == Reminder
  }

  function ParentKind(k: Key): Kind {
    if k.kind == Milestone then Goal else CalendarEvent
  }

  ghost predicate Between(first: Server, mid: Server, end: Server) {
    Consistent(mid) && Extends(first, mid) && Extends(mid, end)
  }

  /** A row moves in the order only when it is written. */
  ghost predicate RankKept(ranks: seq<Ranks>, end: Server, cursor: nat, k: Key) {
    HasAfter(end, k, cursor) || forall i, j :: 0 <= i < j < |ranks| && k in ranks[i] && k in ranks[j] ==> ranks[i][k] == ranks[j][k]
  }

  /** Pages of the live rows of the kind, read after the bootstrap. */
  ghost predicate ListingOf(l: Listing, first: Server, end: Server, size: nat) {
    && |l.servers| == |l.ranks| && Served(l.ranks, l.answers, size)
    && (forall i :: 0 <= i < |l.servers| ==> Between(first, l.servers[i], end))
    && (forall i, k: Key :: 0 <= i < |l.servers| ==> (k in l.ranks[i] <==> k.kind == l.kind && View(l.servers[i], k).Some?))
    && (forall k :: RankKept(l.ranks, end, LastSequence(first), k))
  }

  /** What is untouched since the bootstrap was there all along. */
  lemma UntouchedAllAlong(first: Server, mid: Server, end: Server, k: Key)
    requires Consistent(first) && Between(first, mid, end) && !HasAfter(end, k, LastSequence(first))
    ensures View(mid, k) == View(end, k)
  {
    LastSequenceGrows(first, mid);
    ViewStable(mid, end, k, LastSequence(first));
  }

  /** An untouched row of a paged kind is listed exactly once. */
  lemma UntouchedListedOnce(l: Listing, first: Server, end: Server, size: nat, k: Key)
    requires Consistent(first) && ListingOf(l, first, end, size)
    requires k.kind == l.kind && View(end, k).Some? && !HasAfter(end, k, LastSequence(first))
    ensures multiset(Concat(l.answers))[k] == 1
  {
    forall i | 0 <= i < |l.servers| ensures k in l.ranks[i] { UntouchedAllAlong(first, l.servers[i], end, k); }
    assert RankKept(l.ranks, end, LastSequence(first), k);
    StaysPutReadOnce(l.ranks, l.answers, size, k, l.ranks[0][k]);
  }

  predicate Listed(r: Reads, k: Key) {
    k.kind in r.listings && k in Concat(r.listings[k.kind].answers)
  }

  ghost predicate KindListed(r: Reads, kind: Kind, first: Server, end: Server, size: nat) {
    PagedKind(kind) ==> kind in r.listings && r.listings[kind].kind == kind && ListingOf(r.listings[kind], first, end, size)
  }

  /** The details of a listed goal or event are read after the listing. */
  ghost predicate DetailsRead(r: Reads, p: Key, first: Server, end: Server) {
    Listed(r, p) && (p.kind == Goal || p.kind == CalendarEvent) ==> p in r.details && Between(first, r.details[p], end)
  }

  /** The query lists all live tags, once each. */
  ghost predicate TagsListed(r: Reads) {
    && (forall i, j :: 0 <= i < j < |r.tags| ==> r.tags[i] != r.tags[j])
    && (forall k :: k in r.tags <==> k.kind == Tag && View(r.tagServer, k).Some?)
  }

  /** What the requests answer with: the listed rows, the live children of listed parents, the first 500 tags, and
      the settings row. */
  predicate Fetched(r: Reads, end: Server, k: Key) {
    if PagedKind(k.kind) then Listed(r, k)
    else if Child(k) then
      && k in r.parent && Listed(r, r.parent[k]) && r.parent[k].kind == ParentKind(k)
      && r.parent[k] in r.details && View(r.details[r.parent[k]], k).Some?
    else if k.kind == Tag then k in r.tags && !BeyondTagLimit(r, k)
    else k.kind == Settings && View(end, k).Some?
  }

  /** k is a tag behind the first 500. */
  predicate BeyondTagLimit(r: Reads, k: Key) {
    |r.tags| > TAG_LIMIT && k in r.tags[TAG_LIMIT..]
  }

  ghost predicate SnapshotOf(r: Reads, first: Server, end: Server, size: nat, got: set<Key>) {
    && Consistent(first) && Extends(first, end)
    && (forall kind :: KindListed(r, kind, first, end, size))
    && (forall p :: DetailsRead(r, p, first, end))
    && Between(first, r.tagServer, end) && TagsListed(r)
    && (forall k :: k in got <==> Fetched(r, end, k))
  }

  /** Children hang on live parents of the right kind; updating an event rewrites all its reminders, while updating
      a goal leaves its milestones alone. */
  ghost predicate Hierarchy(r: Reads, first: Server, end: Server, c: Key) {
    Child(c) && View(end, c).Some? ==>
      && c in r.parent && r.parent[c].kind == ParentKind(c) && View(end, r.parent[c]).Some?
      && (c.kind == Reminder && HasAfter(end, r.parent[c], LastSequence(first)) ==> HasAfter(end, c, LastSequence(first)))
  }

  lemma ParentIsListed(r: Reads, first: Server, end: Server, size: nat, got: set<Key>, c: Key)
    requires SnapshotOf(r, first, end, size, got) && Hierarchy(r, first, end, c)
    ensures Child(c) && View(end, c).Some? && !HasAfter(end, c, LastSequence(first)) ==>
              HasAfter(end, r.parent[c], LastSequence(first)) || Listed(r, r.parent[c])
  {
    if Child(c) && View(end, c).Some? {
      var p := r.parent[c];
      if !HasAfter(end, c, LastSequence(first)) && !HasAfter(end, p, LastSequence(first)) {
        assert KindListed(r, p.kind, first, end, size);
        UntouchedListedOnce(r.listings[p.kind], first, end, size, p);
      }
    }
  }

  lemma ChildReadExactly(r: Reads, first: Server, end: Server, size: nat, got: set<Key>, c: Key)
    requires SnapshotOf(r, first, end, size, got) && Hierarchy(r, first, end, c)
    ensures Child(c) && View(end, c).Some? && !HasAfter(end, c, LastSequence(first)) ==> (c in got <==> Listed(r, r.parent[c]))
  {
    if Child(c) && View(end, c).Some? && !HasAfter(end, c, LastSequence(first)) {
      var p := r.parent[c];
      assert c in got <==> Fetched(r, end, c);
      if Listed(r, p) {
        assert DetailsRead(r, p, first, end);
        UntouchedAllAlong(first, r.details[p], end, c);
      }
    }
  }

  lemma UntouchedIsListed(r: Reads, first: Server, end: Server, size: nat, got: set<Key>, k: Key)
    requires SnapshotOf(r, first, end, size, got) && PagedKind(k.kind)
    ensures View(end, k).Some? && !HasAfter(end, k, LastSequence(first)) ==> Listed(r, k)
  {
    if View(end, k).Some? && !HasAfter(end, k, LastSequence(first)) {
      assert KindListed(r, k.kind, first, end, size);
      UntouchedListedOnce(r.listings[k.kind], first, end, size, k);
    }
  }

  /** What a snapshot leaves out: milestones of goals that are on no page, and tags behind the first 500. */
  predicate LeftOut(r: Reads, k: Key) {
    || (k.kind == Milestone && k in r.parent && !Listed(r, r.parent[k]))
    || (k.kind == Tag && BeyondTagLimit(r, k))
  }

  /** Of everything live and untouched since the bootstrap, a snapshot holds exactly what it does not leave out; and a
      milestone is left out only if its goal was written meanwhile. */
  lemma SnapshotComplete(r: Reads, first: Server, end: Server, size: nat, got: set<Key>, k: Key)
    requires SnapshotOf(r, first, end, size, got) && Hierarchy(r, first, end, k)
    requires Cacheable(k.kind) && View(end, k).Some? && !HasAfter(end, k, LastSequence(first))
    ensures k in got <==> !LeftOut(r, k)
    ensures k.kind == Milestone && LeftOut(r, k) ==> HasAfter(end, r.parent[k], LastSequence(first))
  {
    assert k in got <==> Fetched(r, end, k);
    if PagedKind(k.kind) {
      UntouchedIsListed(r, first, end, size, got, k);
    } else if Child(k) {
      ParentIsListed(r, first, end, size, got, k);
      ChildReadExactly(r, first, end, size, got, k);
    } else if k.kind == Tag {
      UntouchedAllAlong(first, r.tagServer, end, k);
    }
  }

  /** An untouched milestone, whose goal moves to the front before page n of the goals is read, is in the snapshot
      exactly if the goal's old place is not beyond the position where page n starts. */
  lemma MilestoneReadExactly(r: Reads, first: Server, end: Server, size: nat, got: set<Key>, k: Key, place: int, n: nat)
    requires SnapshotOf(r, first, end, size, got) && Hierarchy(r, first, end, k)
    requires k.kind == Milestone && View(end, k).Some? && !HasAfter(end, k, LastSequence(first))
    requires Goal in r.listings && 0 < n < |r.listings[Goal].answers|
    requires var l := r.listings[Goal];
             && StaysPut(l.ranks, r.parent[k], place, n)
             && After(l.answers, n).Some? && InFront(l.ranks, l.answers, r.parent[k], n)
    ensures k in got <==> place <= After(r.listings[Goal].answers, n).value
  {
    assert KindListed(r, Goal, first, end, size);
    MovedRowListedExactly(r.listings[Goal].ranks, r.listings[Goal].answers, size, r.parent[k], place, n);
    ChildReadExactly(r, first, end, size, got, k);
  }

  ghost predicate NoGoalWritten(first: Server, end: Server) {
    forall g: Key :: g.kind == Goal ==> !HasAfter(end, g, LastSequence(first))
  }

  ghost predicate Read(got: seq<(Key, Entity)>, k: Key) {
    exists x :: x in got && x.0 == k
  }

  predicate Excused(k: Key, goalsMoved: bool, manyTags: bool) {
    (k.kind == Milestone && goalsMoved) || (k.kind == Tag && manyTags)
  }

  ghost predicate ReadOrExcused(end: Server, boot: nat, got: seq<(Key, Entity)>, goalsMoved: bool, manyTags: bool, k: Key) {
    Cacheable(k.kind) && View(end, k).Some? && !HasAfter(end, k, boot) ==> Read(got, k) || Excused(k, goalsMoved, manyTags)
  }

  lemma ReadUnlessExcused(r: Reads, first: Server, end: Server, size: nat, got: seq<(Key, Entity)>, k: Key)
    requires SnapshotOf(r, first, end, size, set x | x in got :: x.0) && Hierarchy(r, first, end, k)
    ensures ReadOrExcused(end, LastSequence(first), got, !NoGoalWritten(first, end), |r.tags| > TAG_LIMIT, k)
  {
    var keys := set x | x in got :: x.0;
    if Cacheable(k.kind) && View(end, k).Some? && !HasAfter(end, k, LastSequence(first)) {
      SnapshotComplete(r, first, end, size, keys, k);
      if k in keys {
        var x :| x in got && x.0 == k;
      }
    }
  }

  lemma GuardMet(end: Server, boot: nat, got: seq<(Key, Entity)>, goalsMoved: bool, manyTags: bool)
    requires forall k :: ReadOrExcused(end, boot, got, goalsMoved, manyTags, k)
    ensures SnapshotDone(end, boot, got)
    ensures !goalsMoved && !manyTags ==> Unlisted(end, boot, got) == {}
  {
    forall k | k in end.rows && Cacheable(k.kind) && View(end, k).Some? && !HasAfter(end, k, boot)
      ensures Read(got, k) || Excused(k, goalsMoved, manyTags)
    {
      assert ReadOrExcused(end, boot, got, goalsMoved, manyTags, k);
    }
  }

  /** So the guard of the protocol's rebuild step holds of every snapshot that is read this way, and if no goal was
      written meanwhile and there are at most 500 tags, nothing at all is left out. */
  lemma SnapshotMeetsGuard(r: Reads, first: Server, end: Server, size: nat, got: seq<(Key, Entity)>)
    requires SnapshotOf(r, first, end, size, set x | x in got :: x.0)
    requires forall c :: Hierarchy(r, first, end, c)
    ensures SnapshotDone(end, LastSequence(first), got)
    ensures NoGoalWritten(first, end) && |r.tags| <= 500 ==> Unlisted(end, LastSequence(first), got) == {}
  {
    var boot, goalsMoved, manyTags := LastSequence(first), !NoGoalWritten(first, end), |r.tags| > TAG_LIMIT;
    forall k ensures ReadOrExcused(end, boot, got, goalsMoved, manyTags, k) {
      ReadUnlessExcused(r, first, end, size, got, k);
    }
    GuardMet(end, boot, got, goalsMoved, manyTags);
  }

  /** And in general the protocol's set of missed entities is exactly what the reads left out. */
  lemma UnlistedIsLeftOut(r: Reads, first: Server, end: Server, size: nat, got: seq<(Key, Entity)>, k: Key)
    requires SnapshotOf(r, first, end, size, set x | x in got :: x.0) && Hierarchy(r, first, end, k)
    requires Leaky(k.kind) && View(end, k).Some? && !HasAfter(end, k, LastSequence(first))
    ensures k in Unlisted(end, LastSequence(first), got) <==> LeftOut(r, k)
  {
    var keys := set x | x in got :: x.0;
    SnapshotComplete(r, first, end, size, keys, k);
    assert k in keys <==> Read(got, k);
  }
}
