/** The two holes of a rebuild's snapshot, in a run. For every page size there is an account with one goal more than a
    page, a milestone under that goal, and 501 tags: the goal is updated between two pages. The rebuild and the
    catch-up complete, and the milestone and the last tag are live on the server and absent from the cache. */
module SnapshotHoles {
  import opened Entities
  import opened SyncServer
  import opened Snapshot

  // ---------- an account ----------

  const EMPTY: Server := Server(map[], [])

  /** The account in which these entities were created one after the other. */
  function Stock(keys: seq<Key>): Server {
    if keys == [] then EMPTY else Commit(Stock(keys[..|keys| - 1]), Put(keys[|keys| - 1], "x"), |keys|)
  }

  ghost predicate Distinct(keys: seq<Key>) {
    forall i, j :: 0 <= i < j < |keys| ==> keys[i] != keys[j]
  }

  lemma {:induction false} StockIs(keys: seq<Key>)
    requires Distinct(keys)
    ensures Consistent(Stock(keys)) && LastSequence(Stock(keys)) == |keys|
    ensures forall k :: k in Stock(keys).rows <==> k in keys
    ensures forall k :: k in keys ==> Stock(keys).rows[k] == Row(["x"], false)
  {
    if keys != [] {
      var init, last := keys[..|keys| - 1], keys[|keys| - 1];
      StockIs(init);
      assert keys == init + [last];
      assert last !in init;
      CommitConsistent(Stock(init), Put(last, "x"), |keys|);
      var log: seq<Body> := [];
      assert log + ["x"] == ["x"];
    }
  }

  lemma StockView(keys: seq<Key>, k: Key)
    requires Distinct(keys)
    ensures View(Stock(keys), k) == if k in keys then Some(Entity(1, "x")) else None
  {
    StockIs(keys);
  }

  // ---------- one goal more than a page, and one tag more than the limit ----------

  function Name(kind: Kind, i: nat): (k: Key)
    ensures k.kind == kind && |k.id| == i
  {
    Key(kind, seq(i, _ => 'x'))
  }

  function Names(kind: Kind, n: nat): (r: seq<Key>)
    ensures |r| == n && (forall i :: 0 <= i < n ==> r[i] == Name(kind, i))
    ensures Distinct(r) && (forall k :: k in r ==> k.kind == kind && |k.id| < n)
  {
    var r := seq(n, i requires 0 <= i < n => Name(kind, i));
    assert forall i :: 0 <= i < n ==> |r[i].id| == i && r[i].kind == kind;
    r
  }

  lemma NamesHold(kind: Kind, n: nat, k: Key)
    ensures k in Names(kind, n) <==> k.kind == kind && |k.id| < n && k == Name(kind, |k.id|)
  {
    if |k.id| < n && k == Name(kind, |k.id|) { assert Names(kind, n)[|k.id|] == k; }
  }

  const MILESTONE: Key := Key(Milestone, "m")
  const LAST_TAG: Key := Name(Tag, TAG_LIMIT)

  function Account(size: nat): seq<Key> {
    Names(Goal, size + 1) + [MILESTONE] + Names(Tag, TAG_LIMIT + 1)
  }

  lemma AccountIs(size: nat)
    ensures Distinct(Account(size))
    ensures forall k :: k in Account(size) <==> k in Names(Goal, size + 1) || k == MILESTONE || k in Names(Tag, TAG_LIMIT + 1)
  {
    var keys := Account(size);
    forall i, j | 0 <= i < j < |keys| ensures keys[i] != keys[j] {
      assert i <= size ==> keys[i] == Names(Goal, size + 1)[i];
      assert j <= size ==> keys[j] == Names(Goal, size + 1)[j];
      assert i > size + 1 ==> keys[i] == Names(Tag, TAG_LIMIT + 1)[i - size - 2];
      assert j > size + 1 ==> keys[j] == Names(Tag, TAG_LIMIT + 1)[j - size - 2];
    }
  }

  /** The goal that is updated: the last one of the listing. */
  function Mover(size: nat): Key {
    Name(Goal, size)
  }

  function First(size: nat): Server {
    Stock(Account(size))
  }

  function Ended(size: nat): Server {
    Commit(First(size), Put(Mover(size), "y"), |Account(size)| + 1)
  }

  lemma Servers(size: nat)
    ensures Consistent(First(size)) && Consistent(Ended(size)) && Extends(First(size), Ended(size)) && Extends(First(size), First(size))
    ensures Extends(Ended(size), Ended(size))
    ensures LastSequence(First(size)) == |Account(size)|
    ensures forall k :: View(First(size), k) == if k in Account(size) then Some(Entity(1, "x")) else None
  {
    var keys := Account(size);
    AccountIs(size);
    StockIs(keys);
    assert CanWrite(First(size), Put(Mover(size), "y"));
    CommitConsistent(First(size), Put(Mover(size), "y"), |keys| + 1);
    CommitExtends(First(size), Put(Mover(size), "y"), |keys| + 1);
    ExtendsRefl(First(size));
    ExtendsRefl(Ended(size));
    forall k ensures View(First(size), k) == if k in keys then Some(Entity(1, "x")) else None { StockView(keys, k); }
  }

  lemma MoverIsLive(size: nat)
    ensures Mover(size) in Account(size)
  {
    AccountIs(size);
    assert Names(Goal, size + 1)[size] == Mover(size);
  }

  /** Only the mover is written, and only it looks different. */
  lemma OnlyMoverWritten(size: nat, k: Key)
    ensures HasAfter(Ended(size), k, |Account(size)|) <==> k == Mover(size)
    ensures View(Ended(size), k).Some? <==> k in Account(size)
    ensures k != Mover(size) ==> View(Ended(size), k) == View(First(size), k)
  {
    Servers(size);
    MoverIsLive(size);
    AccountIs(size);
    StockIs(Account(size));
    var s, s' := First(size), Ended(size);
    assert s'.feed[|s.feed|].key == Mover(size) && s'.feed[|s.feed|].sequence == |Account(size)| + 1;
    forall i | 0 <= i < |s.feed| ensures s'.feed[i].sequence <= |Account(size)| {
      assert s'.feed[i] == s.feed[i];
      assert i < |s.feed| - 1 ==> s.feed[i].sequence < s.feed[|s.feed| - 1].sequence;
    }
  }

  // ---------- the listings ----------

  function Before(size: nat): (r: Ranks)
    ensures forall k :: k in r <==> k in Names(Goal, size + 1)
    ensures forall k :: k in r ==> r[k] == |k.id|
  {
    map k | k in Names(Goal, size + 1) :: |k.id|
  }

  function Moved(size: nat): (r: Ranks)
    ensures forall k :: k in r <==> k in Names(Goal, size + 1)
  {
    assert Names(Goal, size + 1)[size] == Mover(size);
    Before(size)[Mover(size) := -1]
  }

  lemma FirstPage(size: nat)
    requires size >= 1
    ensures IsPage(Before(size), None, size, ListingPage(Names(Goal, size), Some(size - 1), true))
  {
    var names, more := Names(Goal, size), Names(Goal, size + 1);
    assert more[size] == Mover(size) && Beyond(Before(size), Mover(size), None) && Mover(size) !in names;
    forall i | 0 <= i < size ensures names[i] in Before(size) && Before(size)[names[i]] == i { assert more[i] == names[i]; }
    forall k | k in Before(size) ensures k in names || k == Mover(size) {
      NamesHold(Goal, size + 1, k);
      NamesHold(Goal, size, k);
    }
  }

  lemma SecondPage(size: nat)
    requires size >= 1
    ensures IsPage(Moved(size), Some(size - 1), size, ListingPage([], None, false))
  {
    forall k | k in Moved(size) ensures !Beyond(Moved(size), k, Some(size - 1)) {
      NamesHold(Goal, size + 1, k);
    }
  }

  const NO_MORE: ListingPage := ListingPage([], None, false)

  function GoalPages(size: nat): seq<ListingPage>
    requires size >= 1
  {
    [ListingPage(Names(Goal, size), Some(size - 1), true), NO_MORE]
  }

  lemma GoalsServed(size: nat)
    requires size >= 1
    ensures Served([Before(size), Moved(size)], GoalPages(size), size)
    ensures Concat(GoalPages(size)) == Names(Goal, size)
  {
    FirstPage(size);
    SecondPage(size);
    var one, two := GoalPages(size)[0], GoalPages(size)[1];
    var none: seq<ListingPage> := [];
    assert [one, two][..1] == [one] && [one][..0] == none;
    assert Concat([one]) == Concat(none) + one.items;
  }

  lemma NothingServed(size: nat)
    ensures Served([map[]], [NO_MORE], size) && Concat([NO_MORE]) == []
  {
    var none: seq<ListingPage> := [];
    assert [NO_MORE][..0] == none;
  }

  function ListingFor(kind: Kind, size: nat): Listing
    requires size >= 1
  {
    if kind == Goal then Listing(Goal, [First(size), Ended(size)], [Before(size), Moved(size)], GoalPages(size))
    else Listing(kind, [First(size)], [map[]], [NO_MORE])
  }

  /** What the rebuild reads: all pages of all listings, with the goals' first page before the update and the second
      after it, the details of the listed goals, and the tags. */
  function ReadsOf(size: nat): Reads
    requires size >= 1
  {
    Reads(map kind | kind in {Goal, Task, Record, Note, CalendarEvent, DailyReview} :: ListingFor(kind, size),
          map[MILESTONE := Mover(size)],
          map g | g in Names(Goal, size) :: First(size),
          First(size), Names(Tag, TAG_LIMIT + 1))
  }

  lemma GoalPlaces(size: nat, k: Key)
    ensures k in Before(size) <==> k.kind == Goal && View(First(size), k).Some?
    ensures k in Moved(size) <==> k.kind == Goal && View(Ended(size), k).Some?
    ensures RankKept([Before(size), Moved(size)], Ended(size), LastSequence(First(size)), k)
  {
    Servers(size);
    AccountIs(size);
    OnlyMoverWritten(size, k);
  }

  lemma GoalsListed(size: nat)
    requires size >= 1
    ensures ListingOf(ListingFor(Goal, size), First(size), Ended(size), size)
  {
    GoalsServed(size);
    Servers(size);
    forall k ensures RankKept([Before(size), Moved(size)], Ended(size), LastSequence(First(size)), k) { GoalPlaces(size, k); }
    forall k: Key
      ensures k in Before(size) <==> k.kind == Goal && View(First(size), k).Some?
      ensures k in Moved(size) <==> k.kind == Goal && View(Ended(size), k).Some?
    {
      GoalPlaces(size, k);
    }
    TwoPages(ListingFor(Goal, size), First(size), Ended(size), size, Before(size), Moved(size));
  }

  lemma TwoPages(l: Listing, first: Server, end: Server, size: nat, before: Ranks, moved: Ranks)
    requires l.servers == [first, end] && l.ranks == [before, moved] && Served([before, moved], l.answers, size)
    requires Between(first, first, end) && Between(first, end, end)
    requires forall k: Key :: k in before <==> k.kind == l.kind && View(first, k).Some?
    requires forall k: Key :: k in moved <==> k.kind == l.kind && View(end, k).Some?
    requires forall k :: RankKept([before, moved], end, LastSequence(first), k)
    ensures ListingOf(l, first, end, size)
  {
    forall i | 0 <= i < |l.servers| ensures Between(first, l.servers[i], end) { assert i == 0 || i == 1; }
    forall i, k: Key | 0 <= i < |l.servers| ensures k in l.ranks[i] <==> k.kind == l.kind && View(l.servers[i], k).Some? {
      assert i == 0 || i == 1;
    }
  }

  lemma OthersListed(size: nat, kind: Kind)
    requires size >= 1 && PagedKind(kind) && kind != Goal
    ensures ListingOf(ListingFor(kind, size), First(size), Ended(size), size)
  {
    NothingServed(size);
    Servers(size);
    AccountIs(size);
    forall k: Key | k.kind == kind ensures View(First(size), k).None? { assert k !in Account(size); }
  }

  function GotKeys(size: nat): seq<Key> {
    Names(Goal, size) + Names(Tag, TAG_LIMIT)
  }

  lemma ListedHere(size: nat, k: Key)
    requires size >= 1 && PagedKind(k.kind)
    ensures Listed(ReadsOf(size), k) <==> k in Names(Goal, size)
  {
    GoalsServed(size);
    NothingServed(size);
  }

  lemma FetchedHere(size: nat, k: Key)
    requires size >= 1
    ensures Fetched(ReadsOf(size), Ended(size), k) <==> k in GotKeys(size)
  {
    var r := ReadsOf(size);
    if PagedKind(k.kind) {
      ListedHere(size, k);
    } else if Child(k) {
      ListedHere(size, Mover(size));
    } else if k.kind == Tag {
      TagsHere(size, k);
    } else {
      OnlyMoverWritten(size, k);
      AccountIs(size);
    }
  }

  lemma TagsHere(size: nat, k: Key)
    requires size >= 1 && k.kind == Tag
    ensures BeyondTagLimit(ReadsOf(size), k) <==> k == LAST_TAG
    ensures k in Names(Tag, TAG_LIMIT + 1) <==> k in Names(Tag, TAG_LIMIT) || k == LAST_TAG
  {
    var tags := Names(Tag, TAG_LIMIT + 1);
    assert tags[TAG_LIMIT..] == [LAST_TAG];
    assert tags[TAG_LIMIT] == LAST_TAG;
    NamesHold(Tag, TAG_LIMIT, k);
    NamesHold(Tag, TAG_LIMIT + 1, k);
  }

  lemma TagsListedHere(size: nat)
    requires size >= 1
    ensures TagsListed(ReadsOf(size)) && Between(First(size), First(size), Ended(size))
  {
    Servers(size);
    AccountIs(size);
    forall k ensures k in Names(Tag, TAG_LIMIT + 1) <==> k.kind == Tag && View(First(size), k).Some? {
      assert View(First(size), k) == if k in Account(size) then Some(Entity(1, "x")) else None;
    }
  }

  /** The reads make up a snapshot, which holds a page of goals and the first 500 tags. */
  lemma SnapshotHere(size: nat)
    requires size >= 1
    ensures SnapshotOf(ReadsOf(size), First(size), Ended(size), size, set k | k in GotKeys(size))
  {
    var r := ReadsOf(size);
    Servers(size);
    TagsListedHere(size);
    forall kind ensures KindListed(r, kind, First(size), Ended(size), size) {
      if kind == Goal { GoalsListed(size); } else if PagedKind(kind) { OthersListed(size, kind); }
    }
    forall p ensures DetailsRead(r, p, First(size), Ended(size)) {
      if PagedKind(p.kind) { ListedHere(size, p); }
    }
    forall k ensures Fetched(r, Ended(size), k) <==> k in GotKeys(size) { FetchedHere(size, k); }
  }

  lemma HierarchyHere(size: nat, k: Key)
    requires size >= 1
    ensures Hierarchy(ReadsOf(size), First(size), Ended(size), k)
  {
    OnlyMoverWritten(size, k);
    OnlyMoverWritten(size, Mover(size));
    MoverIsLive(size);
    AccountIs(size);
  }
}
