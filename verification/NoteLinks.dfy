/** Replacing the links of a note: each desired relation ends up there exactly once, and those already there keep their
    row. The unique constraint on relations makes the links of a note a map. */
module NoteLinks {

  type Id = string

  datatype Relation = Relation(targetType: string, target: Id, relationType: string)
  datatype Link = Link(id: Id, relation: Relation)

  /** The last link of a list for each relation. */
  function Desired(links: seq<Link>): (r: map<Relation, Id>)
    ensures forall k :: k in r <==> exists i :: 0 <= i < |links| && links[i].relation == k
  {
    if links == [] then map[]
    else
      var init, last := links[..|links| - 1], links[|links| - 1];
      assert forall i :: 0 <= i < |init| ==> init[i] == links[i];
      Desired(init)[last.relation := last.id]
  }

  function Replaced(existing: map<Relation, Id>, links: seq<Link>): map<Relation, Id> {
    var desired := Desired(links);
    map k | k in desired :: if k in existing then existing[k] else desired[k]
  }

  method CollectDesired(links: seq<Link>) returns (desired: map<Relation, Id>)
    ensures desired == Desired(links)
  {
    desired := map[];
    for i := 0 to |links|
      invariant desired == Desired(links[..i])
    {
      assert links[..i + 1][..i] == links[..i];
      desired := desired[links[i].relation := links[i].id];
    }
    assert links[..|links|] == links;
  }

  /** The first loop: rows that are wanted stay and are crossed off, the others are deleted. */
  method KeepWanted(existing: map<Relation, Id>, wanted: map<Relation, Id>) returns (rows: map<Relation, Id>, missing: map<Relation, Id>)
    ensures rows == map k | k in existing && k in wanted :: existing[k]
    ensures missing == wanted - existing.Keys
  {
    rows, missing := existing, wanted;
    var done: set<Relation> := {};
    while done != existing.Keys
      invariant done <= existing.Keys
      invariant missing == wanted - done
      invariant rows == map k | k in existing && (k !in done || k in wanted) :: existing[k]
      decreases |existing.Keys - done|
    {
      var key :| key in existing.Keys - done;
      if key in missing {
        missing := missing - {key};
      } else {
        rows := rows - {key};
      }
      done := done + {key};
    }
  }

  /** The second loop: what is still missing is created. */
  method CreateMissing(kept: map<Relation, Id>, missing: map<Relation, Id>) returns (rows: map<Relation, Id>)
    requires kept.Keys !! missing.Keys
    ensures rows == kept + missing
  {
    rows := kept;
    var left := missing;
    while left != map[]
      invariant rows.Keys !! left.Keys && rows + left == kept + missing
      decreases left.Keys
    {
      var key :| key in left.Keys;
      var value, rest := left[key], left - {key};
      MoveOne(rows, left, key);
      rows, left := rows[key := value], rest;
    }
  }

  lemma MoveOne(rows: map<Relation, Id>, left: map<Relation, Id>, key: Relation)
    requires rows.Keys !! left.Keys && key in left
    ensures rows[key := left[key]].Keys !! (left - {key}).Keys
    ensures rows[key := left[key]] + (left - {key}) == rows + left
    ensures (left - {key}).Keys == left.Keys - {key}
  {
    assert left == (left - {key})[key := left[key]];
  }

  method ReplaceNoteLinks(existing: map<Relation, Id>, links: seq<Link>) returns (rows: map<Relation, Id>)
    ensures rows == Replaced(existing, links)
  {
    var wanted := CollectDesired(links);
    var kept, missing := KeepWanted(existing, wanted);
    rows := CreateMissing(kept, missing);
  }

  /** Replacing again by the same relations, under whatever new ids, changes no row. */
  lemma ReplacingAgainKeepsRows(existing: map<Relation, Id>, links: seq<Link>, again: seq<Link>)
    requires Desired(again).Keys == Desired(links).Keys
    ensures Replaced(Replaced(existing, links), again) == Replaced(existing, links)
  {
    assert forall k :: k in Desired(again) <==> k in Desired(again).Keys;
    assert forall k :: k in Desired(links) <==> k in Desired(links).Keys;
  }

  /** The links afterwards are exactly the desired ones; those that were there keep their row, and a new one has the row
      of the last link that asks for it. */
  lemma {:induction false} RowsAre(existing: map<Relation, Id>, links: seq<Link>, i: nat)
    requires i < |links| && forall j :: i < j < |links| ==> links[j].relation != links[i].relation
    ensures links[i].relation in Replaced(existing, links)
    ensures Replaced(existing, links)[links[i].relation]
            == if links[i].relation in existing then existing[links[i].relation] else links[i].id
    ensures forall k :: k in Replaced(existing, links) <==> exists j :: 0 <= j < |links| && links[j].relation == k
  {
    LastAsks(links, i);
  }

  lemma {:induction false} LastAsks(links: seq<Link>, i: nat)
    requires i < |links| && forall j :: i < j < |links| ==> links[j].relation != links[i].relation
    ensures links[i].relation in Desired(links) && Desired(links)[links[i].relation] == links[i].id
  {
    var init := links[..|links| - 1];
    if i < |init| {
      assert init[i] == links[i] && forall j :: i < j < |init| ==> init[j] == links[j];
      LastAsks(init, i);
    }
  }

  lemma ReplacedIs(existing: map<Relation, Id>, links: seq<Link>, keys: set<Relation>)
    requires Desired(links).Keys == keys
    ensures Replaced(existing, links).Keys == keys
    ensures forall k :: k in keys && k in existing ==> Replaced(existing, links)[k] == existing[k]
  {
    assert forall k :: k in Desired(links) <==> k in Desired(links).Keys;
  }

  lemma AddedIs(existing: map<Relation, Id>, all: seq<Link>, extra: Link)
    requires Desired(all).Keys == existing.Keys && extra.relation !in existing
    ensures Replaced(existing, all + [extra]).Keys == existing.Keys + {extra.relation}
    ensures forall k :: k in existing ==> Replaced(existing, all + [extra])[k] == existing[k]
  {
    assert (all + [extra])[..|all|] == all;
    ReplacedIs(existing, all + [extra], existing.Keys + {extra.relation});
  }

  /** Adding one link and then replacing by the old relations gives back the old rows. */
  lemma AddThenRestore(existing: map<Relation, Id>, all: seq<Link>, extra: Link, restored: seq<Link>)
    requires Desired(all).Keys == existing.Keys && extra.relation !in existing
    requires Desired(restored).Keys == existing.Keys
    ensures Replaced(existing, all + [extra]).Keys == existing.Keys + {extra.relation}
    ensures Replaced(Replaced(existing, all + [extra]), restored) == existing
  {
    AddedIs(existing, all, extra);
    RestoredIs(existing, Replaced(existing, all + [extra]), restored);
  }

  lemma RestoredIs(existing: map<Relation, Id>, grown: map<Relation, Id>, restored: seq<Link>)
    requires existing.Keys <= grown.Keys && forall k :: k in existing ==> k in grown && grown[k] == existing[k]
    requires Desired(restored).Keys == existing.Keys
    ensures Replaced(grown, restored) == existing
  {
    ReplacedIs(grown, restored, existing.Keys);
  }
}
