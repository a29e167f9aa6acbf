/** `listNodes`: a program's rows in ascending id order, and why that order is already parents-first. */
module Listing {
  import opened Text
  import opened Scrum
  import opened LedgerTree
  import opened LedgerModel
  import opened ParentsFirst

  predicate IsLeast(ids: set<string>, m: string) {
    m in ids && forall x :: x in ids ==> x == m || Less(m, x)
  }

  lemma {:induction false} LeastExists(ids: set<string>) returns (m: string)
    requires ids != {}
    ensures IsLeast(ids, m)
    decreases |ids|
  {
    var x :| x in ids;
    assert ids == {x} + (ids - {x});
    if ids - {x} == {} {
      m := x;
    } else {
      var y := LeastExists(ids - {x});
      LessTotal(x, y);
      m := if Less(x, y) then x else y;
      forall z | z in ids && z != m
        ensures Less(m, z)
      {
        if m == x && z != y { LessTransitive(x, y, z); }
      }
    }
  }

  lemma SomeLeast(ids: set<string>)
    requires ids != {}
    ensures exists m :: IsLeast(ids, m)
  {
    var m := LeastExists(ids);
  }

  ghost function SortedIds(ids: set<string>): seq<string>
    decreases |ids|
  {
    if ids == {} then []
    else
      SomeLeast(ids);
      var m :| IsLeast(ids, m);
      [m] + SortedIds(ids - {m})
  }

  lemma {:induction false} SortedIdsAscend(ids: set<string>)
    ensures Ascending(SortedIds(ids))
    ensures forall x :: x in SortedIds(ids) <==> x in ids
    decreases |ids|
  {
    if ids != {} {
      SomeLeast(ids);
      var m :| IsLeast(ids, m) && SortedIds(ids) == [m] + SortedIds(ids - {m});
      SortedIdsAscend(ids - {m});
      AscendPrepend(m, SortedIds(ids - {m}));
    }
  }

  lemma AscendPrepend(m: string, rest: seq<string>)
    requires Ascending(rest) && forall x :: x in rest ==> Less(m, x)
    ensures Ascending([m] + rest)
    ensures forall x :: x in [m] + rest <==> x == m || x in rest
  {}

  function RowsAt(rows: Rows, ids: seq<string>): (r: seq<NodeRow>)
    requires forall x :: x in ids ==> x in rows
    ensures |r| == |ids| && forall i :: 0 <= i < |ids| ==> r[i] == NodeRow(ids[i], rows[ids[i]])
  {
    seq(|ids|, i requires 0 <= i < |ids| => NodeRow(ids[i], rows[ids[i]]))
  }

  ghost function ListNodes(rows: Rows): seq<NodeRow> {
    SortedIdsAscend(rows.Keys);
    RowsAt(rows, SortedIds(rows.Keys))
  }

  predicate InRung(n: NodeRow, state: Rung) { n.row.state == state }

  /** `Array.prototype.filter` on the rung. */
  function WithState(nodes: seq<NodeRow>, state: Rung): seq<NodeRow> {
    if nodes == [] then []
    else
      WithState(nodes[..|nodes| - 1], state) +
      (if InRung(nodes[|nodes| - 1], state) then [nodes[|nodes| - 1]] else [])
  }

  /** Ascending ids, each with its stored row. */
  predicate IsListing(rows: Rows, nodes: seq<NodeRow>) {
    && (forall i, j :: 0 <= i < j < |nodes| ==> Less(nodes[i].nodeId, nodes[j].nodeId))
    && (forall i :: 0 <= i < |nodes| ==> nodes[i].nodeId in rows && rows[nodes[i].nodeId] == nodes[i].row)
  }

  lemma ListingIsListing(rows: Rows)
    ensures IsListing(rows, ListNodes(rows))
    ensures forall n :: n in rows ==> NodeRow(n, rows[n]) in ListNodes(rows)
    ensures IdSet(ListNodes(rows)) == rows.Keys
  {
    var ids := SortedIds(rows.Keys);
    SortedIdsAscend(rows.Keys);
    forall n | n in rows
      ensures NodeRow(n, rows[n]) in ListNodes(rows) && n in IdSet(ListNodes(rows))
    {
      var i :| 0 <= i < |ids| && ids[i] == n;
      assert ListNodes(rows)[i] == NodeRow(n, rows[n]);
    }
  }

  lemma {:induction false} SelectionOfListing(rows: Rows, nodes: seq<NodeRow>, state: Rung)
    requires IsListing(rows, nodes)
    ensures IsListing(rows, WithState(nodes, state))
    ensures forall n :: n in WithState(nodes, state) <==> n in nodes && InRung(n, state)
  {
    if nodes != [] {
      var init, last := nodes[..|nodes| - 1], nodes[|nodes| - 1];
      SelectionOfListing(rows, init, state);
      assert nodes == init + [last];
      forall i | 0 <= i < |WithState(init, state)|
        ensures Less(WithState(init, state)[i].nodeId, last.nodeId)
      {
        assert WithState(init, state)[i] in init;
      }
    }
  }

  /** Selecting a rung from the listing selects exactly the rows on it. */
  lemma SelectedRows(rows: Rows, state: Rung)
    ensures IsListing(rows, WithState(ListNodes(rows), state))
    ensures forall n :: n in rows && rows[n].state == state <==> n in IdSet(WithState(ListNodes(rows), state))
    ensures forall i :: 0 <= i < |WithState(ListNodes(rows), state)| ==>
      WithState(ListNodes(rows), state)[i].row.state == state
  {
    var all, selected := ListNodes(rows), WithState(ListNodes(rows), state);
    ListingIsListing(rows);
    SelectionOfListing(rows, all, state);
    forall i | 0 <= i < |selected|
      ensures selected[i].row.state == state
    {
      assert selected[i] in selected && InRung(selected[i], state);
    }
    forall n | n in rows && rows[n].state == state
      ensures n in IdSet(selected)
    {
      assert NodeRow(n, rows[n]) in all && InRung(NodeRow(n, rows[n]), state);
      var i :| 0 <= i < |selected| && selected[i] == NodeRow(n, rows[n]);
    }
  }

  function IdsOf(nodes: seq<NodeRow>): (r: seq<string>)
    ensures |r| == |nodes| && forall i :: 0 <= i < |r| ==> r[i] == nodes[i].nodeId
  {
    seq(|nodes|, i requires 0 <= i < |nodes| => nodes[i].nodeId)
  }

  lemma IdsAreTheSet(nodes: seq<NodeRow>)
    ensures forall x :: x in IdsOf(nodes) <==> x in IdSet(nodes)
  {
    forall x | x in IdSet(nodes)
      ensures x in IdsOf(nodes)
    {
      var i :| 0 <= i < |nodes| && nodes[i].nodeId == x;
      assert IdsOf(nodes)[i] == x;
    }
  }

  /** Ascending and with the stored rows: the ids pin a listing down. */
  lemma SameListing(rows: Rows, a: seq<NodeRow>, b: seq<NodeRow>)
    requires IsListing(rows, a) && IsListing(rows, b) && IdSet(a) == IdSet(b)
    ensures a == b
  {
    IdsAreTheSet(a);
    IdsAreTheSet(b);
    AscendingIsUnique(IdsOf(a), IdsOf(b));
    forall i | 0 <= i < |a|
      ensures a[i] == b[i]
    {
      assert IdsOf(a)[i] == IdsOf(b)[i];
    }
  }

  lemma ListingIsDistinct(rows: Rows, nodes: seq<NodeRow>)
    requires IsListing(rows, nodes)
    ensures DistinctNodes(nodes)
  {
    forall i, j | 0 <= i < j < |nodes|
      ensures nodes[i].nodeId != nodes[j].nodeId
    {
      if nodes[i].nodeId == nodes[j].nodeId { LessIrreflexive(nodes[i].nodeId); }
    }
  }

  lemma ChildSortsLater(p: string, k: nat)
    ensures Less(p, ChildId(p, k))
  {
    assert ChildId(p, k) == p + ("." + Decimal(k));
    PrefixIsLess(p, "." + Decimal(k));
  }

  /** A stored id is its parent's id, a dot and a number from 1 on; so the parent sorts earlier. */
  lemma ParentSortsEarlier(pid: string, tree: Tree, n: string)
    requires TreeOk(pid, tree) && n in tree && n != pid
    ensures tree[n].parentId.Some? && tree[n].parentId.value in tree
    ensures exists k: nat :: k > 0 && n == ChildId(tree[n].parentId.value, k)
    ensures Less(tree[n].parentId.value, n)
  {
    assert LinkOk(tree, n) && NodeOk(tree, n) && NodeOk(tree, tree[n].parentId.value);
    var p := tree[n].parentId.value;
    var k: nat :| IsChild(tree[p].task, tree[n].task, k);
    ChildSortsLater(p, k + 1);
    assert n == ChildId(p, k + 1);
  }

  /** Any ascending selection of a well-formed program is parents-first already. */
  lemma ListingIsParentsFirst(pid: string, rows: Rows, nodes: seq<NodeRow>)
    requires TreeOk(pid, Skeleton(rows)) && IsListing(rows, nodes)
    ensures AlreadyOrdered(nodes)
  {
    ListingIsDistinct(rows, nodes);
    forall i | 0 <= i < |nodes|
      ensures ParentBefore(nodes, nodes, i)
    {
      if ParentInSet(nodes, nodes[i]) {
        var j :| 0 <= j < |nodes| && nodes[j].nodeId == nodes[i].row.parentId.value;
        assert Skeleton(rows)[nodes[i].nodeId].parentId == nodes[i].row.parentId;
        ParentSortsEarlier(pid, Skeleton(rows), nodes[i].nodeId);
        LessIrreflexive(nodes[i].nodeId);
        if i < j { LessTransitive(nodes[i].nodeId, nodes[j].nodeId, nodes[i].nodeId); }
        assert j < i;
      }
    }
  }

  /** So the parents-first ordering leaves the planned sublist of any well-formed program as it is. */
  lemma OrderIsIdentityOnPrograms(pid: string, rows: Rows, state: Rung)
    requires ProgramOk(pid, rows)
    ensures OrderOf(WithState(ListNodes(rows), state)) == WithState(ListNodes(rows), state)
  {
    ListingIsListing(rows);
    SelectionOfListing(rows, ListNodes(rows), state);
    ListingIsParentsFirst(pid, rows, WithState(ListNodes(rows), state));
    OrderedIsUnchanged(WithState(ListNodes(rows), state));
  }
}
