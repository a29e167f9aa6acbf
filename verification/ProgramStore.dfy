/** The program store: the ledger tables as mutable state, written by transactions that commit whole or not at all. */
module ProgramStore {
  import opened Prelude
  import opened Text
  import opened LedgerModel
  import opened ParentsFirst
  import Listing

  function LedgerAfter(before: Ledger, r: Result<Ledger, LedgerError>): Ledger {
    match r case Ok(ledger) => ledger case Err(_) => before
  }

  function ErrorOf(r: Result<Ledger, LedgerError>): Option<LedgerError> {
    match r case Ok(_) => None case Err(e) => Some(e)
  }

  class Store {
    var programs: Ledger

    constructor ()
      ensures programs == map[]
    {
      programs := map[];
    }

    /** Insert the nodes into an existing program one by one; on an id collision restore the state before the batch. */
    method InsertNodes(pid: string, inputs: seq<NodeInput>) returns (inserted: bool)
      requires pid in programs
      modifies this
      ensures inserted <==> InsertAll(old(programs)[pid].rows, inputs).Some?
      ensures inserted ==>
        programs == old(programs)[pid := old(programs)[pid].(rows := InsertAll(old(programs)[pid].rows, inputs).value)]
      ensures !inserted ==> programs == old(programs)
    {
      var saved := programs;
      for i := 0 to |inputs|
        invariant pid in programs
        invariant InsertAll(saved[pid].rows, inputs[..i]) == Some(programs[pid].rows)
        invariant programs == saved[pid := saved[pid].(rows := programs[pid].rows)]
      {
        assert inputs[..i + 1][..i] == inputs[..i];
        if inputs[i].nodeId in programs[pid].rows {
          CollisionPersists(saved[pid].rows, inputs, i + 1);
          programs := saved;
          return false;
        }
        programs := SetRow(programs, pid, inputs[i].nodeId, NewRow(inputs[i]));
      }
      assert inputs[..|inputs|] == inputs;
      return true;
    }

    method CreateProgram(pid: string, goal: string, inputs: seq<NodeInput>) returns (error: Option<LedgerError>)
      modifies this
      ensures var r := LedgerModel.CreateProgram(old(programs), pid, goal, inputs);
              programs == LedgerAfter(old(programs), r) && error == ErrorOf(r)
    {
      if pid in programs { return Some(DuplicateProgram); }
      var saved := programs;
      programs := programs[pid := Program(goal, map[])];
      var inserted := InsertNodes(pid, inputs);
      if !inserted {
        programs := saved;
        return Some(DuplicateNode);
      }
      return None;
    }

    method AddNodes(pid: string, inputs: seq<NodeInput>) returns (error: Option<LedgerError>)
      modifies this
      ensures var r := LedgerModel.AddNodes(old(programs), pid, inputs);
              programs == LedgerAfter(old(programs), r) && error == ErrorOf(r)
    {
      if pid !in programs { return Some(UnknownProgram); }
      if HasOrphan(programs[pid].rows, inputs) { return Some(UnknownNode); }
      var inserted := InsertNodes(pid, inputs);
      if !inserted { return Some(DuplicateNode); }
      return None;
    }

    method AdvanceNode(pid: string, nid: string, to: Rung, issueRef: Option<string>)
      returns (error: Option<LedgerError>)
      modifies this
      ensures var r := LedgerModel.AdvanceNode(old(programs), pid, nid, to, issueRef);
              programs == LedgerAfter(old(programs), r) && error == ErrorOf(r)
    {
      if pid !in programs || nid !in programs[pid].rows { return Some(UnknownNode); }
      match AdvanceRow(programs[pid].rows[nid], to, issueRef)
      case Err(e) => return Some(e);
      case Ok(row) =>
        programs := SetRow(programs, pid, nid, row);
        return None;
    }

    /** A program's rows by ascending id. */
    method ListNodes(pid: string) returns (nodes: seq<NodeRow>)
      requires pid in programs
      ensures nodes == Listing.ListNodes(programs[pid].rows)
    {
      var rows := programs[pid].rows;
      var rest := rows.Keys;
      nodes := [];
      while rest != {}
        invariant rest <= rows.Keys && ListedSoFar(rows, nodes, rest)
        decreases |rest|
      {
        Listing.SomeLeast(rest);
        var m :| m in rest && Listing.IsLeast(rest, m);
        ListOneMore(rows, nodes, rest, m);
        nodes := nodes + [NodeRow(m, rows[m])];
        rest := rest - {m};
      }
      ListingIsUnique(rows, nodes);
    }
  }

  /** A listing of the ids outside `rest`, all of which sort before `rest`. */
  predicate ListedSoFar(rows: Rows, nodes: seq<NodeRow>, rest: set<string>) {
    && Listing.IsListing(rows, nodes)
    && IdSet(nodes) == rows.Keys - rest
    && forall i, x :: 0 <= i < |nodes| && x in rest ==> Less(nodes[i].nodeId, x)
  }

  lemma ListOneMore(rows: Rows, nodes: seq<NodeRow>, rest: set<string>, m: string)
    requires rest <= rows.Keys && ListedSoFar(rows, nodes, rest) && Listing.IsLeast(rest, m)
    ensures ListedSoFar(rows, nodes + [NodeRow(m, rows[m])], rest - {m})
  {
    IdSetSnoc(nodes, NodeRow(m, rows[m]));
  }

  lemma {:induction false} CollisionPersists(rows: Rows, inputs: seq<NodeInput>, i: nat)
    requires i <= |inputs| && InsertAll(rows, inputs[..i]).None?
    ensures InsertAll(rows, inputs).None?
    decreases |inputs| - i
  {
    if i == |inputs| {
      assert inputs[..i] == inputs;
    } else {
      assert inputs[..i + 1][..i] == inputs[..i];
      CollisionPersists(rows, inputs, i + 1);
    }
  }

  lemma ListingIsUnique(rows: Rows, nodes: seq<NodeRow>)
    requires Listing.IsListing(rows, nodes) && IdSet(nodes) == rows.Keys
    ensures nodes == Listing.ListNodes(rows)
  {
    Listing.ListingIsListing(rows);
    Listing.SameListing(rows, nodes, Listing.ListNodes(rows));
  }
}
