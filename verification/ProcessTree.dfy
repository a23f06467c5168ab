/** Finding a process's descendants in a table of parents (`descendants` in scripts/verify-native-live.py). */
module ProcessTree {
  /** Process to parent; parents need not be in the table, and the table may contain cycles. */
  type Table = map<int, int>

  /** `path` leads from `pid` to its last element by child steps, at least one of them. */
  ghost predicate ChildPath(pid: int, path: seq<int>, table: Table) {
    && path != []
    && (forall i :: 0 <= i < |path| ==> path[i] in table)
    && table[path[0]] == pid
    && forall i :: 0 < i < |path| ==> table[path[i]] == path[i - 1]
  }

  ghost predicate Descends(pid: int, child: int, table: Table) {
    exists path :: ChildPath(pid, path, table) && path[|path| - 1] == child
  }

  lemma ChildDescends(pid: int, parent: int, child: int, table: Table)
    requires child in table && table[child] == parent && (parent == pid || Descends(pid, parent, table))
    ensures Descends(pid, child, table)
  {
    var path := [];
    if parent != pid {
      path :| ChildPath(pid, path, table) && path[|path| - 1] == parent;
    }
    assert ChildPath(pid, path + [child], table) && (path + [child])[|path|] == child;
  }

  ghost predicate Closed(pid: int, table: Table, found: set<int>) {
    forall child :: child in table ==> table[child] == pid || table[child] in found ==> child in found
  }

  /** A set closed under children of `pid` and of itself holds the whole path. */
  lemma {:induction false} ClosedHoldsPath(pid: int, path: seq<int>, table: Table, found: set<int>)
    requires ChildPath(pid, path, table)
    requires Closed(pid, table, found)
    ensures path[|path| - 1] in found
  {
    var last := |path| - 1;
    if last > 0 {
      assert ChildPath(pid, path[..last], table);
      ClosedHoldsPath(pid, path[..last], table, found);
      assert table[path[last]] == path[last - 1] == path[..last][last - 1];
    }
    var child: int := path[last];
    assert child in table && (table[child] == pid || table[child] in found);
  }

  /** The search ends on every finite table and returns exactly the processes reached by one or more
      child steps; the process itself is among them only if it is its own descendant. */
  method Descendants(pid: int, table: Table) returns (found: set<int>)
    ensures forall child :: child in found <==> Descends(pid, child, table)
  {
    found := {};
    var frontier := {pid};
    while frontier != {}
      invariant found <= table.Keys && frontier <= found + {pid}
      invariant forall child :: child in found ==> Descends(pid, child, table)
      invariant forall child ::
                  child in table && (table[child] == pid || table[child] in found) && table[child] !in frontier ==>
                    child in found
      decreases table.Keys - found, if frontier == {} then 0 else 1
    {
      var next := (set child | child in table && table[child] in frontier) - found;
      forall child | child in next ensures Descends(pid, child, table) {
        ChildDescends(pid, table[child], child, table);
      }
      assert next <= table.Keys - found;
      assert next != {} ==> table.Keys - (found + next) < table.Keys - found;
      frontier := next;
      found := found + frontier;
    }
    assert Closed(pid, table, found);
    forall child | Descends(pid, child, table) ensures child in found {
      var path :| ChildPath(pid, path, table) && path[|path| - 1] == child;
      ClosedHoldsPath(pid, path, table, found);
    }
  }
}
