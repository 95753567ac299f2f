/** The search for all descendants of a process in a table of processes. */
module ProcessTree {

  /** One line of the process table. */
  datatype Entry = Entry(pid: int, parent: int)

  /** The pids listed under a parent, in table order. */
  function ChildrenOf(table: seq<Entry>, parent: int): seq<int> {
    if table == [] then []
    else
      var last := table[|table| - 1];
      ChildrenOf(table[..|table| - 1], parent) + (if last.parent == parent then [last.pid] else [])
  }

  lemma {:induction false} ChildrenAreListed(table: seq<Entry>, parent: int, pid: int)
    ensures pid in ChildrenOf(table, parent) <==> Entry(pid, parent) in table
  {
    if table != [] {
      var init, last := table[..|table| - 1], table[|table| - 1];
      ChildrenAreListed(init, parent, pid);
      assert table == init + [last];
    }
  }

  /** A chain of parent-to-child lines from `root` down to the last pid. */
  predicate Chain(table: seq<Entry>, root: int, path: seq<int>) {
    && path != []
    && Entry(path[0], root) in table
    && forall i :: 0 < i < |path| ==> Entry(path[i], path[i - 1]) in table
  }

  /** Reachable by one or more lines of the table. */
  ghost predicate Descends(table: seq<Entry>, root: int, pid: int) {
    exists path :: Chain(table, root, path) && path[|path| - 1] == pid
  }

  function Children(children: map<int, seq<int>>, pid: int): seq<int> {
    if pid in children then children[pid] else []
  }

  /** The dictionary from parents to their listed children. */
  method GroupByParent(table: seq<Entry>) returns (children: map<int, seq<int>>)
    ensures forall p :: Children(children, p) == ChildrenOf(table, p)
  {
    children := map[];
    for i := 0 to |table|
      invariant forall p :: Children(children, p) == ChildrenOf(table[..i], p)
    {
      assert table[..i + 1][..i] == table[..i];
      var entry := table[i];
      children := children[entry.parent := Children(children, entry.parent) + [entry.pid]];
    }
    assert table[..|table|] == table;
  }

  lemma FirstStep(table: seq<Entry>, root: int, pid: int)
    requires Entry(pid, root) in table
    ensures Descends(table, root, pid)
  {
    assert Chain(table, root, [pid]);
  }

  lemma OneStepMore(table: seq<Entry>, root: int, pid: int, child: int)
    requires Descends(table, root, pid) && Entry(child, pid) in table
    ensures Descends(table, root, child)
  {
    var path :| Chain(table, root, path) && path[|path| - 1] == pid;
    assert Chain(table, root, path + [child]);
  }

  /** A set that holds the children of the root and of its own members holds every descendant. */
  lemma {:induction false} ClosedHoldsAll(table: seq<Entry>, root: int, found: set<int>, path: seq<int>)
    requires forall e :: e in table && (e.parent == root || e.parent in found) ==> e.pid in found
    requires Chain(table, root, path)
    ensures path[|path| - 1] in found
    decreases |path|
  {
    var n := |path| - 1;
    if n > 0 {
      ClosedHoldsAll(table, root, found, path[..n]);
      assert Entry(path[n], path[n - 1]) in table;
    }
  }

  /** Everything found or waiting descends from the root, and every line out of the root or a found pid leads to
      a pid found or waiting. */
  ghost predicate Progress(table: seq<Entry>, root: int, found: set<int>, stack: seq<int>) {
    && (forall pid :: pid in found || pid in stack ==> Descends(table, root, pid))
    && (forall e :: e in table && (e.parent == root || e.parent in found) ==> e.pid in found || e.pid in stack)
    && found <= Pids(table)
    && (forall pid :: pid in stack ==> pid in Pids(table))
  }

  function Pids(table: seq<Entry>): set<int> {
    set e | e in table :: e.pid
  }

  lemma Begin(table: seq<Entry>, root: int, stack: seq<int>)
    requires stack == ChildrenOf(table, root)
    ensures Progress(table, root, {}, stack)
  {
    forall pid ensures pid in stack <==> Entry(pid, root) in table {
      ChildrenAreListed(table, root, pid);
    }
    forall pid | pid in stack ensures Descends(table, root, pid) && pid in Pids(table) {
      FirstStep(table, root, pid);
    }
    forall e | e in table && e.parent == root ensures e.pid in stack {
      assert e == Entry(e.pid, root);
    }
  }

  lemma SkipFound(table: seq<Entry>, root: int, found: set<int>, stack: seq<int>, pid: int)
    requires Progress(table, root, found, stack + [pid]) && pid in found
    ensures Progress(table, root, found, stack)
  {
  }

  lemma Visit(table: seq<Entry>, root: int, found: set<int>, stack: seq<int>, pid: int, below: seq<int>)
    requires Progress(table, root, found, stack + [pid]) && below == ChildrenOf(table, pid)
    ensures Progress(table, root, found + {pid}, stack + below)
  {
    hide Descends;
    assert pid in stack + [pid];
    forall p ensures p in below <==> Entry(p, pid) in table {
      ChildrenAreListed(table, pid, p);
    }
    forall p | p in below ensures Descends(table, root, p) && p in Pids(table) {
      OneStepMore(table, root, pid, p);
    }
    forall e | e in table && (e.parent == root || e.parent in found + {pid})
      ensures e.pid in found + {pid} || e.pid in stack + below
    {
      if e.parent == pid {
        assert e == Entry(e.pid, pid);
      }
    }
  }

  ghost function Unvisited(table: seq<Entry>, found: set<int>): nat {
    |Pids(table) - found|
  }

  /** The pids found are exactly those that descend from the root, whatever the table: cycles, self-parents and
      repeated lines included. */
  method ProcessDescendants(table: seq<Entry>, root: int) returns (descendants: set<int>)
    ensures forall pid :: pid in descendants <==> Descends(table, root, pid)
  {
    hide *;
    var children := GroupByParent(table);
    descendants := {};
    var stack := Children(children, root);
    Begin(table, root, stack);
    while stack != []
      invariant Progress(table, root, descendants, stack)
      decreases Unvisited(table, descendants), |stack|
    {
      var pid := stack[|stack| - 1];
      ghost var before := stack;
      stack := stack[..|stack| - 1];
      assert before == stack + [pid];
      if pid in descendants {
        SkipFound(table, root, descendants, stack, pid);
        continue;
      }
      var below := Children(children, pid);
      Visit(table, root, descendants, stack, pid, below);
      Fewer(table, root, descendants, stack, pid);
      descendants := descendants + {pid};
      stack := stack + below;
    }
    Exactly(table, root, descendants);
  }

  lemma Exactly(table: seq<Entry>, root: int, found: set<int>)
    requires Progress(table, root, found, [])
    ensures forall pid :: pid in found <==> Descends(table, root, pid)
  {
    forall pid ensures pid in found <==> Descends(table, root, pid) {
      if Descends(table, root, pid) {
        var path :| Chain(table, root, path) && path[|path| - 1] == pid;
        ClosedHoldsAll(table, root, found, path);
      }
    }
  }

  lemma Fewer(table: seq<Entry>, root: int, found: set<int>, stack: seq<int>, pid: int)
    requires Progress(table, root, found, stack + [pid]) && pid !in found
    ensures Unvisited(table, found + {pid}) < Unvisited(table, found)
  {
    hide Descends;
    assert pid in stack + [pid];
    assert Pids(table) - (found + {pid}) == (Pids(table) - found) - {pid};
  }
}
