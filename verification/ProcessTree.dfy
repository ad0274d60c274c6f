/** Descendants of a process, found by a recursive walk over a parent table with a
    shared `seen` map (internal/native/process_model_linux.go:87-129). */
module ProcessTree {

  datatype ProcInfo = ProcInfo(pid: int, ppid: int, args: seq<string>)

  datatype Observed = Observed(pid: int, ppid: int, kind: string, args: seq<string>)

  ghost predicate Edge(procs: seq<ProcInfo>, parent: int, child: int)
  {
    exists p :: p in procs && p.ppid == parent && p.pid == child
  }

  ghost predicate IsPath(procs: seq<ProcInfo>, path: seq<int>)
  {
    forall i :: 0 <= i < |path| - 1 ==> Edge(procs, path[i], path[i + 1])
  }

  /** `pid` can be reached from `root` by one or more child edges. */
  ghost predicate Descendant(procs: seq<ProcInfo>, root: int, pid: int)
  {
    exists path :: |path| >= 2 && path[0] == root && path[|path| - 1] == pid && IsPath(procs, path)
  }

  lemma EdgeIsDescendant(procs: seq<ProcInfo>, a: int, b: int)
    requires Edge(procs, a, b)
    ensures Descendant(procs, a, b)
  {
    assert IsPath(procs, [a, b]);
  }

  lemma DescendantAfterEdge(procs: seq<ProcInfo>, a: int, b: int, c: int)
    requires Edge(procs, a, b) && Descendant(procs, b, c)
    ensures Descendant(procs, a, c)
  {
    var path :| |path| >= 2 && path[0] == b && path[|path| - 1] == c && IsPath(procs, path);
    assert IsPath(procs, [a] + path);
  }

  /** Every child of `parent` is in the set. */
  ghost predicate ClosedAt(procs: seq<ProcInfo>, pids: set<int>, parent: int)
  {
    forall c :: Edge(procs, parent, c) ==> c in pids
  }

  /** A set that holds the root's children and those of its members holds every
      descendant. */
  lemma {:induction false} ClosedHoldsPath(procs: seq<ProcInfo>, pids: set<int>, root: int, path: seq<int>)
    requires ClosedAt(procs, pids, root) && forall n :: n in pids ==> ClosedAt(procs, pids, n)
    requires |path| >= 2 && path[0] == root && IsPath(procs, path)
    ensures path[|path| - 1] in pids
    decreases |path|
  {
    assert Edge(procs, path[0], path[1]);
    if |path| > 2 {
      assert forall i {:trigger path[1..][i]} :: 0 <= i < |path[1..]| - 1 ==> Edge(procs, path[i + 1], path[i + 1 + 1]);
      ClosedHoldsPath(procs, pids, path[1], path[1..]);
    }
  }

  /** A walk from `parent` that took the set from `before` to `after`. */
  ghost predicate Walked(procs: seq<ProcInfo>, parent: int, before: set<int>, after: set<int>)
  {
    before <= after && forall k :: k in after - before ==> Descendant(procs, parent, k) && ClosedAt(procs, after, k)
  }

  /** A walk goes on with one more child and the walk from that child. */
  lemma WalkedOneMore(procs: seq<ProcInfo>, parent: int, before: set<int>, mid: set<int>, child: int, after: set<int>)
    requires Walked(procs, parent, before, mid) && Edge(procs, parent, child)
    requires Walked(procs, child, mid + {child}, after) && ClosedAt(procs, after, child)
    ensures Walked(procs, parent, before, after)
  {
    forall k | k in after - before
      ensures Descendant(procs, parent, k) && ClosedAt(procs, after, k)
    {
      if k == child {
        EdgeIsDescendant(procs, parent, child);
      } else if k !in mid {
        DescendantAfterEdge(procs, parent, child, k);
      }
    }
  }

  // ----- the walk -----

  /** The children of a pid in table order. */
  function ChildrenOf(procs: seq<ProcInfo>, parent: int): (r: seq<ProcInfo>)
    ensures forall p :: p in r <==> p in procs && p.ppid == parent
  {
    if procs == [] then []
    else
      var front, last := procs[..|procs| - 1], procs[|procs| - 1];
      assert procs == front + [last];
      if last.ppid == parent then ChildrenOf(front, parent) + [last] else ChildrenOf(front, parent)
  }

  ghost function Pids(procs: seq<ProcInfo>): set<int>
  {
    set p | p in procs :: p.pid
  }

  lemma PidsSnoc(procs: seq<ProcInfo>, i: nat)
    requires i < |procs|
    ensures Pids(procs[..i + 1]) == Pids(procs[..i]) + {procs[i].pid}
  {
  }

  class Walker {
    const procs: seq<ProcInfo>
    const kindOf: seq<string> -> string
    var children: map<int, seq<ProcInfo>>
    var seen: map<int, Observed>

    /** The grouping of the table by parent is complete. */
    ghost predicate Grouped()
      reads this
    {
      forall parent ::
        (if parent in children then children[parent] else []) == ChildrenOf(procs, parent)
    }

    function Observe(p: ProcInfo): Observed
    {
      var kind := kindOf(p.args);
      Observed(p.pid, p.ppid, if kind == "" && p.args == [] then "cef-child" else kind, p.args)
    }

    ghost predicate Records()
      reads this
    {
      forall k :: k in seen ==> exists p :: p in procs && p.pid == k && seen[k] == Observe(p)
    }

    constructor (procs: seq<ProcInfo>, kindOf: seq<string> -> string)
      ensures this.procs == procs && this.kindOf == kindOf
      ensures Grouped() && seen == map[]
    {
      this.procs := procs;
      this.kindOf := kindOf;
      seen := map[];
      children := map[];
      new;
      var i := 0;
      while i < |procs|
        invariant 0 <= i <= |procs| && seen == map[] && this.procs == procs && this.kindOf == kindOf
        invariant forall parent ::
          (if parent in children then children[parent] else []) == ChildrenOf(procs[..i], parent)
      {
        var proc := procs[i];
        assert procs[..i + 1][..i] == procs[..i];
        var group := if proc.ppid in children then children[proc.ppid] else [];
        children := children[proc.ppid := group + [proc]];
        i := i + 1;
      }
      assert procs[..i] == procs;
    }

    /** The recursive closure: afterwards `parent` and everything newly seen have all
        their children in `seen`. Terminates on cyclic tables as well. */
    method Walk(parent: int)
      requires Grouped() && Records()
      modifies this`seen
      ensures Records() && forall k :: k in old(seen) ==> k in seen && seen[k] == old(seen[k])
      ensures ClosedAt(procs, seen.Keys, parent) && Walked(procs, parent, old(seen.Keys), seen.Keys)
      decreases Pids(procs) - seen.Keys, 1
    {
      var list := if parent in children then children[parent] else [];
      assert list == ChildrenOf(procs, parent);
      ghost var start := seen;
      var i := 0;
      while i < |list|
        invariant 0 <= i <= |list|
        invariant Records() && forall k :: k in start ==> k in seen && seen[k] == start[k]
        invariant Pids(list[..i]) <= seen.Keys
        invariant Walked(procs, parent, start.Keys, seen.Keys)
      {
        assert list[i] in list;
        Visit(parent, list[i], start.Keys);
        PidsSnoc(list, i);
        i := i + 1;
      }
      assert list[..i] == list;
      forall c | Edge(procs, parent, c)
        ensures c in seen
      {
        var p :| p in procs && p.ppid == parent && p.pid == c;
        assert p in list && p.pid in Pids(list);
      }
    }

    /** One iteration of the loop over children. */
    method Visit(parent: int, child: ProcInfo, ghost before: set<int>)
      requires Grouped() && Records() && child in procs && child.ppid == parent
      requires Walked(procs, parent, before, seen.Keys)
      modifies this`seen
      ensures Records() && forall k :: k in old(seen) ==> k in seen && seen[k] == old(seen[k])
      ensures child.pid in seen.Keys && old(seen.Keys) <= seen.Keys && Walked(procs, parent, before, seen.Keys)
      decreases Pids(procs) - seen.Keys, 0
    {
      if child.pid in seen { return; }
      ghost var mid := seen.Keys;
      seen := seen[child.pid := Observe(child)];
      assert seen.Keys == mid + {child.pid} && child.pid in Pids(procs);
      Walk(child.pid);
      assert child.pid in mid + {child.pid};
      WalkedOneMore(procs, parent, before, mid, child.pid, seen.Keys);
    }
  }

  // ----- the result -----

  ghost predicate IncreasingPids(list: seq<Observed>)
  {
    forall i, j :: 0 <= i < j < |list| ==> list[i].pid < list[j].pid
  }

  /** One insertion of sort.Slice ordered by pid. */
  function InsertByPid(list: seq<Observed>, o: Observed): (r: seq<Observed>)
    requires IncreasingPids(list) && forall x :: x in list ==> x.pid != o.pid
    ensures IncreasingPids(r)
    ensures forall x :: x in r <==> x in list || x == o
  {
    if list == [] then [o]
    else if o.pid < list[0].pid then [o] + list
    else
      assert list[0] in list && forall x :: x in list <==> x == list[0] || x in list[1..];
      var tail := InsertByPid(list[1..], o);
      assert forall i :: 0 <= i < |tail| ==> tail[i] in tail;
      [list[0]] + tail
  }

  lemma NoMemberIsEmpty(pids: set<int>)
    ensures (forall k :: k !in pids) ==> pids == {}
  {
    if forall k :: k !in pids {
      assert pids == {};
    }
  }

  method SortedObservedProcesses(seen: map<int, Observed>) returns (out: seq<Observed>)
    requires forall k :: k in seen ==> seen[k].pid == k
    ensures IncreasingPids(out)
    ensures forall x :: x in out <==> x.pid in seen && seen[x.pid] == x
  {
    out := [];
    var rest := seen.Keys;
    while rest != {}
      invariant rest <= seen.Keys && IncreasingPids(out)
      invariant forall x :: x in out <==> x.pid in seen && x.pid !in rest && seen[x.pid] == x
      decreases rest
    {
      NoMemberIsEmpty(rest);
      var k :| k in rest;
      out := InsertByPid(out, seen[k]);
      rest := rest - {k};
    }
  }

  /** listDescendantProcesses: exactly the descendants, each once, by rising pid,
      whatever the parent table looks like. */
  method ListDescendantProcesses(procs: seq<ProcInfo>, root: int, kindOf: seq<string> -> string) returns (out: seq<Observed>)
    ensures IncreasingPids(out)
    ensures forall pid :: (exists x :: x in out && x.pid == pid) <==> Descendant(procs, root, pid)
    ensures forall x :: x in out ==> exists p :: p in procs && x.pid == p.pid && x.ppid == p.ppid && x.args == p.args
    ensures forall x :: x in out ==>
      (if x.args == [] && kindOf(x.args) == "" then x.kind == "cef-child" else x.kind == kindOf(x.args))
  {
    var w := new Walker(procs, kindOf);
    w.Walk(root);
    out := SortedObservedProcesses(w.seen);
    forall pid
      ensures (exists x :: x in out && x.pid == pid) <==> Descendant(procs, root, pid)
    {
      if Descendant(procs, root, pid) {
        var path :| |path| >= 2 && path[0] == root && path[|path| - 1] == pid && IsPath(procs, path);
        ClosedHoldsPath(procs, w.seen.Keys, root, path);
        assert w.seen[pid] in out;
      }
    }
  }
}
