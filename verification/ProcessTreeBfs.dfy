/** The process tree of a root pid, found breadth first with a work list
    (tools/benchmarks/main.go:610-632). The existing pids and the children the
    kernel reports are inputs; both may be cyclic or name missing pids. */
module ProcessTreeBfs {
  import opened Sequences

  function ChildrenOf(children: map<int, seq<int>>, pid: int): seq<int>
  {
    if pid in children then children[pid] else []
  }

  ghost predicate IsLivePath(live: set<int>, children: map<int, seq<int>>, path: seq<int>)
  {
    && (forall i :: 0 <= i < |path| ==> path[i] in live)
    && (forall i :: 0 <= i < |path| - 1 ==> path[i] in children && path[i + 1] in children[path[i]])
  }

  /** `pid` is reachable from `root` through existing pids only, both included. */
  ghost predicate Reaches(live: set<int>, children: map<int, seq<int>>, root: int, pid: int)
  {
    exists path :: |path| >= 1 && path[0] == root && path[|path| - 1] == pid && IsLivePath(live, children, path)
  }

  lemma ReachesSelf(live: set<int>, children: map<int, seq<int>>, root: int)
    requires root in live
    ensures Reaches(live, children, root, root)
  {
    assert IsLivePath(live, children, [root]);
  }

  lemma ReachesChild(live: set<int>, children: map<int, seq<int>>, root: int, pid: int, child: int)
    requires Reaches(live, children, root, pid) && child in ChildrenOf(children, pid) && child in live
    ensures Reaches(live, children, root, child)
  {
    var path :| |path| >= 1 && path[0] == root && path[|path| - 1] == pid && IsLivePath(live, children, path);
    assert IsLivePath(live, children, path + [child]);
  }

  lemma {:induction false} ClosedHoldsPath(live: set<int>, children: map<int, seq<int>>, pids: set<int>, path: seq<int>)
    requires forall n, c :: n in pids && c in ChildrenOf(children, n) && c in live ==> c in pids
    requires |path| >= 1 && path[0] in pids && IsLivePath(live, children, path)
    ensures path[|path| - 1] in pids
    decreases |path|
  {
    if |path| > 1 {
      assert path[1] in ChildrenOf(children, path[0]);
      var rest := path[1..];
      assert forall i :: 0 <= i < |rest| ==> rest[i] == path[i + 1];
      ClosedHoldsPath(live, children, pids, path[1..]);
    }
  }

  /** The children the inner loop appends: those not seen yet, in order. */
  function Unseen(kids: seq<int>, seen: set<int>): (r: seq<int>)
    ensures forall q :: q in r <==> q in kids && q !in seen
  {
    if kids == [] then []
    else
      var front, last := kids[..|kids| - 1], kids[|kids| - 1];
      assert kids == front + [last];
      if last in seen then Unseen(front, seen) else Unseen(front, seen) + [last]
  }

  /** What the outer loop keeps: the output lists the seen pids, all reachable; the
      work list holds candidates, among them every live child still to visit. */
  ghost predicate Searching(live: set<int>, children: map<int, seq<int>>, root: int, out: seq<int>, seen: set<int>, queue: seq<int>)
  {
    && Distinct(out) && seen <= live && (forall x :: x in out <==> x in seen)
    && (forall x :: x in seen ==> Reaches(live, children, root, x))
    && (forall q :: q in queue ==> q == root || exists x :: x in seen && q in ChildrenOf(children, x))
    && (forall x, c :: x in seen && c in ChildrenOf(children, x) && c in live ==> c in seen || c in queue)
    && (root in live ==> root in seen || root in queue)
    && (if out == [] then queue == [root] || (queue == [] && root !in live) else out[0] == root)
  }

  lemma PopKeeps(live: set<int>, children: map<int, seq<int>>, root: int, out: seq<int>, seen: set<int>, queue: seq<int>)
    requires Searching(live, children, root, out, seen, queue) && queue != []
    requires queue[0] in seen || queue[0] !in live
    ensures Searching(live, children, root, out, seen, queue[1..])
  {
    assert forall q :: q in queue <==> q == queue[0] || q in queue[1..];
  }

  lemma CandidateIsReached(live: set<int>, children: map<int, seq<int>>, root: int, out: seq<int>, seen: set<int>, queue: seq<int>, pid: int)
    requires Searching(live, children, root, out, seen, queue) && pid in queue && pid in live
    ensures Reaches(live, children, root, pid)
  {
    if pid == root {
      ReachesSelf(live, children, root);
    } else {
      var x :| x in seen && pid in ChildrenOf(children, x);
      ReachesChild(live, children, root, x, pid);
    }
  }

  lemma VisitKeeps(live: set<int>, children: map<int, seq<int>>, root: int, out: seq<int>, seen: set<int>, queue: seq<int>)
    requires Searching(live, children, root, out, seen, queue) && queue != []
    requires queue[0] !in seen && queue[0] in live
    ensures
      var pid, kids := queue[0], ChildrenOf(children, queue[0]);
      Searching(live, children, root, out + [pid], seen + {pid}, queue[1..] + Unseen(kids, seen + {pid}))
  {
    var pid := queue[0];
    assert pid in queue && forall q :: q in queue <==> q == pid || q in queue[1..];
    CandidateIsReached(live, children, root, out, seen, queue, pid);
  }

  /** Exactly the reachable pids, each once, the root first. The measure is the
      number of existing pids not seen yet, then the length of the work list. */
  method ProcessTreePids(live: set<int>, children: map<int, seq<int>>, root: int) returns (out: seq<int>)
    ensures Distinct(out)
    ensures forall pid :: pid in out <==> Reaches(live, children, root, pid)
    ensures if root in live then out != [] && out[0] == root else out == []
  {
    out := [];
    var seen: set<int> := {};
    var queue := [root];
    while queue != []
      invariant Searching(live, children, root, out, seen, queue)
      decreases live - seen, |queue|
    {
      var pid := queue[0];
      if pid in seen || pid !in live {
        PopKeeps(live, children, root, out, seen, queue);
        queue := queue[1..];
      } else {
        VisitKeeps(live, children, root, out, seen, queue);
        var rest := queue[1..];
        seen := seen + {pid};
        out := out + [pid];
        queue := Enqueue(rest, ChildrenOf(children, pid), seen);
      }
    }
    SearchDone(live, children, root, out, seen);
  }

  /** The inner loop: the children not seen yet go to the end of the work list. */
  method Enqueue(rest: seq<int>, kids: seq<int>, seen: set<int>) returns (queue: seq<int>)
    ensures queue == rest + Unseen(kids, seen)
  {
    queue := rest;
    var i := 0;
    while i < |kids|
      invariant 0 <= i <= |kids|
      invariant queue == rest + Unseen(kids[..i], seen)
    {
      assert kids[..i + 1][..i] == kids[..i];
      if kids[i] !in seen { queue := queue + [kids[i]]; }
      i := i + 1;
    }
    assert kids[..i] == kids;
  }

  lemma SearchDone(live: set<int>, children: map<int, seq<int>>, root: int, out: seq<int>, seen: set<int>)
    requires Searching(live, children, root, out, seen, [])
    ensures forall pid :: pid in out <==> Reaches(live, children, root, pid)
  {
    forall pid | Reaches(live, children, root, pid)
      ensures pid in out
    {
      var path :| |path| >= 1 && path[0] == root && path[|path| - 1] == pid && IsLivePath(live, children, path);
      ClosedHoldsPath(live, children, seen, path);
    }
  }
}
