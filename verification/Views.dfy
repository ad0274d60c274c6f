/** The view tree with parent and children pointers (internal/view/view.go:155-223). */
module Views {
  import opened Sequences
  import opened Wrappers

  // ----- child lists -----

  /** The list without the first occurrence of an element. */
  function Without<T(==)>(list: seq<T>, x: T): seq<T>
  {
    if list == [] then []
    else if list[0] == x then list[1..]
    else [list[0]] + Without(list[1..], x)
  }

  function InsertAt<T>(list: seq<T>, i: nat, x: T): seq<T>
    requires i <= |list|
  {
    list[..i] + [x] + list[i..]
  }

  /** AddChild's index: absent means the end, out of range is clamped. */
  function Clamp(index: Option<int>, length: nat): (i: nat)
    ensures i <= length
  {
    match index
    case None => length
    case Some(i) => if i < 0 then 0 else if i > length then length else i
  }

  lemma {:induction false} WithoutAt<T>(list: seq<T>, x: T, i: nat)
    requires i < |list| && list[i] == x && x !in list[..i]
    ensures Without(list, x) == list[..i] + list[i + 1..]
  {
    if i > 0 {
      assert list[0] in list[..i] && list[1..][..i - 1] == list[..i][1..];
      WithoutAt(list[1..], x, i - 1);
    }
  }

  lemma {:induction false} WithoutAbsent<T>(list: seq<T>, x: T)
    requires x !in list
    ensures Without(list, x) == list
  {
    if list != [] {
      WithoutAbsent(list[1..], x);
    }
  }

  /** Removing keeps exactly the other members and keeps them distinct. */
  lemma {:induction false} WithoutMembers<T>(list: seq<T>, x: T)
    requires Distinct(list)
    ensures Distinct(Without(list, x))
    ensures forall y :: y in Without(list, x) <==> y in list && y != x
  {
    if x in list {
      var i :| 0 <= i < |list| && list[i] == x;
      WithoutAt(list, x, i);
      forall y
        ensures y in Without(list, x) <==> y in list && y != x
      {
        if y in list && y != x {
          var j :| 0 <= j < |list| && list[j] == y;
          assert j < i ==> list[..i][j] == y;
          assert j > i ==> list[i + 1..][j - i - 1] == y;
        }
      }
    } else {
      WithoutAbsent(list, x);
    }
  }

  /** Removing a child just inserted gives the list back. */
  lemma WithoutInsertAt<T>(list: seq<T>, i: nat, x: T)
    requires i <= |list| && x !in list
    ensures Without(InsertAt(list, i, x), x) == list
  {
    var grown := InsertAt(list, i, x);
    assert grown[..i] == list[..i] && grown[i + 1..] == list[i..];
    WithoutAt(grown, x, i);
    assert list[..i] + list[i..] == list;
  }

  /** Without an index, or with one past the end, the view goes last; with a negative one,
      first; else it gets that place, and the others keep their order. */
  lemma InsertedAsAsked<T>(list: seq<T>, index: Option<int>, x: T)
    ensures
      var grown := InsertAt(list, Clamp(index, |list|), x);
      && |grown| == |list| + 1
      && (index.None? || index.value > |list| ==> grown == list + [x])
      && (index.Some? && index.value < 0 ==> grown == [x] + list)
      && (index.Some? && 0 <= index.value <= |list| ==>
            grown[index.value] == x && grown[..index.value] == list[..index.value]
            && grown[index.value + 1..] == list[index.value..])
  {
    assert list[..|list|] == list && list[|list|..] == [] && list[..0] == [] && list[0..] == list;
  }

  lemma InsertMembers<T>(list: seq<T>, i: nat, x: T)
    requires Distinct(list) && i <= |list| && x !in list
    ensures Distinct(InsertAt(list, i, x))
    ensures forall y :: y in InsertAt(list, i, x) <==> y in list || y == x
  {
  }

  // ----- parent chains -----

  /** The parent of each view. */
  type Up<T> = map<T, Option<T>>

  /** The chain of parents above v ends within n steps. */
  predicate Grounded<T(==)>(up: Up<T>, v: T, n: nat)
  {
    v in up && (up[v].None? || (n > 0 && Grounded(up, up[v].value, n - 1)))
  }

  ghost predicate Acyclic<T>(up: Up<T>)
  {
    forall v :: v in up ==> exists n :: Grounded(up, v, n)
  }

  /** `a` is reached from `v` by n parent steps. */
  predicate Above<T(==)>(up: Up<T>, a: T, v: T, n: nat)
  {
    if n == 0 then a == v
    else v in up && up[v].Some? && Above(up, a, up[v].value, n - 1)
  }

  /** `a` is `v` or an ancestor of it. */
  ghost predicate Ancestor<T>(up: Up<T>, a: T, v: T)
  {
    exists n :: Above(up, a, v, n)
  }

  lemma {:induction false} GroundedMonotone<T>(up: Up<T>, v: T, n: nat, m: nat)
    requires Grounded(up, v, n) && n <= m
    ensures Grounded(up, v, m)
  {
    if up[v].Some? {
      GroundedMonotone(up, up[v].value, n - 1, m - 1);
    }
  }

  lemma {:induction false} GroundedAbove<T>(up: Up<T>, a: T, v: T, n: nat, k: nat)
    requires Grounded(up, v, n) && Above(up, a, v, k)
    ensures k <= n && Grounded(up, a, n - k)
    decreases k
  {
    if k > 0 {
      GroundedAbove(up, a, up[v].value, n - 1, k - 1);
    }
  }

  /** A view above itself is never grounded. */
  lemma {:induction false} CycleIsNotGrounded<T>(up: Up<T>, v: T, k: nat, n: nat)
    requires k >= 1 && Above(up, v, v, k)
    ensures !Grounded(up, v, n)
  {
    if Grounded(up, v, n) {
      GroundedAbove(up, v, v, n, k);
      CycleIsNotGrounded(up, v, k, n - k);
    }
  }

  /** A chain that avoids c is not changed by giving c a new parent. */
  lemma {:induction false} GroundedAvoiding<T>(up: Up<T>, c: T, p: Option<T>, v: T, n: nat)
    requires Grounded(up, v, n) && (forall k :: !Above(up, c, v, k))
    ensures Grounded(up[c := p], v, n)
    decreases n
  {
    assert !Above(up, c, v, 0);
    if up[v].Some? {
      forall k: nat
        ensures !Above(up, c, up[v].value, k)
      {
        assert !Above(up, c, v, k + 1);
      }
      GroundedAvoiding(up, c, p, up[v].value, n - 1);
    }
  }

  lemma {:induction false} GroundedThrough<T>(up: Up<T>, c: T, p: T, v: T, n: nat, m: nat)
    requires Grounded(up, v, n) && Grounded(up[c := Some(p)], p, m)
    ensures Grounded(up[c := Some(p)], v, n + m + 1)
    decreases n
  {
    if v == c {
      GroundedMonotone(up[c := Some(p)], p, m, n + m);
    } else if up[v].Some? {
      GroundedThrough(up, c, p, up[v].value, n - 1, m);
    }
  }

  /** The first time c occurs above v, the steps up to it do not depend on c's parent. */
  lemma {:induction false} AboveAfterReparent<T>(up: Up<T>, c: T, p: Option<T>, v: T, n: nat) returns (k: nat)
    requires Above(up, c, v, n)
    ensures Above(up[c := p], c, v, k)
    decreases n
  {
    if v == c {
      k := 0;
    } else {
      var j := AboveAfterReparent(up, c, p, up[v].value, n - 1);
      k := j + 1;
    }
  }

  /** Giving c the parent p keeps the forest acyclic exactly when c is neither p nor
      an ancestor of p. */
  lemma ReparentAcyclic<T>(up: Up<T>, c: T, p: T)
    requires Acyclic(up) && c in up && p in up
    ensures Acyclic(up[c := Some(p)]) <==> !Ancestor(up, c, p)
  {
    var after := up[c := Some(p)];
    if Ancestor(up, c, p) {
      var n :| Above(up, c, p, n);
      var k := AboveAfterReparent(up, c, Some(p), p, n);
      assert Above(after, c, c, k + 1);
      forall m: nat
        ensures !Grounded(after, c, m)
      {
        CycleIsNotGrounded(after, c, k + 1, m);
      }
    } else {
      var m :| Grounded(up, p, m);
      GroundedAvoiding(up, c, Some(p), p, m);
      forall v | v in after
        ensures exists n :: Grounded(after, v, n)
      {
        var n :| Grounded(up, v, n);
        GroundedThrough(up, c, p, v, n, m);
      }
    }
  }

  /** Detaching a view, or leaving it where it is, keeps the forest acyclic. */
  lemma DetachAcyclic<T>(up: Up<T>, c: T, p: Option<T>)
    requires Acyclic(up) && c in up && (p.None? || p == up[c])
    ensures Acyclic(up[c := p])
  {
    var after := up[c := p];
    if p.None? {
      forall v | v in up
        ensures exists n :: Grounded(after, v, n)
      {
        var n :| Grounded(up, v, n);
        GroundedDetached(up, c, v, n);
      }
    } else {
      assert after == up;
    }
  }

  lemma {:induction false} GroundedDetached<T>(up: Up<T>, c: T, v: T, n: nat)
    requires Grounded(up, v, n)
    ensures Grounded(up[c := None], v, n)
    decreases n
  {
    if v != c && up[v].Some? {
      GroundedDetached(up, c, up[v].value, n - 1);
    }
  }

  // ----- the views -----

  class View {
    var parent: View?
    var children: seq<View>

    constructor ()
      ensures parent == null && children == []
    {
      parent := null;
      children := [];
    }

    static ghost function Just(child: View?): set<View>
    {
      if child == null then {} else {child}
    }

    /** The parent of a view, as a set of at most one. */
    static ghost function ParentSet(child: View?): set<View>
      reads child
    {
      if child == null then {} else Just(child.parent)
    }

    /** removeChildRef: drops the first occurrence and says whether there was one. */
    static method RemoveChildRef(list: seq<View>, child: View) returns (found: bool, out: seq<View>)
      ensures found <==> child in list
      ensures out == Without(list, child)
    {
      var i := 0;
      while i < |list|
        invariant 0 <= i <= |list| && child !in list[..i]
      {
        if list[i] == child {
          WithoutAt(list, child, i);
          return true, list[..i] + list[i + 1..];
        }
        i := i + 1;
      }
      assert list[..i] == list;
      WithoutAbsent(list, child);
      return false, list;
    }

    /** RemoveChild: the child leaves the list once and loses its parent; a view
        that is not in the list is left alone. */
    method RemoveChild(child: View?, ghost views: set<View>)
      requires this in views && Linked(views) && (child != null ==> child in views)
      modifies this`children, Just(child)`parent
      ensures child == null ==> children == old(children)
      ensures child != null ==> children == Without<View>(old(children), child)
      ensures child != null ==> child.parent == if child in old(children) then null else old(child.parent)
      ensures Linked(views)
      ensures child != null ==> Parents(views) == old(Parents(views))[child := AsOption(child.parent)]
    {
      if child != null {
        ghost var up := Parents(views);
        Detach(child, views);
        ParentChanged(views, up, child);
      }
    }

    /** RemoveChild on a view that is there. */
    method Detach(child: View, ghost views: set<View>)
      requires this in views && Linked(views) && child in views
      modifies this`children, child`parent
      ensures children == Without<View>(old(children), child)
      ensures child.parent == if child in old(children) then null else old(child.parent)
      ensures Linked(views)
    {
      var found, rest := RemoveChildRef(children, child);
      WithoutMembers<View>(children, child);
      children := rest;
      if found {
        child.parent := null;
      }
    }

    /** AddChild: takes the child from its old parent, then inserts it at the index
        clamped to the list without it. */
    method AddChild(child: View?, index: Option<int>, ghost views: set<View>) returns (ok: bool)
      requires this in views && Linked(views) && (child != null ==> child in views)
      modifies this`children, Just(child)`parent, ParentSet(child)`children
      ensures ok <==> child != null && child != this
      ensures !ok ==> unchanged(views)
      ensures ok ==>
        var kept := Without<View>(old(children), child);
        child.parent == this && children == InsertAt<View>(kept, Clamp(index, |kept|), child)
      ensures ok && old(child.parent) != null && old(child.parent) != this ==>
        old(child.parent).children == Without<View>(old(child.parent.children), child)
      ensures Linked(views)
      ensures ok ==> Parents(views) == old(Parents(views))[child := Some(this)]
      ensures ok && old(Acyclic<View>(Parents(views))) ==>
        (Acyclic<View>(Parents(views)) <==> !old(Ancestor<View>(Parents(views), child, this)))
    {
      if child == null || child == this { return false; }
      ghost var up := Parents(views);
      if child.parent != null {
        child.parent.RemoveChild(child, views);
      } else {
        WithoutAbsent<View>(children, child);
      }
      assert child.parent == null && child !in children;
      assert children == Without<View>(old(children), child) by {
        if old(child.parent) != this { WithoutAbsent<View>(old(children), child); }
      }
      Attach(child, index, views);
      ParentChanged(views, up, child);
      if Acyclic<View>(up) {
        ReparentAcyclic<View>(up, child, this);
      }
      ok := true;
    }

    /** AddChild's clamping: the end when no index is given. */
    static method InsertionIndex(index: Option<int>, length: nat) returns (insertAt: nat)
      ensures insertAt == Clamp(index, length)
    {
      var i: int := length;
      if index.Some? {
        i := index.value;
        if i < 0 { i := 0; }
        if i > length { i := length; }
      }
      insertAt := i;
    }

    /** The second half of AddChild, on a child without a parent. */
    method Attach(child: View, index: Option<int>, ghost views: set<View>)
      requires this in views && Linked(views) && child in views && child.parent == null
      modifies this`children, child`parent
      ensures child.parent == this
      ensures children == InsertAt<View>(old(children), Clamp(index, |old(children)|), child)
      ensures Linked(views)
    {
      WithoutAbsent<View>(children, child);
      var _, kept := RemoveChildRef(children, child);
      children := kept;
      var insertAt := InsertionIndex(index, |kept|);
      InsertMembers<View>(kept, insertAt, child);
      children := kept[..insertAt] + [child] + kept[insertAt..];
      child.parent := this;
    }
  }

  /** The smallest cycle: a view made the child of its own child. */
  method TwoViewCycle() returns (a: View, b: View)
    ensures a != b && a.parent == b && b.parent == a && Linked({a, b})
    ensures !Acyclic<View>(Parents({a, b}))
  {
    a, b := ParentAndChild();
    var _ := b.AddChild(a, None, {a, b});
  }

  method ParentAndChild() returns (a: View, b: View)
    ensures fresh(a) && fresh(b) && a != b && a.parent == null && b.parent == a && Linked({a, b})
    ensures Acyclic<View>(Parents({a, b})) && Ancestor<View>(Parents({a, b}), a, b)
  {
    a := new View();
    b := new View();
    var _ := a.AddChild(b, None, {a, b});
    TwoIsAcyclic<View>(Parents({a, b}), b, a);
  }

  lemma TwoIsAcyclic<T>(up: Up<T>, child: T, root: T)
    requires child != root && up.Keys == {child, root} && up[root] == None && up[child] == Some(root)
    ensures Acyclic(up) && Ancestor(up, root, child)
  {
    assert Grounded(up, root, 1);
    assert Grounded(up, child, 2);
    assert Above(up, root, root, 0);
    assert Above(up, root, child, 1);
  }

  /** Within a set of views, c occurs in p.children at most once, and it occurs exactly
      when c.parent is p. */
  ghost predicate Linked(views: set<View>)
    reads views
  {
    && (forall p :: p in views ==> Distinct(p.children) && (p.parent == null || p.parent in views))
    && (forall p, c :: p in views && c in p.children ==> c in views)
    && (forall p, c :: p in views && c in views ==> (c in p.children <==> c.parent == p))
  }

  function AsOption(parent: View?): Option<View>
  {
    if parent == null then None else Some(parent)
  }

  /** The parent map of a set of views. */
  ghost function Parents(views: set<View>): Up<View>
    reads views
  {
    map v | v in views :: AsOption(v.parent)
  }

  /** Only the parent of c has changed: the parent map has changed at c. */
  lemma ParentChanged(views: set<View>, before: Up<View>, c: View)
    requires c in views && before.Keys == views
    requires forall v :: v in views && v != c ==> AsOption(v.parent) == before[v]
    ensures Parents(views) == before[c := AsOption(c.parent)]
  {
  }
}
