/** The :nth-child family: positions sought with indexes cached on parents and elements. */
module NthChild {
  import opened Wrappers
  import opened Dom

  // ---------- positions ----------

  /** How many of the children lo..hi count. */
  function Count(f: nat -> bool, lo: nat, hi: nat): nat
    decreases hi - lo
  {
    if lo >= hi then 0 else Count(f, lo, hi - 1) + (if f(hi - 1) then 1 else 0)
  }

  lemma {:induction false} CountFront(f: nat -> bool, lo: nat, hi: nat)
    requires lo < hi
    ensures Count(f, lo, hi) == (if f(lo) then 1 else 0) + Count(f, lo + 1, hi)
    decreases hi
  {
    if lo + 1 < hi {
      CountFront(f, lo, hi - 1);
    }
  }

  /** What has been counted when a walk from one end arrives at child `node`. */
  function Seen(f: nat -> bool, n: nat, node: int, forward: bool): nat
    requires -1 <= node <= n
  {
    if forward then (if node < 0 then 0 else Count(f, 0, node)) else Count(f, node + 1, n)
  }

  lemma SeenStep(f: nat -> bool, n: nat, node: nat, forward: bool)
    requires node < n
    ensures Seen(f, n, if forward then node + 1 else node - 1, forward) ==
            Seen(f, n, node, forward) + (if f(node) then 1 else 0)
    ensures Position(f, n, node, forward) == Seen(f, n, node, forward) + (if f(node) then 1 else 0)
  {
    CountFront(f, node, n);
  }

  function IsElementKid(t: Tree, p: Addr): nat -> bool
    requires Valid(t, p)
  {
    (k: nat) => k < |At(t, p).kids| && At(t, p).kids[k].kind == Element
  }

  /** The 1-based position of child `j` among the `n` children that count, from either end. */
  function Position(f: nat -> bool, n: nat, j: nat, forward: bool): nat {
    if forward then Count(f, 0, j + 1) else Count(f, j, n)
  }

  /** an+b with n >= 0. */
  ghost predicate InCycle(position: int, a: int, b: int) {
    exists n: nat :: position == a * n + b
  }

  // ---------- the final arithmetic ----------

  /** The remainder operator of the source language: the sign of the dividend. */
  function Remainder(x: int, y: int): int
    requires y != 0
  {
    var m := if y < 0 then -y else y;
    if x >= 0 then x % m else -((-x) % m)
  }

  /** `first` is a and `last` is b; a remainder by zero is not a number, so never equal to 0. */
  predicate CycleTest(position: int, first: int, last: int) {
    var diff := position - last;
    diff == first || (first != 0 && Remainder(diff, first) == 0 && (diff as real) / (first as real) >= 0.0)
  }

  lemma CycleTestCorrect(position: int, first: int, last: int)
    ensures CycleTest(position, first, last) <==> InCycle(position, first, last)
  {
    var diff := position - last;
    if diff == first {
      assert position == first * 1 + last;
    } else if first != 0 {
      var m := if first < 0 then -first else first;
      if CycleTest(position, first, last) {
        var q := ExactQuotient(diff, first);
        SignOfQuotient(diff, first, q);
        assert position == first * q + last;
      }
      if n: nat :| position == first * n + last {
        MultipleTests(diff, first, n);
      }
    } else {
      assert forall n: nat :: first * n == 0;
    }
  }

  lemma ExactQuotient(x: int, y: int) returns (q: int)
    requires y != 0 && Remainder(x, y) == 0
    ensures x == y * q
  {
    var m := if y < 0 then -y else y;
    var a := if x >= 0 then x else -x;
    assert a == m * (a / m);
    q := a / m;
    if (x < 0) != (y < 0) {
      q := -q;
    }
  }

  lemma SignOfQuotient(x: int, y: int, q: int)
    requires y != 0 && x == y * q && (x as real) / (y as real) >= 0.0
    ensures q >= 0
  {
    assert (x as real) == (y as real) * (q as real);
    assert (x as real) / (y as real) == q as real;
  }

  lemma MultipleTests(x: int, y: int, n: nat)
    requires y != 0 && x == y * n
    ensures Remainder(x, y) == 0 && (x as real) / (y as real) >= 0.0
  {
    var m := if y < 0 then -y else y;
    MultipleMod(m, n);
    assert x == m * n || x == -(m * n);
    assert (x as real) == (y as real) * (n as real);
    assert (x as real) / (y as real) == n as real;
  }

  lemma MultipleMod(m: nat, n: nat)
    requires m > 0
    ensures (m * n) % m == 0
  {
    var q, r := (m * n) / m, (m * n) % m;
    assert m * n == m * q + r;
    assert r == m * (n - q);
    MultipleAtLeast(m, n - q);
  }

  lemma MultipleAtLeast(m: int, k: int)
    requires m >= 0
    ensures k >= 1 ==> m * k >= m
    ensures k <= -1 ==> m * k <= -m
  {
    if k >= 1 {
      assert m * k == m * (k - 1) + m;
    } else if k <= -1 {
      assert m * k == -(m * (-k - 1)) - m;
    }
  }

  // ---------- the cached seek ----------

  datatype ParentEntry = ParentEntry(run: nat, nodeIndex: nat, diff: nat)
  datatype ElemEntry = ElemEntry(run: nat, diff: nat)

  datatype Query = Query(elem: Addr, forward: bool, first: int, last: int)

  /**
    The seek loop: go on from `from` (0 means no usable index), and fall back once to the
    first child when the siblings run out.  It ends by (fallback left, siblings left).
   */
  method SeekFrom(f: nat -> bool, n: nat, j: nat, from: nat, count: nat) returns (nodeIndex: nat, diff: nat)
    requires j < n && f(j)
    requires from != 0 ==> from < n && count == Count(f, 0, from + 1)
    ensures nodeIndex == j && diff == Count(f, 0, j + 1)
  {
    var start := true;
    nodeIndex, diff := from, count;
    var node: Option<nat> := if nodeIndex != 0 then Some(nodeIndex) else None;
    while true
      invariant node.None? ==> start
      invariant node.Some? ==> node.value < n && nodeIndex == node.value && diff == Count(f, 0, node.value + 1)
      invariant !start ==> node.Some? && node.value < j
      decreases start, if node.Some? then n - node.value else n + 1
    {
      nodeIndex := nodeIndex + 1;
      if node.Some? && node.value + 1 < n {
        node := Some(node.value + 1);
      } else {
        diff, nodeIndex := 0, 0;
        start, node := false, Some(0);
      }
      if f(node.value) {
        diff := diff + 1;
        if node.value == j {
          return;
        }
      }
    }
  }

  class Seeker {
    /** parent[expando].nth and elem[expando]["nth-last"]. */
    var onParent: map<Addr, ParentEntry>
    var onElem: map<Addr, ElemEntry>
    var dirruns: nat

    constructor ()
      ensures onParent == map[] && onElem == map[] && dirruns == 0
    {
      onParent, onElem, dirruns := map[], map[], 0;
    }

    /** Entries of the current run are right; older entries may be anything. */
    ghost predicate Sound(t: Tree)
      reads this
    {
      && (forall p :: p in onParent ==> onParent[p].run <= dirruns)
      && (forall e :: e in onElem ==> onElem[e].run <= dirruns)
      && (forall p :: p in onParent && onParent[p].run == dirruns ==>
        && Valid(t, p) && onParent[p].nodeIndex < |At(t, p).kids|
        && onParent[p].diff == Count(IsElementKid(t, p), 0, onParent[p].nodeIndex + 1))
      && (forall e :: e in onElem && onElem[e].run == dirruns ==>
        && e != [] && Valid(t, Parent(e))
        && onElem[e].diff == Count(IsElementKid(t, Parent(e)), Last(e), |At(t, Parent(e)).kids|))
    }

    /** A new run may start on any tree. */
    method StartRun(ghost t: Tree)
      requires (forall p :: p in onParent ==> onParent[p].run <= dirruns)
      requires (forall e :: e in onElem ==> onElem[e].run <= dirruns)
      modifies this`dirruns
      ensures dirruns == old(dirruns) + 1 && Sound(t)
    {
      dirruns := dirruns + 1;
    }

    /** :nth-child, resuming from the child last found under the same parent. */
    method SeekForward(t: Tree, parent: Addr, j: nat) returns (diff: nat)
      requires Sound(t) && Valid(t, parent) && IsElementKid(t, parent)(j)
      modifies this`onParent
      ensures Sound(t)
      ensures diff == Position(IsElementKid(t, parent), |At(t, parent).kids|, j, true)
    {
      var cached := parent in onParent && onParent[parent].run == dirruns;
      var nodeIndex := if cached then onParent[parent].nodeIndex else 0;
      diff := if cached then onParent[parent].diff else 0;
      nodeIndex, diff := SeekFrom(IsElementKid(t, parent), |At(t, parent).kids|, j, nodeIndex, diff);
      onParent := onParent[parent := ParentEntry(dirruns, nodeIndex, diff)];
    }

    method Remember(t: Tree, parent: Addr, node: nat, diff: nat)
      requires Sound(t) && Valid(t, parent)
      requires diff == Count(IsElementKid(t, parent), node, |At(t, parent).kids|)
      modifies this`onElem
      ensures Sound(t)
      ensures onElem == old(onElem)[parent + [node] := ElemEntry(dirruns, diff)]
    {
      assert Parent(parent + [node]) == parent;
      onElem := onElem[parent + [node] := ElemEntry(dirruns, diff)];
    }

    /** Any other nth type: an end-to-end walk; :nth-last-child remembers each element it passes. */
    method SeekFromEnd(t: Tree, parent: Addr, f: nat -> bool, j: nat, forward: bool, useCache: bool) returns (diff: nat)
      requires Sound(t) && Valid(t, parent) && j < |At(t, parent).kids| && f(j)
      requires useCache ==> !forward && f == IsElementKid(t, parent)
      modifies this`onElem
      ensures Sound(t)
      ensures diff == Position(f, |At(t, parent).kids|, j, forward)
    {
      var kids := At(t, parent).kids;
      if useCache && parent + [j] in onElem && onElem[parent + [j]].run == dirruns {
        assert Parent(parent + [j]) == parent;
        return onElem[parent + [j]].diff;
      }
      diff := 0;
      var n := |kids|;
      var node := if forward then 0 else n - 1;
      while true
        invariant Sound(t)
        invariant 0 <= node < n
        invariant if forward then node <= j else j <= node
        invariant diff == Seen(f, n, node, forward)
        decreases if forward then j - node else node - j
      {
        SeenStep(f, n, node, forward);
        if f(node) {
          diff := diff + 1;
          assert diff == Position(f, n, node, forward);
          if useCache {
            Remember(t, parent, node, diff);
          }
          if node == j {
            break;
          }
        }
        node := if forward then node + 1 else node - 1;
      }
    }

    /**
      The filter for :nth-child(an+b), :nth-last-child and the of-type forms.  `sameType`
      says which children count for of-type; it is ignored for the child forms.
     */
    method Nth(t: Tree, elem: Addr, ofType: bool, sameType: nat -> bool, forward: bool, first: int, last: int) returns (r: bool)
      requires Sound(t) && IsElement(t, elem)
      requires elem != [] ==> sameType(Last(elem))
      modifies this`onParent, this`onElem
      ensures Sound(t)
      ensures elem == [] ==> !r
      ensures elem != [] ==> (Valid(t, Parent(elem)) &&
        var f := if ofType then sameType else IsElementKid(t, Parent(elem));
        (r <==> InCycle(Position(f, |At(t, Parent(elem)).kids|, Last(elem), forward), first, last)))
    {
      if elem == [] {
        return false;
      }
      ValidParent(t, elem);
      var parent, j := Parent(elem), Last(elem);
      ElementKid(t, elem);
      if first == 1 && last == 0 {
        ghost var f := if ofType then sameType else IsElementKid(t, parent);
        ghost var position := Position(f, |At(t, parent).kids|, j, forward);
        assert position == 1 * position + 0;
        return true;
      }
      var diff: int;
      if forward && !ofType {
        diff := SeekForward(t, parent, j);
      } else {
        diff := SeekFromEnd(t, parent, if ofType then sameType else IsElementKid(t, parent), j, forward, !ofType);
      }
      CycleTestCorrect(diff, first, last);
      r := CycleTest(diff, first, last);
    }

    /** Any sequence of child queries of one run, in any order, over any siblings. */
    method AskAll(t: Tree, queries: seq<Query>) returns (answers: seq<bool>)
      requires Sound(t) && forall q :: q in queries ==> q.elem != [] && IsElement(t, q.elem)
      modifies this
      ensures |answers| == |queries|
      ensures forall k :: 0 <= k < |queries| ==> (answers[k] <==> Answer(t, queries[k]))
    {
      StartRun(t);
      answers := [];
      for k := 0 to |queries|
        invariant Sound(t) && |answers| == k
        invariant forall i :: 0 <= i < k ==> (answers[i] <==> Answer(t, queries[i]))
      {
        var q := queries[k];
        var r := Nth(t, q.elem, false, _ => true, q.forward, q.first, q.last);
        answers := answers + [r];
      }
    }
  }

  lemma {:induction false} AtSnoc(t: Tree, p: Addr, k: nat)
    requires Valid(t, p + [k])
    ensures Valid(t, p) && k < |At(t, p).kids| && At(t, p + [k]) == At(t, p).kids[k]
    decreases |p|
  {
    ValidSnoc(t, p, k);
    if p == [] {
      assert [k][1..] == [] && p + [k] == [k];
    } else {
      assert (p + [k])[1..] == p[1..] + [k];
      AtSnoc(t.kids[p[0]], p[1..], k);
    }
  }

  lemma ElementKid(t: Tree, elem: Addr)
    requires elem != [] && IsElement(t, elem)
    ensures Valid(t, Parent(elem)) && IsElementKid(t, Parent(elem))(Last(elem))
  {
    assert elem == Parent(elem) + [Last(elem)];
    AtSnoc(t, Parent(elem), Last(elem));
  }

  ghost predicate Answer(t: Tree, q: Query)
    requires q.elem != [] && IsElement(t, q.elem)
  {
    ElementKid(t, q.elem);
    InCycle(Position(IsElementKid(t, Parent(q.elem)), |At(t, Parent(q.elem)).kids|, Last(q.elem), q.forward), q.first, q.last)
  }

  /** The children that count are the elements among them. */
  lemma KidsAreElements(t: Tree, p: Addr, k: nat)
    requires Valid(t, p)
    ensures IsElementKid(t, p)(k) <==> IsElement(t, p + [k])
  {
    ValidSnoc(t, p, k);
    if k < |At(t, p).kids| {
      AtSnoc(t, p, k);
    }
  }

  /** Counting children is taking the size of the set of those that count. */
  lemma {:induction false} CountIsSize(f: nat -> bool, lo: nat, hi: nat)
    ensures Count(f, lo, hi) == |set k: nat | lo <= k < hi && f(k)|
    decreases hi
  {
    var counted := set k: nat | lo <= k < hi && f(k);
    if lo < hi {
      CountIsSize(f, lo, hi - 1);
      var before := set k: nat | lo <= k < hi - 1 && f(k);
      if f(hi - 1) {
        assert counted == before + {hi - 1};
      } else {
        assert counted == before;
      }
    } else {
      assert counted == {};
    }
  }
}
