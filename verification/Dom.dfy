/**
  The document tree.  A node is named by its address: the child indices on the way
  to it from the root, which is [].  Parent and sibling links follow from addresses.
 */
module Dom {
  import opened Wrappers

  datatype Kind = Document | Element | Other

  datatype Tree = Node(kind: Kind, kids: seq<Tree>)

  type Addr = seq<nat>

  /** The two links a combinator walks along: parentNode and previousSibling. */
  datatype Dir = Up | Back

  predicate Valid(t: Tree, p: Addr)
    decreases |p|
  {
    p == [] || (p[0] < |t.kids| && Valid(t.kids[p[0]], p[1..]))
  }

  function At(t: Tree, p: Addr): Tree
    requires Valid(t, p)
    decreases |p|
  {
    if p == [] then t else At(t.kids[p[0]], p[1..])
  }

  predicate IsElement(t: Tree, p: Addr) {
    Valid(t, p) && At(t, p).kind == Element
  }

  function Parent(p: Addr): Addr
    requires p != []
  {
    p[..|p| - 1]
  }

  function Last(p: Addr): nat
    requires p != []
  {
    p[|p| - 1]
  }

  /** elem[dir]: the next node along a link. */
  function Step(p: Addr, dir: Dir): Option<Addr> {
    if p == [] then None
    else match dir
      case Up => Some(Parent(p))
      case Back => if Last(p) == 0 then None else Some(Parent(p) + [Last(p) - 1])
  }

  function Rank(p: Addr, dir: Dir): nat {
    if p == [] then 0 else match dir case Up => |p| case Back => Last(p)
  }

  lemma StepDescends(p: Addr, dir: Dir)
    requires Step(p, dir).Some?
    ensures Rank(Step(p, dir).value, dir) < Rank(p, dir)
  {
  }

  /** Every node strictly beyond `p` along a link, nearest first. */
  function Beyond(p: Addr, dir: Dir): seq<Addr>
    decreases Rank(p, dir)
  {
    match Step(p, dir)
    case None => []
    case Some(q) => StepDescends(p, dir); [q] + Beyond(q, dir)
  }

  predicate Ancestor(x: Addr, y: Addr) {
    |x| < |y| && x == y[..|x|]
  }

  predicate Earlier(x: Addr, y: Addr) {
    x != [] && y != [] && Parent(x) == Parent(y) && Last(x) < Last(y)
  }

  lemma {:induction false} BeyondUp(p: Addr, q: Addr)
    ensures q in Beyond(p, Up) <==> Ancestor(q, p)
    decreases |p|
  {
    if p != [] {
      BeyondUp(Parent(p), q);
      if Ancestor(q, p) && q != Parent(p) {
        assert q == Parent(p)[..|q|];
      }
      if Ancestor(q, Parent(p)) {
        assert q == p[..|q|];
      }
    }
  }

  lemma {:induction false} BeyondBack(p: Addr, q: Addr)
    ensures q in Beyond(p, Back) <==> Earlier(q, p)
    decreases Rank(p, Back)
  {
    if p != [] && Last(p) != 0 {
      var r := Parent(p) + [Last(p) - 1];
      BeyondBack(r, q);
      assert Parent(r) == Parent(p) && Last(r) == Last(p) - 1;
      if Earlier(q, p) && q != r {
        assert q == Parent(q) + [Last(q)];
        assert Earlier(q, r);
      }
    }
  }

  lemma {:induction false} ValidSnoc(t: Tree, p: Addr, k: nat)
    ensures Valid(t, p + [k]) <==> Valid(t, p) && k < |At(t, p).kids|
    decreases |p|
  {
    if p == [] {
      assert [k][1..] == [];
      assert p + [k] == [k];
    } else {
      assert (p + [k])[0] == p[0] && (p + [k])[1..] == p[1..] + [k];
      if p[0] < |t.kids| {
        ValidSnoc(t.kids[p[0]], p[1..], k);
      }
    }
  }

  lemma {:induction false} ValidParent(t: Tree, p: Addr)
    requires p != [] && Valid(t, p)
    ensures Valid(t, Parent(p)) && Last(p) < |At(t, Parent(p)).kids|
  {
    assert p == Parent(p) + [Last(p)];
    ValidSnoc(t, Parent(p), Last(p));
  }

  /** As in any DOM: below the root only elements have children, and nothing is a document. */
  ghost predicate WellFormed(t: Tree) {
    forall p :: p != [] && Valid(t, p) ==> At(t, p).kind != Document && (At(t, p).kids != [] ==> IsElement(t, p))
  }

  // ---------- document order ----------

  function Under(i: nat, ps: seq<Addr>): (r: seq<Addr>)
    ensures |r| == |ps| && forall k :: 0 <= k < |ps| ==> r[k] == [i] + ps[k]
  {
    seq(|ps|, k requires 0 <= k < |ps| => [i] + ps[k])
  }

  /** The nodes of a tree in preorder: a node, then the subtrees of its children in turn. */
  function Preorder(t: Tree): seq<Addr> {
    [[]] + PreorderKids(t, 0)
  }

  function PreorderKids(t: Tree, i: nat): seq<Addr>
    requires i <= |t.kids|
    decreases t, |t.kids| - i
  {
    if i == |t.kids| then [] else Under(i, Preorder(t.kids[i])) + PreorderKids(t, i + 1)
  }

  lemma {:induction false} PreorderComplete(t: Tree, p: Addr)
    ensures p in Preorder(t) <==> Valid(t, p)
    decreases t, |t.kids| + 1
  {
    if p != [] {
      PreorderKidsComplete(t, 0, p);
    }
  }

  lemma {:induction false} PreorderKidsComplete(t: Tree, i: nat, p: Addr)
    requires i <= |t.kids|
    ensures p in PreorderKids(t, i) <==> p != [] && i <= p[0] && Valid(t, p)
    decreases t, |t.kids| - i
  {
    if i < |t.kids| {
      PreorderKidsComplete(t, i + 1, p);
      var sub := Preorder(t.kids[i]);
      if p != [] && p[0] == i {
        PreorderComplete(t.kids[i], p[1..]);
        if p[1..] in sub {
          var k :| 0 <= k < |sub| && sub[k] == p[1..];
          assert Under(i, sub)[k] == [i] + p[1..] == p;
        }
        if p in Under(i, sub) {
          var k :| 0 <= k < |sub| && Under(i, sub)[k] == p;
          assert sub[k] == p[1..];
        }
      }
    }
  }

  /** Lexicographic order of addresses. */
  predicate Lex(p: Addr, q: Addr)
    decreases |p|
  {
    q != [] && (p == [] || p[0] < q[0] || (p[0] == q[0] && Lex(p[1..], q[1..])))
  }

  lemma {:induction false} LexIrreflexive(p: Addr)
    ensures !Lex(p, p)
    decreases |p|
  {
    if p != [] {
      LexIrreflexive(p[1..]);
    }
  }

  lemma {:induction false} LexTransitive(p: Addr, q: Addr, r: Addr)
    requires Lex(p, q) && Lex(q, r)
    ensures Lex(p, r)
    decreases |p|
  {
    if p != [] && p[0] == q[0] == r[0] {
      LexTransitive(p[1..], q[1..], r[1..]);
    }
  }

  lemma {:induction false} LexTotal(p: Addr, q: Addr)
    ensures p == q || Lex(p, q) || Lex(q, p)
    decreases |p|
  {
    if p != [] && q != [] && p[0] == q[0] {
      LexTotal(p[1..], q[1..]);
      if p[1..] == q[1..] {
        assert p == [p[0]] + p[1..] && q == [q[0]] + q[1..];
      }
    }
  }

  ghost predicate Ascending(ps: seq<Addr>) {
    forall i, j :: 0 <= i < j < |ps| ==> Lex(ps[i], ps[j])
  }

  /** Preorder lists addresses in strictly increasing lexicographic order. */
  lemma {:induction false} PreorderAscending(t: Tree)
    ensures Ascending(Preorder(t))
    decreases t, |t.kids| + 1
  {
    PreorderKidsAscending(t, 0);
    forall k | 0 <= k < |PreorderKids(t, 0)|
      ensures PreorderKids(t, 0)[k] != []
    {
      PreorderKidsComplete(t, 0, PreorderKids(t, 0)[k]);
    }
  }

  lemma {:induction false} PreorderKidsAscending(t: Tree, i: nat)
    requires i <= |t.kids|
    ensures Ascending(PreorderKids(t, i))
    decreases t, |t.kids| - i
  {
    if i < |t.kids| {
      var sub, rest := Preorder(t.kids[i]), PreorderKids(t, i + 1);
      var head := Under(i, sub);
      PreorderAscending(t.kids[i]);
      PreorderKidsAscending(t, i + 1);
      forall k, l | 0 <= k < l < |head|
        ensures Lex(head[k], head[l])
      {
        assert head[k][1..] == sub[k] && head[l][1..] == sub[l];
      }
      forall l | 0 <= l < |rest|
        ensures rest[l] != [] && rest[l][0] > i
      {
        PreorderKidsComplete(t, i + 1, rest[l]);
      }
    }
  }

  /** `a` comes before `b` in the preorder listing of `t`. */
  ghost predicate Precedes(t: Tree, a: Addr, b: Addr) {
    exists i, j :: 0 <= i < j < |Preorder(t)| && Preorder(t)[i] == a && Preorder(t)[j] == b
  }

  lemma PrecedesIsLex(t: Tree, a: Addr, b: Addr)
    requires Valid(t, a) && Valid(t, b)
    ensures Precedes(t, a, b) <==> Lex(a, b)
  {
    PreorderComplete(t, a);
    PreorderComplete(t, b);
    PreorderAscending(t);
    var i :| 0 <= i < |Preorder(t)| && Preorder(t)[i] == a;
    var j :| 0 <= j < |Preorder(t)| && Preorder(t)[j] == b;
    LexIrreflexive(a);
    if Lex(a, b) && i > j {
      LexTransitive(a, b, a);
    }
  }
}
