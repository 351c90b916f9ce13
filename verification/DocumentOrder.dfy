/** Sorting nodes into document order: siblingCheck, the fallback sortOrder and uniqueSort. */
module DocumentOrder {
  import opened Wrappers
  import opened Dom

  function NextSibling(t: Tree, p: Addr): Option<Addr>
    requires Valid(t, p)
  {
    if p == [] then None
    else
      ValidParent(t, p);
      if Last(p) + 1 < |At(t, Parent(p)).kids| then Some(Parent(p) + [Last(p) + 1]) else None
  }

  lemma NextSiblingValid(t: Tree, p: Addr)
    requires Valid(t, p) && NextSibling(t, p).Some?
    ensures Valid(t, NextSibling(t, p).value)
    ensures Earlier(p, NextSibling(t, p).value)
  {
    ValidParent(t, p);
    ValidSnoc(t, Parent(p), Last(p) + 1);
  }

  /**
    The order of two siblings; a missing node (one chain ended first) counts as
    coming before anything below it.
   */
  method SiblingCheck(t: Tree, a: Option<Addr>, b: Option<Addr>) returns (r: int)
    requires a.Some? ==> Valid(t, a.value)
    requires b.Some? ==> Valid(t, b.value)
    ensures a.None? ==> r == -1
    ensures a.Some? && b.None? ==> r == 1
    ensures a.Some? && b.Some? ==> r == (if Earlier(a.value, b.value) then -1 else 1)
  {
    var cur := if b.Some? then a else None;
    if cur.Some? {
      var next := NextSibling(t, cur.value);
      while next.Some?
        invariant cur.Some? && Valid(t, cur.value) && next == NextSibling(t, cur.value)
        invariant Earlier(a.value, b.value) <==> Earlier(cur.value, b.value)
        invariant cur == a || Earlier(a.value, cur.value)
        decreases if cur.value == [] || !Valid(t, Parent(cur.value)) then 0
                  else |At(t, Parent(cur.value)).kids| - Last(cur.value)
      {
        NextSiblingValid(t, cur.value);
        ValidParent(t, cur.value);
        var before := cur.value;
        cur := next;
        if cur == b {
          return -1;
        }
        SiblingStep(before, cur.value, b.value);
        next := NextSibling(t, cur.value);
      }
      NoLaterSibling(t, cur.value, b.value);
    }
    return if a.Some? then 1 else -1;
  }

  lemma SiblingStep(p: Addr, q: Addr, b: Addr)
    requires Earlier(p, q) && Last(q) == Last(p) + 1 && q != b
    ensures Earlier(p, b) <==> Earlier(q, b)
  {
    assert q == Parent(q) + [Last(q)];
    assert b != [] ==> b == Parent(b) + [Last(b)];
  }

  lemma NoLaterSibling(t: Tree, p: Addr, b: Addr)
    requires Valid(t, p) && Valid(t, b) && NextSibling(t, p).None?
    ensures !Earlier(p, b)
  {
    if Earlier(p, b) {
      ValidParent(t, p);
      ValidParent(t, b);
    }
  }

  /** The nodes from the root down to `p`. */
  function Chain(p: Addr): (r: seq<Addr>)
    ensures |r| == |p| + 1 && forall k :: 0 <= k <= |p| ==> r[k] == p[..k]
  {
    seq(|p| + 1, k requires 0 <= k <= |p| => p[..k])
  }

  method Ancestors(p: Addr) returns (chain: seq<Addr>)
    ensures chain == Chain(p)
  {
    chain := [p];
    var cur := Step(p, Up);
    ghost var at := p;
    while cur.Some?
      invariant cur == Step(at, Up) && at == p[..|at|] && |at| <= |p|
      invariant |chain| == |p| - |at| + 1
      invariant forall k :: 0 <= k < |chain| ==> chain[k] == p[..|at| + k]
      decreases |at|
    {
      chain := [cur.value] + chain;
      at := cur.value;
      cur := Step(cur.value, Up);
    }
  }

  /**
    What the comparator decides: preorder among non-root nodes, while the root comes
    first if it is the document and last otherwise.
   */
  ghost predicate Before(rootIsDoc: bool, a: Addr, b: Addr) {
    if a == [] || b == [] then a != b && ((a == []) == rootIsDoc) else Lex(a, b)
  }

  method SortOrder(t: Tree, rootIsDoc: bool, a: Addr, b: Addr) returns (r: int, duplicate: bool)
    requires Valid(t, a) && Valid(t, b)
    ensures duplicate <==> a == b
    ensures r == 0 <==> a == b
    ensures r < 0 <==> Before(rootIsDoc, a, b)
    ensures r > 0 <==> Before(rootIsDoc, b, a)
    ensures (rootIsDoc || (a != [] && b != [])) ==> (r < 0 <==> Precedes(t, a, b)) && (r > 0 <==> Precedes(t, b, a))
  {
    if a == b {
      BeforeStrict(rootIsDoc, a, b);
      PrecedesIsLex(t, a, b);
      LexIrreflexive(a);
      return 0, true;
    }
    duplicate := false;
    PrecedesIsLex(t, a, b);
    PrecedesIsLex(t, b, a);
    LexAsymmetric(a, b);
    var aup, bup := Step(a, Up), Step(b, Up);
    if aup.None? || bup.None? {
      r := if a == [] && rootIsDoc then -1
           else if b == [] && rootIsDoc then 1
           else if aup.Some? then -1 else 1;
    } else if aup == bup {
      r := SiblingCheck(t, Some(a), Some(b));
      SiblingsAreLex(a, b);
    } else {
      var ap := Ancestors(a);
      var bp := Ancestors(b);
      var i := 0;
      while i < |ap| && i < |bp| && ap[i] == bp[i]
        invariant 0 <= i <= |ap| && i <= |bp|
        invariant forall k :: 0 <= k < i ==> ap[k] == bp[k]
        decreases |ap| - i
      {
        i := i + 1;
      }
      assert i > 0 by { assert ap[0] == [] == bp[0]; }
      assert !(i == |ap| == |bp|) by { assert ap[|a|] == a && bp[|b|] == b; }
      if i < |ap| { ValidPrefix(t, a, i); }
      if i < |bp| { ValidPrefix(t, b, i); }
      r := SiblingCheck(t, if i < |ap| then Some(ap[i]) else None, if i < |bp| then Some(bp[i]) else None);
      assert a[..i - 1] == ap[i - 1] == bp[i - 1] == b[..i - 1];
      DiscrepancyDecides(a, b, i);
    }
  }

  lemma ValidPrefix(t: Tree, p: Addr, k: nat)
    requires Valid(t, p) && k <= |p|
    ensures Valid(t, p[..k])
    decreases |p| - k
  {
    if k < |p| {
      ValidPrefix(t, p, k + 1);
      assert p[..k + 1] == p[..k] + [p[k]];
      ValidSnoc(t, p[..k], p[k]);
    } else {
      assert p[..k] == p;
    }
  }

  lemma LexAsymmetric(a: Addr, b: Addr)
    ensures a != b ==> (Lex(a, b) <==> !Lex(b, a))
  {
    LexTotal(a, b);
    if Lex(a, b) && Lex(b, a) {
      LexTransitive(a, b, a);
      LexIrreflexive(a);
    }
  }

  lemma {:induction false} LexSharedPrefix(p: Addr, a: Addr, b: Addr)
    ensures Lex(p + a, p + b) <==> Lex(a, b)
  {
    if p == [] {
      assert p + a == a && p + b == b;
    } else {
      assert (p + a)[1..] == p[1..] + a && (p + b)[1..] == p[1..] + b;
      LexSharedPrefix(p[1..], a, b);
    }
  }

  lemma SiblingsAreLex(a: Addr, b: Addr)
    requires a != [] && b != [] && Parent(a) == Parent(b) && a != b
    ensures Lex(a, b) <==> Earlier(a, b)
  {
    assert a == Parent(a) + [Last(a)] && b == Parent(a) + [Last(b)];
    LexSharedPrefix(Parent(a), [Last(a)], [Last(b)]);
  }

  /** The first difference between two ancestor chains decides their order. */
  lemma DiscrepancyDecides(a: Addr, b: Addr, i: nat)
    requires a != b && 0 < i <= |a| + 1 && i <= |b| + 1 && a[..i - 1] == b[..i - 1]
    requires i <= |a| && i <= |b| ==> a[..i] != b[..i]
    ensures i > |a| ==> Lex(a, b)
    ensures i <= |a| && i > |b| ==> Lex(b, a)
    ensures i <= |a| && i <= |b| ==> (Lex(a, b) <==> Earlier(a[..i], b[..i]))
  {
    var p, x, y := a[..i - 1], a[i - 1..], b[i - 1..];
    assert a == p + x && b == p + y;
    LexSharedPrefix(p, x, y);
    LexSharedPrefix(p, y, x);
    if i <= |a| && i <= |b| {
      ChainEntriesDiffer(a, b, i);
    }
  }

  lemma ChainEntriesDiffer(a: Addr, b: Addr, i: nat)
    requires 0 < i <= |a| && i <= |b| && a[..i - 1] == b[..i - 1] && a[..i] != b[..i]
    ensures a[i - 1] != b[i - 1]
    ensures Earlier(a[..i], b[..i]) <==> a[i - 1] < b[i - 1]
  {
    assert a[..i] == a[..i - 1] + [a[i - 1]] && b[..i] == b[..i - 1] + [b[i - 1]];
    assert Parent(a[..i]) == a[..i - 1] && Parent(b[..i]) == b[..i - 1];
  }

  // ---------- Before is a strict total order, and when it is document order ----------

  lemma BeforeStrict(rootIsDoc: bool, a: Addr, b: Addr)
    ensures !Before(rootIsDoc, a, a)
    ensures a != b ==> (Before(rootIsDoc, a, b) <==> !Before(rootIsDoc, b, a))
  {
    LexIrreflexive(a);
    LexAsymmetric(a, b);
  }

  lemma BeforeTransitive(rootIsDoc: bool, a: Addr, b: Addr, c: Addr)
    requires Before(rootIsDoc, a, b) && Before(rootIsDoc, b, c)
    ensures Before(rootIsDoc, a, c)
  {
    if a != [] && b != [] && c != [] {
      LexTransitive(a, b, c);
    }
  }

  /**
    The comparator is document order on the whole tree exactly when the root is the
    document, or there is nothing but the root.  In a detached tree the root is put last.
   */
  lemma BeforeIsDocumentOrder(t: Tree, rootIsDoc: bool)
    ensures (forall a, b :: Valid(t, a) && Valid(t, b) ==> (Before(rootIsDoc, a, b) <==> Precedes(t, a, b)))
            <==> (rootIsDoc || t.kids == [])
  {
    forall a, b | Valid(t, a) && Valid(t, b)
      ensures Precedes(t, a, b) <==> Lex(a, b)
    {
      PrecedesIsLex(t, a, b);
    }
    if !rootIsDoc && t.kids != [] {
      var first: Addr := [0];
      assert Valid(t, first) by { assert first[1..] == []; }
      assert Lex([], first) && !Before(rootIsDoc, [], first);
    }
  }

  // ---------- uniqueSort ----------

  ghost predicate AllValid(t: Tree, s: seq<Addr>) {
    forall x :: x in s ==> Valid(t, x)
  }

  ghost predicate Sorted(rootIsDoc: bool, s: seq<Addr>) {
    forall i, j :: 0 <= i < j < |s| ==> s[i] == s[j] || Before(rootIsDoc, s[i], s[j])
  }

  ghost predicate StrictlySorted(rootIsDoc: bool, s: seq<Addr>) {
    forall i, j :: 0 <= i < j < |s| ==> Before(rootIsDoc, s[i], s[j])
  }

  ghost predicate Repeats(s: seq<Addr>) {
    exists i, j :: 0 <= i < j < |s| && s[i] == s[j]
  }

  /**
    Array sorting with the comparator above.  The engine may use any algorithm; callers
    rely on the contract alone: a sorted rearrangement, with equal entries noticed.
   */
  method Sort(t: Tree, rootIsDoc: bool, s: seq<Addr>) returns (r: seq<Addr>, duplicate: bool)
    requires AllValid(t, s)
    ensures multiset(r) == multiset(s)
    ensures Sorted(rootIsDoc, r)
    ensures Repeats(r) ==> duplicate
  {
    r, duplicate := [], false;
    for n := 0 to |s|
      invariant multiset(r) == multiset(s[..n])
      invariant AllValid(t, r)
      invariant Sorted(rootIsDoc, r)
      invariant Repeats(r) ==> duplicate
    {
      var d;
      r, d := Insert(t, rootIsDoc, r, s[n]);
      duplicate := duplicate || d;
      assert s[..n + 1] == s[..n] + [s[n]];
    }
    assert s[..|s|] == s;
  }

  method Insert(t: Tree, rootIsDoc: bool, s: seq<Addr>, x: Addr) returns (r: seq<Addr>, duplicate: bool)
    requires AllValid(t, s) && Valid(t, x) && Sorted(rootIsDoc, s)
    ensures multiset(r) == multiset(s) + multiset{x}
    ensures AllValid(t, r)
    ensures Sorted(rootIsDoc, r)
    ensures Repeats(r) ==> Repeats(s) || duplicate
  {
    var i := 0;
    duplicate := false;
    while i < |s|
      invariant 0 <= i <= |s|
      invariant !duplicate
      invariant forall k :: 0 <= k < i ==> Before(rootIsDoc, s[k], x)
    {
      var c, d := SortOrder(t, rootIsDoc, s[i], x);
      if c >= 0 {
        duplicate := d;
        break;
      }
      i := i + 1;
    }
    forall k | i <= k < |s|
      ensures if duplicate then s[k] == x || Before(rootIsDoc, x, s[k]) else Before(rootIsDoc, x, s[k])
    {
      if k > i && s[i] != s[k] && s[i] != x {
        BeforeTransitive(rootIsDoc, x, s[i], s[k]);
      }
    }
    r := s[..i] + [x] + s[i..];
    assert s == s[..i] + s[i..];
    assert AllValid(t, r) by {
      forall y | y in r ensures Valid(t, y) { if y != x { assert y in s; } }
    }
    InsertKeepsOrder(rootIsDoc, s, x, i, duplicate);
  }

  lemma InsertKeepsOrder(rootIsDoc: bool, s: seq<Addr>, x: Addr, i: nat, duplicate: bool)
    requires i <= |s| && Sorted(rootIsDoc, s)
    requires forall k :: 0 <= k < i ==> Before(rootIsDoc, s[k], x)
    requires forall k :: i <= k < |s| ==> (duplicate && s[k] == x) || Before(rootIsDoc, x, s[k])
    ensures Sorted(rootIsDoc, s[..i] + [x] + s[i..])
    ensures Repeats(s[..i] + [x] + s[i..]) ==> Repeats(s) || duplicate
  {
    var r := s[..i] + [x] + s[i..];
    forall k, l | 0 <= k < l < |r|
      ensures r[k] == r[l] || Before(rootIsDoc, r[k], r[l])
      ensures r[k] == r[l] ==> duplicate || Repeats(s)
    {
      InsertedPair(rootIsDoc, s, x, i, duplicate, k, l);
    }
  }

  lemma InsertedPair(rootIsDoc: bool, s: seq<Addr>, x: Addr, i: nat, duplicate: bool, k: nat, l: nat)
    requires i <= |s| && Sorted(rootIsDoc, s)
    requires forall k :: 0 <= k < i ==> Before(rootIsDoc, s[k], x)
    requires forall k :: i <= k < |s| ==> (duplicate && s[k] == x) || Before(rootIsDoc, x, s[k])
    requires k < l <= |s|
    ensures var r := s[..i] + [x] + s[i..];
      && (r[k] == r[l] || Before(rootIsDoc, r[k], r[l]))
      && (r[k] == r[l] ==> duplicate || Repeats(s))
  {
    var r := s[..i] + [x] + s[i..];
    BeforeStrict(rootIsDoc, x, x);
    if k == i {
      assert r[l] == s[l - 1];
    } else if l == i {
      assert r[k] == s[k];
    } else {
      var k', l' := if k < i then k else k - 1, if l < i then l else l - 1;
      assert k' < l' && r[k] == s[k'] && r[l] == s[l'];
    }
  }

  /** Sort, then splice out every entry equal to its successor. */
  method UniqueSort(t: Tree, rootIsDoc: bool, detectDuplicates: bool, results: seq<Addr>) returns (r: seq<Addr>)
    requires AllValid(t, results)
    ensures forall x :: x in r <==> x in results
    ensures StrictlySorted(rootIsDoc, r)
    ensures rootIsDoc || [] !in results ==> forall i, j :: 0 <= i < j < |r| ==> Precedes(t, r[i], r[j])
  {
    var hasDuplicate;
    r, hasDuplicate := Sort(t, rootIsDoc, results);
    hasDuplicate := hasDuplicate || !detectDuplicates;
    assert forall x :: x in r <==> x in multiset(r);
    assert forall x :: x in results <==> x in multiset(results);
    if hasDuplicate {
      var duplicates := FindDuplicates(r);
      r := Splice(rootIsDoc, r, duplicates);
      NeighboursDiffer(rootIsDoc, r);
    }
    forall i, j | 0 <= i < j < |r| && (rootIsDoc || [] !in results)
      ensures Precedes(t, r[i], r[j])
    {
      assert r[i] in results && r[j] in results;
      PrecedesIsLex(t, r[i], r[j]);
    }
  }

  predicate Twin(s: seq<Addr>, k: nat) {
    k + 1 < |s| && s[k] == s[k + 1]
  }

  /** `d` lists, in ascending order, the positions before `n` that satisfy `p`. */
  ghost predicate Lists(d: seq<nat>, n: nat, p: nat -> bool) {
    && Increasing(d)
    && (forall m :: 0 <= m < |d| ==> d[m] < n && p(d[m]))
    && forall k: nat :: k < n && p(k) ==> k in d
  }

  ghost predicate DuplicateIndices(s: seq<Addr>, d: seq<nat>) {
    Lists(d, |s|, (k: nat) => Twin(s, k))
  }

  method FindDuplicates(s: seq<Addr>) returns (d: seq<nat>)
    ensures DuplicateIndices(s, d)
  {
    d := [];
    var i := 0;
    ghost var twin := (k: nat) => Twin(s, k);
    while i < |s|
      invariant 0 <= i <= |s| && Lists(d, i, twin)
    {
      ListNext(d, i, twin);
      if Twin(s, i) {
        d := d + [i];
      }
      i := i + 1;
    }
  }

  lemma ListNext(d: seq<nat>, i: nat, p: nat -> bool)
    requires Lists(d, i, p)
    ensures Lists(if p(i) then d + [i] else d, i + 1, p)
  {
    var e := d + [i];
    assert e[|d|] == i;
    forall k: nat | k < i && p(k)
      ensures k in e
    {
      var m :| 0 <= m < |d| && d[m] == k;
      assert e[m] == k;
    }
  }

  ghost predicate NoAdjacentFrom(r: seq<Addr>, from: nat) {
    forall k :: from <= k < |r| - 1 ==> r[k] != r[k + 1]
  }

  method Splice(rootIsDoc: bool, s: seq<Addr>, d: seq<nat>) returns (r: seq<Addr>)
    requires DuplicateIndices(s, d) && Sorted(rootIsDoc, s)
    ensures Sorted(rootIsDoc, r)
    ensures forall x :: x in r <==> x in s
    ensures NoAdjacentFrom(r, 0)
  {
    r := s;
    ghost var from := |s|;
    var j := |d|;
    while j > 0
      invariant 0 <= j <= |d|
      invariant from == if j == |d| then |s| else d[j]
      invariant from <= |s| && (j == |d| ==> r == s)
      invariant |r| >= from && forall k :: 0 <= k < from ==> r[k] == s[k]
      invariant from < |s| ==> from < |r| && r[from] == s[from]
      invariant Sorted(rootIsDoc, r)
      invariant forall x :: x in r <==> x in s
      invariant NoAdjacentFrom(r, from)
    {
      j := j - 1;
      var at := d[j];
      assert from == if j + 1 == |d| then |s| else d[j + 1];
      assert at < from && Twin(s, at);
      RemoveDuplicate(rootIsDoc, r, at);
      forall k | at < k < |r| - 1
        ensures r[k] != r[k + 1]
      {
        if k < from {
          NotListed(d, j + 1, k);
          assert !Twin(s, k);
        }
      }
      r := r[..at] + r[at + 1..];
      from := at;
    }
    forall k | 0 <= k < |r| - 1
      ensures r[k] != r[k + 1]
    {
      if k < from {
        NotListed(d, 0, k);
        assert !Twin(s, k);
      }
    }
  }

  lemma NotListed(d: seq<nat>, j: nat, k: nat)
    requires Increasing(d) && j <= |d|
    requires (j == 0 || d[j - 1] < k) && (j == |d| || k < d[j])
    ensures k !in d
  {
    forall m | 0 <= m < |d|
      ensures d[m] != k
    {
      if m < j {
        assert d[m] <= d[j - 1];
      } else {
        assert d[j] <= d[m];
      }
    }
  }

  ghost predicate Increasing(s: seq<nat>) {
    forall i, j :: 0 <= i < j < |s| ==> s[i] < s[j]
  }

  lemma RemoveDuplicate(rootIsDoc: bool, r: seq<Addr>, d: nat)
    requires d + 1 < |r| && r[d] == r[d + 1] && Sorted(rootIsDoc, r)
    ensures Sorted(rootIsDoc, r[..d] + r[d + 1..])
    ensures forall x :: x in r[..d] + r[d + 1..] <==> x in r
  {
    var q := r[..d] + r[d + 1..];
    assert forall k :: 0 <= k < |q| ==> q[k] == if k < d then r[k] else r[k + 1];
    forall x | x in r ensures x in q {
      var k :| 0 <= k < |r| && r[k] == x;
      assert q[if k <= d then k else k - 1] == x;
    }
  }

  lemma NeighboursDiffer(rootIsDoc: bool, r: seq<Addr>)
    requires Sorted(rootIsDoc, r) && NoAdjacentFrom(r, 0)
    ensures StrictlySorted(rootIsDoc, r)
  {
    forall i, j | 0 <= i < j < |r|
      ensures Before(rootIsDoc, r[i], r[j])
    {
      assert Before(rootIsDoc, r[i], r[i + 1]);
      if i + 1 < j && r[i + 1] != r[j] {
        BeforeTransitive(rootIsDoc, r[i], r[i + 1], r[j]);
      }
    }
  }
}
