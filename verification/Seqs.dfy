/** Filtering of sequences, the shape in which every search of this project reports its result. */
module Seqs {

  /** The elements of `s` that satisfy `f`, in their order. */
  function Keep<T>(s: seq<T>, f: T -> bool): seq<T> {
    if s == [] then []
    else Keep(s[..|s| - 1], f) + (if f(s[|s| - 1]) then [s[|s| - 1]] else [])
  }

  lemma {:induction false} KeepMember<T>(s: seq<T>, f: T -> bool, x: T)
    ensures x in Keep(s, f) <==> x in s && f(x)
  {
    if s != [] {
      KeepMember(s[..|s| - 1], f, x);
      assert s == s[..|s| - 1] + [s[|s| - 1]];
    }
  }

  lemma {:induction false} KeepSnoc<T>(s: seq<T>, x: T, f: T -> bool)
    ensures Keep(s + [x], f) == Keep(s, f) + (if f(x) then [x] else [])
  {
    assert (s + [x])[..|s|] == s;
  }

  lemma {:induction false} KeepAgree<T(!new)>(s: seq<T>, f: T -> bool, g: T -> bool)
    requires forall x :: x in s ==> f(x) == g(x)
    ensures Keep(s, f) == Keep(s, g)
  {
    if s != [] {
      KeepAgree(s[..|s| - 1], f, g);
    }
  }

  lemma {:induction false} KeepKeep<T(!new)>(s: seq<T>, f: T -> bool, g: T -> bool, h: T -> bool)
    requires forall x :: x in s ==> h(x) == (f(x) && g(x))
    ensures Keep(Keep(s, f), g) == Keep(s, h)
  {
    if s != [] {
      var front, last := s[..|s| - 1], s[|s| - 1];
      assert forall x :: x in front ==> x in s;
      KeepKeep(front, f, g, h);
      assert last in s;
      if f(last) {
        KeepSnoc(Keep(front, f), last, g);
        assert Keep(s, f) == Keep(front, f) + [last];
      } else {
        assert Keep(s, f) == Keep(front, f);
      }
    }
  }

  lemma {:induction false} KeepConcat<T>(s: seq<T>, u: seq<T>, f: T -> bool)
    ensures Keep(s + u, f) == Keep(s, f) + Keep(u, f)
  {
    if u == [] {
      assert s + u == s;
    } else {
      var front, last := u[..|u| - 1], u[|u| - 1];
      KeepConcat(s, front, f);
      assert s + u == (s + front) + [last];
      KeepSnoc(s + front, last, f);
    }
  }

  /** Nothing is kept exactly when nothing satisfies the test. */
  lemma {:induction false} KeepNone<T(!new)>(s: seq<T>, f: T -> bool)
    ensures Keep(s, f) == [] <==> forall x :: x in s ==> !f(x)
  {
    if Keep(s, f) != [] {
      KeepMember(s, f, Keep(s, f)[0]);
    }
    forall x | x in s && f(x)
      ensures x in Keep(s, f)
    {
      KeepMember(s, f, x);
    }
  }
}
