/**
  Compiling token lists into matchers, and why the compiled right-to-left matchers
  agree with the left-to-right reading of the tokens.
 */
module Compiler {
  import opened Wrappers
  import opened Dom
  import opened Selector

  // ---------- combinators and walks ----------

  lemma {:induction false} NearestUp(t: Tree, y: Addr)
    requires WellFormed(t) && Valid(t, y)
    ensures Nearest(t, y, Up, true) == (if y == [] then None else Some(Parent(y)))
    ensures Nearest(t, y, Up, false) ==
            (if y != [] && IsElement(t, Parent(y)) then Some(Parent(y)) else None)
  {
    if y != [] {
      ValidParent(t, y);
    }
  }

  lemma {:induction false} NearestBack(t: Tree, y: Addr, base: bool, x: Addr)
    ensures Nearest(t, y, Back, base) == Some(x) <==>
            IsElement(t, x) && Earlier(x, y) && forall z :: Earlier(x, z) && Earlier(z, y) ==> !IsElement(t, z)
    decreases Rank(y, Back)
  {
    if y != [] && Last(y) != 0 {
      var r := Parent(y) + [Last(y) - 1];
      assert Parent(r) == Parent(y) && Last(r) == Last(y) - 1;
      forall z ensures Earlier(z, y) <==> z == r || Earlier(z, r) {
        if z != [] {
          assert z == Parent(z) + [Last(z)];
        }
      }
      NearestBack(t, r, base, x);
    }
  }

  /** A walk over a matcher that recognises a set steps along the combinator from that set. */
  lemma WalkReaches(m: Matcher, sc: Scope, rel: Rel, s: set<Addr>, y: Addr)
    requires m.Walk? && m.dir == DirOf(rel) && m.first == FirstOnly(rel)
    requires WellFormed(sc.tree) && IsElement(sc.tree, y)
    requires forall q :: m.base || IsElement(sc.tree, q) ==> (Sem(m.inner, sc, q) <==> q in s)
    requires !m.base ==> s <= Elements(sc.tree)
    ensures Sem(m, sc, y) <==> exists x :: x in s && Reaches(sc.tree, rel, x, y)
  {
    var t := sc.tree;
    match rel
    case Child =>
      NearestUp(t, y);
    case Adjacent =>
      forall x ensures Nearest(t, y, Back, m.base) == Some(x) <==> Reaches(t, rel, x, y) {
        NearestBack(t, y, m.base, x);
      }
    case Descendant =>
      forall q ensures q in Beyond(y, Up) <==> Ancestor(q, y) { BeyondUp(y, q); }
    case Sibling =>
      forall q ensures q in Beyond(y, Back) <==> Earlier(q, y) { BeyondBack(y, q); }
  }

  // ---------- the compiler ----------

  function ElementMatcher(ms: seq<Matcher>): Matcher
    requires ms != []
  {
    if |ms| > 1 then All(ms) else ms[0]
  }

  /** The relation a selector is anchored by: its leading combinator, or descendant. */
  function Anchor(tokens: seq<Token>): Rel {
    if Leading(tokens) then tokens[0].rel else Descendant
  }

  function Foundation(tokens: seq<Token>, name: nat): Matcher {
    var rel := Anchor(tokens);
    Rooted(Leading(tokens),
           Walk(AtContext, DirOf(rel), FirstOnly(rel), true, name),
           Walk(InContexts, DirOf(rel), FirstOnly(rel), true, name + 1))
  }

  function First(tokens: seq<Token>): nat {
    if Leading(tokens) then 1 else 0
  }

  /** The matchers built after `i` tokens, and the next free name. */
  function Built(tokens: seq<Token>, i: nat, name: nat): (r: (seq<Matcher>, nat))
    requires First(tokens) <= i <= |tokens|
    ensures r.0 != []
    decreases i
  {
    if i == First(tokens) then ([Foundation(tokens, name)], name + 2)
    else
      var (ms, next) := Built(tokens, i - 1, name);
      match tokens[i - 1]
      case Combinator(rel) => ([Walk(ElementMatcher(ms), DirOf(rel), FirstOnly(rel), false, next)], next + 1)
      case Filter(test, _) => (ms + [Test(test)], next)
  }

  function Compiled(tokens: seq<Token>, name: nat): Matcher {
    ElementMatcher(Built(tokens, |tokens|, name).0)
  }

  method AddCombinator(engine: Engine, matcher: Matcher, rel: Rel, base: bool) returns (m: Matcher)
    modifies engine`done
    ensures engine.done == old(engine.done) + 1
    ensures m == Walk(matcher, DirOf(rel), FirstOnly(rel), base, old(engine.done))
  {
    var doneName := engine.done;
    engine.done := engine.done + 1;
    m := Walk(matcher, DirOf(rel), FirstOnly(rel), base, doneName);
  }

  method MatcherFromTokens(engine: Engine, tokens: seq<Token>) returns (m: Matcher)
    requires tokens != []
    modifies engine`done
    ensures m == Compiled(tokens, old(engine.done))
    ensures engine.done == Built(tokens, |tokens|, old(engine.done)).1 > old(engine.done)
    ensures WellNamed(m)
    ensures forall n: nat :: Uses(m, n) ==> old(engine.done) <= n < engine.done
    ensures forall sc: Scope, e :: WellFormed(sc.tree) && IsElement(sc.tree, e) ==> (Sem(m, sc, e) <==> e in Selected(sc, tokens))
  {
    var rel := Anchor(tokens);
    var matchContext := AddCombinator(engine, AtContext, rel, true);
    var matchAnyContext := AddCombinator(engine, InContexts, rel, true);
    var matchers := [Rooted(Leading(tokens), matchContext, matchAnyContext)];
    var i := First(tokens);
    while i < |tokens|
      invariant First(tokens) <= i <= |tokens|
      invariant (matchers, engine.done) == Built(tokens, i, old(engine.done))
    {
      match tokens[i] {
        case Combinator(next) =>
          var walk := AddCombinator(engine, ElementMatcher(matchers), next, false);
          matchers := [walk];
        case Filter(test, _) =>
          matchers := matchers + [Test(test)];
      }
      i := i + 1;
    }
    m := ElementMatcher(matchers);
    BuiltNames(tokens, |tokens|, old(engine.done));
    forall sc: Scope, e | WellFormed(sc.tree) && IsElement(sc.tree, e)
      ensures Sem(m, sc, e) <==> e in Selected(sc, tokens)
    {
      CompiledMeaning(tokens, old(engine.done), sc, e);
    }
  }

  lemma {:induction false} BuiltNames(tokens: seq<Token>, i: nat, name: nat)
    requires First(tokens) <= i <= |tokens|
    ensures var (ms, next) := Built(tokens, i, name);
      && name < next
      && WellNamed(ElementMatcher(ms))
      && (forall n: nat :: Uses(ElementMatcher(ms), n) ==> name <= n < next)
      && (forall k :: 1 <= k < |ms| ==> ms[k].Test?)
    decreases i
  {
    if i > First(tokens) {
      BuiltNames(tokens, i - 1, name);
      var (ms, next) := Built(tokens, i - 1, name);
      if tokens[i - 1].Filter? {
        var f := Test(tokens[i - 1].test);
        forall n: nat | Uses(All(ms + [f]), n)
          ensures Uses(ElementMatcher(ms), n)
        {
          var k :| 0 <= k < |ms + [f]| && Uses((ms + [f])[k], n);
          assert k < |ms| && (ms + [f])[k] == ms[k];
        }
      }
    } else {
      var m := Foundation(tokens, name);
      assert forall n: nat :: Uses(m.one, n) <==> n == name;
      assert forall n: nat :: Uses(m.any, n) <==> n == name + 1;
    }
  }

  // ---------- agreement ----------

  lemma {:induction false} BuiltMeaning(tokens: seq<Token>, i: nat, name: nat, sc: Scope, e: Addr)
    requires First(tokens) <= i <= |tokens|
    requires WellFormed(sc.tree) && IsElement(sc.tree, e)
    ensures Sem(ElementMatcher(Built(tokens, i, name).0), sc, e) <==>
            e in ReadAll(sc.tree, Start(sc, Leading(tokens)), tokens[..i])
    decreases i
  {
    if i == First(tokens) {
      FoundationMeaning(tokens, name, sc, e);
      assert tokens[..i] == if Leading(tokens) then [tokens[0]] else [];
      assert Leading(tokens) ==> [tokens[0]][..0] == [];
    } else {
      var ms := Built(tokens, i - 1, name).0;
      var s := ReadAll(sc.tree, Start(sc, Leading(tokens)), tokens[..i - 1]);
      assert tokens[..i][..i - 1] == tokens[..i - 1];
      match tokens[i - 1]
      case Filter(test, _) =>
        BuiltMeaning(tokens, i - 1, name, sc, e);
        Conjoin(ms, test, sc, e);
      case Combinator(rel) =>
        forall q | IsElement(sc.tree, q)
          ensures Sem(ElementMatcher(ms), sc, q) <==> q in s
        {
          BuiltMeaning(tokens, i - 1, name, sc, q);
        }
        ReadElements(sc, tokens, i - 1);
        WalkReaches(Built(tokens, i, name).0[0], sc, rel, s, e);
    }
  }

  lemma Conjoin(ms: seq<Matcher>, test: Addr -> bool, sc: Scope, e: Addr)
    requires ms != []
    ensures Sem(ElementMatcher(ms + [Test(test)]), sc, e) <==> Sem(ElementMatcher(ms), sc, e) && test(e)
  {
    var more := ms + [Test(test)];
    assert more[|ms|] == Test(test);
    assert forall k :: 0 <= k < |ms| ==> more[k] == ms[k];
    if Sem(ElementMatcher(ms), sc, e) && test(e) {
      assert forall k :: 0 <= k < |more| ==> Sem(more[k], sc, e);
    }
    if Sem(All(more), sc, e) {
      assert forall k :: 0 <= k < |ms| ==> Sem(more[k], sc, e);
    }
  }

  lemma FoundationMeaning(tokens: seq<Token>, name: nat, sc: Scope, e: Addr)
    requires WellFormed(sc.tree) && IsElement(sc.tree, e)
    ensures Sem(Foundation(tokens, name), sc, e) <==>
            if Leading(tokens) then e in Read(sc.tree, Start(sc, true), tokens[0]) else e in Start(sc, false)
  {
    var m := Foundation(tokens, name);
    var walk := if sc.context.One? then m.one else m.any;
    if Leading(tokens) || !ContextSkipped(sc) {
      WalkReaches(walk, sc, Anchor(tokens), Start(sc, true), e);
    }
  }

  lemma {:induction false} ReadElements(sc: Scope, tokens: seq<Token>, i: nat)
    requires First(tokens) <= i <= |tokens|
    ensures ReadAll(sc.tree, Start(sc, Leading(tokens)), tokens[..i]) <= Elements(sc.tree)
    decreases i
  {
    if i > First(tokens) {
      assert tokens[..i][..i - 1] == tokens[..i - 1];
      ReadElements(sc, tokens, i - 1);
    } else if i == 0 {
      assert tokens[..i] == [];
    }
  }

  /** The compiled right-to-left matcher accepts exactly the elements the selector selects. */
  lemma CompiledMeaning(tokens: seq<Token>, name: nat, sc: Scope, e: Addr)
    requires WellFormed(sc.tree) && IsElement(sc.tree, e)
    ensures Sem(Compiled(tokens, name), sc, e) <==> e in Selected(sc, tokens)
  {
    assert tokens[..|tokens|] == tokens;
    BuiltMeaning(tokens, |tokens|, name, sc, e);
  }
}
