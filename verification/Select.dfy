/**
  Running compiled selectors: the outermost matching loop, and select with its two
  short cuts (re-rooting at an id, seeding from the last compound).
 */
module Select {
  import opened Wrappers
  import opened Dom
  import opened Seqs
  import opened Selector
  import opened Compiler

  // ---------- the matching loop ----------

  ghost predicate AnySem(ms: seq<Matcher>, sc: Scope, e: Addr) {
    exists k :: 0 <= k < |ms| && Sem(ms[k], sc, e)
  }

  ghost function Matched(ms: seq<Matcher>, sc: Scope, elems: seq<Addr>): seq<Addr> {
    Keep(elems, e => AnySem(ms, sc, e))
  }

  ghost predicate AllWellNamed(ms: seq<Matcher>) {
    && (forall k :: 0 <= k < |ms| ==> WellNamed(ms[k]))
    && forall j, k :: 0 <= j < k < |ms| ==> Disjoint(ms[j], ms[k])
  }

  /** No slot is from a run that has not started yet. */
  ghost predicate Ready(engine: Engine)
    reads engine, engine.slots.Values
  {
    && engine.outermostContext == None
    && forall key :: key in engine.slots ==> engine.slots[key].run <= engine.dirruns
  }

  function OutermostOf(t: Tree, context: Addr): Option<Addr> {
    if Valid(t, context) && At(t, context).kind == Document then None else Some(context)
  }

  function ScopeOf(t: Tree, context: Addr): Scope {
    Scope(t, One(context), OutermostOf(t, context))
  }

  /** Appends the elements some matcher accepts; node memory is carried from element to element. */
  method SuperMatcher(engine: Engine, ms: seq<Matcher>, t: Tree, context: Addr, elems: seq<Addr>, results: seq<Addr>)
    returns (r: seq<Addr>)
    requires Ready(engine) && AllWellNamed(ms)
    modifies engine
    ensures Ready(engine) && engine.dirruns == old(engine.dirruns) + 1 && engine.done == old(engine.done)
    ensures r == results + Matched(ms, ScopeOf(t, context), elems)
  {
    var contextBackup := engine.outermostContext;
    engine.dirruns := engine.dirruns + 1;
    engine.outermostContext := OutermostOf(t, context);
    var sc := ScopeOf(t, context);
    forall k | 0 <= k < |ms| ensures Sound(ms[k], sc, engine.View(), engine.dirruns) {
      SoundFresh(ms[k], sc, engine.View(), engine.dirruns);
    }
    r := results;
    var i := 0;
    while i < |elems|
      invariant 0 <= i <= |elems|
      invariant engine.dirruns == old(engine.dirruns) + 1 && engine.done == old(engine.done)
      invariant engine.outermostContext == sc.outermost
      invariant forall key :: key in engine.slots ==> engine.slots[key].run <= engine.dirruns
      invariant forall k :: 0 <= k < |ms| ==> Sound(ms[k], sc, engine.View(), engine.dirruns)
      invariant r == results + Matched(ms, sc, elems[..i])
    {
      var found := MatchAny(engine, ms, sc, elems[i]);
      assert elems[..i + 1] == elems[..i] + [elems[i]];
      KeepSnoc(elems[..i], elems[i], e => AnySem(ms, sc, e));
      if found {
        r := r + [elems[i]];
      }
      i := i + 1;
    }
    assert elems[..i] == elems;
    engine.outermostContext := contextBackup;
  }

  method MatchAny(engine: Engine, ms: seq<Matcher>, sc: Scope, e: Addr) returns (found: bool)
    requires AllWellNamed(ms) && sc.outermost == engine.outermostContext
    requires forall key :: key in engine.slots ==> engine.slots[key].run <= engine.dirruns
    requires forall k :: 0 <= k < |ms| ==> Sound(ms[k], sc, engine.View(), engine.dirruns)
    modifies engine`slots
    ensures found == AnySem(ms, sc, e)
    ensures forall key :: key in engine.slots ==> engine.slots[key].run <= engine.dirruns
    ensures forall k :: 0 <= k < |ms| ==> Sound(ms[k], sc, engine.View(), engine.dirruns)
  {
    var j := 0;
    while j < |ms|
      invariant 0 <= j <= |ms|
      invariant forall k :: 0 <= k < j ==> !Sem(ms[k], sc, e)
      invariant forall key :: key in engine.slots ==> engine.slots[key].run <= engine.dirruns
      invariant forall k :: 0 <= k < |ms| ==> Sound(ms[k], sc, engine.View(), engine.dirruns)
    {
      ghost var v := engine.View();
      var b := engine.Run(ms[j], sc, e);
      assert OnlyWrites(Names(ms[j]), v, engine.View(), engine.dirruns);
      forall k | 0 <= k < |ms|
        ensures Sound(ms[k], sc, engine.View(), engine.dirruns)
      {
        if k != j {
          assert Disjoint(ms[k], ms[j]);
          SoundFrame(ms[k], Names(ms[j]), sc, v, engine.View(), engine.dirruns);
        }
      }
      if b {
        return true;
      }
      j := j + 1;
    }
    found := false;
  }

  /** Compiles every group of a selector, last group first. */
  method Compile(engine: Engine, groups: seq<seq<Token>>) returns (ms: seq<Matcher>)
    requires forall k :: 0 <= k < |groups| ==> groups[k] != []
    modifies engine`done
    ensures AllWellNamed(ms)
    ensures forall sc: Scope, e :: WellFormed(sc.tree) && IsElement(sc.tree, e) ==>
      (AnySem(ms, sc, e) <==> exists k :: 0 <= k < |groups| && e in Selected(sc, groups[k]))
  {
    ms := [];
    var i := |groups|;
    while i > 0
      invariant 0 <= i <= |groups|
      invariant |ms| == |groups| - i
      invariant old(engine.done) <= engine.done
      invariant AllWellNamed(ms)
      invariant forall k, n: nat :: 0 <= k < |ms| && Uses(ms[k], n) ==> n < engine.done
      invariant forall k, sc: Scope, e :: 0 <= k < |ms| && WellFormed(sc.tree) && IsElement(sc.tree, e) ==>
        (Sem(ms[k], sc, e) <==> e in Selected(sc, groups[|groups| - 1 - k]))
    {
      i := i - 1;
      var m := MatcherFromTokens(engine, groups[i]);
      ms := ms + [m];
    }
    forall sc: Scope, e | WellFormed(sc.tree) && IsElement(sc.tree, e)
      ensures AnySem(ms, sc, e) <==> exists k :: 0 <= k < |groups| && e in Selected(sc, groups[k])
    {
      if k :| 0 <= k < |ms| && Sem(ms[k], sc, e) {
        assert e in Selected(sc, groups[|groups| - 1 - k]);
      }
      if k :| 0 <= k < |groups| && e in Selected(sc, groups[k]) {
        assert |groups| - 1 - (|groups| - 1 - k) == k;
        assert Sem(ms[|groups| - 1 - k], sc, e);
      }
    }
  }

  // ---------- scopes ----------

  /** Elements strictly below `scope` that satisfy `test`, in document order: Expr.find. */
  function Find(t: Tree, scope: Addr, test: Addr -> bool): seq<Addr> {
    Keep(Preorder(t), p => IsElement(t, p) && Ancestor(scope, p) && test(p))
  }

  /** testContext: a node that can be searched below. */
  predicate Searchable(t: Tree, p: Addr) {
    Valid(t, p) && (At(t, p).kind == Element || At(t, p).kind == Document)
  }

  /** Where candidates are looked for: one level up if the text mentions a sibling combinator. */
  function OuterScope(t: Tree, context: Addr, mentionsSibling: bool): Addr {
    if mentionsSibling && context != [] && Searchable(t, Parent(context)) then Parent(context) else context
  }

  predicate IsSiblingToken(token: Token) {
    token.Combinator? && DirOf(token.rel) == Back
  }

  predicate LeadsToSibling(tokens: seq<Token>) {
    tokens != [] && IsSiblingToken(tokens[0])
  }

  predicate MentionsSibling(groups: seq<seq<Token>>) {
    exists g, k :: 0 <= g < |groups| && 0 <= k < |groups[g]| && IsSiblingToken(groups[g][k])
  }

  /** All selected elements lie below `bound`. */
  ghost predicate Below(s: set<Addr>, bound: Addr) {
    forall y :: y in s ==> Ancestor(bound, y)
  }

  lemma ReadStaysBelow(t: Tree, s: set<Addr>, token: Token, bound: Addr)
    requires Below(s, bound)
    ensures Below(Read(t, s, token), bound)
  {
    forall y | y in Read(t, s, token)
      ensures Ancestor(bound, y)
    {
      if token.Combinator? {
        var x :| x in s && Reaches(t, token.rel, x, y);
        ReachedBelow(t, token.rel, x, y, bound);
      }
    }
  }

  lemma ReachedBelow(t: Tree, rel: Rel, x: Addr, y: Addr, bound: Addr)
    requires Ancestor(bound, x) && Reaches(t, rel, x, y)
    ensures Ancestor(bound, y)
  {
    if DirOf(rel) == Up {
      assert x == y[..|x|];
      assert y[..|bound|] == x[..|bound|];
    } else {
      assert x == Parent(x) + [Last(x)] && y == Parent(y) + [Last(y)];
      assert x[..|bound|] == Parent(x)[..|bound|] == y[..|bound|];
    }
  }

  lemma {:induction false} ReadAllStaysBelow(t: Tree, s: set<Addr>, tokens: seq<Token>, bound: Addr)
    requires Below(s, bound)
    ensures Below(ReadAll(t, s, tokens), bound)
  {
    if tokens != [] {
      ReadAllStaysBelow(t, s, tokens[..|tokens| - 1], bound);
      ReadStaysBelow(t, ReadAll(t, s, tokens[..|tokens| - 1]), tokens[|tokens| - 1], bound);
    }
  }

  /** Reading from the front instead of the back. */
  lemma {:induction false} ReadFront(t: Tree, s: set<Addr>, tokens: seq<Token>)
    requires tokens != []
    ensures ReadAll(t, s, tokens) == ReadAll(t, Read(t, s, tokens[0]), tokens[1..])
  {
    var n := |tokens|;
    if n == 1 {
      assert tokens[..0] == [] && tokens[1..] == [];
    } else {
      ReadFront(t, s, tokens[..n - 1]);
      assert tokens[..n - 1][1..] == tokens[1..][..n - 2];
    }
  }

  /** Where a selection can reach: below the context, or below its parent after a leading sibling combinator. */
  lemma SelectedBelow(t: Tree, context: Addr, tokens: seq<Token>)
    requires WellFormed(t) && Valid(t, context) && tokens != []
    ensures !LeadsToSibling(tokens) ==> Below(Selected(ScopeOf(t, context), tokens), context)
    ensures LeadsToSibling(tokens) && context == [] ==> Selected(ScopeOf(t, context), tokens) == {}
    ensures LeadsToSibling(tokens) && context != [] ==> Below(Selected(ScopeOf(t, context), tokens), Parent(context))
  {
    var sc := ScopeOf(t, context);
    if Leading(tokens) {
      ReadFront(t, {context}, tokens);
      var s := Read(t, {context}, tokens[0]);
      if LeadsToSibling(tokens) {
        if context == [] {
          assert s == {};
          NothingFromNothing(t, tokens[1..]);
        } else {
          forall y | y in s ensures Ancestor(Parent(context), y) {
            assert y == Parent(y) + [Last(y)];
          }
          ReadAllStaysBelow(t, s, tokens[1..], Parent(context));
        }
      } else {
        assert Below(s, context);
        ReadAllStaysBelow(t, s, tokens[1..], context);
      }
    } else {
      if context == [] && ContextSkipped(sc) {
        assert [] !in Elements(t);
      }
      assert Below(Start(sc, false), context);
      ReadAllStaysBelow(t, Start(sc, false), tokens, context);
    }
  }

  lemma {:induction false} NothingFromNothing(t: Tree, tokens: seq<Token>)
    ensures ReadAll(t, {}, tokens) == {}
  {
    if tokens != [] {
      NothingFromNothing(t, tokens[..|tokens| - 1]);
    }
  }

  /** Strictly after `c` at the level of `c`: its later siblings and all below them. */
  ghost predicate Later(c: Addr, y: Addr)
    requires c != []
  {
    |y| >= |c| && y[..|c| - 1] == Parent(c) && y[|c| - 1] > Last(c)
  }

  lemma ReachedLater(t: Tree, rel: Rel, x: Addr, y: Addr, c: Addr)
    requires c != [] && Later(c, x) && Reaches(t, rel, x, y)
    ensures Later(c, y)
  {
    if DirOf(rel) == Up {
      assert x == y[..|x|];
      assert y[..|c| - 1] == x[..|c| - 1];
    } else {
      assert x == Parent(x) + [Last(x)] && y == Parent(y) + [Last(y)];
      assert y[..|c| - 1] == Parent(y)[..|c| - 1] == x[..|c| - 1];
    }
  }

  lemma {:induction false} ReadAllLater(t: Tree, s: set<Addr>, tokens: seq<Token>, c: Addr)
    requires c != [] && forall y :: y in s ==> Later(c, y)
    ensures forall y :: y in ReadAll(t, s, tokens) ==> Later(c, y)
  {
    if tokens != [] {
      var front, last := ReadAll(t, s, tokens[..|tokens| - 1]), tokens[|tokens| - 1];
      ReadAllLater(t, s, tokens[..|tokens| - 1], c);
      forall y | y in Read(t, front, last)
        ensures Later(c, y)
      {
        if last.Combinator? {
          var x :| x in front && Reaches(t, last.rel, x, y);
          ReachedLater(t, last.rel, x, y, c);
        }
      }
    }
  }

  lemma SiblingsNotBelow(t: Tree, context: Addr, tokens: seq<Token>, y: Addr)
    requires LeadsToSibling(tokens) && y in Selected(ScopeOf(t, context), tokens)
    ensures !Ancestor(context, y)
  {
    ReadFront(t, {context}, tokens);
    var s := Read(t, {context}, tokens[0]);
    if context == [] {
      assert s == {};
      NothingFromNothing(t, tokens[1..]);
    } else {
      forall z | z in s
        ensures Later(context, z)
      {
        assert z == Parent(z) + [Last(z)];
      }
      ReadAllLater(t, s, tokens[1..], context);
    }
  }

  // ---------- seeding and re-rooting keep the answer ----------

  function Without<T>(s: seq<T>, i: nat): seq<T>
    requires i < |s|
  {
    s[..i] + s[i + 1..]
  }

  /** A filter of the last compound can be taken out and applied on its own. */
  lemma {:induction false} RemoveFilter(t: Tree, s: set<Addr>, tokens: seq<Token>, i: nat)
    requires i < |tokens| && forall k :: i <= k < |tokens| ==> tokens[k].Filter?
    ensures ReadAll(t, s, tokens) == set y | y in ReadAll(t, s, Without(tokens, i)) && tokens[i].test(y)
  {
    var n := |tokens|;
    if i == n - 1 {
      assert Without(tokens, i) == tokens[..n - 1];
    } else {
      RemoveFilter(t, s, tokens[..n - 1], i);
      assert Without(tokens, i)[..n - 2] == Without(tokens[..n - 1], i);
      assert Without(tokens, i)[n - 2] == tokens[n - 1];
    }
  }

  lemma SelectedRemoveFilter(sc: Scope, tokens: seq<Token>, i: nat)
    requires i < |tokens| && forall k :: i <= k < |tokens| ==> tokens[k].Filter?
    ensures forall y :: y in Selected(sc, tokens) <==> y in Selected(sc, Without(tokens, i)) && tokens[i].test(y)
  {
    RemoveFilter(sc.tree, Start(sc, Leading(tokens)), tokens, i);
    assert Leading(Without(tokens, i)) == Leading(tokens) by {
      if i == 0 && |tokens| > 1 {
        assert Without(tokens, 0)[0] == tokens[1];
      }
    }
  }

  /** `x` is the only element with the id that the first token asks for. */
  ghost predicate IdRoot(t: Tree, tokens: seq<Token>, x: Addr) {
    && |tokens| > 1 && tokens[0].Filter? && tokens[1].Combinator?
    && forall e :: IsElement(t, e) ==> (tokens[0].test(e) <==> e == x)
  }

  lemma IdShortcut(t: Tree, tokens: seq<Token>, x: Addr)
    requires WellFormed(t) && t.kind == Document && IsElement(t, x) && IdRoot(t, tokens, x)
    ensures Selected(ScopeOf(t, []), tokens) == Selected(ScopeOf(t, x), tokens[1..])
    ensures x != [] && Selected(ScopeOf(t, Parent(x)), tokens) == Selected(ScopeOf(t, x), tokens[1..])
  {
    assert x != [];
    ValidParent(t, x);
    IdShortcutFrom(t, tokens, x, []);
    IdShortcutFrom(t, tokens, x, Parent(x));
  }

  lemma IdShortcutFrom(t: Tree, tokens: seq<Token>, x: Addr, context: Addr)
    requires WellFormed(t) && t.kind == Document && IsElement(t, x) && IdRoot(t, tokens, x)
    requires Valid(t, context) && Ancestor(context, x)
    ensures Selected(ScopeOf(t, context), tokens) == Selected(ScopeOf(t, x), tokens[1..])
  {
    var s := Start(ScopeOf(t, context), false);
    ReadFront(t, s, tokens);
    assert x in s;
    assert Read(t, s, tokens[0]) == {x};
  }

  // ---------- the answer, in document order ----------

  ghost predicate InSome(t: Tree, context: Addr, groups: seq<seq<Token>>, e: Addr) {
    exists k :: 0 <= k < |groups| && e in Selected(ScopeOf(t, context), groups[k])
  }

  /** The elements some group selects, in document order, each once. */
  ghost function Answer(t: Tree, context: Addr, groups: seq<seq<Token>>): seq<Addr> {
    Keep(Preorder(t), e => IsElement(t, e) && InSome(t, context, groups, e))
  }

  /** The answer is a set of elements, listed strictly in document order. */
  lemma AnswerOrdered(t: Tree, context: Addr, groups: seq<seq<Token>>)
    ensures forall e :: e in Answer(t, context, groups) <==> IsElement(t, e) && InSome(t, context, groups, e)
    ensures Ascending(Answer(t, context, groups))
    ensures forall i, j :: 0 <= i < j < |Answer(t, context, groups)| ==>
      Precedes(t, Answer(t, context, groups)[i], Answer(t, context, groups)[j])
  {
    var wanted := e => IsElement(t, e) && InSome(t, context, groups, e);
    forall e ensures e in Answer(t, context, groups) <==> wanted(e) {
      KeepMember(Preorder(t), wanted, e);
      PreorderComplete(t, e);
    }
    PreorderAscending(t);
    KeepAscending(Preorder(t), wanted);
    forall i, j | 0 <= i < j < |Answer(t, context, groups)|
      ensures Precedes(t, Answer(t, context, groups)[i], Answer(t, context, groups)[j])
    {
      assert Answer(t, context, groups)[i] in Answer(t, context, groups);
      assert Answer(t, context, groups)[j] in Answer(t, context, groups);
      PrecedesIsLex(t, Answer(t, context, groups)[i], Answer(t, context, groups)[j]);
    }
  }

  lemma {:induction false} KeepAscending(s: seq<Addr>, f: Addr -> bool)
    requires Ascending(s)
    ensures Ascending(Keep(s, f))
  {
    if s != [] {
      var front, last := s[..|s| - 1], s[|s| - 1];
      KeepAscending(front, f);
      forall k | 0 <= k < |Keep(front, f)|
        ensures Lex(Keep(front, f)[k], last)
      {
        KeepMember(front, f, Keep(front, f)[k]);
        var j :| 0 <= j < |front| && front[j] == Keep(front, f)[k];
        assert s[j] == front[j];
      }
    }
  }

  lemma AnswerFrom(t: Tree, scope: Addr, test: Addr -> bool, accept: Addr -> bool, target: Addr -> bool)
    requires forall e :: IsElement(t, e) ==> (target(e) <==> Ancestor(scope, e) && test(e) && accept(e))
    ensures Keep(Find(t, scope, test), accept) == Keep(Preorder(t), e => IsElement(t, e) && target(e))
  {
    KeepKeep(Preorder(t), p => IsElement(t, p) && Ancestor(scope, p) && test(p), accept, e => IsElement(t, e) && target(e));
  }

  /** Leading sibling combinators can only be served if the context's parent can be searched. */
  ghost predicate Servable(t: Tree, context: Addr, groups: seq<seq<Token>>) {
    forall k :: 0 <= k < |groups| && LeadsToSibling(groups[k]) ==> context == [] || Searchable(t, Parent(context))
  }

  ghost predicate UniqueIds(t: Tree, groups: seq<seq<Token>>) {
    forall g, k :: 0 <= g < |groups| && 0 <= k < |groups[g]| && groups[g][k].Filter? && groups[g][k].finder == FindId ==>
      forall x, y :: IsElement(t, x) && IsElement(t, y) && groups[g][k].test(x) && groups[g][k].test(y) ==> x == y
  }

  predicate NeedsContext(tokens: seq<Token>) {
    tokens != [] && tokens[0].Combinator? && tokens[0].rel != Descendant
  }

  predicate CanFind(t: Tree, token: Token, scope: Addr) {
    token.Filter? && (token.finder == FindAnywhere ||
      (token.finder == FindId && Valid(t, scope) && At(t, scope).kind == Document))
  }

  /**
    The seed set: walking back over the last compound to the first filter that can be
    looked up.  The filter is dropped from the tokens.
   */
  method PickSeed(t: Tree, tokens: seq<Token>, context: Addr, strayContext: bool)
    returns (seed: Option<seq<Addr>>, rest: seq<Token>, ghost at: nat)
    ensures seed.None? ==> rest == tokens
    ensures seed.Some? ==>
      && at < |tokens| && !NeedsContext(tokens)
      && (forall k :: at <= k < |tokens| ==> tokens[k].Filter?)
      && rest == Without(tokens, at)
      && seed.value == Find(t, context, tokens[at].test)
  {
    var i := if NeedsContext(tokens) || strayContext then 0 else |tokens|;
    seed, rest, at := None, tokens, 0;
    while i > 0
      invariant 0 <= i <= |tokens| && (i > 0 ==> !NeedsContext(tokens))
      invariant i > 0 ==> forall k :: i <= k < |tokens| ==> tokens[k].Filter?
    {
      i := i - 1;
      if tokens[i].Combinator? {
        break;
      }
      var scope := OuterScope(t, context, LeadsToSibling(tokens));
      if CanFind(t, tokens[i], scope) {
        seed, rest, at := Some(Find(t, scope, tokens[i].test)), Without(tokens, i), i;
        return;
      }
    }
  }

  /** Candidates below `scope` filtered by the compiled matchers give exactly `target`. */
  lemma MatchedIsTarget(ms: seq<Matcher>, sc: Scope, scope: Addr, test: Addr -> bool, target: Addr -> bool)
    requires forall e :: IsElement(sc.tree, e) ==> (target(e) <==> Ancestor(scope, e) && test(e) && AnySem(ms, sc, e))
    ensures Matched(ms, sc, Find(sc.tree, scope, test)) == Keep(Preorder(sc.tree), e => IsElement(sc.tree, e) && target(e))
  {
    AnswerFrom(sc.tree, scope, test, e => AnySem(ms, sc, e), target);
  }

  ghost predicate Wellposed(t: Tree, context: Addr, groups: seq<seq<Token>>) {
    && WellFormed(t) && Searchable(t, context)
    && (forall k :: 0 <= k < |groups| ==> groups[k] != [])
    && UniqueIds(t, groups)
  }

  /**
    Sizzle.select without a caller's seed.  `precompiled` says that the selector is an
    already compiled function; the stray flags say that a regular expression also fired
    on text inside a quoted argument, which may only widen the search or skip the seeding.
   */
  method SelectAll(engine: Engine, t: Tree, context: Addr, groups: seq<seq<Token>>, precompiled: bool,
                   strayContext: bool, straySibling: bool, results: seq<Addr>) returns (r: seq<Addr>)
    requires Ready(engine) && Wellposed(t, context, groups)
    modifies engine
    ensures Ready(engine)
    ensures r == results + AnswerBelow(t, context, groups, OuterScope(t, context, MentionsSibling(groups) || straySibling))
    ensures r == results + Answer(t, context, groups) <==> NothingMissed(t, context, groups)
    ensures Servable(t, context, groups) ==> r == results + Answer(t, context, groups)
    ensures |groups| == 1 && !Servable(t, context, groups) ==> r == results
  {
    var scope := OuterScope(t, context, MentionsSibling(groups) || straySibling);
    if |groups| == 1 {
      r := SelectGroup(engine, t, context, groups[0], precompiled, strayContext, straySibling, results);
      OneGroup(t, context, groups, straySibling);
    } else {
      var ms := Compile(engine, groups);
      r := SuperMatcher(engine, ms, t, context, Find(t, scope, e => true), results);
      MatchedIsTarget(ms, ScopeOf(t, context), scope, e => true, e => InSome(t, context, groups, e) && Ancestor(scope, e));
      KeepAgree(Preorder(t), e => IsElement(t, e) && (e => InSome(t, context, groups, e) && Ancestor(scope, e))(e),
                e => IsElement(t, e) && InSome(t, context, groups, e) && Ancestor(scope, e));
    }
    MissedIff(t, context, groups, straySibling);
    SameTail(results, AnswerBelow(t, context, groups, scope), Answer(t, context, groups));
    if Servable(t, context, groups) {
      ServableAnswer(t, context, groups, straySibling);
    }
  }

  lemma SameTail(a: seq<Addr>, b: seq<Addr>, c: seq<Addr>)
    ensures a + b == a + c <==> b == c
  {
    assert (a + b)[|a|..] == b && (a + c)[|a|..] == c;
  }

  /** The part of the answer that lies below a searched node. */
  ghost function AnswerBelow(t: Tree, context: Addr, groups: seq<seq<Token>>, scope: Addr): seq<Addr> {
    Keep(Preorder(t), e => IsElement(t, e) && InSome(t, context, groups, e) && Ancestor(scope, e))
  }

  /** A group that leads to siblings which cannot be searched selects nothing anyway. */
  ghost predicate NothingMissed(t: Tree, context: Addr, groups: seq<seq<Token>>) {
    forall k :: 0 <= k < |groups| && !Servable(t, context, [groups[k]]) ==> Selected(ScopeOf(t, context), groups[k]) == {}
  }

  /** One group: the result is the part of its answer below the searched node, servable or not. */
  lemma OneGroup(t: Tree, context: Addr, groups: seq<seq<Token>>, stray: bool)
    requires Wellposed(t, context, groups) && |groups| == 1
    ensures groups == [groups[0]]
    ensures var below := AnswerBelow(t, context, groups, OuterScope(t, context, MentionsSibling(groups) || stray));
      if Servable(t, context, groups) then below == GroupAnswer(t, Selected(ScopeOf(t, context), groups[0])) else below == []
  {
    assert groups == [groups[0]];
    if Servable(t, context, groups) {
      ServableAnswer(t, context, groups, stray);
      KeepAgree(Preorder(t), e => IsElement(t, e) && e in Selected(ScopeOf(t, context), groups[0]),
                e => IsElement(t, e) && InSome(t, context, groups, e));
    } else {
      forall e | InSome(t, context, groups, e)
        ensures !Ancestor(context, e)
      {
        SiblingsNotBelow(t, context, groups[0], e);
      }
      KeepNone(Preorder(t), e => IsElement(t, e) && InSome(t, context, groups, e) && Ancestor(context, e));
    }
  }

  /** Searching below the outer scope gives the whole answer if and only if no group misses anything. */
  lemma MissedIff(t: Tree, context: Addr, groups: seq<seq<Token>>, stray: bool)
    requires Wellposed(t, context, groups)
    ensures AnswerBelow(t, context, groups, OuterScope(t, context, MentionsSibling(groups) || stray)) == Answer(t, context, groups)
      <==> NothingMissed(t, context, groups)
  {
    var scope := OuterScope(t, context, MentionsSibling(groups) || stray);
    if NothingMissed(t, context, groups) {
      forall e | InSome(t, context, groups, e)
        ensures Ancestor(scope, e)
      {
        var k :| 0 <= k < |groups| && e in Selected(ScopeOf(t, context), groups[k]);
        SelectedCovered(t, context, groups, stray, k, e);
      }
      KeepAgree(Preorder(t), e => IsElement(t, e) && InSome(t, context, groups, e) && Ancestor(scope, e),
                e => IsElement(t, e) && InSome(t, context, groups, e));
    } else {
      var k :| 0 <= k < |groups| && !Servable(t, context, [groups[k]]) && Selected(ScopeOf(t, context), groups[k]) != {};
      var e :| e in Selected(ScopeOf(t, context), groups[k]);
      MissedElement(t, context, groups, scope, k, e);
    }
  }

  lemma MissedElement(t: Tree, context: Addr, groups: seq<seq<Token>>, scope: Addr, k: nat, e: Addr)
    requires Wellposed(t, context, groups) && k < |groups| && !Servable(t, context, [groups[k]])
    requires e in Selected(ScopeOf(t, context), groups[k])
    requires scope == context || (context != [] && scope == Parent(context) && Searchable(t, scope))
    ensures AnswerBelow(t, context, groups, scope) != Answer(t, context, groups)
  {
    assert [groups[k]][0] == groups[k];
    ReadElements(ScopeOf(t, context), groups[k], |groups[k]|);
    assert groups[k][..|groups[k]|] == groups[k];
    SiblingsNotBelow(t, context, groups[k], e);
    PreorderComplete(t, e);
    KeepMember(Preorder(t), e => IsElement(t, e) && InSome(t, context, groups, e), e);
    KeepMember(Preorder(t), e => IsElement(t, e) && InSome(t, context, groups, e) && Ancestor(scope, e), e);
  }

  /** A servable selector loses nothing by searching only below the outer scope. */
  lemma ServableAnswer(t: Tree, context: Addr, groups: seq<seq<Token>>, stray: bool)
    requires Wellposed(t, context, groups) && Servable(t, context, groups)
    ensures AnswerBelow(t, context, groups, OuterScope(t, context, MentionsSibling(groups) || stray)) == Answer(t, context, groups)
  {
    var scope := OuterScope(t, context, MentionsSibling(groups) || stray);
    forall e | InSome(t, context, groups, e)
      ensures Ancestor(scope, e)
    {
      var k :| 0 <= k < |groups| && e in Selected(ScopeOf(t, context), groups[k]);
      assert Servable(t, context, [groups[k]]);
      SelectedCovered(t, context, groups, stray, k, e);
    }
    KeepAgree(Preorder(t), e => IsElement(t, e) && InSome(t, context, groups, e) && Ancestor(scope, e),
              e => IsElement(t, e) && InSome(t, context, groups, e));
  }

  lemma SelectedCovered(t: Tree, context: Addr, groups: seq<seq<Token>>, stray: bool, k: nat, e: Addr)
    requires WellFormed(t) && Valid(t, context) && k < |groups| && Servable(t, context, [groups[k]])
    requires groups[k] != [] && e in Selected(ScopeOf(t, context), groups[k])
    ensures Ancestor(OuterScope(t, context, MentionsSibling(groups) || stray), e)
  {
    SelectedBelow(t, context, groups[k]);
    assert [groups[k]][0] == groups[k];
    if LeadsToSibling(groups[k]) {
      assert IsSiblingToken(groups[k][0]);
    } else if context != [] {
      assert Ancestor(context, e);
      assert e[..|context| - 1] == e[..|context|][..|context| - 1];
    }
  }

  ghost function GroupAnswer(t: Tree, s: set<Addr>): seq<Addr> {
    Keep(Preorder(t), e => IsElement(t, e) && e in s)
  }

  /**
    After the id short cut: reading `tokens` at `root` gives the selection wanted, and the
    run happens at `ctx`, which is `root` or, for a precompiled selector, its parent.
   */
  ghost predicate Rerooted(t: Tree, context: Addr, group: seq<Token>, precompiled: bool,
                           root: Addr, tokens: seq<Token>, ctx: Addr) {
    && WellFormed(t) && tokens != [] && group != [] && Valid(t, root) && Searchable(t, ctx)
    && Selected(ScopeOf(t, context), group) == Selected(ScopeOf(t, root), tokens)
    && (ctx == root || (precompiled && root != [] && ctx == Parent(root)))
    && (precompiled ==> Selected(ScopeOf(t, ctx), group) == Selected(ScopeOf(t, root), tokens))
    && ((context == root == ctx && group == tokens) || (Servable(t, context, [group]) && Servable(t, root, [tokens]) && |tokens| > 1))
  }

  lemma IdReroots(t: Tree, context: Addr, group: seq<Token>, precompiled: bool, x: Addr)
    requires Wellposed(t, context, [group]) && At(t, context).kind == Document
    requires |group| > 2 && group[0].Filter? && group[0].finder == FindId && group[1].Combinator?
    requires IsElement(t, x) && group[0].test(x)
    ensures x != [] && Rerooted(t, context, group, precompiled, x, group[1..], if precompiled then Parent(x) else x)
  {
    assert context == [];
    assert forall e :: IsElement(t, e) ==> (group[0].test(e) <==> e == x) by {
      assert [group][0] == group;
    }
    IdShortcut(t, group, x);
    ValidParent(t, x);
    assert Searchable(t, Parent(x));
  }

  /** Every selected element is below the node the run happens at, or below the outer scope. */
  lemma RerootedCovers(t: Tree, context: Addr, group: seq<Token>, precompiled: bool,
                       root: Addr, tokens: seq<Token>, ctx: Addr, stray: bool, e: Addr)
    requires Rerooted(t, context, group, precompiled, root, tokens, ctx)
    requires e in Selected(ScopeOf(t, root), tokens)
    ensures !LeadsToSibling(tokens) ==> Ancestor(ctx, e)
    ensures Servable(t, root, [tokens]) ==> Ancestor(OuterScope(t, ctx, MentionsSibling([tokens]) || stray), e)
  {
    SelectedBelow(t, root, tokens);
    assert [tokens][0] == tokens;
    if ctx != root && !LeadsToSibling(tokens) {
      assert e[..|root| - 1] == e[..|root|][..|root| - 1];
    }
    if ctx != [] && Ancestor(ctx, e) {
      assert e[..|ctx| - 1] == e[..|ctx|][..|ctx| - 1];
    }
    if LeadsToSibling(tokens) {
      assert IsSiblingToken([tokens][0][0]);
    }
  }

  /** The unseeded run finds the selection, or nothing when leading siblings cannot be searched. */
  lemma UnseededRun(ms: seq<Matcher>, t: Tree, context: Addr, group: seq<Token>, precompiled: bool,
                    root: Addr, tokens: seq<Token>, ctx: Addr, stray: bool)
    requires Rerooted(t, context, group, precompiled, root, tokens, ctx)
    requires forall e :: IsElement(t, e) ==>
      (AnySem(ms, ScopeOf(t, ctx), e) <==> e in Selected(ScopeOf(t, root), tokens))
    ensures var found := Matched(ms, ScopeOf(t, ctx), Find(t, OuterScope(t, ctx, MentionsSibling([tokens]) || stray), e => true));
      && (Servable(t, context, [group]) ==> found == GroupAnswer(t, Selected(ScopeOf(t, root), tokens)))
      && (!Servable(t, context, [group]) ==> found == [])
  {
    var scope := OuterScope(t, ctx, MentionsSibling([tokens]) || stray);
    var target := Selected(ScopeOf(t, root), tokens);
    if Servable(t, context, [group]) {
      forall e | e in target
        ensures Ancestor(scope, e)
      {
        RerootedCovers(t, context, group, precompiled, root, tokens, ctx, stray, e);
      }
      MatchedIsTarget(ms, ScopeOf(t, ctx), scope, e => true, e => e in target);
      KeepAgree(Preorder(t), e => IsElement(t, e) && (e => e in target)(e), e => IsElement(t, e) && e in target);
    } else {
      assert [group][0] == group && LeadsToSibling(group) && scope == context;
      var elems := Find(t, scope, e => true);
      forall e | e in elems
        ensures !AnySem(ms, ScopeOf(t, ctx), e)
      {
        KeepMember(Preorder(t), p => IsElement(t, p) && Ancestor(scope, p) && (e => true)(p), e);
        if e in target {
          SiblingsNotBelow(t, context, group, e);
        }
      }
      KeepNone(elems, e => AnySem(ms, ScopeOf(t, ctx), e));
    }
  }

  /** The seed holds every selected element, and the tokens left over pick exactly those. */
  lemma SeededRun(t: Tree, context: Addr, group: seq<Token>, precompiled: bool,
                  root: Addr, tokens: seq<Token>, ctx: Addr, at: nat, e: Addr)
    requires Rerooted(t, context, group, precompiled, root, tokens, ctx) && IsElement(t, e)
    requires at < |tokens| && !NeedsContext(tokens) && forall k :: at <= k < |tokens| ==> tokens[k].Filter?
    ensures e in Selected(ScopeOf(t, root), tokens) <==>
      && Ancestor(ctx, e) && tokens[at].test(e)
      && e in (if precompiled then Selected(ScopeOf(t, ctx), group) else Selected(ScopeOf(t, ctx), Without(tokens, at)))
  {
    SelectedRemoveFilter(ScopeOf(t, root), tokens, at);
    if e in Selected(ScopeOf(t, root), tokens) {
      RerootedCovers(t, context, group, precompiled, root, tokens, ctx, false, e);
    }
  }

  /** With no other token left, the looked-up filter alone is the selection. */
  lemma LoneFilter(t: Tree, ctx: Addr, token: Token, e: Addr)
    requires WellFormed(t) && Searchable(t, ctx) && token.Filter? && IsElement(t, e)
    ensures e in Selected(ScopeOf(t, ctx), [token]) <==> Ancestor(ctx, e) && token.test(e)
  {
    var s := Start(ScopeOf(t, ctx), false);
    ReadFront(t, s, [token]);
    assert [token][1..] == [];
    assert e in s <==> Ancestor(ctx, e);
  }

  method SelectGroup(engine: Engine, t: Tree, context: Addr, group: seq<Token>, precompiled: bool,
                     strayContext: bool, straySibling: bool, results: seq<Addr>) returns (r: seq<Addr>)
    requires Ready(engine) && Wellposed(t, context, [group])
    modifies engine
    ensures Ready(engine)
    ensures Servable(t, context, [group]) ==> r == results + GroupAnswer(t, Selected(ScopeOf(t, context), group))
    ensures !Servable(t, context, [group]) ==> r == results
  {
    assert [group][0] == group;
    var tokens, ctx := group, context;
    ghost var root := context;
    if |tokens| > 2 && tokens[0].Filter? && tokens[0].finder == FindId
       && At(t, context).kind == Document && tokens[1].Combinator? {
      var found := Find(t, context, tokens[0].test);
      if found == [] {
        NoSuchId(t, context, group);
        r := results;
        return;
      }
      assert found[0] in found;
      KeepMember(Preorder(t), p => IsElement(t, p) && Ancestor(context, p) && tokens[0].test(p), found[0]);
      IdReroots(t, context, group, precompiled, found[0]);
      root := found[0];
      ctx := if precompiled then Parent(found[0]) else found[0];
      tokens := tokens[1..];
    }
    assert Rerooted(t, context, group, precompiled, root, tokens, ctx);
    r := RunGroup(engine, t, context, group, precompiled, root, tokens, ctx, strayContext, straySibling, results);
  }

  lemma NoSuchId(t: Tree, context: Addr, group: seq<Token>)
    requires WellFormed(t) && Searchable(t, context) && At(t, context).kind == Document
    requires group != [] && group[0].Filter? && Find(t, context, group[0].test) == []
    ensures Servable(t, context, [group]) && GroupAnswer(t, Selected(ScopeOf(t, context), group)) == []
  {
    var s := Start(ScopeOf(t, context), false);
    KeepNone(Preorder(t), p => IsElement(t, p) && Ancestor(context, p) && group[0].test(p));
    assert Read(t, s, group[0]) == {} by {
      forall y | y in Read(t, s, group[0]) ensures false {
        PreorderComplete(t, y);
      }
    }
    ReadFront(t, s, group);
    NothingFromNothing(t, group[1..]);
    KeepNone(Preorder(t), e => IsElement(t, e) && e in Selected(ScopeOf(t, context), group));
  }

  method RunGroup(engine: Engine, t: Tree, ghost context: Addr, group: seq<Token>, precompiled: bool,
                  ghost root: Addr, tokens: seq<Token>, ctx: Addr,
                  strayContext: bool, straySibling: bool, results: seq<Addr>) returns (r: seq<Addr>)
    requires Ready(engine) && Rerooted(t, context, group, precompiled, root, tokens, ctx)
    modifies engine
    ensures Ready(engine)
    ensures Servable(t, context, [group]) ==> r == results + GroupAnswer(t, Selected(ScopeOf(t, context), group))
    ensures !Servable(t, context, [group]) ==> r == results
  {
    ghost var target := Selected(ScopeOf(t, root), tokens);
    var seed, rest;
    ghost var at;
    seed, rest, at := PickSeed(t, tokens, ctx, strayContext);
    if seed.Some? {
      assert [group][0] == group;
      forall e | IsElement(t, e)
        ensures e in target <==>
          && Ancestor(ctx, e) && tokens[at].test(e)
          && e in (if precompiled then Selected(ScopeOf(t, ctx), group) else Selected(ScopeOf(t, ctx), rest))
      {
        SeededRun(t, context, group, precompiled, root, tokens, ctx, at, e);
      }
    }
    if seed.Some? && (seed.value == [] || rest == []) {
      SeedSuffices(t, context, group, precompiled, root, tokens, ctx, at);
      r := results + seed.value;
      return;
    }
    var wanted := if precompiled then group else rest;
    var ms := Compile(engine, [wanted]);
    assert forall e :: IsElement(t, e) ==> (AnySem(ms, ScopeOf(t, ctx), e) <==> e in Selected(ScopeOf(t, ctx), wanted)) by {
      assert [wanted][0] == wanted;
    }
    if seed.Some? {
      r := SuperMatcher(engine, ms, t, ctx, seed.value, results);
      MatchedIsTarget(ms, ScopeOf(t, ctx), ctx, tokens[at].test, e => e in target);
      KeepAgree(Preorder(t), e => IsElement(t, e) && (e => e in target)(e), e => IsElement(t, e) && e in target);
    } else {
      var scope := OuterScope(t, ctx, MentionsSibling([rest]) || straySibling);
      r := SuperMatcher(engine, ms, t, ctx, Find(t, scope, e => true), results);
      UnseededRun(ms, t, context, group, precompiled, root, tokens, ctx, straySibling);
    }
  }

  lemma SeedSuffices(t: Tree, context: Addr, group: seq<Token>, precompiled: bool,
                     root: Addr, tokens: seq<Token>, ctx: Addr, at: nat)
    requires Rerooted(t, context, group, precompiled, root, tokens, ctx)
    requires at < |tokens| && !NeedsContext(tokens) && forall k :: at <= k < |tokens| ==> tokens[k].Filter?
    requires Find(t, ctx, tokens[at].test) == [] || Without(tokens, at) == []
    ensures Find(t, ctx, tokens[at].test) == GroupAnswer(t, Selected(ScopeOf(t, context), group))
  {
    var target := Selected(ScopeOf(t, root), tokens);
    var pick := p => IsElement(t, p) && Ancestor(ctx, p) && tokens[at].test(p);
    forall e | e in Preorder(t)
      ensures pick(e) <==> IsElement(t, e) && e in target
    {
      if IsElement(t, e) {
        SeededRun(t, context, group, precompiled, root, tokens, ctx, at, e);
        if Without(tokens, at) == [] {
          assert tokens == [tokens[at]];
          LoneFilter(t, ctx, tokens[at], e);
        } else {
          KeepNone(Preorder(t), pick);
        }
      }
    }
    KeepAgree(Preorder(t), pick, e => IsElement(t, e) && e in target);
  }

  /**
    A detached pair of siblings under a fragment: "+ *" read at the first selects the
    second, yet the siblings cannot be searched, so nothing is returned.
   */
  lemma FragmentSiblings()
    ensures var t := Node(Other, [Node(Element, []), Node(Element, [])]);
      var group := [Combinator(Adjacent)];
      && Wellposed(t, [0], [group])
      && !Servable(t, [0], [group])
      && Selected(ScopeOf(t, [0]), group) == {[1]}
  {
    var t := Node(Other, [Node(Element, []), Node(Element, [])]);
    var group := [Combinator(Adjacent)];
    assert [group][0] == group;
    var a: Addr, b: Addr := [0], [1];
    assert a[1..] == [] == b[1..] && Parent(a) == [] == Parent(b);
    forall p ensures Valid(t, p) <==> p == [] || p == a || p == b {
      if p != [] && Valid(t, p) {
        assert p == [p[0]] + p[1..];
        assert t.kids[p[0]].kids == [];
      }
    }
    ReadFront(t, {a}, group);
    assert group[1..] == [];
    assert IsElement(t, a) && IsElement(t, b) && Earlier(a, b);
    assert Reaches(t, Adjacent, a, b);
  }
}
