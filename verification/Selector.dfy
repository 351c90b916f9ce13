/**
  The selector compiler: tokens are compiled right to left into nested matchers whose
  ancestor and sibling walks memoise their outcome in slots stored on the nodes.
 */
module Selector {
  import opened Wrappers
  import opened Dom

  datatype Rel = Child | Descendant | Adjacent | Sibling

  function DirOf(rel: Rel): Dir {
    if rel == Child || rel == Descendant then Up else Back
  }

  predicate FirstOnly(rel: Rel) {
    rel == Child || rel == Adjacent
  }

  /** Which filters Expr.find can look up directly; ids only from a document. */
  datatype Finder = NoFinder | FindAnywhere | FindId

  /** A combinator, or a filter, whose test may be any predicate on nodes. */
  datatype Token = Combinator(rel: Rel) | Filter(test: Addr -> bool, finder: Finder)

  /** What a run is asked about: a single context node, or an array of them. */
  datatype Context = One(node: Addr) | Many(nodes: seq<Addr>)

  /** One run: the tree, the context, and outermostContext (absent for the document). */
  datatype Scope = Scope(tree: Tree, context: Context, outermost: Option<Addr>)

  // ---------- the plain left-to-right reading ----------

  /** `y` is reached from `x` by a combinator. */
  ghost predicate Reaches(t: Tree, rel: Rel, x: Addr, y: Addr) {
    match rel
    case Child => y != [] && x == Parent(y)
    case Descendant => Ancestor(x, y)
    case Adjacent => IsElement(t, x) && Earlier(x, y) && forall z :: Earlier(x, z) && Earlier(z, y) ==> !IsElement(t, z)
    case Sibling => IsElement(t, x) && Earlier(x, y)
  }

  ghost function Elements(t: Tree): (s: set<Addr>)
    ensures forall p :: p in s <==> IsElement(t, p)
  {
    forall p ensures p in Preorder(t) <==> Valid(t, p) { PreorderComplete(t, p); }
    set p | p in Preorder(t) && IsElement(t, p)
  }

  /** Reading one more token: step along a combinator, or narrow by a filter. */
  ghost function Read(t: Tree, s: set<Addr>, token: Token): set<Addr> {
    match token
    case Combinator(rel) => set y | y in Elements(t) && exists x :: x in s && Reaches(t, rel, x, y)
    case Filter(test, _) => set y | y in s && test(y)
  }

  ghost function ReadAll(t: Tree, s: set<Addr>, tokens: seq<Token>): set<Addr> {
    if tokens == [] then s
    else Read(t, ReadAll(t, s, tokens[..|tokens| - 1]), tokens[|tokens| - 1])
  }

  ghost predicate ContextSkipped(sc: Scope) {
    !(sc.context.One? && sc.outermost == Some(sc.context.node))
  }

  /**
    Where the reading starts: at the contexts when the selector begins with a
    combinator, otherwise at every element below the context (anywhere, when the
    context is the document or the matcher is nested).
   */
  ghost function Start(sc: Scope, leading: bool): set<Addr> {
    if leading then
      match sc.context case One(node) => {node} case Many(nodes) => set p | p in nodes
    else if ContextSkipped(sc) then Elements(sc.tree)
    else set p | p in Elements(sc.tree) && Ancestor(sc.context.node, p)
  }

  ghost function Selected(sc: Scope, tokens: seq<Token>): set<Addr> {
    ReadAll(sc.tree, Start(sc, Leading(tokens)), tokens)
  }

  predicate Leading(tokens: seq<Token>) {
    tokens != [] && tokens[0].Combinator?
  }

  // ---------- compiled matchers and what they mean ----------

  /** A compiled matcher; each constructor is one of the closures the compiler builds. */
  datatype Matcher =
    | Test(test: Addr -> bool)
    | AtContext
    | InContexts
    | Rooted(leading: bool, one: Matcher, any: Matcher)
    | Walk(inner: Matcher, dir: Dir, first: bool, base: bool, name: nat)
    | All(ms: seq<Matcher>)

  predicate Visits(t: Tree, p: Addr, dir: Dir, base: bool) {
    IsElement(t, p) || (base && dir == Up)
  }

  function Nearest(t: Tree, p: Addr, dir: Dir, base: bool): Option<Addr>
    decreases Rank(p, dir)
  {
    match Step(p, dir)
    case None => None
    case Some(q) => StepDescends(p, dir); if Visits(t, q, dir, base) then Some(q) else Nearest(t, q, dir, base)
  }

  /** The answer of a matcher, without any memory. */
  ghost predicate Sem(m: Matcher, sc: Scope, e: Addr)
    decreases m
  {
    match m
    case Test(test) => test(e)
    case AtContext => sc.context.One? && e == sc.context.node
    case InContexts => sc.context.Many? && e in sc.context.nodes
    case Rooted(leading, one, any) =>
      (!leading && ContextSkipped(sc)) || (if sc.context.One? then Sem(one, sc, e) else Sem(any, sc, e))
    case Walk(inner, dir, first, base, _) =>
      if first then Nearest(sc.tree, e, dir, base).Some? && Sem(inner, sc, Nearest(sc.tree, e, dir, base).value)
      else exists q :: q in Beyond(e, dir) && Visits(sc.tree, q, dir, base) && Sem(inner, sc, q)
    case All(ms) => forall k :: 0 <= k < |ms| ==> Sem(ms[k], sc, e)
  }

  ghost predicate AtOrBeyond(m: Matcher, sc: Scope, p: Addr)
    requires m.Walk? && !m.first
  {
    (Visits(sc.tree, p, m.dir, m.base) && Sem(m.inner, sc, p)) || Sem(m, sc, p)
  }

  lemma SemStep(m: Matcher, sc: Scope, p: Addr)
    requires m.Walk? && !m.first
    ensures Step(p, m.dir).None? ==> !Sem(m, sc, p)
    ensures Step(p, m.dir).Some? ==> (Sem(m, sc, p) <==> AtOrBeyond(m, sc, Step(p, m.dir).value))
  {
    if Step(p, m.dir).Some? {
      var q := Step(p, m.dir).value;
      assert Beyond(p, m.dir) == [q] + Beyond(q, m.dir);
    }
  }

  ghost predicate Uses(m: Matcher, n: nat) {
    match m
    case Test(_) => false
    case AtContext => false
    case InContexts => false
    case Rooted(_, one, any) => Uses(one, n) || Uses(any, n)
    case Walk(inner, _, _, _, name) => n == name || Uses(inner, n)
    case All(ms) => exists k :: 0 <= k < |ms| && Uses(ms[k], n)
  }

  ghost predicate Disjoint(a: Matcher, b: Matcher) {
    forall n :: Uses(a, n) ==> !Uses(b, n)
  }

  /** Every walk has its own name, greater than the names inside it. */
  ghost predicate WellNamed(m: Matcher) {
    match m
    case Test(_) => true
    case AtContext => true
    case InContexts => true
    case Rooted(_, one, any) => WellNamed(one) && WellNamed(any) && Disjoint(one, any)
    case Walk(inner, _, _, _, name) => WellNamed(inner) && forall n: nat :: Uses(inner, n) ==> n < name
    case All(ms) =>
      && (forall k :: 0 <= k < |ms| ==> WellNamed(ms[k]))
      && forall j, k :: 0 <= j < |ms| && 0 <= k < |ms| && j != k ==> Disjoint(ms[j], ms[k])
  }

  // ---------- memory ----------

  /** The array stored in a slot: run, name of the walk, outcome.  One walk shares one array. */
  class CacheArray {
    const run: nat
    const name: nat
    var result: bool

    constructor (run: nat, name: nat)
      ensures this.run == run && this.name == name && !result
    {
      this.run, this.name, result := run, name, false;
    }
  }

  type Key = (Addr, Dir)

  datatype Entry = Entry(run: nat, name: nat, result: bool)

  /**
    Memo soundness: each slot written in this run by a walk of `m` holds whether some
    node at or beyond the slot's node satisfies what that walk looks for.
   */
  ghost predicate Sound(m: Matcher, sc: Scope, v: map<Key, Entry>, run: nat)
    decreases m
  {
    match m
    case Test(_) => true
    case AtContext => true
    case InContexts => true
    case Rooted(_, one, any) => Sound(one, sc, v, run) && Sound(any, sc, v, run)
    case Walk(inner, dir, first, _, name) => Sound(inner, sc, v, run) && (!first ==> SlotsSound(m, sc, v, run))
    case All(ms) => forall k :: 0 <= k < |ms| ==> Sound(ms[k], sc, v, run)
  }

  ghost predicate SlotsSound(m: Matcher, sc: Scope, v: map<Key, Entry>, run: nat)
    requires m.Walk? && !m.first
  {
    forall key :: key in v && v[key].run == run && v[key].name == m.name ==>
      key.1 == m.dir && v[key].result == AtOrBeyond(m, sc, key.0)
  }

  ghost function Names(m: Matcher): iset<nat> {
    iset n | Uses(m, n)
  }

  /** Slots differ only where this run's walks with the given names wrote. */
  ghost predicate OnlyWrites(names: iset<nat>, v: map<Key, Entry>, v': map<Key, Entry>, run: nat) {
    forall key :: key in v' ==>
      (key in v && v[key] == v'[key]) || (v'[key].run == run && v'[key].name in names)
  }

  lemma {:induction false} SoundFrame(m: Matcher, names: iset<nat>, sc: Scope, v: map<Key, Entry>, v': map<Key, Entry>, run: nat)
    requires Sound(m, sc, v, run) && OnlyWrites(names, v, v', run)
    requires forall n :: Uses(m, n) ==> n !in names
    ensures Sound(m, sc, v', run)
    decreases m
  {
    match m
    case Test(_) =>
    case AtContext =>
    case InContexts =>
    case Rooted(_, one, any) =>
      SoundFrame(one, names, sc, v, v', run);
      SoundFrame(any, names, sc, v, v', run);
    case Walk(inner, _, _, _, name) =>
      SoundFrame(inner, names, sc, v, v', run);
      assert Uses(m, name);
    case All(ms) =>
      forall k | 0 <= k < |ms|
        ensures Sound(ms[k], sc, v', run)
      {
        SoundFrame(ms[k], names, sc, v, v', run);
      }
  }

  /** No slot of the current run yet: trivially sound. */
  lemma {:induction false} SoundFresh(m: Matcher, sc: Scope, v: map<Key, Entry>, run: nat)
    requires forall key :: key in v ==> v[key].run != run
    ensures Sound(m, sc, v, run)
    decreases m
  {
    match m
    case Test(_) =>
    case AtContext =>
    case InContexts =>
    case Rooted(_, one, any) => SoundFresh(one, sc, v, run); SoundFresh(any, sc, v, run);
    case Walk(inner, _, _, _, _) => SoundFresh(inner, sc, v, run);
    case All(ms) => forall k | 0 <= k < |ms| ensures Sound(ms[k], sc, v, run) { SoundFresh(ms[k], sc, v, run); }
  }

  class Engine {
    var slots: map<Key, CacheArray>
    var dirruns: nat
    var done: nat
    var outermostContext: Option<Addr>

    constructor ()
      ensures slots == map[] && dirruns == 0 && done == 0 && outermostContext == None
    {
      slots, dirruns, done, outermostContext := map[], 0, 0, None;
    }

    ghost function View(): (v: map<Key, Entry>)
      reads this, slots.Values
      ensures v.Keys == slots.Keys
      ensures forall key :: key in v ==> v[key] == Entry(slots[key].run, slots[key].name, slots[key].result)
    {
      map key | key in slots :: Entry(slots[key].run, slots[key].name, slots[key].result)
    }

    /** Runs a matcher on a node.  The memory never changes the answer. */
    method Run(m: Matcher, sc: Scope, e: Addr) returns (b: bool)
      requires WellNamed(m) && sc.outermost == outermostContext
      requires Sound(m, sc, View(), dirruns)
      modifies this`slots
      ensures b == Sem(m, sc, e)
      ensures Sound(m, sc, View(), dirruns)
      ensures forall key :: key in slots ==>
        || (key in old(slots) && slots[key] == old(slots[key]))
        || (fresh(slots[key]) && slots[key].run == dirruns && Uses(m, slots[key].name))
      decreases m, 4
    {
      match m
      case Test(test) => b := test(e);
      case AtContext => b := sc.context.One? && e == sc.context.node;
      case InContexts => b := sc.context.Many? && e in sc.context.nodes;
      case Rooted(leading, one, any) =>
        if !leading && !(sc.context.One? && outermostContext == Some(sc.context.node)) {
          return true;
        }
        ghost var v := View();
        if sc.context.One? {
          b := Run(one, sc, e);
          assert OnlyWrites(Names(one), v, View(), dirruns);
          SoundFrame(any, Names(one), sc, v, View(), dirruns);
        } else {
          b := Run(any, sc, e);
          assert OnlyWrites(Names(any), v, View(), dirruns);
          SoundFrame(one, Names(any), sc, v, View(), dirruns);
        }
      case Walk(inner, dir, first, base, name) =>
        if first {
          b := RunFirst(m, sc, e);
        } else {
          b := RunWalk(m, sc, e);
        }
      case All(ms) => b := RunAll(m, sc, e);
    }

    /** Checks against the closest node along the link. */
    method RunFirst(m: Matcher, sc: Scope, e: Addr) returns (b: bool)
      requires m.Walk? && m.first
      requires WellNamed(m) && sc.outermost == outermostContext
      requires Sound(m, sc, View(), dirruns)
      modifies this`slots
      ensures b == Sem(m, sc, e)
      ensures Sound(m, sc, View(), dirruns)
      ensures forall key :: key in slots ==>
        || (key in old(slots) && slots[key] == old(slots[key]))
        || (fresh(slots[key]) && slots[key].run == dirruns && Uses(m, slots[key].name))
      decreases m, 3
    {
      var cur := e;
      var next := Step(cur, m.dir);
      while next.Some?
        invariant next == Step(cur, m.dir)
        invariant Nearest(sc.tree, e, m.dir, m.base) == Nearest(sc.tree, cur, m.dir, m.base)
        invariant slots == old(slots)
        decreases Rank(cur, m.dir)
      {
        StepDescends(cur, m.dir);
        cur := next.value;
        if Visits(sc.tree, cur, m.dir, m.base) {
          b := Run(m.inner, sc, cur);
          return;
        }
        next := Step(cur, m.dir);
      }
      b := false;
    }

    /**
      Halfway through a walk: slots holding the walk's own array belong to nodes already
      passed (rank at least `rank`) and share its coming outcome, all others are sound.
     */
    ghost predicate Walking(m: Matcher, sc: Scope, own: CacheArray, outcome: bool, rank: nat)
      requires m.Walk? && !m.first
      reads this, slots.Values
    {
      forall key :: key in slots && slots[key].run == dirruns && slots[key].name == m.name ==>
        && key.1 == m.dir
        && if slots[key] == own
           then AtOrBeyond(m, sc, key.0) == outcome && Rank(key.0, m.dir) >= rank
           else slots[key].result == AtOrBeyond(m, sc, key.0)
    }

    /** Checks against all nodes along the link, remembering outcomes in the nodes' slots. */
    method RunWalk(m: Matcher, sc: Scope, e: Addr) returns (b: bool)
      requires m.Walk? && !m.first
      requires WellNamed(m) && sc.outermost == outermostContext
      requires Sound(m, sc, View(), dirruns)
      modifies this`slots
      ensures b == Sem(m, sc, e)
      ensures Sound(m, sc, View(), dirruns)
      ensures forall key :: key in slots ==>
        || (key in old(slots) && slots[key] == old(slots[key]))
        || (fresh(slots[key]) && slots[key].run == dirruns && Uses(m, slots[key].name))
      decreases m, 3
    {
      var newCache := new CacheArray(dirruns, m.name);
      var cur := e;
      var next := Step(cur, m.dir);
      assert View() == old(View());
      while next.Some?
        invariant next == Step(cur, m.dir)
        invariant !newCache.result
        invariant Sem(m, sc, e) == Sem(m, sc, cur)
        invariant Sound(m.inner, sc, View(), dirruns)
        invariant forall key :: key in slots ==>
          || (key in old(slots) && slots[key] == old(slots[key]))
          || (fresh(slots[key]) && slots[key].run == dirruns && Uses(m, slots[key].name))
        invariant Walking(m, sc, newCache, Sem(m, sc, e), Rank(cur, m.dir))
        decreases Rank(cur, m.dir)
      {
        StepDescends(cur, m.dir);
        SemStep(m, sc, cur);
        if Visits(sc.tree, next.value, m.dir, m.base) {
          var finished := Probe(m, sc, newCache, cur, next.value);
          if finished {
            return newCache.result;
          }
        }
        cur := next.value;
        next := Step(cur, m.dir);
      }
      SemStep(m, sc, cur);
      b := false;
    }

    /**
      One node of a walk: adopt the outcome already in its slot, or share the walk's own
      array with it and run the inner matcher.  Finished means the walk can stop.
     */
    method Probe(m: Matcher, sc: Scope, own: CacheArray, before: Addr, cur: Addr) returns (finished: bool)
      requires m.Walk? && !m.first && WellNamed(m) && sc.outermost == outermostContext
      requires own.run == dirruns && own.name == m.name && !own.result
      requires Step(before, m.dir) == Some(cur) && Visits(sc.tree, cur, m.dir, m.base)
      requires Sound(m.inner, sc, View(), dirruns) && Walking(m, sc, own, Sem(m, sc, before), Rank(before, m.dir))
      modifies this`slots, own
      ensures Sound(m.inner, sc, View(), dirruns)
      ensures finished ==> own.result == Sem(m, sc, before) && SlotsSound(m, sc, View(), dirruns)
      ensures !finished ==> !own.result && Walking(m, sc, own, Sem(m, sc, before), Rank(cur, m.dir)) && Sem(m, sc, before) == Sem(m, sc, cur)
      ensures forall key :: key in slots ==>
        || (key in old(slots) && slots[key] == old(slots[key]))
        || slots[key] == own
        || (fresh(slots[key]) && slots[key].run == dirruns && Uses(m.inner, slots[key].name))
      decreases m, 2
    {
      StepDescends(before, m.dir);
      SemStep(m, sc, before);
      var key := (cur, m.dir);
      if key in slots && slots[key].run == dirruns && slots[key].name == m.name {
        ghost var v := View();
        own.result := slots[key].result;
        SoundFrame(m.inner, iset{m.name}, sc, v, View(), dirruns);
        return true;
      }
      finished := Attach(m, sc, own, before, cur);
    }

    method Attach(m: Matcher, sc: Scope, own: CacheArray, before: Addr, cur: Addr) returns (matched: bool)
      requires m.Walk? && !m.first && WellNamed(m) && sc.outermost == outermostContext
      requires own.run == dirruns && own.name == m.name && !own.result
      requires Step(before, m.dir) == Some(cur) && Visits(sc.tree, cur, m.dir, m.base)
      requires Sound(m.inner, sc, View(), dirruns) && Walking(m, sc, own, Sem(m, sc, before), Rank(before, m.dir))
      modifies this`slots, own
      ensures Sound(m.inner, sc, View(), dirruns)
      ensures own.result == matched == Sem(m.inner, sc, cur)
      ensures matched ==> SlotsSound(m, sc, View(), dirruns)
      ensures !matched ==> Walking(m, sc, own, Sem(m, sc, before), Rank(cur, m.dir))
      ensures forall key :: key in slots ==>
        || (key in old(slots) && slots[key] == old(slots[key]))
        || slots[key] == own
        || (fresh(slots[key]) && slots[key].run == dirruns && Uses(m.inner, slots[key].name))
      decreases m, 1
    {
      Share(m, sc, own, before, cur);
      matched := RunInner(m, sc, own, Sem(m, sc, before), Rank(cur, m.dir), cur);
      SemStep(m, sc, before);
      SetOutcome(m, sc, own, matched, Sem(m, sc, before), Rank(cur, m.dir));
    }

    /** The inner matcher may overwrite slots of the walk, but only with arrays of its own. */
    method RunInner(m: Matcher, sc: Scope, own: CacheArray, ghost walk: bool, ghost rank: nat, cur: Addr) returns (matched: bool)
      requires m.Walk? && !m.first && WellNamed(m) && sc.outermost == outermostContext
      requires Sound(m.inner, sc, View(), dirruns) && Walking(m, sc, own, walk, rank)
      modifies this`slots
      ensures matched == Sem(m.inner, sc, cur)
      ensures Sound(m.inner, sc, View(), dirruns) && Walking(m, sc, own, walk, rank)
      ensures forall key :: key in slots ==>
        || (key in old(slots) && slots[key] == old(slots[key]))
        || (fresh(slots[key]) && slots[key].run == dirruns && Uses(m.inner, slots[key].name))
      decreases m, 0
    {
      matched := Run(m.inner, sc, cur);
      forall key | key in slots && slots[key].run == dirruns && slots[key].name == m.name
        ensures key in old(slots) && slots[key] == old(slots[key])
      {
      }
    }

    method Share(m: Matcher, sc: Scope, own: CacheArray, ghost before: Addr, cur: Addr)
      requires m.Walk? && !m.first && WellNamed(m)
      requires own.run == dirruns && own.name == m.name
      requires Step(before, m.dir) == Some(cur) && Visits(sc.tree, cur, m.dir, m.base)
      requires Sound(m.inner, sc, View(), dirruns) && Walking(m, sc, own, Sem(m, sc, before), Rank(before, m.dir))
      modifies this`slots
      ensures slots == old(slots)[(cur, m.dir) := own]
      ensures Sound(m.inner, sc, View(), dirruns) && Walking(m, sc, own, Sem(m, sc, before), Rank(cur, m.dir))
    {
      StepDescends(before, m.dir);
      SemStep(m, sc, before);
      ghost var v := View();
      slots := slots[(cur, m.dir) := own];
      SoundFrame(m.inner, iset{m.name}, sc, v, View(), dirruns);
    }

    /** Writes the shared array: once it holds the walk's outcome, every slot of the walk is right. */
    method SetOutcome(m: Matcher, sc: Scope, own: CacheArray, outcome: bool, ghost walk: bool, ghost rank: nat)
      requires m.Walk? && !m.first && WellNamed(m)
      requires own.run == dirruns && own.name == m.name
      requires Sound(m.inner, sc, View(), dirruns) && Walking(m, sc, own, walk, rank)
      modifies own
      ensures own.result == outcome
      ensures Sound(m.inner, sc, View(), dirruns) && Walking(m, sc, own, walk, rank)
      ensures outcome == walk ==> SlotsSound(m, sc, View(), dirruns)
    {
      ghost var v := View();
      own.result := outcome;
      SoundFrame(m.inner, iset{m.name}, sc, v, View(), dirruns);
    }

    /** A conjunction, checked from the last matcher back to the first. */
    method RunAll(m: Matcher, sc: Scope, e: Addr) returns (b: bool)
      requires m.All?
      requires WellNamed(m) && sc.outermost == outermostContext
      requires Sound(m, sc, View(), dirruns)
      modifies this`slots
      ensures b == Sem(m, sc, e)
      ensures Sound(m, sc, View(), dirruns)
      ensures forall key :: key in slots ==>
        || (key in old(slots) && slots[key] == old(slots[key]))
        || (fresh(slots[key]) && slots[key].run == dirruns && Uses(m, slots[key].name))
      decreases m, 3
    {
      var i := |m.ms|;
      while i > 0
        invariant 0 <= i <= |m.ms|
        invariant forall k :: i <= k < |m.ms| ==> Sem(m.ms[k], sc, e)
        invariant Sound(m, sc, View(), dirruns)
        invariant forall key :: key in slots ==>
          || (key in old(slots) && slots[key] == old(slots[key]))
          || (fresh(slots[key]) && slots[key].run == dirruns && Uses(m, slots[key].name))
      {
        i := i - 1;
        ghost var v := View();
        b := Run(m.ms[i], sc, e);
        assert OnlyWrites(Names(m.ms[i]), v, View(), dirruns);
        forall k | 0 <= k < |m.ms|
          ensures Sound(m.ms[k], sc, View(), dirruns)
        {
          if k != i {
            assert Disjoint(m.ms[k], m.ms[i]);
            SoundFrame(m.ms[k], Names(m.ms[i]), sc, v, View(), dirruns);
          }
        }
        if !b {
          return false;
        }
      }
      b := true;
    }
  }
}
