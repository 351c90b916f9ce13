/**
  Positional selectors on a given seed: set matchers move entries from a seed array to a
  result array, and the matching loop folds the elements matched one by one back in.
 */
module SetMatch {
  import opened Wrappers

  /** An array entry: an element, or a hole (false or undefined) where it was moved away. */
  type Slots<E> = seq<Option<E>>

  /**
    A compiled group with a positional filter: what comes before it in its compound (if
    anything), the indexes the positional function picks from an array of a given length,
    and what comes after it in the compound.
   */
  datatype SetMatcher<!E> = SetMatcher(pre: Option<E -> bool>, pick: nat -> seq<int>, post: Option<E -> bool>)

  // ---------- condense ----------

  predicate Passes<E>(s: Option<E>, f: Option<E -> bool>) {
    s.Some? && (f.None? || f.value(s.value))
  }

  /** How many of the first n entries pass. */
  function Passing<E>(s: Slots<E>, f: Option<E -> bool>, n: nat): nat
    requires n <= |s|
  {
    if n == 0 then 0 else Passing(s, f, n - 1) + (if Passes(s[n - 1], f) then 1 else 0)
  }

  /** The passing elements in order, and where each came from. */
  method Condense<E>(s: Slots<E>, f: Option<E -> bool>) returns (out: seq<E>, origin: seq<nat>)
    ensures Condensed(s, f, out, origin)
  {
    out, origin := [], [];
    var i := 0;
    while i < |s|
      invariant 0 <= i <= |s|
      invariant CondensedUpto(s, f, i, out, origin)
    {
      out, origin := CondenseOne(s, f, i, out, origin);
      i := i + 1;
    }
  }

  method CondenseOne<E>(s: Slots<E>, f: Option<E -> bool>, i: nat, out: seq<E>, origin: seq<nat>)
    returns (out': seq<E>, origin': seq<nat>)
    requires i < |s| && CondensedUpto(s, f, i, out, origin)
    ensures CondensedUpto(s, f, i + 1, out', origin')
  {
    out', origin' := out, origin;
    CondenseStep(s, f, i, out, origin);
    if Passes(s[i], f) {
      out', origin' := out + [s[i].value], origin + [i];
    }
  }

  lemma CondenseStep<E>(s: Slots<E>, f: Option<E -> bool>, n: nat, out: seq<E>, origin: seq<nat>)
    requires n < |s| && CondensedUpto(s, f, n, out, origin)
    ensures if Passes(s[n], f) then CondensedUpto(s, f, n + 1, out + [s[n].value], origin + [n])
            else CondensedUpto(s, f, n + 1, out, origin)
  {
    if Passes(s[n], f) {
      var more := origin + [n];
      assert more[|origin|] == n;
      forall i | 0 <= i < n + 1 && Passes(s[i], f)
        ensures i in more
      {
        if i < n { assert i in origin; }
      }
    }
  }

  ghost predicate CondensedUpto<E>(s: Slots<E>, f: Option<E -> bool>, n: nat, out: seq<E>, origin: seq<nat>)
    requires n <= |s|
  {
    && |out| == |origin| == Passing(s, f, n)
    && (forall k :: 0 <= k < |out| ==>
      && origin[k] < n && Passes(s[origin[k]], f) && out[k] == s[origin[k]].value && Passing(s, f, origin[k]) == k)
    && forall i :: 0 <= i < n && Passes(s[i], f) ==> i in origin
  }

  /** A passing entry is found at the index that counts the passing entries before it. */
  lemma OriginAt<E>(s: Slots<E>, f: Option<E -> bool>, out: seq<E>, origin: seq<nat>, i: nat)
    requires Condensed(s, f, out, origin) && i < |s| && Passes(s[i], f)
    ensures Passing(s, f, i) < |out| && origin[Passing(s, f, i)] == i
  {
    var k :| 0 <= k < |origin| && origin[k] == i;
  }

  ghost predicate Condensed<E>(s: Slots<E>, f: Option<E -> bool>, out: seq<E>, origin: seq<nat>) {
    CondensedUpto(s, f, |s|, out, origin)
  }

  // ---------- moving entries ----------

  function Holes<E>(n: nat): (r: Slots<E>)
    ensures |r| == n && forall k :: 0 <= k < n ==> r[k] == None
  {
    seq(n, _ => None)
  }

  /** The positional pseudo: picked entries that are still there move from seed to matches. */
  method Pick<E>(pick: nat -> seq<int>, seed: Slots<E>, matches: Slots<E>) returns (s: Slots<E>, m: Slots<E>)
    requires |matches| == |seed|
    ensures |s| == |m| == |seed|
    ensures forall j :: 0 <= j < |seed| ==>
      if seed[j].Some? && j in pick(|seed|) then s[j] == None && m[j] == seed[j] else s[j] == seed[j] && m[j] == matches[j]
  {
    var indexes := pick(|seed|);
    s, m := seed, matches;
    var i := |indexes|;
    while i > 0
      invariant 0 <= i <= |indexes| && |s| == |m| == |seed|
      invariant forall j :: 0 <= j < |seed| ==>
        if seed[j].Some? && j in indexes[i..] then s[j] == None && m[j] == seed[j] else s[j] == seed[j] && m[j] == matches[j]
    {
      i := i - 1;
      var j := indexes[i];
      assert indexes[i..] == [j] + indexes[i + 1..];
      if 0 <= j < |s| && s[j].Some? {
        m := m[j := s[j]];
        s := s[j := None];
      }
    }
    assert indexes[0..] == indexes;
  }

  /** A wrapped plain filter: passing entries move from seed to matches. */
  method FilterOut<E>(f: E -> bool, seed: seq<E>) returns (s: Slots<E>)
    ensures |s| == |seed|
    ensures forall k :: 0 <= k < |seed| ==> s[k] == (if f(seed[k]) then None else Some(seed[k]))
  {
    var entries: Slots<E> := seq(|seed|, k requires 0 <= k < |seed| => Some(seed[k]));
    s := entries;
    var out, origin := Condense(entries, Some(f));
    var i := |out|;
    while i > 0
      invariant 0 <= i <= |out| && |s| == |seed|
      invariant forall k :: 0 <= k < |seed| ==>
        s[k] == (if f(seed[k]) && Passing(entries, Some(f), k) >= i then None else Some(seed[k]))
    {
      i := i - 1;
      s := s[origin[i] := None];
      forall k | 0 <= k < |seed| && f(seed[k]) && Passing(entries, Some(f), k) == i
        ensures k == origin[i]
      {
        assert Passes(entries[k], Some(f));
        OriginAt(entries, Some(f), out, origin, k);
      }
    }
    assert forall k :: 0 <= k < |seed| && f(seed[k]) ==> Passes(entries[k], Some(f));
  }

  /** The part after the positional filter: matches that fail it go back. */
  method Unmatch<E>(post: E -> bool, seed: Slots<E>, matches: Slots<E>) returns (s: Slots<E>, m: Slots<E>)
    requires |matches| == |seed|
    ensures |s| == |m| == |seed|
    ensures forall j :: 0 <= j < |seed| ==>
      if matches[j].Some? && !post(matches[j].value) then s[j] == matches[j] && m[j] == None else s[j] == seed[j] && m[j] == matches[j]
  {
    var temp, origin := Condense(matches, None);
    var left := FilterOut(post, temp);
    s, m := seed, matches;
    var i := |left|;
    while i > 0
      invariant 0 <= i <= |left| && |s| == |m| == |seed|
      invariant forall j :: 0 <= j < |seed| ==>
        if matches[j].Some? && !post(matches[j].value) && Passing(matches, None, j) >= i
        then s[j] == matches[j] && m[j] == None else s[j] == seed[j] && m[j] == matches[j]
    {
      i := i - 1;
      if left[i].Some? {
        s := s[origin[i] := left[i]];
        m := m[origin[i] := None];
      }
      forall j | 0 <= j < |seed| && matches[j].Some? && Passing(matches, None, j) == i
        ensures j == origin[i]
      {
        assert Passes(matches[j], None);
        OriginAt(matches, None, temp, origin, j);
      }
    }
    assert forall j :: 0 <= j < |seed| && matches[j].Some? ==> Passes(matches[j], None);
  }

  // ---------- a whole set matcher, on a seed, with no further combinator ----------

  /** Entry j is taken by the matcher: picked among the entries passing `pre`, and passing `post`. */
  ghost predicate Chosen<E>(sm: SetMatcher<E>, seed: Slots<E>, j: nat)
    requires j < |seed|
  {
    && Passes(seed[j], sm.pre) && Passes(seed[j], sm.post)
    && if sm.pre.None? then j in sm.pick(|seed|) else Passing(seed, sm.pre, j) in sm.pick(Passing(seed, sm.pre, |seed|))
  }

  /** An earlier match is given back: there is nothing before the positional filter, and `post` fails. */
  ghost predicate GivenBack<E>(sm: SetMatcher<E>, results: Slots<E>, j: nat)
    requires j < |results|
  {
    sm.pre.None? && results[j].Some? && !Passes(results[j], sm.post)
  }

  ghost predicate Applied<E>(sm: SetMatcher<E>, seed: Slots<E>, results: Slots<E>, s: Slots<E>, r: Slots<E>)
    requires |results| == |seed|
  {
    && |s| == |r| == |seed|
    && forall j :: 0 <= j < |seed| ==>
      if Chosen(sm, seed, j) then s[j] == None && r[j] == seed[j]
      else if GivenBack(sm, results, j) then s[j] == results[j] && r[j] == None
      else s[j] == seed[j] && r[j] == results[j]
  }

  /** No index holds an element on both sides. */
  ghost predicate Exclusive<E>(seed: Slots<E>, results: Slots<E>)
    requires |results| == |seed|
  {
    forall j :: 0 <= j < |seed| ==> seed[j].None? || results[j].None?
  }

  /** The two arrays after one set matcher. */
  ghost function Outcome<E>(sm: SetMatcher<E>, seed: Slots<E>, results: Slots<E>): (o: (Slots<E>, Slots<E>))
    requires |results| == |seed|
    ensures Applied(sm, seed, results, o.0, o.1)
  {
    (seq(|seed|, j requires 0 <= j < |seed| =>
      if Chosen(sm, seed, j) then None else if GivenBack(sm, results, j) then results[j] else seed[j]),
     seq(|seed|, j requires 0 <= j < |seed| =>
      if Chosen(sm, seed, j) then seed[j] else if GivenBack(sm, results, j) then None else results[j]))
  }

  /** The two arrays after some set matchers, applied one after the other. */
  ghost function InTurn<E>(sms: seq<SetMatcher<E>>, seed: Slots<E>, results: Slots<E>): (o: (Slots<E>, Slots<E>))
    requires |results| == |seed|
    ensures |o.0| == |o.1| == |seed|
  {
    if sms == [] then (seed, results)
    else
      var (s, r) := InTurn(sms[..|sms| - 1], seed, results);
      Outcome(sms[|sms| - 1], s, r)
  }

  /**
    A run of set matchers: the pairs of arrays it goes through, one more than there are
    matchers, and each matcher takes one pair to the next.
   */
  ghost predicate Steps<E>(sms: seq<SetMatcher<E>>, run: seq<(Slots<E>, Slots<E>)>, n: nat) {
    && |run| == |sms| + 1
    && (forall k :: 0 <= k < |run| ==> |run[k].0| == |run[k].1| == n)
    && forall k :: 0 <= k < |sms| ==> Applied(sms[k], run[k].0, run[k].1, run[k + 1].0, run[k + 1].1)
  }

  /** Every set matcher, from the first to the last, is applied once to what the one before it left. */
  ghost predicate EachApplied<E(!new)>(sms: seq<SetMatcher<E>>, seed: Slots<E>, results: Slots<E>, s: Slots<E>, r: Slots<E>) {
    exists run: seq<(Slots<E>, Slots<E>)> :: Steps(sms, run, |seed|) && run[0] == (seed, results) && run[|sms|] == (s, r)
  }

  lemma EachAppliedNext<E(!new)>(sms: seq<SetMatcher<E>>, sm: SetMatcher<E>, seed: Slots<E>, results: Slots<E>, o: (Slots<E>, Slots<E>), p: (Slots<E>, Slots<E>))
    requires EachApplied(sms, seed, results, o.0, o.1)
    requires |o.0| == |o.1| == |seed| && Applied(sm, o.0, o.1, p.0, p.1)
    ensures EachApplied(sms + [sm], seed, results, p.0, p.1)
  {
    var run: seq<(Slots<E>, Slots<E>)> :| Steps(sms, run, |seed|) && run[0] == (seed, results) && run[|sms|] == o;
    var longer := run + [p];
    assert Steps(sms + [sm], longer, |seed|) && longer[0] == (seed, results) && longer[|sms + [sm]|] == p;
  }

  /** Applying a list of set matchers in turn is what `InTurn` says, and nothing else is. */
  lemma {:induction false} EachAppliedIff<E(!new)>(sms: seq<SetMatcher<E>>, seed: Slots<E>, results: Slots<E>, s: Slots<E>, r: Slots<E>)
    requires |results| == |seed|
    ensures EachApplied(sms, seed, results, s, r) <==> (s, r) == InTurn(sms, seed, results)
  {
    if sms == [] {
      EachAppliedNone(seed, results, s, r);
    } else {
      var front, last := sms[..|sms| - 1], sms[|sms| - 1];
      assert sms == front + [last];
      var o := InTurn(front, seed, results);
      EachAppliedIff(front, seed, results, o.0, o.1);
      var p := Outcome(last, o.0, o.1);
      EachAppliedNext(front, last, seed, results, o, p);
      if EachApplied(sms, seed, results, s, r) {
        var run: seq<(Slots<E>, Slots<E>)> :| Steps(sms, run, |seed|) && run[0] == (seed, results) && run[|sms|] == (s, r);
        StepsFront(sms, run, |seed|);
        EachAppliedIff(front, seed, results, run[|front|].0, run[|front|].1);
        AppliedIsOutcome(last, o.0, o.1, s, r);
      }
    }
  }

  lemma EachAppliedNone<E(!new)>(seed: Slots<E>, results: Slots<E>, s: Slots<E>, r: Slots<E>)
    requires |results| == |seed|
    ensures EachApplied([], seed, results, s, r) <==> (s, r) == (seed, results)
  {
    var none: seq<SetMatcher<E>> := [];
    assert Steps(none, [(seed, results)], |seed|);
  }

  lemma StepsFront<E>(sms: seq<SetMatcher<E>>, run: seq<(Slots<E>, Slots<E>)>, n: nat)
    requires sms != [] && Steps(sms, run, n)
    ensures Steps(sms[..|sms| - 1], run[..|sms|], n)
  {
  }

  lemma AppliedIsOutcome<E>(sm: SetMatcher<E>, seed: Slots<E>, results: Slots<E>, s: Slots<E>, r: Slots<E>)
    requires |results| == |seed| && Applied(sm, seed, results, s, r)
    ensures (s, r) == Outcome(sm, seed, results)
  {
    var o := Outcome(sm, seed, results);
    assert s == o.0 && r == o.1;
  }

  method Apply<E>(sm: SetMatcher<E>, seed: Slots<E>, results: Slots<E>) returns (s: Slots<E>, r: Slots<E>)
    requires |results| == |seed| && Exclusive(seed, results)
    ensures Applied(sm, seed, results, s, r) && Exclusive(s, r)
  {
    if sm.pre.None? {
      s, r := Pick(sm.pick, seed, results);
      if sm.post.Some? {
        s, r := Unmatch(sm.post.value, s, r);
      }
    } else {
      var elems, preMap := Condense(seed, sm.pre);
      var matcherIn: Slots<E> := seq(|elems|, k requires 0 <= k < |elems| => Some(elems[k]));
      ghost var start := matcherIn;
      var matcherOut: Slots<E> := Holes(|elems|);
      matcherIn, matcherOut := Pick(sm.pick, matcherIn, matcherOut);
      if sm.post.Some? {
        matcherIn, matcherOut := Unmatch(sm.post.value, matcherIn, matcherOut);
      }
      s, r := MoveBack(sm, seed, results, elems, preMap, matcherOut);
    }
  }

  /** Moves the final matches from the seed to the results, by where they came from. */
  method MoveBack<E>(sm: SetMatcher<E>, seed: Slots<E>, results: Slots<E>, elems: seq<E>, preMap: seq<nat>, matcherOut: Slots<E>)
    returns (s: Slots<E>, r: Slots<E>)
    requires |results| == |seed| && Exclusive(seed, results) && sm.pre.Some?
    requires Condensed(seed, sm.pre, elems, preMap) && |matcherOut| == |elems|
    requires forall k :: 0 <= k < |elems| ==>
      matcherOut[k] == (if k in sm.pick(|elems|) && (sm.post.None? || sm.post.value(elems[k])) then Some(elems[k]) else None)
    ensures Applied(sm, seed, results, s, r) && Exclusive(s, r)
  {
    s, r := seed, results;
    var i := |matcherOut|;
    while i > 0
      invariant 0 <= i <= |matcherOut| && |s| == |r| == |seed|
      invariant forall j :: 0 <= j < |seed| ==>
        if Chosen(sm, seed, j) && Passing(seed, sm.pre, j) >= i then s[j] == None && r[j] == seed[j]
        else s[j] == seed[j] && r[j] == results[j]
    {
      i := i - 1;
      var at := preMap[i];
      assert Passes(seed[at], sm.pre) && Passing(seed, sm.pre, at) == i;
      if matcherOut[i].Some? {
        r := r[at := matcherOut[i]];
        s := s[at := None];
      }
      assert Chosen(sm, seed, at) <==> matcherOut[i].Some?;
      forall j | 0 <= j < |seed| && Chosen(sm, seed, j) && Passing(seed, sm.pre, j) == i
        ensures j == at
      {
        OriginAt(seed, sm.pre, elems, preMap, j);
      }
    }
  }

  /**
    A match made by an earlier set matcher survives a later one exactly when the later one
    has something before its positional filter, or accepts the match in what comes after.
   */
  lemma EarlierMatchSurvives<E>(sm: SetMatcher<E>, seed: Slots<E>, results: Slots<E>, s: Slots<E>, r: Slots<E>, j: nat)
    requires |results| == |seed| && Exclusive(seed, results) && Applied(sm, seed, results, s, r)
    requires j < |seed| && results[j].Some?
    ensures r[j] == results[j] <==> sm.pre.Some? || Passes(results[j], sm.post)
    ensures r[j] == results[j] || (r[j] == None && s[j] == results[j])
  {
    assert seed[j].None?;
  }

  // ---------- a whole list of set matchers ----------

  /** The matcher never gives back a match, whatever was matched before it. */
  ghost predicate NeverGivesBack<E(!new)>(sm: SetMatcher<E>) {
    forall results: Slots<E>, j: nat :: j < |results| ==> !GivenBack(sm, results, j)
  }

  /** That is so exactly if there is something before its positional filter, or what comes after accepts everything. */
  lemma NeverGivesBackIff<E(!new)>(sm: SetMatcher<E>)
    ensures NeverGivesBack(sm) <==> sm.pre.Some? || forall x :: Passes(Some(x), sm.post)
  {
    if NeverGivesBack(sm) && sm.pre.None? {
      forall x
        ensures Passes(Some(x), sm.post)
      {
        var one: Slots<E> := [Some(x)];
        assert !GivenBack(sm, one, 0);
      }
    }
  }

  /** What stands at an index of the results after the first i set matchers. */
  ghost function MatchAfter<E>(sms: seq<SetMatcher<E>>, seed: Slots<E>, results: Slots<E>, i: nat, j: nat): Option<E>
    requires |results| == |seed| && i <= |sms| && j < |seed|
  {
    InTurn(sms[..i], seed, results).1[j]
  }

  /** The i-th matcher leaves what is matched at index j alone. */
  ghost predicate KeptAt<E>(sms: seq<SetMatcher<E>>, seed: Slots<E>, results: Slots<E>, i: nat, j: nat)
    requires |results| == |seed| && i < |sms| && j < |seed|
  {
    var m := MatchAfter(sms, seed, results, i, j);
    m.Some? ==> MatchAfter(sms, seed, results, i + 1, j) == m
  }

  /** It has something before its positional filter, or accepts, in what comes after, what is matched at index j. */
  ghost predicate AcceptedAt<E>(sms: seq<SetMatcher<E>>, seed: Slots<E>, results: Slots<E>, i: nat, j: nat)
    requires |results| == |seed| && i < |sms| && j < |seed|
  {
    var m := MatchAfter(sms, seed, results, i, j);
    m.Some? ==> sms[i].pre.Some? || Passes(m, sms[i].post)
  }

  ghost predicate NoneLost<E>(sms: seq<SetMatcher<E>>, seed: Slots<E>, results: Slots<E>)
    requires |results| == |seed|
  {
    forall i: nat, j: nat :: i < |sms| && j < |seed| ==> KeptAt(sms, seed, results, i, j)
  }

  lemma {:induction false} InTurnExclusive<E>(sms: seq<SetMatcher<E>>, seed: Slots<E>, results: Slots<E>)
    requires |results| == |seed| && Exclusive(seed, results)
    ensures var o := InTurn(sms, seed, results); Exclusive(o.0, o.1)
  {
    if sms != [] {
      InTurnExclusive(sms[..|sms| - 1], seed, results);
    }
  }

  /**
    Over a whole list of set matchers no match is ever lost if and only if each matcher has
    something before its positional filter or accepts, in what comes after, every match it finds.
   */
  lemma NoneLostIff<E>(sms: seq<SetMatcher<E>>, seed: Slots<E>, results: Slots<E>)
    requires |results| == |seed| && Exclusive(seed, results)
    ensures NoneLost(sms, seed, results) <==>
            forall i: nat, j: nat :: i < |sms| && j < |seed| ==> AcceptedAt(sms, seed, results, i, j)
  {
    forall i: nat, j: nat | i < |sms| && j < |seed|
      ensures KeptAt(sms, seed, results, i, j) <==> AcceptedAt(sms, seed, results, i, j)
    {
      KeptIffAccepted(sms, seed, results, i, j);
    }
  }

  lemma KeptIffAccepted<E>(sms: seq<SetMatcher<E>>, seed: Slots<E>, results: Slots<E>, i: nat, j: nat)
    requires |results| == |seed| && Exclusive(seed, results) && i < |sms| && j < |seed|
    ensures KeptAt(sms, seed, results, i, j) <==> AcceptedAt(sms, seed, results, i, j)
  {
    var o := InTurn(sms[..i], seed, results);
    InTurnExclusive(sms[..i], seed, results);
    assert sms[..i + 1][..i] == sms[..i];
    var p := Outcome(sms[i], o.0, o.1);
    if o.1[j].Some? {
      EarlierMatchSurvives(sms[i], o.0, o.1, p.0, p.1, j);
    }
  }

  /** Then whatever is matched at some point stays matched to the end. */
  lemma {:induction false} MatchesStay<E>(sms: seq<SetMatcher<E>>, seed: Slots<E>, results: Slots<E>, i: nat, k: nat, j: nat)
    requires |results| == |seed| && NoneLost(sms, seed, results) && i <= k <= |sms| && j < |seed|
    requires MatchAfter(sms, seed, results, i, j).Some?
    ensures MatchAfter(sms, seed, results, k, j) == MatchAfter(sms, seed, results, i, j)
  {
    if i < k {
      MatchesStay(sms, seed, results, i, k - 1, j);
      assert KeptAt(sms, seed, results, k - 1, j);
    }
  }

  /**
    ":first.foo, :last" on the seed 1, 2 where neither has the class: ":last" alone matches
    2, but ":first.foo", applied after it, gives the match back and nothing is found.
   */
  lemma LostMatch(s1: Slots<nat>, r1: Slots<nat>, s2: Slots<nat>, r2: Slots<nat>)
    requires Applied(SetMatcher(None, n => [n - 1], None), [Some(1), Some(2)], Holes(2), s1, r1)
    requires Applied(SetMatcher(None, n => [0], Some(e => false)), s1, r1, s2, r2)
    ensures r1 == [None, Some(2)] && r2 == [None, None] && s2 == [Some(1), Some(2)]
  {
    var last: SetMatcher<nat> := SetMatcher(None, n => [n - 1], None);
    var seed: Slots<nat> := [Some(1), Some(2)];
    assert last.pick(2) == [1];
    assert !Chosen(last, seed, 0) && Chosen(last, seed, 1);
  }

  // ---------- the matching loop with set matchers, on a seed ----------

  /** The seed elements that satisfy `keep` at their index, in seed order. */
  function Selection<E>(seed: seq<E>, keep: seq<bool>): seq<E>
    requires |keep| == |seed|
  {
    if seed == [] then []
    else Selection(seed[..|seed| - 1], keep[..|seed| - 1]) + (if keep[|seed| - 1] then [seed[|seed| - 1]] else [])
  }

  /**
    Every index is in exactly one place: matched as an element, still unmatched, or
    matched as part of a set.
   */
  ghost predicate Conserved<E>(seed: seq<E>, any: E -> bool, unmatched: Slots<E>, setMatched: Slots<E>)
  {
    && |unmatched| == |setMatched| == |seed|
    && forall j :: 0 <= j < |seed| ==>
      if any(seed[j]) then unmatched[j] == None && setMatched[j] == None
      else (unmatched[j] == Some(seed[j]) && setMatched[j] == None) || (unmatched[j] == None && setMatched[j] == Some(seed[j]))
  }

  function Taken<E>(seed: seq<E>, any: E -> bool, setMatched: Slots<E>): (r: seq<bool>)
    requires |setMatched| == |seed|
    ensures |r| == |seed| && forall j :: 0 <= j < |seed| ==> r[j] == (any(seed[j]) || setMatched[j].Some?)
  {
    seq(|seed|, j requires 0 <= j < |seed| => any(seed[j]) || setMatched[j].Some?)
  }

  /** What the element matchers leave for the set matchers. */
  function LeftOver<E>(seed: seq<E>, any: E -> bool): (r: Slots<E>)
    ensures |r| == |seed| && forall j :: 0 <= j < |seed| ==> r[j] == (if any(seed[j]) then None else Some(seed[j]))
  {
    seq(|seed|, j requires 0 <= j < |seed| => if any(seed[j]) then None else Some(seed[j]))
  }

  function ByElement<E>(seed: seq<E>, any: E -> bool): (r: seq<bool>)
    ensures |r| == |seed| && forall j :: 0 <= j < |seed| ==> r[j] == any(seed[j])
  {
    seq(|seed|, j requires 0 <= j < |seed| => any(seed[j]))
  }

  /**
    superMatcher on a seed of elements, `any` saying whether some element matcher accepts.
    The set matchers are applied in turn to what the element matchers left, and the results
    gain exactly the elements matched one way or the other, each once, in seed order.
   */
  method SuperMatcher<E(!new)>(seed: seq<E>, any: E -> bool, setMatchers: seq<SetMatcher<E>>, results: seq<E>)
    returns (r: seq<E>, unmatched: Slots<E>, setMatched: Slots<E>)
    requires setMatchers != []
    ensures Conserved(seed, any, unmatched, setMatched)
    ensures EachApplied(setMatchers, LeftOver(seed, any), Holes(|seed|), unmatched, setMatched)
    ensures |setMatchers| == 1 ==>
      forall j :: 0 <= j < |seed| ==> (setMatched[j].Some? <==> Chosen(setMatchers[0], LeftOver(seed, any), j))
    ensures r == results + Selection(seed, Taken(seed, any, setMatched))
  {
    r, unmatched := results, [];
    var matchedCount := 0;
    var i := 0;
    while i < |seed|
      invariant 0 <= i <= |seed| && |unmatched| == i
      invariant forall j :: 0 <= j < i ==> unmatched[j] == (if any(seed[j]) then None else Some(seed[j]))
      invariant r == results + Selection(seed[..i], ByElement(seed[..i], any))
      invariant -i <= matchedCount <= 0 && |Selection(seed[..i], ByElement(seed[..i], any))| == matchedCount + i
    {
      SelectionSnoc(seed, any, i);
      if any(seed[i]) {
        r := r + [seed[i]];
        unmatched := unmatched + [None];
      } else {
        matchedCount := matchedCount - 1;
        unmatched := unmatched + [Some(seed[i])];
      }
      i := i + 1;
    }
    assert seed[..i] == seed;
    matchedCount := matchedCount + i;
    setMatched := Holes(|seed|);
    assert unmatched == LeftOver(seed, any);
    if i != matchedCount || i == 0 {
      var matches: Slots<E> := Holes(|seed|);
      unmatched, matches := ApplyAll(seed, any, setMatchers, unmatched, matches);
      setMatched := matches;
      if matchedCount > 0 {
        r, matches := Reintegrate(seed, any, results, r, unmatched, matches);
      } else {
        NoneByElement(seed, any);
        forall j | 0 <= j < |seed| ensures !any(seed[j]) { ByElementHas(seed, any, j); }
      }
      var found, origin := Condense(matches, None);
      CondenseIsSelection(seed, Taken(seed, any, setMatched), matches, found, origin);
      assert r == results;
      r := r + found;
    } else {
      AllByElement(seed, any);
      assert Taken(seed, any, setMatched) == ByElement(seed, any);
      NothingToDo(setMatchers, unmatched, setMatched);
      EachAppliedIff(setMatchers, unmatched, setMatched, unmatched, setMatched);
    }
    if |setMatchers| == 1 {
      OneSetMatcher(setMatchers, LeftOver(seed, any), unmatched, setMatched);
    }
  }

  /** A single set matcher starts from no matches, so it gives none back: it matches what it chooses. */
  lemma OneSetMatcher<E(!new)>(sms: seq<SetMatcher<E>>, seed: Slots<E>, s: Slots<E>, r: Slots<E>)
    requires |sms| == 1 && EachApplied(sms, seed, Holes(|seed|), s, r)
    ensures |r| == |seed| && forall j :: 0 <= j < |seed| ==> (r[j].Some? <==> Chosen(sms[0], seed, j))
  {
    var run: seq<(Slots<E>, Slots<E>)> :| Steps(sms, run, |seed|) && run[0] == (seed, Holes(|seed|)) && run[1] == (s, r);
    assert Applied(sms[0], run[0].0, run[0].1, run[1].0, run[1].1);
  }

  method ApplyAll<E(!new)>(ghost seed: seq<E>, ghost any: E -> bool, setMatchers: seq<SetMatcher<E>>, unmatched: Slots<E>, matches: Slots<E>)
    returns (u: Slots<E>, m: Slots<E>)
    requires Conserved(seed, any, unmatched, matches)
    ensures Conserved(seed, any, u, m)
    ensures EachApplied(setMatchers, unmatched, matches, u, m)
  {
    u, m := unmatched, matches;
    EachAppliedNone(unmatched, matches, u, m);
    assert setMatchers[..0] == [];
    for j := 0 to |setMatchers|
      invariant Conserved(seed, any, u, m)
      invariant EachApplied(setMatchers[..j], unmatched, matches, u, m)
    {
      ghost var before := (u, m);
      u, m := Apply(setMatchers[j], u, m);
      EachAppliedNext(setMatchers[..j], setMatchers[j], unmatched, matches, before, (u, m));
      assert setMatchers[..j + 1] == setMatchers[..j] + [setMatchers[j]];
    }
    assert setMatchers[..|setMatchers|] == setMatchers;
  }

  /** With every element already matched the set matchers would change nothing, so they are not called. */
  lemma {:induction false} NothingToDo<E>(sms: seq<SetMatcher<E>>, seed: Slots<E>, results: Slots<E>)
    requires |results| == |seed|
    requires forall j :: 0 <= j < |seed| ==> seed[j].None? && results[j].None?
    ensures InTurn(sms, seed, results) == (seed, results)
  {
    if sms != [] {
      NothingToDo(sms[..|sms| - 1], seed, results);
      AppliedIsOutcome(sms[|sms| - 1], seed, results, seed, results);
    }
  }

  /** Elements matched one by one are popped off the results back to their own index. */
  method Reintegrate<E>(seed: seq<E>, any: E -> bool, ghost before: seq<E>, results: seq<E>, unmatched: Slots<E>, setMatched: Slots<E>)
    returns (r: seq<E>, m: Slots<E>)
    requires Conserved(seed, any, unmatched, setMatched)
    requires results == before + Selection(seed, ByElement(seed, any))
    ensures r == before && |m| == |seed|
    ensures forall j :: 0 <= j < |seed| ==> m[j] == (if any(seed[j]) || setMatched[j].Some? then Some(seed[j]) else None)
  {
    r, m := results, setMatched;
    var i := |seed|;
    assert seed[..i] == seed;
    while i > 0
      invariant 0 <= i <= |seed| && |m| == |seed|
      invariant r == before + Selection(seed[..i], ByElement(seed[..i], any))
      invariant forall j :: 0 <= j < i ==> m[j] == setMatched[j]
      invariant forall j :: i <= j < |seed| ==> m[j] == (if any(seed[j]) || setMatched[j].Some? then Some(seed[j]) else None)
    {
      i := i - 1;
      SelectionSnoc(seed, any, i);
      if !(unmatched[i].Some? || m[i].Some?) {
        m := m[i := Some(r[|r| - 1])];
        r := r[..|r| - 1];
      }
    }
    assert seed[..0] == [];
  }

  // ---------- selections ----------

  lemma SelectionSnoc<E>(seed: seq<E>, any: E -> bool, i: nat)
    requires i < |seed|
    ensures Selection(seed[..i + 1], ByElement(seed[..i + 1], any)) ==
            Selection(seed[..i], ByElement(seed[..i], any)) + (if any(seed[i]) then [seed[i]] else [])
  {
    assert seed[..i + 1][..i] == seed[..i];
    assert ByElement(seed[..i + 1], any)[..i] == ByElement(seed[..i], any);
  }

  lemma {:induction false} ByElementHas<E>(seed: seq<E>, any: E -> bool, j: nat)
    requires j < |seed| && Selection(seed, ByElement(seed, any)) == []
    ensures !any(seed[j])
  {
    var n := |seed|;
    SelectionSnoc(seed, any, n - 1);
    assert seed[..n] == seed;
    if j < n - 1 {
      ByElementHas(seed[..n - 1], any, j);
    }
  }

  lemma NoneByElement<E>(seed: seq<E>, any: E -> bool)
    ensures |Selection(seed, ByElement(seed, any))| <= |seed|
  {
    SelectionLength(seed, ByElement(seed, any));
  }

  lemma {:induction false} SelectionLength<E>(seed: seq<E>, keep: seq<bool>)
    requires |keep| == |seed|
    ensures |Selection(seed, keep)| <= |seed|
    ensures |Selection(seed, keep)| == |seed| ==> forall j :: 0 <= j < |keep| ==> keep[j]
  {
    if seed != [] {
      var n := |seed| - 1;
      var front := keep[..n];
      SelectionLength(seed[..n], front);
      if |Selection(seed, keep)| == |seed| {
        assert keep[n] && |Selection(seed[..n], front)| == n;
        forall j | 0 <= j < |keep|
          ensures keep[j]
        {
          assert j < n ==> front[j] == keep[j];
        }
      }
    }
  }

  lemma AllByElement<E>(seed: seq<E>, any: E -> bool)
    requires |Selection(seed, ByElement(seed, any))| == |seed|
    ensures forall j :: 0 <= j < |seed| ==> any(seed[j])
  {
    SelectionLength(seed, ByElement(seed, any));
    assert forall j :: 0 <= j < |seed| ==> ByElement(seed, any)[j];
  }

  lemma CondenseIsSelection<E>(seed: seq<E>, keep: seq<bool>, matches: Slots<E>, found: seq<E>, origin: seq<nat>)
    requires |keep| == |matches| == |seed|
    requires forall j :: 0 <= j < |seed| ==> matches[j] == (if keep[j] then Some(seed[j]) else None)
    requires Condensed(matches, None, found, origin)
    ensures found == Selection(seed, keep)
  {
    CondensePrefix(seed, keep, matches, found, origin, |seed|);
    assert seed[..|seed|] == seed && keep[..|seed|] == keep && found[..|found|] == found;
  }

  lemma {:induction false} CondensePrefix<E>(seed: seq<E>, keep: seq<bool>, matches: Slots<E>, found: seq<E>, origin: seq<nat>, n: nat)
    requires |keep| == |matches| == |seed| && n <= |seed|
    requires forall j :: 0 <= j < |seed| ==> matches[j] == (if keep[j] then Some(seed[j]) else None)
    requires Condensed(matches, None, found, origin)
    ensures Passing(matches, None, n) <= |found| && found[..Passing(matches, None, n)] == Selection(seed[..n], keep[..n])
  {
    if n > 0 {
      CondensePrefix(seed, keep, matches, found, origin, n - 1);
      assert seed[..n][..n - 1] == seed[..n - 1] && keep[..n][..n - 1] == keep[..n - 1];
      if keep[n - 1] {
        assert Passes(matches[n - 1], None);
        OriginAt(matches, None, found, origin, n - 1);
      }
    }
  }
}
