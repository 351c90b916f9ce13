/**
  One batch of a callback list: from the moment a fire starts until its loop ends,
  whatever the handlers do to the list meanwhile.
 */
module CallbackBatches {
  import opened Wrappers
  import opened Seqs
  import opened Callbacks
  import opened CallbackRuns

  function After<F(==), D>(q: Queue<F, D>, acts: seq<Act<F, D>>): Queue<F, D> {
    if acts == [] then q else QueueStep(After(q, acts[..|acts| - 1]), acts[|acts| - 1])
  }

  /** A handler runs, so calls on the list come from it. */
  predicate InHandler<F, D>(q: Queue<F, D>) {
    q.busy.Some? && q.handler.Some?
  }

  /** The loop is about to call the next handler. */
  predicate Calls<F, D>(q: Queue<F, D>, act: Act<F, D>) {
    act.Tick? && q.busy.Some? && q.handler.None? && q.todo != []
  }

  /** Every act happens before the batch's loop ends. */
  ghost predicate OneBatch<F, D>(q: Queue<F, D>, acts: seq<Act<F, D>>) {
    if acts == [] then q.busy.Some? && q.alive
    else
      var before, act := acts[..|acts| - 1], acts[|acts| - 1];
      OneBatch(q, before) && GoesOn(After(q, before), act)
  }

  /** The handler one act makes the loop call. */
  function CallOf<F(==), D>(q: Queue<F, D>, act: Act<F, D>): seq<F> {
    if Calls(q, act) then [q.todo[0]] else []
  }

  /** The handlers one act appends to the list. */
  function Growth<F(==), D>(q: Queue<F, D>, act: Act<F, D>): seq<F> {
    if act.Add? && InHandler(q) then
      PushAllExtends(q.items, act.fs, q.options.unique);
      PushAll(q.items, act.fs, q.options.unique)[|q.items|..]
    else []
  }

  function Loss<F(==), D>(q: Queue<F, D>, act: Act<F, D>): set<F> {
    if act.Remove? && InHandler(q) then {act.f} else {}
  }

  /** The handlers the loop calls, in order. */
  function Called<F(==), D>(q: Queue<F, D>, acts: seq<Act<F, D>>): seq<F> {
    if acts == [] then []
    else Called(q, acts[..|acts| - 1]) + CallOf(After(q, acts[..|acts| - 1]), acts[|acts| - 1])
  }

  /** The handlers that running handlers append to the list. */
  function Appended<F(==), D>(q: Queue<F, D>, acts: seq<Act<F, D>>): seq<F> {
    if acts == [] then []
    else Appended(q, acts[..|acts| - 1]) + Growth(After(q, acts[..|acts| - 1]), acts[|acts| - 1])
  }

  /** The handlers that running handlers remove. */
  function Removed<F(==), D>(q: Queue<F, D>, acts: seq<Act<F, D>>): set<F> {
    if acts == [] then {}
    else Removed(q, acts[..|acts| - 1]) + Loss(After(q, acts[..|acts| - 1]), acts[|acts| - 1])
  }

  /** The act does not end the batch. */
  predicate GoesOn<F, D>(q: Queue<F, D>, act: Act<F, D>) {
    && (act.Tick? && q.handler.None? ==> q.todo != [])
    && !act.DisableIt? && (act.LockIt? ==> q.remembered.Some?)
  }

  lemma StepGoesOn<F, D>(q: Queue<F, D>, act: Act<F, D>)
    requires q.busy.Some? && q.alive && GoesOn(q, act)
    ensures var q' := QueueStep(q, act); q'.busy == q.busy && q'.alive && q'.options == q.options
  {
    match act
    case Add(fs) =>
    case Remove(f) =>
    case Fire(data) =>
    case LockIt =>
    case Tick =>
    case Return =>
  }

  lemma {:induction false} BatchGoesOn<F, D>(q: Queue<F, D>, acts: seq<Act<F, D>>)
    requires OneBatch(q, acts)
    ensures After(q, acts).busy == q.busy && After(q, acts).busy.Some? && After(q, acts).alive && After(q, acts).options == q.options
  {
    if acts != [] {
      BatchGoesOn(q, acts[..|acts| - 1]);
      StepGoesOn(After(q, acts[..|acts| - 1]), acts[|acts| - 1]);
    }
  }

  /**
    Leaving aside what gets removed, the handlers called so far followed by those still to
    be called are exactly those due at the start followed by those appended meanwhile:
    none is skipped, repeated or out of order.
   */
  lemma {:induction false} BatchExact<F(!new), D>(q: Queue<F, D>, acts: seq<Act<F, D>>)
    requires OneBatch(q, acts)
    ensures SameBut(Called(q, acts) + After(q, acts).todo, q.todo + Appended(q, acts), Removed(q, acts))
  {
    if acts == [] {
      assert [] + q.todo == q.todo + [];
    } else {
      var before, act := acts[..|acts| - 1], acts[|acts| - 1];
      BatchExact(q, before);
      BatchGoesOn(q, before);
      BatchStep(After(q, before), act, Called(q, before), q.todo + Appended(q, before), Removed(q, before));
      Associate(q.todo, Appended(q, before), Growth(After(q, before), act));
    }
  }

  lemma Associate<F>(a: seq<F>, b: seq<F>, c: seq<F>)
    ensures a + b + c == a + (b + c)
  {
  }

  /** Equal after leaving out some values. */
  ghost predicate SameBut<F>(a: seq<F>, b: seq<F>, gone: set<F>) {
    Keep(a, f => f !in gone) == Keep(b, f => f !in gone)
  }

  /** One act: `due` is what the batch owes, `called` what it has paid. */
  lemma BatchStep<F(!new), D>(q: Queue<F, D>, act: Act<F, D>, called: seq<F>, due: seq<F>, gone: set<F>)
    requires q.busy.Some? && q.alive && GoesOn(q, act)
    requires SameBut(called + q.todo, due, gone)
    ensures SameBut(called + CallOf(q, act) + QueueStep(q, act).todo, due + Growth(q, act), gone + Loss(q, act))
  {
    if act.Remove? && InHandler(q) {
      StepRemove(called, q.todo, due, gone, act.f);
      assert called + [] == called && due + [] == due;
    } else {
      StepConserves(q, act);
      StepAppend(called, CallOf(q, act), QueueStep(q, act).todo, q.todo, Growth(q, act), due, gone);
      assert gone + Loss(q, act) == gone;
    }
  }

  lemma StepAppend<F(!new)>(called: seq<F>, call: seq<F>, rest: seq<F>, todo: seq<F>, more: seq<F>, due: seq<F>, gone: set<F>)
    requires SameBut(called + todo, due, gone) && call + rest == todo + more
    ensures SameBut(called + call + rest, due + more, gone)
  {
    assert called + call + rest == called + todo + more by {
      assert called + call + rest == called + (call + rest);
    }
    KeepConcat(called + todo, more, f => f !in gone);
    KeepConcat(due, more, f => f !in gone);
  }

  /** Unless something is removed, an act calls from the front and appends at the back of what is due. */
  lemma StepConserves<F, D>(q: Queue<F, D>, act: Act<F, D>)
    requires q.busy.Some? && q.alive && GoesOn(q, act) && !(act.Remove? && InHandler(q))
    ensures CallOf(q, act) + QueueStep(q, act).todo == q.todo + Growth(q, act)
  {
    match act
    case Add(fs) => PushAllExtends(q.items, fs, q.options.unique);
    case Remove(f) =>
    case Fire(data) =>
    case LockIt =>
    case Tick =>
    case Return =>
  }

  lemma StepRemove<F(!new)>(called: seq<F>, todo: seq<F>, due: seq<F>, gone: set<F>, f: F)
    requires SameBut(called + todo, due, gone)
    ensures SameBut(called + Drop(todo, f), due, gone + {f})
  {
    var more := gone + {f};
    var wide, narrow := x => x !in gone, x => x !in more;
    KeepKeep(called + todo, wide, x => x != f, narrow);
    KeepKeep(due, wide, x => x != f, narrow);
    KeepConcat(called, todo, narrow);
    KeepConcat(called, Drop(todo, f), narrow);
    KeepDropped(todo, f, narrow);
  }

  lemma {:induction false} KeepDropped<F>(s: seq<F>, f: F, keep: F -> bool)
    requires !keep(f)
    ensures Keep(Drop(s, f), keep) == Keep(s, keep)
  {
    if s != [] {
      KeepDropped(s[..|s| - 1], f, keep);
      if s[|s| - 1] == f {
        assert Drop(s, f) == Drop(s[..|s| - 1], f);
      } else {
        KeepSnoc(Drop(s[..|s| - 1], f), s[|s| - 1], keep);
      }
    }
  }

  // ---------- every handler is accounted for ----------

  /** The calls still due that one act takes away. */
  function SkipOf<F(==), D>(q: Queue<F, D>, act: Act<F, D>): seq<F> {
    if act.Remove? && InHandler(q) then Keep(q.todo, x => x == act.f) else []
  }

  function Skipped<F(==), D>(q: Queue<F, D>, acts: seq<Act<F, D>>): seq<F> {
    if acts == [] then []
    else Skipped(q, acts[..|acts| - 1]) + SkipOf(After(q, acts[..|acts| - 1]), acts[|acts| - 1])
  }

  /**
    Conservation during one fire: what was due at the start and what was added meanwhile is
    exactly what has been called, what a removal took away before its turn, and what is
    still due.  A handler that removes itself has been called; one added back is due again.
   */
  lemma {:induction false} BatchConserves<F, D>(q: Queue<F, D>, acts: seq<Act<F, D>>)
    requires OneBatch(q, acts)
    ensures multiset(Called(q, acts)) + multiset(Skipped(q, acts)) + multiset(After(q, acts).todo)
         == multiset(q.todo) + multiset(Appended(q, acts))
  {
    if acts != [] {
      var before, act := acts[..|acts| - 1], acts[|acts| - 1];
      BatchConserves(q, before);
      BatchGoesOn(q, before);
      ActConserves(After(q, before), act);
      Balance(Called(q, before), Skipped(q, before), After(q, before).todo, q.todo, Appended(q, before),
              CallOf(After(q, before), act), SkipOf(After(q, before), act), After(q, acts).todo, Growth(After(q, before), act));
    }
  }

  lemma Balance<F>(called: seq<F>, skipped: seq<F>, todo: seq<F>, due: seq<F>, added: seq<F>,
                   call: seq<F>, skip: seq<F>, rest: seq<F>, more: seq<F>)
    requires multiset(called) + multiset(skipped) + multiset(todo) == multiset(due) + multiset(added)
    requires multiset(call) + multiset(skip) + multiset(rest) == multiset(todo) + multiset(more)
    ensures multiset(called + call) + multiset(skipped + skip) + multiset(rest) == multiset(due) + multiset(added + more)
  {
    assert multiset(called + call) == multiset(called) + multiset(call);
    assert multiset(skipped + skip) == multiset(skipped) + multiset(skip);
    assert multiset(added + more) == multiset(added) + multiset(more);
    BalanceSum(multiset(called), multiset(skipped), multiset(todo), multiset(due), multiset(added),
               multiset(call), multiset(skip), multiset(rest), multiset(more));
  }

  lemma BalanceSum<F>(a: multiset<F>, s: multiset<F>, t: multiset<F>, d: multiset<F>, e: multiset<F>,
                      a': multiset<F>, s': multiset<F>, t': multiset<F>, e': multiset<F>)
    requires a + s + t == d + e && a' + s' + t' == t + e'
    ensures (a + a') + (s + s') + t' == d + (e + e')
  {
    assert (a + a') + (s + s') + t' == (a + s) + (a' + s' + t');
    assert (a + s) + (t + e') == (a + s + t) + e';
    assert (d + e) + e' == d + (e + e');
  }

  lemma ActConserves<F, D>(q: Queue<F, D>, act: Act<F, D>)
    requires q.busy.Some? && q.alive && GoesOn(q, act)
    ensures multiset(CallOf(q, act)) + multiset(SkipOf(q, act)) + multiset(QueueStep(q, act).todo)
         == multiset(q.todo) + multiset(Growth(q, act))
  {
    if act.Remove? && InHandler(q) {
      DropTakes(q.todo, act.f);
    } else {
      StepConserves(q, act);
      assert multiset(CallOf(q, act) + QueueStep(q, act).todo) == multiset(q.todo + Growth(q, act));
    }
  }

  lemma {:induction false} DropTakes<F>(s: seq<F>, f: F)
    ensures multiset(Keep(s, x => x == f)) + multiset(Drop(s, f)) == multiset(s)
  {
    if s != [] {
      var front, last := s[..|s| - 1], s[|s| - 1];
      var kept, left := Keep(front, x => x == f), Drop(front, f);
      DropTakes(front, f);
      assert s == front + [last];
      if last == f {
        assert Keep(s, x => x == f) == kept + [last];
        assert Drop(s, f) == left;
      } else {
        assert Keep(s, x => x == f) == kept;
        assert Drop(s, f) == left + [last];
      }
    }
  }

  /** A handler removed before its turn is not due any more. */
  lemma RemovedIsNotDue<F, D>(q: Queue<F, D>, f: F)
    requires InHandler(q)
    ensures f !in QueueStep(q, Remove(f)).todo && f !in QueueStep(q, Remove(f)).items
  {
    DroppedIsAbsent(q.todo, f);
    DroppedIsAbsent(q.items, f);
  }

  lemma {:induction false} DroppedIsAbsent<F>(s: seq<F>, f: F)
    ensures f !in Drop(s, f)
  {
    if s != [] {
      DroppedIsAbsent(s[..|s| - 1], f);
    }
  }

  // ---------- the same for the list with its index arithmetic ----------

  function ObserveAll<F(==), D>(r: Run<F, D>, acts: seq<Act<F, D>>): Run<F, D> {
    if acts == [] then r else Observe(ObserveAll(r, acts[..|acts| - 1]), acts[|acts| - 1])
  }

  function Paired<F, D>(fs: seq<F>, data: D): (r: seq<(F, D)>)
    ensures |r| == |fs| && forall k :: 0 <= k < |fs| ==> r[k] == (fs[k], data)
  {
    seq(|fs|, k requires 0 <= k < |fs| => (fs[k], data))
  }

  /** Any run goes on as the plain queue does, and calls exactly the handlers the queue calls. */
  lemma {:induction false} RunFollowsQueue<F, D>(r: Run<F, D>, acts: seq<Act<F, D>>)
    requires Orderly(r) && OneBatch(Abstract(r.m), acts)
    ensures Abstract(r.m).busy.Some?
    ensures var r' := ObserveAll(r, acts);
      && Orderly(r') && Abstract(r'.m) == After(Abstract(r.m), acts)
      && r'.calls == r.calls + Paired(Called(Abstract(r.m), acts), Abstract(r.m).busy.value)
  {
    BatchGoesOn(Abstract(r.m), acts);
    if acts != [] {
      var before, act := acts[..|acts| - 1], acts[|acts| - 1];
      RunFollowsQueue(r, before);
      BatchGoesOn(Abstract(r.m), before);
      var mid := ObserveAll(r, before);
      ObserveKeeps(mid, act);
      StepRefines(mid.m, act);
      StepCalls(mid, act);
      PairedConcat(Called(Abstract(r.m), before), CallOf(After(Abstract(r.m), before), act), Abstract(r.m).busy.value);
    }
  }

  lemma PairedConcat<F, D>(a: seq<F>, b: seq<F>, data: D)
    ensures Paired(a + b, data) == Paired(a, data) + Paired(b, data)
  {
  }

  lemma StepCalls<F, D>(r: Run<F, D>, act: Act<F, D>)
    requires Inv(r.m) && Abstract(r.m).busy.Some?
    ensures Observe(r, act).m == Step(r.m, act)
    ensures Observe(r, act).calls == r.calls + Paired(CallOf(Abstract(r.m), act), Abstract(r.m).busy.value)
  {
    assert r.calls + [] == r.calls;
  }

  /**
    Firing a list is exact: the calls made during one fire, together with what removals took
    away and what is still due, are the handlers due at its start and those added; and
    apart from removed handlers, they come in list order.
   */
  lemma FireIsExact<F(!new), D>(r: Run<F, D>, acts: seq<Act<F, D>>)
    requires Orderly(r) && OneBatch(Abstract(r.m), acts)
    ensures Abstract(r.m).busy.Some? && Orderly(ObserveAll(r, acts))
    ensures var q, r' := Abstract(r.m), ObserveAll(r, acts);
      var calls, due := Called(q, acts), Abstract(r'.m).todo;
      && r'.calls == r.calls + Paired(calls, q.busy.value)
      && multiset(calls) + multiset(Skipped(q, acts)) + multiset(due) == multiset(q.todo) + multiset(Appended(q, acts))
      && SameBut(calls + due, q.todo + Appended(q, acts), Removed(q, acts))
  {
    RunFollowsQueue(r, acts);
    BatchConserves(Abstract(r.m), acts);
    BatchExact(Abstract(r.m), acts);
  }

  // ---------- a fire that nobody disturbs ----------

  /** The loop calls handlers, and each returns at once. */
  function Rounds<F(==), D>(r: Run<F, D>, n: nat): Run<F, D> {
    if n == 0 then r else Observe(Observe(Rounds(r, n - 1), Tick), Return)
  }

  function CalledAll<F, D>(list: seq<F>, data: D): (calls: seq<(F, D)>)
    ensures |calls| == |list| && forall k :: 0 <= k < |list| ==> calls[k] == (list[k], data)
  {
    seq(|list|, k requires 0 <= k < |list| => (list[k], data))
  }

  lemma OneRound<F, D>(r: Run<F, D>, list: seq<F>, data: D, k: nat)
    requires r.m.mode == Testing(data) && r.m.cb.list == Some(list) && k < |list|
    requires r.m.cb.firingIndex == k && r.m.cb.firingLength == |list|
    ensures Observe(Observe(r, Tick), Return) ==
            r.(m := r.m.(cb := r.m.cb.(firingIndex := k + 1)), calls := r.calls + [(list[k], data)])
  {
  }

  lemma {:induction false} RoundsCall<F, D>(r: Run<F, D>, list: seq<F>, data: D, n: nat)
    requires r.m.mode == Testing(data) && r.m.cb.list == Some(list) && n <= |list|
    requires r.m.cb.firingIndex == 0 && r.m.cb.firingLength == |list|
    ensures Rounds(r, n) == r.(m := r.m.(cb := r.m.cb.(firingIndex := n)), calls := r.calls + CalledAll(list[..n], data))
  {
    if n == 0 {
      assert r.calls + [] == r.calls;
      assert r.m.cb.(firingIndex := 0) == r.m.cb;
    } else {
      RoundsCall(r, list, data, n - 1);
      OneRound(Rounds(r, n - 1), list, data, n - 1);
      assert CalledAll(list[..n], data) == CalledAll(list[..n - 1], data) + [(list[n - 1], data)];
      assert r.calls + CalledAll(list[..n - 1], data) + [(list[n - 1], data)] == r.calls + CalledAll(list[..n], data);
    }
  }

  /**
    Firing a list at rest calls its handlers, every one once and in order, with the data, and
    comes to rest again, if the handlers leave the list alone.
   */
  lemma FireCallsAll<F, D>(r: Run<F, D>, list: seq<F>, data: D)
    requires Orderly(r) && r.m.mode.Idle? && r.m.cb.list == Some(list) && (r.m.cb.fired ==> r.m.cb.stack.Some?)
    ensures var s := Observe(Rounds(Observe(r, Fire(data)), |list|), Tick);
      && s.m.mode.Idle? && s.calls == r.calls + CalledAll(list, data) && s.started == r.started + [data]
      && (r.m.cb.stack.Some? ==> s.m.cb.list == Some(list))
      && s.m.cb.memory == if r.m.cb.options.memory then Some(data) else None
  {
    FireBegins(r, list, data);
    var begun := Observe(r, Fire(data));
    RoundsCall(begun, list, data, |list|);
    assert list[..|list|] == list;
    LoopEnds(Rounds(begun, |list|), list, data);
  }

  lemma FireBegins<F, D>(r: Run<F, D>, list: seq<F>, data: D)
    requires Orderly(r) && r.m.mode.Idle? && r.m.cb.list == Some(list) && (r.m.cb.fired ==> r.m.cb.stack.Some?)
    ensures var begun := Observe(r, Fire(data));
      && begun.m == Machine(Callbacks.Begin(r.m.cb, data), Testing(data)) && begun.m.cb.firingIndex == 0
      && begun.calls == r.calls && begun.started == r.started + [data]
      && (r.m.cb.stack.Some? ==> r.m.cb.stack.value == [])
  {
  }

  lemma LoopEnds<F, D>(r: Run<F, D>, list: seq<F>, data: D)
    requires r.m.mode == Testing(data) && r.m.cb.list == Some(list) && r.m.cb.firingIndex == r.m.cb.firingLength
    requires (r.m.cb.stack.Some? ==> r.m.cb.stack.value == []) && r.m.cb.memory == if r.m.cb.options.memory then Some(data) else None
    ensures var s := Observe(r, Tick);
      && s.m.mode.Idle? && s.calls == r.calls && s.started == r.started && s.m.cb.memory == r.m.cb.memory
      && (r.m.cb.stack.Some? ==> s.m.cb.list == Some(list))
  {
  }
}
