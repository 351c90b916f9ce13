/**
  Whole runs of one callback list.  A run is any sequence of calls by the program, by the
  handlers while they run, and of steps of the firing loop.  The index arithmetic of the
  list is shown to behave like a plain queue of handlers still to be called.
 */
module CallbackRuns {
  import opened Wrappers
  import opened Callbacks

  datatype Mode<F, D> = Idle | Testing(data: D) | Calling(data: D, f: F)

  datatype Machine<F, D> = Machine(cb: CB<F, D>, mode: Mode<F, D>)

  /** Tick is a step of the loop itself; Return ends the handler that is running. */
  datatype Act<F, D> = Add(fs: seq<F>) | Remove(f: F) | Fire(data: D) | DisableIt | LockIt | Tick | Return

  function Enter<F, D>(m: Machine<F, D>, fire: Option<D>): Machine<F, D> {
    if fire.Some? && m.cb.list.Some? then Machine(Begin(m.cb, fire.value), Testing(fire.value)) else m
  }

  function Step<F(==), D>(m: Machine<F, D>, act: Act<F, D>): Machine<F, D> {
    match act
    case Add(fs) =>
      if m.mode.Testing? then m
      else var (cb, fire) := Callbacks.Add(m.cb, fs); Enter(m.(cb := cb), fire)
    case Remove(f) =>
      if m.mode.Testing? then m else m.(cb := Callbacks.Remove(m.cb, f))
    case Fire(data) =>
      if m.mode.Testing? then m
      else var (cb, fire) := Request(m.cb, data); Enter(m.(cb := cb), fire)
    case DisableIt => if m.mode.Testing? then m else m.(cb := Disable(m.cb))
    case LockIt => if m.mode.Testing? then m else m.(cb := Lock(m.cb))
    case Tick =>
      if !m.mode.Testing? then m
      else if HasNext(m.cb) then
        if 0 <= m.cb.firingIndex < |m.cb.list.value| then m.(mode := Calling(m.mode.data, m.cb.list.value[m.cb.firingIndex])) else m
      else var (cb, fire) := Finish(m.cb); Enter(Machine(cb, Idle), fire)
    case Return =>
      if !m.mode.Calling? then m else Machine(Advance(m.cb, false), Testing(m.mode.data))
  }

  /** How many entries at the front of the list this batch is done with. */
  function Done<F, D>(m: Machine<F, D>): int {
    if m.mode.Calling? then m.cb.firingIndex + 1 else m.cb.firingIndex
  }

  ghost predicate Inv<F, D>(m: Machine<F, D>) {
    var cb := m.cb;
    && (cb.firing <==> !m.mode.Idle?)
    && (cb.firing ==> cb.fired)
    && (cb.firing && cb.list.Some? ==>
      && cb.firingLength == |cb.list.value|
      && 0 <= Done(m) <= |cb.list.value|
      && cb.memory == (if cb.options.memory then Some(m.mode.data) else None))
    && cb.firingStart == 0
    && (cb.list.None? ==> cb.stack.None? && cb.memory.None?)
    && (cb.options.once ==> cb.stack.None?)
    && (cb.memory.Some? ==> cb.options.memory && cb.fired)
    && (m.mode.Idle? && cb.stack.Some? ==> cb.stack.value == [])
  }

  // ---------- the plain queue ----------

  /** `todo` is what the batch being fired still has to call. */
  datatype Queue<F, D> = Queue(
    options: Options,
    alive: bool,
    locked: bool,
    items: seq<F>,
    busy: Option<D>,
    handler: Option<F>,
    todo: seq<F>,
    pending: seq<D>,
    remembered: Option<D>,
    ever: bool)

  function StartBatch<F, D>(q: Queue<F, D>, data: D, todo: seq<F>): Queue<F, D> {
    q.(busy := Some(data), todo := todo, ever := true, remembered := if q.options.memory then Some(data) else None)
  }

  /** Nothing is called any more. */
  function Dead<F, D>(q: Queue<F, D>): Queue<F, D> {
    q.(alive := false, locked := true, items := [], todo := [], pending := [], remembered := None)
  }

  function QueueStep<F(==), D>(q: Queue<F, D>, act: Act<F, D>): Queue<F, D> {
    var userTurn := q.busy.None? || q.handler.Some?;
    match act
    case Add(fs) =>
      if !userTurn || !q.alive then q
      else
        var items := PushAll(q.items, fs, q.options.unique);
        PushAllExtends(q.items, fs, q.options.unique);
        var added := items[|q.items|..];
        if q.busy.Some? then q.(items := items, todo := q.todo + added)
        else if q.remembered.Some? then StartBatch(q.(items := items), q.remembered.value, added)
        else q.(items := items)
    case Remove(f) =>
      if !userTurn then q else q.(items := Drop(q.items, f), todo := Drop(q.todo, f))
    case Fire(data) =>
      if !userTurn || !q.alive || (q.ever && q.locked) then q
      else if q.busy.Some? then q.(pending := q.pending + [data])
      else StartBatch(q, data, q.items)
    case DisableIt => if !userTurn then q else Dead(q)
    case LockIt => if !userTurn then q else if q.remembered.Some? then q.(locked := true, pending := []) else Dead(q)
    case Tick =>
      if userTurn then q
      else if q.todo != [] then q.(handler := Some(q.todo[0]), todo := q.todo[1..])
      else
        var idle := q.(busy := None);
        if !q.alive then idle
        else if q.locked then
          if q.remembered.Some? then idle.(items := []) else Dead(idle)
        else if q.pending != [] then StartBatch(idle.(pending := q.pending[1..]), q.pending[0], q.items)
        else idle
    case Return => q.(handler := None)
  }

  function Items<F, D>(cb: CB<F, D>): seq<F> {
    if cb.list.Some? then cb.list.value else []
  }

  ghost function Abstract<F, D>(m: Machine<F, D>): Queue<F, D>
    requires Inv(m)
  {
    Queue(m.cb.options, m.cb.list.Some?, m.cb.stack.None?, Items(m.cb),
          if m.mode.Idle? then None else Some(m.mode.data),
          if m.mode.Calling? then Some(m.mode.f) else None,
          if m.mode.Idle? || m.cb.list.None? then [] else m.cb.list.value[Done(m)..],
          Pending(m.cb),
          m.cb.memory, m.cb.fired)
  }

  /**
    Firing is exact under mutation: every step keeps firingLength equal to the list's
    length and does to the list exactly what the plain queue does.
   */
  lemma StepRefines<F, D>(m: Machine<F, D>, act: Act<F, D>)
    requires Inv(m)
    ensures Inv(Step(m, act)) && Abstract(Step(m, act)) == QueueStep(Abstract(m), act)
  {
    match act
    case Add(fs) => AddRefines(m, fs);
    case Remove(f) => RemoveRefines(m, f);
    case Fire(data) => FireRefines(m, data);
    case DisableIt => DisableRefines(m);
    case LockIt => LockRefines(m);
    case Tick => TickRefines(m);
    case Return => ReturnRefines(m);
  }

  lemma FireRefines<F, D>(m: Machine<F, D>, data: D)
    requires Inv(m)
    ensures Inv(Step(m, Fire(data))) && Abstract(Step(m, Fire(data))) == QueueStep(Abstract(m), Fire(data))
  {
  }

  lemma DisableRefines<F, D>(m: Machine<F, D>)
    requires Inv(m)
    ensures Inv(Step(m, DisableIt)) && Abstract(Step(m, DisableIt)) == QueueStep(Abstract(m), DisableIt)
  {
  }

  lemma LockRefines<F, D>(m: Machine<F, D>)
    requires Inv(m)
    ensures Inv(Step(m, LockIt)) && Abstract(Step(m, LockIt)) == QueueStep(Abstract(m), LockIt)
  {
  }

  lemma ReturnRefines<F, D>(m: Machine<F, D>)
    requires Inv(m)
    ensures Inv(Step(m, Return)) && Abstract(Step(m, Return)) == QueueStep(Abstract(m), Return)
  {
  }

  lemma StepKeeps<F, D>(m: Machine<F, D>, act: Act<F, D>)
    requires Inv(m)
    ensures Inv(Step(m, act))
  {
    StepRefines(m, act);
  }

  lemma AddRefines<F, D>(m: Machine<F, D>, fs: seq<F>)
    requires Inv(m)
    ensures Inv(Step(m, Add(fs))) && Abstract(Step(m, Add(fs))) == QueueStep(Abstract(m), Add(fs))
  {
    if m.cb.list.Some? && !m.mode.Testing? {
      PushAllExtends(m.cb.list.value, fs, m.cb.options.unique);
      var items := PushAll(m.cb.list.value, fs, m.cb.options.unique);
      if m.mode.Calling? {
        assert items[Done(m)..] == m.cb.list.value[Done(m)..] + items[|m.cb.list.value|..];
      }
    }
  }

  lemma RemoveRefines<F, D>(m: Machine<F, D>, f: F)
    requires Inv(m)
    ensures Inv(Step(m, Remove(f))) && Abstract(Step(m, Remove(f))) == QueueStep(Abstract(m), Remove(f))
  {
    if m.cb.list.Some? && m.mode.Calling? {
      RemoveWhileCalling(m, f);
    }
  }

  lemma RemoveWhileCalling<F, D>(m: Machine<F, D>, f: F)
    requires Inv(m) && m.mode.Calling? && m.cb.list.Some?
    ensures Inv(Step(m, Remove(f))) && Abstract(Step(m, Remove(f))) == QueueStep(Abstract(m), Remove(f))
  {
    var xs, k := m.cb.list.value, Done(m);
    DropSuffix(xs, k, f);
    var m' := Step(m, Remove(f));
    assert m'.cb == m.cb.(list := Some(Drop(xs, f)), firingLength := |Drop(xs, f)|,
                          firingIndex := m.cb.firingIndex - Before(xs, k, f));
    assert Done(m') == k - Before(xs, k, f);
  }

  lemma DropSuffix<F>(xs: seq<F>, k: nat, f: F)
    requires k <= |xs|
    ensures Before(xs, |xs| + 1, f) == Occurrences(xs, f)
    ensures |Drop(xs, f)| == |xs| - Occurrences(xs, f)
    ensures var done := k - Before(xs, k, f); 0 <= done <= |Drop(xs, f)| && Drop(xs, f)[done..] == Drop(xs[k..], f)
  {
    assert xs == xs[..k] + xs[k..] && xs[..|xs|] == xs;
    DropConcat(xs[..k], xs[k..], f);
    DropLength(xs[..k], f);
    DropLength(xs, f);
    assert Before(xs, k, f) == Occurrences(xs[..k], f) by {
      if k == 0 { assert xs[..0] == []; }
    }
  }

  lemma TickRefines<F, D>(m: Machine<F, D>)
    requires Inv(m)
    ensures Inv(Step(m, Tick)) && Abstract(Step(m, Tick)) == QueueStep(Abstract(m), Tick)
  {
    if m.mode.Testing? && HasNext(m.cb) {
      assert m.cb.list.value[Done(m)..][1..] == m.cb.list.value[Done(m) + 1..];
    }
  }

  // ---------- whole runs ----------

  /** A machine with what has happened: requests accepted and not discarded by a lock, requests started, handlers called. */
  datatype Run<F, D> = Run(m: Machine<F, D>, accepted: seq<D>, started: seq<D>, calls: seq<(F, D)>)

  function Observe<F(==), D>(r: Run<F, D>, act: Act<F, D>): Run<F, D> {
    var m := Step(r.m, act);
    match act
    case Fire(data) =>
      if r.m.mode.Testing? || r.m.cb.list.None? || (r.m.cb.fired && r.m.cb.stack.None?) then r.(m := m)
      else if r.m.mode.Idle? then r.(m := m, accepted := r.accepted + [data], started := r.started + [data])
      else r.(m := m, accepted := r.accepted + [data])
    case DisableIt => if r.m.mode.Testing? then r.(m := m) else r.(m := m, accepted := r.started)
    case LockIt => if r.m.mode.Testing? then r.(m := m) else r.(m := m, accepted := r.started)
    case Tick =>
      if m.mode.Calling? && r.m.mode.Testing? then r.(m := m, calls := r.calls + [(m.mode.f, m.mode.data)])
      else if m.mode.Testing? && r.m.mode.Testing? && !HasNext(r.m.cb) then r.(m := m, started := r.started + [m.mode.data])
      else r.(m := m)
    case _ => r.(m := m)
  }

  function RunAll<F(==), D>(options: Options, acts: seq<Act<F, D>>): Run<F, D> {
    if acts == [] then Run(Machine(New(options), Idle), [], [], [])
    else Observe(RunAll(options, acts[..|acts| - 1]), acts[|acts| - 1])
  }

  function Pending<F, D>(cb: CB<F, D>): seq<D> {
    if cb.stack.Some? then cb.stack.value else []
  }

  ghost predicate CallsRequested<F, D>(calls: seq<(F, D)>, started: seq<D>) {
    forall k :: 0 <= k < |calls| ==> calls[k].1 in started
  }

  /** What every run keeps. */
  ghost predicate Orderly<F, D>(r: Run<F, D>) {
    && Inv(r.m)
    && r.accepted == r.started + Pending(r.m.cb)
    && (r.m.cb.fired <==> r.started != [])
    && (r.m.cb.memory.Some? ==> r.started != [] && r.m.cb.memory.value == r.started[|r.started| - 1])
    && (!r.m.mode.Idle? ==> r.started != [] && r.m.mode.data == r.started[|r.started| - 1])
    && CallsRequested(r.calls, r.started)
    && (r.m.cb.options.once ==> |r.started| <= 1)
  }

  /**
    Requests are started in the order they were made, none is lost or repeated, handlers
    only see data that was requested, and a once list starts at most one request.
   */
  lemma {:induction false} EveryRunOrderly<F, D>(options: Options, acts: seq<Act<F, D>>)
    ensures Orderly(RunAll(options, acts)) && RunAll(options, acts).m.cb.options == options
  {
    if acts != [] {
      var r, act := RunAll(options, acts[..|acts| - 1]), acts[|acts| - 1];
      EveryRunOrderly(options, acts[..|acts| - 1]);
      ObserveKeeps(r, act);
    }
  }

  lemma ObserveKeeps<F, D>(r: Run<F, D>, act: Act<F, D>)
    requires Orderly(r)
    ensures Orderly(Observe(r, act)) && Observe(r, act).m.cb.options == r.m.cb.options
  {
    StepKeeps(r.m, act);
    match act
    case Add(fs) =>
    case Remove(f) =>
    case Fire(data) => ObserveFire(r, data);
    case DisableIt =>
    case LockIt =>
    case Tick => ObserveTick(r);
    case Return =>
  }

  lemma ObserveFire<F, D>(r: Run<F, D>, data: D)
    requires Orderly(r)
    ensures Orderly(Observe(r, Fire(data))) && Observe(r, Fire(data)).m.cb.options == r.m.cb.options
  {
    StepKeeps(r.m, Fire(data));
    var m := Step(r.m, Fire(data));
    if r.m.mode.Testing? || r.m.cb.list.None? || (r.m.cb.fired && r.m.cb.stack.None?) {
      assert m == r.m;
    } else if r.m.mode.Idle? {
      assert m == Machine(Begin(r.m.cb, data), Testing(data));
      assert Pending(r.m.cb) == [] == Pending(m.cb);
    } else {
      assert m == r.m.(cb := r.m.cb.(stack := Some(r.m.cb.stack.value + [data])));
    }
  }

  lemma ObserveTick<F, D>(r: Run<F, D>)
    requires Orderly(r)
    ensures Orderly(Observe(r, Tick)) && Observe(r, Tick).m.cb.options == r.m.cb.options
  {
    StepKeeps(r.m, Tick);
    var m := Step(r.m, Tick);
    if r.m.mode.Testing? {
      if HasNext(r.m.cb) {
        assert m.cb == r.m.cb;
      } else if Pending(r.m.cb) != [] {
        assert m.mode == Testing(Pending(r.m.cb)[0]);
        assert Pending(r.m.cb) == [Pending(r.m.cb)[0]] + Pending(m.cb);
      } else {
        assert m.mode.Idle? && Pending(m.cb) == [];
      }
    }
  }

  // ---------- the same runs on the list object ----------

  /** The data to fire, if any, is fired unless the list is disabled. */
  method Begins<F(==), D>(list: CallbackList<F, D>, mode: Mode<F, D>, fire: Option<D>) returns (mode': Mode<F, D>)
    modifies list
    ensures Machine(list.State(), mode') == Enter(Machine(old(list.State()), mode), fire)
  {
    mode' := mode;
    if fire.Some? && list.list.Some? {
      list.BeginFire(fire.value);
      mode' := Testing(fire.value);
    }
  }

  /** A step of the firing loop. */
  method LoopStep<F(==), D>(list: CallbackList<F, D>, mode: Mode<F, D>) returns (mode': Mode<F, D>)
    modifies list
    ensures Machine(list.State(), mode') == Step(Machine(old(list.State()), mode), Tick)
  {
    mode' := mode;
    if mode.Testing? {
      if list.list.Some? && list.firingIndex < list.firingLength {
        if 0 <= list.firingIndex < |list.list.value| {
          mode' := Calling(mode.data, list.list.value[list.firingIndex]);
        }
      } else {
        var fire := list.EndFire();
        mode' := Begins(list, Idle, fire);
      }
    }
  }

  /** A call on the list, by the program or by the running handler. */
  method Call<F(==), D>(list: CallbackList<F, D>, mode: Mode<F, D>, act: Act<F, D>) returns (mode': Mode<F, D>)
    requires Inv(Machine(list.State(), mode)) && !mode.Testing? && !act.Tick? && !act.Return?
    modifies list
    ensures Machine(list.State(), mode') == Step(Machine(old(list.State()), mode), act)
  {
    mode' := mode;
    match act
    case Add(fs) =>
      var fire := list.AddAll(fs);
      mode' := Begins(list, mode, fire);
    case Remove(f) => list.RemoveAll(f);
    case Fire(data) =>
      var fire := list.FireWith(data);
      mode' := Begins(list, mode, fire);
    case DisableIt => list.DisableList();
    case LockIt => list.LockList();
  }

  /** One act of a run. */
  method PlayAct<F(==), D>(list: CallbackList<F, D>, ghost r: Run<F, D>, mode: Mode<F, D>, calls: seq<(F, D)>, act: Act<F, D>)
    returns (mode': Mode<F, D>, calls': seq<(F, D)>)
    requires Orderly(r) && Machine(list.State(), mode) == r.m && calls == r.calls
    modifies list
    ensures Machine(list.State(), mode') == Observe(r, act).m && calls' == Observe(r, act).calls
  {
    mode', calls' := mode, calls;
    if act.Tick? {
      mode' := LoopStep(list, mode);
      if mode'.Calling? && mode.Testing? {
        calls' := calls + [(mode'.f, mode'.data)];
      }
    } else if act.Return? {
      if mode.Calling? {
        list.firingIndex := list.firingIndex + 1;
        mode' := Testing(mode.data);
      }
    } else if !mode.Testing? {
      mode' := Call(list, mode, act);
    }
  }

  /**
    Plays a run on a list object: calls by the program and by handlers, steps of the loop,
    and returning handlers.  The object goes through the states of the run, and the
    handlers called are the run's.
   */
  method Play<F(==), D>(options: Options, acts: seq<Act<F, D>>)
    returns (list: CallbackList<F, D>, mode: Mode<F, D>, calls: seq<(F, D)>)
    ensures fresh(list)
    ensures Machine(list.State(), mode) == RunAll(options, acts).m && calls == RunAll(options, acts).calls
  {
    list := new CallbackList(options);
    mode, calls := Idle, [];
    for k := 0 to |acts|
      invariant fresh(list)
      invariant Machine(list.State(), mode) == RunAll(options, acts[..k]).m && calls == RunAll(options, acts[..k]).calls
    {
      EveryRunOrderly(options, acts[..k]);
      assert acts[..k + 1][..k] == acts[..k];
      mode, calls := PlayAct(list, RunAll(options, acts[..k]), mode, calls, acts[k]);
    }
    assert acts[..|acts|] == acts;
  }
}
