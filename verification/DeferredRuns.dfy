/** Every run of a deferred: what the invariant comes to. */
module DeferredRuns {
  import opened Wrappers
  import Callbacks
  import opened Deferred
  import opened DeferredCalls
  import opened DeferredLoop

  lemma StepKeeps<D>(d: Def<D>, act: Act<D>)
    requires Inv(d)
    ensures Inv(Step(d, act))
  {
    if UserTurn(d) {
      match act
      case Add(w, ids) =>
        if d.lists.Get(w).list.None? {
          AddToDisabled(d, w, ids);
        } else if w == OnProgress {
          AddToProgress(d, ids);
        } else if d.settled.Some? && d.settled.value.0 == w {
          AddToWinner(d, w, ids);
        } else {
          AddToUntouched(d, w, ids);
        }
      case Fire(w, data) =>
        if d.settled.Some? {
          FireAfterSettlement(d, w, data);
        } else if w == OnProgress {
          NotifyWhileOpen(d, data);
        } else {
          SettleBegins(d, w, data);
        }
      case Return => if d.control != [] { ReturnKeeps(d); }
      case Tick =>
    } else if act.Tick? {
      TickKeeps(d);
    }
  }

  lemma {:induction false} EveryRunKeeps<D>(acts: seq<Act<D>>)
    ensures Inv(RunAll(acts))
  {
    if acts == [] {
      NewOk<D>();
    } else {
      EveryRunKeeps(acts[..|acts| - 1]);
      StepKeeps(RunAll(acts[..|acts| - 1]), acts[|acts| - 1]);
    }
  }

  // ---------- what every run of a deferred guarantees ----------

  /** The settlement is the first resolve or reject that user code ever called. */
  function FirstSettling<D>(acts: seq<Act<D>>): Option<(Which, D)> {
    if acts == [] then None
    else
      var before := FirstSettling(acts[..|acts| - 1]);
      var act := acts[|acts| - 1];
      if before.None? && act.Fire? && act.which != OnProgress && UserTurn(RunAll(acts[..|acts| - 1]))
      then Some((act.which, act.data)) else before
  }

  /**
    A deferred settles once.  The state leaves pending at most once; only the list of the
    first settlement ever calls handlers, in the order they were added, each once and with
    that settlement's data, whenever they were added; and once nothing is being fired,
    every handler added to it has been called.
   */
  lemma SettlesOnce<D>(acts: seq<Act<D>>)
    ensures var d := RunAll(acts);
      && |d.changes| <= 1
      && d.settled == FirstSettling(acts)
      && (d.settled.None? ==> d.state == Pending && d.changes == [] && d.ran.done == [] && d.ran.fail == [])
      && (d.settled.Some? ==>
        && d.settled.value.0 != OnProgress
        && d.ran.Get(Other(d.settled.value.0)) == []
        && RanInOrder(d.ran.Get(d.settled.value.0), d.added.Get(d.settled.value.0), d.settled.value.1)
        && (UserTurn(d) ==> d.state == (if d.settled.value.0 == OnDone then Resolved else Rejected) && d.changes == [d.state])
        && (d.control == [] ==> |d.ran.Get(d.settled.value.0)| == |d.added.Get(d.settled.value.0)|))
  {
    EveryRunKeeps(acts);
    FirstSettlingRemembered(acts);
  }

  lemma SettledByStep<D>(d: Def<D>, act: Act<D>)
    ensures Step(d, act).settled ==
      if d.settled.None? && act.Fire? && act.which != OnProgress && UserTurn(d) then Some((act.which, act.data)) else d.settled
  {
    match act
    case Add(w, ids) =>
    case Fire(w, data) =>
    case Return =>
    case Tick =>
  }

  lemma {:induction false} FirstSettlingRemembered<D>(acts: seq<Act<D>>)
    ensures RunAll(acts).settled == FirstSettling(acts)
  {
    if acts != [] {
      FirstSettlingRemembered(acts[..|acts| - 1]);
      SettledByStep(RunAll(acts[..|acts| - 1]), acts[|acts| - 1]);
    }
  }

  /** After a settlement, resolve, reject and notify have no effect, wherever they are called from. */
  lemma SettledForGood<D>(acts: seq<Act<D>>, w: Which, data: D)
    ensures FirstSettling(acts).Some? ==> RunAll(acts + [Fire(w, data)]) == RunAll(acts)
  {
    EveryRunKeeps(acts);
    FirstSettlingRemembered(acts);
    assert (acts + [Fire(w, data)])[..|acts|] == acts;
    var d := RunAll(acts);
    if d.settled.Some? && UserTurn(d) {
      FireAfterSettlement(d, w, data);
    }
  }

  /** Progress handlers called after the settlement only ever see the last notification that had started before it. */
  lemma ProgressFrozen<D>(d: Def<D>, act: Act<D>)
    requires Inv(d) && d.settled.Some? && Stage(d) == 3
    ensures var d' := Step(d, act);
      && d'.settled == d.settled
      && d'.lists.progress.memory == d.lists.progress.memory
      && (d'.ran.progress == d.ran.progress ||
          (d.lists.progress.memory.Some? && exists id :: d'.ran.progress == d.ran.progress + [(id, d.lists.progress.memory.value)]))
  {
    if UserTurn(d) {
      match act
      case Fire(w, data) => FireAfterSettlement(d, w, data);
      case Add(w, ids) => FrozenOnAdd(d, w, ids);
      case Return =>
      case Tick =>
    } else if act.Tick? {
      FrozenOnTick(d);
    }
  }

  lemma FrozenOnAdd<D>(d: Def<D>, w: Which, ids: seq<nat>)
    requires Inv(d) && d.settled.Some? && UserTurn(d)
    ensures var d' := Step(d, Add(w, ids));
      d'.settled == d.settled && d'.lists.progress.memory == d.lists.progress.memory && d'.ran == d.ran
  {
    var (cb, fire) := Callbacks.Add(d.lists.Get(w), Users(ids));
    assert fire.Some? ==> fire == d.lists.Get(w).memory;
  }

  lemma FrozenOnTick<D>(d: Def<D>)
    requires Inv(d) && d.settled.Some? && Stage(d) == 3 && !UserTurn(d)
    ensures var d' := Step(d, Tick);
      && d'.settled == d.settled
      && d'.lists.progress.memory == d.lists.progress.memory
      && (d'.ran.progress == d.ran.progress ||
          (d.lists.progress.memory.Some? && exists id :: d'.ran.progress == d.ran.progress + [(id, d.lists.progress.memory.value)]))
  {
    FramesPop(d.control);
    var top := d.control[|d.control| - 1];
    var w := top.which;
    var cb := d.lists.Get(w);
    if w == OnProgress {
      if Callbacks.HasNext(cb) {
        var id := cb.list.value[cb.firingIndex].id;
        assert Step(d, Tick).ran.progress == d.ran.progress + [(id, top.data)];
      } else {
        assert Callbacks.Finish(cb).1.None?;
      }
    } else {
      assert d.settled.value.0 == w;
      if Callbacks.HasNext(cb) {
        NextOnWinner(cb, top, w, d.settled.value.1, d.added.Get(w), d.ran.Get(w));
      } else {
        assert Callbacks.Finish(cb).1.None?;
      }
    }
  }
}
