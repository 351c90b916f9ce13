/** Calls by user code on a deferred, and returning handlers, keep its invariant. */
module DeferredCalls {
  import opened Wrappers
  import Callbacks
  import opened Deferred

  lemma AddToDisabled<D>(d: Def<D>, w: Which, ids: seq<nat>)
    requires Inv(d) && UserTurn(d) && d.lists.Get(w).list.None?
    ensures Inv(Step(d, Add(w, ids)))
  {
    var d' := Step(d, Add(w, ids));
    assert d' == Logged(d, w, ids);
    assert Basic(d');
    StageAtUserTurn(d);
    assert Settled(d');
  }

  lemma AddToProgress<D>(d: Def<D>, ids: seq<nat>)
    requires Inv(d) && UserTurn(d) && d.lists.progress.list.Some?
    ensures Inv(Step(d, Add(OnProgress, ids)))
  {
    var d' := Step(d, Add(OnProgress, ids));
    AddToProgressBasics(d, ids);
    if d.settled.Some? {
      StageAtUserTurn(d);
      SettledAfterProgress(d, d');
    } else {
      OpenAfterProgress(d, d');
    }
  }

  lemma AddToProgressBasics<D>(d: Def<D>, ids: seq<nat>)
    requires Basic(d) && UserTurn(d) && d.lists.progress.list.Some?
    ensures var d' := Step(d, Add(OnProgress, ids));
      && Basic(d') && SameFrames(d, d', OnProgress) && SameHistory(d, d', OnProgress)
      && d'.lists.progress.list.Some? && d'.lists.progress.stack == d.lists.progress.stack
      && (d.lists.progress.fired ==> d'.lists.progress.fired)
  {
    var d' := Step(d, Add(OnProgress, ids));
    var (cb', fire) := Callbacks.Add(d.lists.progress, Users(ids));
    ProgressGrows(d.lists.progress, FrameFor(d.control, OnProgress), ids);
    EnterFrame(d, OnProgress, fire);
    ProgressEnters(d, ids);
    BasicUpdate(d, d', OnProgress);
  }

  lemma ProgressEnters<D>(d: Def<D>, ids: seq<nat>)
    requires UserTurn(d) && d.lists.progress.list.Some?
    ensures var d', (cb', fire) := Step(d, Add(OnProgress, ids)), Callbacks.Add(d.lists.progress, Users(ids));
      && d' == Enter(Logged(SetList(d, OnProgress, cb'), OnProgress, ids), OnProgress, fire)
      && d'.lists.done == d.lists.done && d'.lists.fail == d.lists.fail && SameHistory(d, d', OnProgress)
  {
  }

  lemma AddToWinner<D>(d: Def<D>, w: Which, ids: seq<nat>)
    requires Inv(d) && UserTurn(d) && d.settled.Some? && d.settled.value.0 == w
    ensures Inv(Step(d, Add(w, ids)))
  {
    var d' := Step(d, Add(w, ids));
    StageAtUserTurn(d);
    var frame := FrameFor(d.control, w);
    if frame.Some? {
      AddedWhileFiring(d, w, frame.value, ids);
    } else {
      AddedAtRest(d, w, ids);
    }
    BasicUpdate(d, d', w);
    SettledAfterWinner(d, d');
  }

  /** Only the winning list has changed, and it is still as a winner must be. */
  ghost predicate WinnerExtended<D>(d: Def<D>, d': Def<D>, w: Which)
    requires d.settled.Some?
  {
    && SameFrames(d, d', w) && SameHistory(d, d', w)
    && ListOk(d'.lists.Get(w), FrameFor(d'.control, w), true)
    && Winner(d'.lists.Get(w), FrameFor(d'.control, w), w, d.settled.value.1, d'.added.Get(w), d'.ran.Get(w))
    && !Reacting(d'.lists.Get(w), FrameFor(d'.control, w), w)
  }

  lemma AddedWhileFiring<D>(d: Def<D>, w: Which, frame: Frame<D>, ids: seq<nat>)
    requires Basic(d) && Settled(d) && UserTurn(d) && d.settled.value.0 == w && FrameFor(d.control, w) == Some(frame)
    requires !Reacting(d.lists.Get(w), Some(frame), w)
    ensures WinnerExtended(d, Step(d, Add(w, ids)), w)
  {
    var cb := d.lists.Get(w);
    WinnerGrows(cb, frame, w, d.settled.value.1, d.added.Get(w), d.ran.Get(w), ids);
    assert Step(d, Add(w, ids)) == Logged(SetList(d, w, Callbacks.Add(cb, Users(ids)).0), w, ids);
  }

  lemma AddedAtRest<D>(d: Def<D>, w: Which, ids: seq<nat>)
    requires Basic(d) && Settled(d) && UserTurn(d) && d.settled.value.0 == w && FrameFor(d.control, w) == None
    ensures WinnerExtended(d, Step(d, Add(w, ids)), w)
  {
    var data := d.settled.value.1;
    ReplayEnters(d, w, ids);
    WinnerReplays(d.lists.Get(w), w, data, d.added.Get(w), d.ran.Get(w), ids);
    FramesPush(d.control, Frame(w, data, None));
    Replayed(d, Step(d, Add(w, ids)), w, ids);
  }

  lemma Replayed<D>(d: Def<D>, d': Def<D>, w: Which, ids: seq<nat>)
    requires d.settled.Some? && d'.settled == d.settled && d'.state == d.state && d'.changes == d.changes
    requires Callbacks.Add(d.lists.Get(w), Users(ids)).0.list.Some?
    requires var begun, data := Callbacks.Begin(Callbacks.Add(d.lists.Get(w), Users(ids)).0, d.settled.value.1), d.settled.value.1;
      && d'.lists == d.lists.Put(w, begun) && d'.control == d.control + [Frame(w, data, None)]
      && ListOk(begun, Some(Frame(w, data, None)), true) && !Reacting(begun, Some(Frame(w, data, None)), w)
      && Winner(begun, Some(Frame(w, data, None)), w, data, d.added.Get(w) + ids, d.ran.Get(w))
    requires d'.added == d.added.Put(w, d.added.Get(w) + ids) && d'.ran == d.ran && ControlOk(d'.control)
    requires forall v :: FrameFor(d'.control, v) == if v == w then Some(Frame(w, d.settled.value.1, None)) else FrameFor(d.control, v)
    ensures WinnerExtended(d, d', w)
  {
  }

  /** A handler added to the winning list at rest starts a new fire with the remembered data. */
  lemma ReplayEnters<D>(d: Def<D>, w: Which, ids: seq<nat>)
    requires Basic(d) && Settled(d) && UserTurn(d) && d.settled.value.0 == w && FrameFor(d.control, w) == None
    ensures var d', data := Step(d, Add(w, ids)), d.settled.value.1;
      && d'.lists == d.lists.Put(w, Callbacks.Begin(Callbacks.Add(d.lists.Get(w), Users(ids)).0, data))
      && d'.control == d.control + [Frame(w, data, None)]
      && d'.added == d.added.Put(w, d.added.Get(w) + ids) && d'.ran == d.ran
      && d'.settled == d.settled && d'.state == d.state && d'.changes == d.changes
  {
    var cb, data := d.lists.Get(w), d.settled.value.1;
    WinnerReplays(cb, w, data, d.added.Get(w), d.ran.Get(w), ids);
  }

  lemma AddToUntouched<D>(d: Def<D>, w: Which, ids: seq<nat>)
    requires Inv(d) && UserTurn(d) && w != OnProgress && d.lists.Get(w).list.Some?
    requires d.settled.Some? ==> d.settled.value.0 != w
    ensures Inv(Step(d, Add(w, ids)))
  {
    var cb := d.lists.Get(w);
    if d.settled.Some? {
      StageAtUserTurn(d);
    }
    UntouchedGrows(cb, w, d.added.Get(w), ids);
    var d' := Step(d, Add(w, ids));
    assert d' == Logged(SetList(d, w, Callbacks.Add(cb, Users(ids)).0), w, ids);
    BasicUpdate(d, d', w);
  }

  /** Once settled, resolving, rejecting and notifying change nothing at all. */
  lemma FireAfterSettlement<D>(d: Def<D>, w: Which, data: D)
    requires Inv(d) && UserTurn(d) && d.settled.Some?
    ensures Step(d, Fire(w, data)) == d
  {
    StageAtUserTurn(d);
    assert SetList(d, w, d.lists.Get(w)) == d;
  }

  /** The first firing of a settling list starts with its three internal reactions. */
  lemma WinnerBegins<D>(cb: List<D>, w: Which, data: D, added: seq<nat>)
    requires w != OnProgress && ListOk(cb, None, true) && Untouched(cb, w, added)
    ensures var begun, frame := Callbacks.Begin(cb, data), Some(Frame(w, data, None));
      ListOk(begun, frame, true) && Winner(begun, frame, w, data, added, []) && FirstBatch(begun.list.value, w)
  {
    assert (Internals(w) + Users(added))[..3] == Internals(w);
    assert (Internals(w) + Users(added))[3..] == Users(added);
    assert added[0..] == added;
  }

  /** The settlement is remembered, and its list starts to fire: the three reactions, then the handlers added so far. */
  lemma SettleStarts<D>(d: Def<D>, w: Which, data: D)
    requires Inv(d) && UserTurn(d) && d.settled.None? && w != OnProgress
    ensures var d' := Step(d, Fire(w, data));
      && d'.settled == Some((w, data)) && Stage(d') == 0
      && d'.control == d.control + [Frame(w, data, None)]
      && d'.lists.Get(w) == Callbacks.Begin(d.lists.Get(w), data)
      && d'.lists.Get(w).list == Some(Internals(w) + Users(d.added.Get(w)))
      && d'.state == Pending && d'.changes == [] && d'.added == d.added && d'.ran == d.ran
      && SameFrames(d, d', w) && FrameFor(d'.control, w) == Some(Frame(w, data, None))
  {
    var cb := d.lists.Get(w);
    assert ListOk(cb, None, true) && Untouched(cb, w, d.added.Get(w));
    SettleEnters(d, w, data);
    FramesPush(d.control, Frame(w, data, None));
    WinnerBegins(cb, w, data, d.added.Get(w));
  }

  lemma SettleEnters<D>(d: Def<D>, w: Which, data: D)
    requires UserTurn(d) && d.settled.None? && w != OnProgress
    requires ListOk(d.lists.Get(w), None, true) && d.lists.Get(w).list.Some? && !d.lists.Get(w).fired
    ensures Step(d, Fire(w, data)) ==
      SetList(d, w, Callbacks.Begin(d.lists.Get(w), data)).(settled := Some((w, data)), control := d.control + [Frame(w, data, None)])
  {
    var cb := d.lists.Get(w);
    assert Callbacks.Request(cb, data) == (cb, Some(data));
    assert SetList(d, w, cb) == d;
  }

  lemma SettleBegins<D>(d: Def<D>, w: Which, data: D)
    requires Inv(d) && UserTurn(d) && d.settled.None? && w != OnProgress
    ensures Inv(Step(d, Fire(w, data)))
  {
    SettleStarts(d, w, data);
    WinnerBegins(d.lists.Get(w), w, data, d.added.Get(w));
    BasicUpdate(d, Step(d, Fire(w, data)), w);
    SettledAtStart(d, Step(d, Fire(w, data)), w, data);
  }

  lemma SettledAtStart<D>(d: Def<D>, d': Def<D>, w: Which, data: D)
    requires Basic(d) && Open(d) && Basic(d') && w != OnProgress && SameFrames(d, d', w)
    requires d'.settled == Some((w, data)) && d'.control == d.control + [Frame(w, data, None)]
    requires d'.state == Pending && d'.changes == [] && d'.added == d.added && d'.ran == d.ran && Stage(d') == 0
    requires FrameFor(d'.control, w) == Some(Frame(w, data, None))
    requires ListOk(d'.lists.Get(w), FrameFor(d'.control, w), true)
    requires Winner(d'.lists.Get(w), FrameFor(d'.control, w), w, data, d'.added.Get(w), [])
    ensures Settled(d')
  {
    assert d'.lists.Get(Other(w)) == d.lists.Get(Other(w)) && d'.lists.Get(OnProgress) == d.lists.Get(OnProgress);
  }

  lemma NotifyWhileOpen<D>(d: Def<D>, data: D)
    requires Inv(d) && UserTurn(d) && d.settled.None?
    ensures Inv(Step(d, Fire(OnProgress, data)))
  {
    var d' := Step(d, Fire(OnProgress, data));
    var (cb, fire) := Callbacks.Request(d.lists.progress, data);
    EnterFrame(d, OnProgress, fire);
    assert d' == Enter(SetList(d, OnProgress, cb), OnProgress, fire);
    assert SameFrames(d, d', OnProgress);
    BasicUpdate(d, d', OnProgress);
    OpenAfterProgress(d, d');
  }

  lemma ReturnMoves<D>(d: Def<D>)
    requires Basic(d) && UserTurn(d) && d.control != []
    ensures var d', top := Step(d, Return), d.control[|d.control| - 1];
      && SameHistory(d, d', top.which)
      && d'.lists == d.lists.Put(top.which, Callbacks.Advance(d.lists.Get(top.which), false))
      && d'.control == d.control[|d.control| - 1 := top.(inside := None)]
  {
  }

  /** A returning handler moves its list's loop on and leaves everything else alone. */
  lemma ReturnBasics<D>(d: Def<D>)
    requires Basic(d) && UserTurn(d) && d.control != []
    ensures var d', top := Step(d, Return), d.control[|d.control| - 1];
      && Basic(d') && SameFrames(d, d', top.which) && SameHistory(d, d', top.which)
      && d'.lists.Get(top.which) == Callbacks.Advance(d.lists.Get(top.which), false)
      && FrameFor(d.control, top.which) == Some(top)
      && FrameFor(d'.control, top.which) == Some(top.(inside := None))
  {
    var top := d.control[|d.control| - 1];
    var d' := Step(d, Return);
    ReturnMoves(d);
    FramesTop(d.control, top.(inside := None));
    assert SameFrames(d, d', top.which);
    assert ListOk(d.lists.Get(top.which), Some(top), top.which != OnProgress);
    BasicUpdate(d, d', top.which);
  }

  lemma ReturnKeeps<D>(d: Def<D>)
    requires Inv(d) && UserTurn(d) && d.control != []
    ensures Inv(Step(d, Return))
  {
    ReturnBasics(d);
    if d.settled.Some? {
      ReturnSettled(d);
    } else {
      assert d.control[|d.control| - 1].which == OnProgress;
      OpenAfterProgress(d, Step(d, Return));
    }
  }

  lemma ReturnSettled<D>(d: Def<D>)
    requires Basic(d) && Settled(d) && UserTurn(d) && d.control != [] && Basic(Step(d, Return))
    ensures Settled(Step(d, Return))
  {
    var w := d.control[|d.control| - 1].which;
    ReturnBasics(d);
    StageAtUserTurn(d);
    if w == OnProgress {
      SettledAfterProgress(d, Step(d, Return));
    } else {
      assert w == d.settled.value.0;
      SettledAfterWinner(d, Step(d, Return));
    }
  }
}
