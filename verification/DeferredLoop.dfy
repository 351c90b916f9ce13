/** Steps of a firing loop keep the invariant: reactions, handlers, and the end of a fire. */
module DeferredLoop {
  import opened Wrappers
  import Callbacks
  import opened Deferred
  import opened DeferredCalls

  /** What the loop meets next on the winning list: an internal reaction, or the first handler still to do. */
  lemma NextOnWinner<D>(cb: List<D>, frame: Frame<D>, w: Which, data: D, added: seq<nat>, ran: seq<(nat, D)>)
    requires frame.inside.None? && ListOk(cb, Some(frame), true) && Winner(cb, Some(frame), w, data, added, ran)
    requires Callbacks.HasNext(cb)
    ensures var h := cb.list.value[cb.firingIndex];
      if Reacting(cb, Some(frame), w) then h == Internals(w)[cb.firingIndex]
      else |ran| < |added| && h == User(added[|ran|])
  {
    var list, k := cb.list.value, cb.firingIndex;
    if Reacting(cb, Some(frame), w) {
      assert list[k] == list[..3][k];
    } else {
      assert list[k..][0] == list[k];
      assert Users(added[|ran|..])[0] == User(added[|ran|]);
    }
  }

  lemma WinnerCalls<D>(cb: List<D>, frame: Frame<D>, w: Which, data: D, added: seq<nat>, ran: seq<(nat, D)>)
    requires frame.inside.None? && ListOk(cb, Some(frame), true) && Winner(cb, Some(frame), w, data, added, ran)
    requires Callbacks.HasNext(cb) && !Reacting(cb, Some(frame), w)
    ensures |ran| < |added|
    ensures var id := added[|ran|];
      var inside := frame.(inside := Some(id));
      && ListOk(cb, Some(inside), true)
      && !Reacting(cb, Some(inside), w)
      && Winner(cb, Some(inside), w, data, added, ran + [(id, data)])
  {
    NextOnWinner(cb, frame, w, data, added, ran);
    var list, k := cb.list.value, cb.firingIndex;
    assert list[k..][1..] == list[k + 1..];
    assert added[|ran|..][1..] == added[|ran| + 1..];
    assert Users(added[|ran|..])[1..] == Users(added[|ran| + 1..]);
  }

  /** The loop calls the next user handler of the winning list. */
  lemma CallOnWinner<D>(d: Def<D>)
    requires Basic(d) && Settled(d) && !UserTurn(d)
    requires d.control[|d.control| - 1].which == d.settled.value.0
    requires Callbacks.HasNext(d.lists.Get(d.settled.value.0)) && Stage(d) == 3
    ensures Inv(Step(d, Tick))
  {
    var (w, data) := d.settled.value;
    var top := d.control[|d.control| - 1];
    var cb, added, ran := d.lists.Get(w), d.added.Get(w), d.ran.Get(w);
    FramesPop(d.control);
    NextOnWinner(cb, top, w, data, added, ran);
    WinnerCalls(cb, top, w, data, added, ran);
    var id := added[|ran|];
    var d' := d.(control := d.control[|d.control| - 1 := top.(inside := Some(id))], ran := d.ran.Put(w, ran + [(id, data)]));
    assert Step(d, Tick) == d';
    FramesTop(d.control, top.(inside := Some(id)));
    assert SameFrames(d, d', w);
    BasicUpdate(d, d', w);
    SettledAfterWinner(d, d');
  }

  lemma CallOnProgress<D>(d: Def<D>)
    requires Inv(d) && !UserTurn(d) && d.control[|d.control| - 1].which == OnProgress
    requires Callbacks.HasNext(d.lists.progress)
    ensures Inv(Step(d, Tick))
  {
    var top := d.control[|d.control| - 1];
    var cb := d.lists.progress;
    FramesPop(d.control);
    var id := cb.list.value[cb.firingIndex].id;
    var d' := d.(control := d.control[|d.control| - 1 := top.(inside := Some(id))],
                 ran := d.ran.Put(OnProgress, d.ran.progress + [(id, top.data)]));
    assert Step(d, Tick) == d';
    FramesTop(d.control, top.(inside := Some(id)));
    BasicUpdate(d, d', OnProgress);
    if d.settled.Some? {
      SettledAfterProgress(d, d');
    } else {
      OpenAfterProgress(d, d');
    }
  }

  lemma WinnerReacts<D>(cb: List<D>, frame: Frame<D>, w: Which, data: D, added: seq<nat>, ran: seq<(nat, D)>)
    requires frame.inside.None? && ListOk(cb, Some(frame), true) && Winner(cb, Some(frame), w, data, added, ran)
    requires Reacting(cb, Some(frame), w)
    ensures var cb' := cb.(firingIndex := cb.firingIndex + 1);
      && ListOk(cb', Some(frame), true)
      && Winner(cb', Some(frame), w, data, added, ran)
      && (Reacting(cb', Some(frame), w) <==> cb.firingIndex < 2)
  {
  }

  /** The loop is at one of the deferred's own reactions: the one whose turn it is. */
  ghost predicate AtReaction<D>(d: Def<D>) {
    && Inv(d) && !UserTurn(d) && d.settled.Some?
    && d.control[|d.control| - 1].which == d.settled.value.0
    && Callbacks.HasNext(d.lists.Get(d.settled.value.0)) && Stage(d) < 3
  }

  lemma ReactStep<D>(d: Def<D>)
    requires AtReaction(d)
    ensures var (w, data) := d.settled.value;
      var n, frame := Stage(d), FrameFor(d.control, w);
      var cb' := d.lists.Get(w).(firingIndex := n + 1);
      && 0 <= n && Step(d, Tick) == SetList(React(d, Internals(w)[n]), w, cb')
      && ListOk(cb', frame, true) && Winner(cb', frame, w, data, d.added.Get(w), d.ran.Get(w))
      && (Reacting(cb', frame, w) <==> n < 2)
  {
    var (w, data) := d.settled.value;
    var top := d.control[|d.control| - 1];
    var cb := d.lists.Get(w);
    FramesPop(d.control);
    NextOnWinner(cb, top, w, data, d.added.Get(w), d.ran.Get(w));
    WinnerReacts(cb, top, w, data, d.added.Get(w), d.ran.Get(w));
  }

  /**
    The three reactions happen one after the other, each once: the state is set, then the
    other settling list is disabled, then the progress list is locked.  No handler runs.
   */
  lemma ReactsInOrder<D>(d: Def<D>)
    requires AtReaction(d)
    ensures var d', n, w := Step(d, Tick), Stage(d), d.settled.value.0;
      && d'.settled == d.settled && Stage(d') == n + 1 && d'.ran == d.ran && d'.added == d.added
      && (if n == 0 then d'.state == FinalState(w) && d'.changes == [FinalState(w)] else d'.state == d.state && d'.changes == d.changes)
      && d'.lists.Get(Other(w)) == (if n == 1 then Callbacks.Disable(d.lists.Get(Other(w))) else d.lists.Get(Other(w)))
      && d'.lists.progress == (if n == 2 then Callbacks.Lock(d.lists.progress) else d.lists.progress)
  {
    ReactStep(d);
  }

  /** The loop runs one of the deferred's own reactions. */
  lemma ReactKeeps<D>(d: Def<D>)
    requires AtReaction(d)
    ensures Inv(Step(d, Tick))
  {
    var w := d.settled.value.0;
    var n := Stage(d);
    ReactStep(d);
    var cb' := d.lists.Get(w).(firingIndex := n + 1);
    if n == 0 {
      ReactState(d, w, cb');
    } else if n == 1 {
      ReactDisable(d, w, cb');
    } else {
      ReactLock(d, w, cb');
    }
  }

  lemma ReactState<D>(d: Def<D>, w: Which, cb': List<D>)
    requires Basic(d) && Settled(d) && !UserTurn(d) && d.settled.value.0 == w && Stage(d) == 0
    requires cb' == d.lists.Get(w).(firingIndex := 1)
    requires var frame := FrameFor(d.control, w);
      ListOk(cb', frame, true) && Winner(cb', frame, w, d.settled.value.1, d.added.Get(w), d.ran.Get(w)) && Reacting(cb', frame, w)
    ensures Inv(SetList(React(d, SetState(FinalState(w))), w, cb'))
  {
    var d' := SetList(React(d, SetState(FinalState(w))), w, cb');
    assert SameFrames(d, d', w);
    BasicUpdate(d, d', w);
    assert Stage(d') == 1;
    assert d'.lists.Get(Other(w)) == d.lists.Get(Other(w)) && d'.lists.Get(OnProgress) == d.lists.Get(OnProgress);
    assert Settled(d');
  }

  lemma ReactDisable<D>(d: Def<D>, w: Which, cb': List<D>)
    requires Basic(d) && Settled(d) && !UserTurn(d) && d.settled.value.0 == w && Stage(d) == 1
    requires cb' == d.lists.Get(w).(firingIndex := 2)
    requires var frame := FrameFor(d.control, w);
      ListOk(cb', frame, true) && Winner(cb', frame, w, d.settled.value.1, d.added.Get(w), d.ran.Get(w)) && Reacting(cb', frame, w)
    ensures Inv(SetList(React(d, DisableOf(Other(w))), w, cb'))
  {
    var mid := React(d, DisableOf(Other(w)));
    BasicUpdate(d, mid, Other(w));
    var d' := SetList(mid, w, cb');
    BasicUpdate(mid, d', w);
    assert Stage(d') == 2;
    assert d'.lists.Get(Other(w)).list.None? && d'.lists.Get(OnProgress) == d.lists.Get(OnProgress);
    assert Settled(d');
  }

  lemma ReactLock<D>(d: Def<D>, w: Which, cb': List<D>)
    requires Basic(d) && Settled(d) && !UserTurn(d) && d.settled.value.0 == w && Stage(d) == 2
    requires cb' == d.lists.Get(w).(firingIndex := 3)
    requires var frame := FrameFor(d.control, w);
      ListOk(cb', frame, true) && Winner(cb', frame, w, d.settled.value.1, d.added.Get(w), d.ran.Get(w)) && !Reacting(cb', frame, w)
    ensures Inv(SetList(React(d, LockOf(OnProgress)), w, cb'))
  {
    var mid := React(d, LockOf(OnProgress));
    BasicUpdate(d, mid, OnProgress);
    var d' := SetList(mid, w, cb');
    BasicUpdate(mid, d', w);
    assert Stage(d') == 3;
    assert d'.lists.Get(Other(w)) == d.lists.Get(Other(w)) && d'.lists.Get(OnProgress) == mid.lists.progress;
    assert Settled(d');
  }

  /** The winning list has called everything: it is emptied and its fire ends. */
  lemma PopWinner<D>(d: Def<D>)
    requires Basic(d) && Settled(d) && !UserTurn(d)
    requires d.control[|d.control| - 1].which == d.settled.value.0
    requires !Callbacks.HasNext(d.lists.Get(d.settled.value.0))
    ensures var w := d.settled.value.0;
      var popped := Pop(SetList(d, w, d.lists.Get(w).(firing := false, list := Some([]))));
      && Step(d, Tick) == popped && Basic(popped) && SameFrames(d, popped, w)
      && FrameFor(popped.control, w).None? && |d.ran.Get(w)| == |d.added.Get(w)|
  {
    var (w, data) := d.settled.value;
    var top := d.control[|d.control| - 1];
    var cb := d.lists.Get(w);
    FramesPop(d.control);
    assert Todo(cb, top, w) == [];
    assert |d.added.Get(w)[|d.ran.Get(w)|..]| == 0;
    var popped := Pop(SetList(d, w, cb.(firing := false, list := Some([]))));
    assert Step(d, Tick) == popped;
    BasicUpdate(d, popped, w);
  }

  lemma PopProgress<D>(d: Def<D>)
    requires Inv(d) && !UserTurn(d) && d.control[|d.control| - 1].which == OnProgress
    requires !Callbacks.HasNext(d.lists.progress)
    ensures var popped := Pop(SetList(d, OnProgress, Callbacks.Finish(d.lists.progress).0));
      && Basic(popped) && SameFrames(d, popped, OnProgress)
      && FrameFor(popped.control, OnProgress).None? && UserTurn(popped)
  {
    FramesPop(d.control);
    var popped := Pop(SetList(d, OnProgress, Callbacks.Finish(d.lists.progress).0));
    BasicUpdate(d, popped, OnProgress);
  }

  /** A notification is over; the next one waiting starts, unless the deferred has been settled. */
  lemma FinishProgress<D>(d: Def<D>)
    requires Inv(d) && !UserTurn(d) && d.control[|d.control| - 1].which == OnProgress
    requires !Callbacks.HasNext(d.lists.progress)
    ensures Inv(Step(d, Tick))
  {
    PopProgress(d);
    var (cb, fire) := Callbacks.Finish(d.lists.progress);
    var popped := Pop(SetList(d, OnProgress, cb));
    if d.settled.Some? {
      FramesPop(d.control);
      assert Stage(d) == 3;
      assert Step(d, Tick) == popped;
      SettledAfterProgress(d, popped);
    } else {
      OpenAfterProgress(d, popped);
      StartNext(popped, fire);
      assert Step(d, Tick) == Enter(popped, OnProgress, fire);
    }
  }

  lemma StartNext<D>(d: Def<D>, fire: Option<D>)
    requires Basic(d) && Open(d) && UserTurn(d) && FrameFor(d.control, OnProgress).None?
    ensures Inv(Enter(d, OnProgress, fire))
  {
    var d' := Enter(d, OnProgress, fire);
    if fire.Some? {
      FramesPush(d.control, Frame(OnProgress, fire.value, None));
      BasicUpdate(d, d', OnProgress);
      OpenAfterProgress(d, d');
    }
  }

  lemma TickKeeps<D>(d: Def<D>)
    requires Inv(d) && !UserTurn(d)
    ensures Inv(Step(d, Tick))
  {
    var w := d.control[|d.control| - 1].which;
    FramesPop(d.control);
    if w == OnProgress {
      if Callbacks.HasNext(d.lists.progress) { CallOnProgress(d); } else { FinishProgress(d); }
    } else {
      assert d.settled.Some? && d.settled.value.0 == w;
      if !Callbacks.HasNext(d.lists.Get(w)) {
        PopWinner(d);
        SettledAfterWinner(d, Step(d, Tick));
      } else if Stage(d) == 3 {
        CallOnWinner(d);
      } else {
        ReactKeeps(d);
      }
    }
  }
}
