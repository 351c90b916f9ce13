/**
  Deferred: three callback lists wired to one state.  User code is the program and every
  user handler; while it runs it may call done, fail, progress, resolve, reject and notify
  on the same deferred, which nests fires of different lists on the control stack.
 */
module Deferred {
  import opened Wrappers
  import opened Callbacks

  datatype Which = OnDone | OnFail | OnProgress

  datatype State = Pending | Resolved | Rejected

  /** A user's handler, or one of the three internal ones at the head of a settling list. */
  datatype Handler = User(id: nat) | SetState(state: State) | DisableOf(which: Which) | LockOf(which: Which)

  type List<D> = CB<Handler, D>

  /** A fire in progress: its list and data, and the user handler it is inside of, if any. */
  datatype Frame<D> = Frame(which: Which, data: D, inside: Option<nat>)

  /** One thing for each of the three lists. */
  datatype Per<T> = Per(done: T, fail: T, progress: T) {
    function Get(w: Which): T {
      match w case OnDone => done case OnFail => fail case OnProgress => progress
    }

    function Put(w: Which, t: T): Per<T> {
      match w case OnDone => this.(done := t) case OnFail => this.(fail := t) case OnProgress => this.(progress := t)
    }
  }

  /** The deferred, and what has happened to it so far. */
  datatype Def<D> = Def(
    lists: Per<List<D>>,
    state: State,
    control: seq<Frame<D>>,
    changes: seq<State>,
    settled: Option<(Which, D)>,
    added: Per<seq<nat>>,
    ran: Per<seq<(nat, D)>>)

  datatype Act<D> = Add(which: Which, ids: seq<nat>) | Fire(which: Which, data: D) | Return | Tick

  function SetList<D>(d: Def<D>, w: Which, cb: List<D>): Def<D> {
    d.(lists := d.lists.Put(w, cb))
  }

  function Other(w: Which): Which {
    if w == OnDone then OnFail else OnDone
  }

  function FinalState(w: Which): State {
    if w == OnDone then Resolved else Rejected
  }

  function Internals(w: Which): seq<Handler> {
    [SetState(FinalState(w)), DisableOf(Other(w)), LockOf(OnProgress)]
  }

  function SettlingList<D>(w: Which): List<D> {
    Callbacks.Add(Callbacks.New<Handler, D>(Options(true, true, false, false)), Internals(w)).0
  }

  function New<D>(): Def<D> {
    Def(Per(SettlingList(OnDone), SettlingList(OnFail), Callbacks.New(Options(false, true, false, false))),
        Pending, [], [], None, Per([], [], []), Per([], [], []))
  }

  function Users(ids: seq<nat>): (hs: seq<Handler>)
    ensures |hs| == |ids| && forall k :: 0 <= k < |ids| ==> hs[k] == User(ids[k])
  {
    seq(|ids|, k requires 0 <= k < |ids| => User(ids[k]))
  }

  predicate UserTurn<D>(d: Def<D>) {
    d.control == [] || d.control[|d.control| - 1].inside.Some?
  }

  /** Calls fire(data) on a list: a new frame on the control stack. */
  function Enter<D>(d: Def<D>, w: Which, fire: Option<D>): Def<D> {
    if fire.Some? && d.lists.Get(w).list.Some?
    then SetList(d, w, Begin(d.lists.Get(w), fire.value)).(control := d.control + [Frame(w, fire.value, None)])
    else d
  }

  function Logged<D>(d: Def<D>, w: Which, ids: seq<nat>): Def<D> {
    d.(added := d.added.Put(w, d.added.Get(w) + ids))
  }

  /** The first resolve or reject is remembered, whatever becomes of it. */
  function FirstSettlement<D>(d: Def<D>, w: Which, data: D): Def<D> {
    if w != OnProgress && d.settled.None? then d.(settled := Some((w, data))) else d
  }

  function Pop<D>(d: Def<D>): Def<D>
    requires d.control != []
  {
    d.(control := d.control[..|d.control| - 1])
  }

  /** One internal handler: the deferred's own reaction to settling. */
  function React<D>(d: Def<D>, h: Handler): Def<D>
    requires !h.User?
  {
    match h
    case SetState(state) => d.(state := state, changes := d.changes + [state])
    case DisableOf(w) => SetList(d, w, Disable(d.lists.Get(w)))
    case LockOf(w) => SetList(d, w, Lock(d.lists.Get(w)))
  }

  function TickFrame<D>(d: Def<D>): Def<D>
    requires d.control != []
  {
    var top := d.control[|d.control| - 1];
    var cb := d.lists.Get(top.which);
    if HasNext(cb) then
      if cb.firingIndex < 0 || cb.firingIndex >= |cb.list.value| then d
      else
        var h := cb.list.value[cb.firingIndex];
        match h
        case User(id) =>
          d.(control := d.control[|d.control| - 1 := top.(inside := Some(id))],
             ran := d.ran.Put(top.which, d.ran.Get(top.which) + [(id, top.data)]))
        case _ =>
          var reacted := React(d, h);
          SetList(reacted, top.which, Advance(reacted.lists.Get(top.which), false))
    else
      var (cb', fire) := Finish(cb);
      Enter(Pop(SetList(d, top.which, cb')), top.which, fire)
  }

  function Step<D>(d: Def<D>, act: Act<D>): Def<D> {
    match act
    case Add(w, ids) =>
      if !UserTurn(d) then d
      else
        var (cb, fire) := Callbacks.Add(d.lists.Get(w), Users(ids));
        Enter(Logged(SetList(d, w, cb), w, ids), w, fire)
    case Fire(w, data) =>
      if !UserTurn(d) then d
      else
        var (cb, fire) := Request(d.lists.Get(w), data);
        Enter(FirstSettlement(SetList(d, w, cb), w, data), w, fire)
    case Return =>
      if !UserTurn(d) || d.control == [] then d
      else
        var top := d.control[|d.control| - 1];
        SetList(d, top.which, Advance(d.lists.Get(top.which), false))
          .(control := d.control[|d.control| - 1 := top.(inside := None)])
    case Tick =>
      if UserTurn(d) then d else TickFrame(d)
  }

  function RunAll<D>(acts: seq<Act<D>>): Def<D> {
    if acts == [] then New() else Step(RunAll(acts[..|acts| - 1]), acts[|acts| - 1])
  }

  // ---------- the invariant ----------

  /** The frame of a list that is being fired. */
  function FrameFor<D>(control: seq<Frame<D>>, w: Which): Option<Frame<D>> {
    if control == [] then None
    else if control[|control| - 1].which == w then Some(control[|control| - 1])
    else FrameFor(control[..|control| - 1], w)
  }

  /** Only the innermost frame can be between handlers, and no list is fired twice at a time. */
  ghost predicate ControlOk<D>(control: seq<Frame<D>>) {
    && (forall i :: 0 <= i < |control| - 1 ==> control[i].inside.Some?)
    && (forall i, j :: 0 <= i < j < |control| ==> control[i].which != control[j].which)
  }

  /** How many entries at the front of the list the fire is done with. */
  function Count<D>(cb: List<D>, frame: Frame<D>): int {
    if frame.inside.Some? then cb.firingIndex + 1 else cb.firingIndex
  }

  predicate AllUsers(hs: seq<Handler>) {
    forall k :: 0 <= k < |hs| ==> hs[k].User?
  }

  ghost predicate ListOk<D>(cb: List<D>, frame: Option<Frame<D>>, once: bool) {
    && cb.options == Options(once, true, false, false)
    && cb.firingStart == 0
    && (cb.firing <==> frame.Some?)
    && (frame.Some? ==>
      && cb.fired && cb.list.Some? && cb.memory == Some(frame.value.data)
      && cb.firingLength == |cb.list.value| && 0 <= Count(cb, frame.value) <= |cb.list.value|)
    && (cb.list.None? ==> cb.stack.None? && cb.memory.None?)
    && (cb.list.Some? ==> (cb.fired <==> cb.memory.Some?))
    && (once ==> cb.stack.None?)
  }

  ghost predicate Untouched<D>(cb: List<D>, w: Which, added: seq<nat>) {
    cb.list == Some(Internals(w) + Users(added)) && !cb.fired
  }

  predicate FirstBatch(hs: seq<Handler>, w: Which) {
    |hs| >= 3 && hs[..3] == Internals(w)
  }

  /** The user handlers the winning list still has to call. */
  function Todo<D>(cb: List<D>, frame: Frame<D>, w: Which): seq<Handler>
    requires ListOk(cb, Some(frame), true)
  {
    var k := Count(cb, frame);
    if FirstBatch(cb.list.value, w) && k < 3 then cb.list.value[3..] else cb.list.value[k..]
  }

  /** Handlers ran in the order they were added, all with the data of the settlement. */
  ghost predicate RanInOrder<D>(ran: seq<(nat, D)>, added: seq<nat>, data: D) {
    |ran| <= |added| && forall k :: 0 <= k < |ran| ==> ran[k] == (added[k], data)
  }

  ghost predicate Winner<D>(cb: List<D>, frame: Option<Frame<D>>, w: Which, data: D, added: seq<nat>, ran: seq<(nat, D)>)
    requires ListOk(cb, frame, true)
  {
    && cb.fired && cb.list.Some? && cb.memory == Some(data)
    && RanInOrder(ran, added, data)
    && (frame.None? ==> cb.list.value == [] && |ran| == |added|)
    && (frame.Some? ==>
      && (FirstBatch(cb.list.value, w) || AllUsers(cb.list.value))
      && (FirstBatch(cb.list.value, w) && Count(cb, frame.value) < 3 ==> |ran| == 0)
      && Todo(cb, frame.value, w) == Users(added[|ran|..]))
  }

  /** How many of the three internal reactions to the settlement have happened. */
  function Stage<D>(d: Def<D>): int
    requires d.settled.Some?
  {
    var w := d.settled.value.0;
    var frame := FrameFor(d.control, w);
    var cb := d.lists.Get(w);
    if frame.Some? && cb.list.Some? && FirstBatch(cb.list.value, w) && Count(cb, frame.value) < 3
    then Count(cb, frame.value) else 3
  }

  ghost predicate Basic<D>(d: Def<D>) {
    && ControlOk(d.control)
    && ListOk(d.lists.done, FrameFor(d.control, OnDone), true)
    && ListOk(d.lists.fail, FrameFor(d.control, OnFail), true)
    && ListOk(d.lists.progress, FrameFor(d.control, OnProgress), false)
    && (d.lists.progress.list.Some? ==> AllUsers(d.lists.progress.list.value))
  }

  ghost predicate Open<D>(d: Def<D>)
    requires Basic(d)
  {
    && d.settled.None? && d.state == Pending && d.changes == []
    && Untouched(d.lists.done, OnDone, d.added.done) && d.ran.done == []
    && Untouched(d.lists.fail, OnFail, d.added.fail) && d.ran.fail == []
    && d.lists.progress.list.Some? && d.lists.progress.stack.Some?
  }

  /** The progress list after settlement: no further notification can start. */
  predicate Closed<D>(cb: List<D>) {
    cb.stack.None? && (cb.list.None? || cb.fired)
  }

  ghost predicate Settled<D>(d: Def<D>)
    requires Basic(d)
  {
    && d.settled.Some?
    && var (w, data) := d.settled.value;
    && w != OnProgress
    && var n := Stage(d);
    && 0 <= n
    && Winner(d.lists.Get(w), FrameFor(d.control, w), w, data, d.added.Get(w), d.ran.Get(w))
    && (n < 3 ==> !UserTurn(d) && d.control[|d.control| - 1].which == w)
    && d.state == (if n >= 1 then FinalState(w) else Pending)
    && d.changes == (if n >= 1 then [FinalState(w)] else [])
    && d.ran.Get(Other(w)) == []
    && (if n >= 2 then d.lists.Get(Other(w)).list.None? else Untouched(d.lists.Get(Other(w)), Other(w), d.added.Get(Other(w))))
    && (if n >= 3 then Closed(d.lists.progress) else d.lists.progress.list.Some? && d.lists.progress.stack.Some?)
  }

  ghost predicate Inv<D>(d: Def<D>) {
    Basic(d) && (Open(d) || Settled(d))
  }

  lemma NewOk<D>()
    ensures Inv(New<D>())
  {
    forall w: Which | w != OnProgress
      ensures SettlingList<D>(w).list == Some(Internals(w))
    {
      PushInternals<D>(w);
    }
    assert Users([]) == [];
    assert Internals(OnDone) + [] == Internals(OnDone) && Internals(OnFail) + [] == Internals(OnFail);
  }

  lemma PushInternals<D>(w: Which)
    ensures PushAll([], Internals(w), false) == Internals(w)
  {
    PushAllAppends([], Internals(w));
  }

  lemma {:induction false} PushAllAppends<F>(list: seq<F>, fs: seq<F>)
    ensures PushAll(list, fs, false) == list + fs
    decreases |fs|
  {
    if fs != [] {
      PushAllAppends(list + [fs[0]], fs[1..]);
    }
  }

  // ---------- the control stack ----------

  lemma FrameForPush<D>(control: seq<Frame<D>>, frame: Frame<D>, w: Which)
    ensures FrameFor(control + [frame], w) == if w == frame.which then Some(frame) else FrameFor(control, w)
  {
    assert (control + [frame])[..|control|] == control;
  }

  lemma FrameForTop<D>(control: seq<Frame<D>>, frame: Frame<D>, w: Which)
    requires control != [] && frame.which == control[|control| - 1].which
    ensures FrameFor(control[|control| - 1 := frame], w) == if w == frame.which then Some(frame) else FrameFor(control, w)
  {
    assert control[|control| - 1 := frame][..|control| - 1] == control[..|control| - 1];
  }

  lemma {:induction false} FrameForAbsent<D>(control: seq<Frame<D>>, w: Which)
    ensures FrameFor(control, w).None? <==> forall i :: 0 <= i < |control| ==> control[i].which != w
  {
    if control != [] {
      FrameForAbsent(control[..|control| - 1], w);
    }
  }

  lemma FrameForPop<D>(control: seq<Frame<D>>, w: Which)
    requires control != [] && ControlOk(control)
    ensures FrameFor(control[..|control| - 1], w) ==
            if w == control[|control| - 1].which then None else FrameFor(control, w)
  {
    FrameForAbsent(control[..|control| - 1], w);
  }

  // ---------- every step keeps the invariant ----------

  lemma FramesPush<D>(control: seq<Frame<D>>, frame: Frame<D>)
    requires ControlOk(control) && (control == [] || control[|control| - 1].inside.Some?)
    requires FrameFor(control, frame.which).None?
    ensures ControlOk(control + [frame])
    ensures forall w :: FrameFor(control + [frame], w) == if w == frame.which then Some(frame) else FrameFor(control, w)
  {
    FrameForAbsent(control, frame.which);
    forall w ensures FrameFor(control + [frame], w) == if w == frame.which then Some(frame) else FrameFor(control, w) {
      FrameForPush(control, frame, w);
    }
  }

  lemma FramesTop<D>(control: seq<Frame<D>>, frame: Frame<D>)
    requires ControlOk(control) && control != [] && frame.which == control[|control| - 1].which
    ensures ControlOk(control[|control| - 1 := frame])
    ensures FrameFor(control, frame.which) == Some(control[|control| - 1])
    ensures forall w :: FrameFor(control[|control| - 1 := frame], w) == if w == frame.which then Some(frame) else FrameFor(control, w)
  {
    forall w ensures FrameFor(control[|control| - 1 := frame], w) == if w == frame.which then Some(frame) else FrameFor(control, w) {
      FrameForTop(control, frame, w);
    }
  }

  lemma FramesPop<D>(control: seq<Frame<D>>)
    requires ControlOk(control) && control != []
    ensures ControlOk(control[..|control| - 1])
    ensures FrameFor(control, control[|control| - 1].which) == Some(control[|control| - 1])
    ensures forall w :: FrameFor(control[..|control| - 1], w) ==
                        if w == control[|control| - 1].which then None else FrameFor(control, w)
    ensures |control| > 1 ==> control[|control| - 2].inside.Some?
  {
    forall w ensures FrameFor(control[..|control| - 1], w) ==
                     if w == control[|control| - 1].which then None else FrameFor(control, w) {
      FrameForPop(control, w);
    }
  }

  lemma UsersAppend(a: seq<nat>, b: seq<nat>)
    ensures Users(a + b) == Users(a) + Users(b)
  {
  }

  predicate Reacting<D>(cb: List<D>, frame: Option<Frame<D>>, w: Which) {
    frame.Some? && cb.list.Some? && FirstBatch(cb.list.value, w) && Count(cb, frame.value) < 3
  }

  lemma BatchKinds(hs: seq<Handler>, w: Which)
    ensures FirstBatch(hs, w) ==> !AllUsers(hs)
  {
    if FirstBatch(hs, w) {
      assert hs[0] == hs[..3][0] == SetState(FinalState(w));
    }
  }

  /** Adding to the winning list while it is being fired: the batch grows. */
  lemma WinnerGrows<D>(cb: List<D>, frame: Frame<D>, w: Which, data: D, added: seq<nat>, ran: seq<(nat, D)>, ids: seq<nat>)
    requires ListOk(cb, Some(frame), true) && Winner(cb, Some(frame), w, data, added, ran)
    requires !Reacting(cb, Some(frame), w)
    ensures var cb' := Callbacks.Add(cb, Users(ids)).0;
      && ListOk(cb', Some(frame), true)
      && !Reacting(cb', Some(frame), w)
      && Winner(cb', Some(frame), w, data, added + ids, ran)
  {
    var list, more := cb.list.value, cb.list.value + Users(ids);
    PushAllAppends(list, Users(ids));
    assert Callbacks.Add(cb, Users(ids)).0 == cb.(list := Some(more), firingLength := |more|);
    var k := Count(cb, frame);
    assert more[k..] == list[k..] + Users(ids);
    UsersAppend(added[|ran|..], ids);
    assert (added + ids)[|ran|..] == added[|ran|..] + ids;
    FirstBatchAppend(list, Users(ids), w);
  }

  lemma FirstBatchAppend(hs: seq<Handler>, us: seq<Handler>, w: Which)
    requires AllUsers(us) && (FirstBatch(hs, w) || AllUsers(hs))
    ensures FirstBatch(hs + us, w) <==> FirstBatch(hs, w)
    ensures AllUsers(hs) ==> AllUsers(hs + us)
  {
    BatchKinds(hs, w);
    BatchKinds(hs + us, w);
    if FirstBatch(hs, w) {
      assert (hs + us)[..3] == hs[..3];
    }
  }

  /** Adding to the winning list at rest: a new batch of just the new handlers starts at once. */
  lemma WinnerReplays<D>(cb: List<D>, w: Which, data: D, added: seq<nat>, ran: seq<(nat, D)>, ids: seq<nat>)
    requires ListOk(cb, None, true) && Winner(cb, None, w, data, added, ran)
    ensures var (cb', fire) := Callbacks.Add(cb, Users(ids));
      && fire == Some(data) && cb'.list.Some?
      && var frame := Frame(w, data, None);
      && var begun := Begin(cb', data);
      && ListOk(begun, Some(frame), true)
      && !Reacting(begun, Some(frame), w)
      && Winner(begun, Some(frame), w, data, added + ids, ran)
  {
    PushAllAppends(cb.list.value, Users(ids));
    assert [] + Users(ids) == Users(ids);
    assert (added + ids)[|ran|..] == ids;
    assert Users(ids)[0..] == Users(ids);
    BatchKinds(Users(ids), w);
  }

  lemma UntouchedGrows<D>(cb: List<D>, w: Which, added: seq<nat>, ids: seq<nat>)
    requires ListOk(cb, None, true) && Untouched(cb, w, added)
    ensures var (cb', fire) := Callbacks.Add(cb, Users(ids));
      fire.None? && ListOk(cb', None, true) && Untouched(cb', w, added + ids)
  {
    PushAllAppends(cb.list.value, Users(ids));
    UsersAppend(added, ids);
    assert Internals(w) + Users(added) + Users(ids) == Internals(w) + (Users(added) + Users(ids));
  }

  lemma ProgressGrows<D>(cb: List<D>, frame: Option<Frame<D>>, ids: seq<nat>)
    requires ListOk(cb, frame, false) && cb.list.Some? && AllUsers(cb.list.value)
    ensures var (cb', fire) := Callbacks.Add(cb, Users(ids));
      && cb'.list.Some? && AllUsers(cb'.list.value) && cb'.stack == cb.stack && cb'.fired == cb.fired
      && (fire.None? ==> ListOk(cb', frame, false))
      && (fire.Some? ==> frame.None? && ListOk(Begin(cb', fire.value), Some(Frame(OnProgress, fire.value, None)), false))
  {
    PushAllAppends(cb.list.value, Users(ids));
  }

  // ---------- rebuilding the invariant after a change to one list ----------

  ghost predicate SameFrames<D>(d: Def<D>, d': Def<D>, except: Which) {
    && ControlOk(d'.control)
    && forall v :: v != except ==> FrameFor(d'.control, v) == FrameFor(d.control, v) && d'.lists.Get(v) == d.lists.Get(v)
  }

  lemma BasicUpdate<D>(d: Def<D>, d': Def<D>, w: Which)
    requires Basic(d) && SameFrames(d, d', w)
    requires ListOk(d'.lists.Get(w), FrameFor(d'.control, w), w != OnProgress)
    requires w == OnProgress && d'.lists.progress.list.Some? ==> AllUsers(d'.lists.progress.list.value)
    ensures Basic(d')
  {
    assert w == OnDone || (d'.lists.Get(OnDone) == d.lists.Get(OnDone) && FrameFor(d'.control, OnDone) == FrameFor(d.control, OnDone));
    assert w == OnFail || (d'.lists.Get(OnFail) == d.lists.Get(OnFail) && FrameFor(d'.control, OnFail) == FrameFor(d.control, OnFail));
    assert w == OnProgress || (d'.lists.Get(OnProgress) == d.lists.Get(OnProgress) && FrameFor(d'.control, OnProgress) == FrameFor(d.control, OnProgress));
  }

  ghost predicate SameHistory<D>(d: Def<D>, d': Def<D>, except: Which) {
    && d'.settled == d.settled && d'.state == d.state && d'.changes == d.changes
    && forall v :: v != except ==> d'.added.Get(v) == d.added.Get(v) && d'.ran.Get(v) == d.ran.Get(v)
  }

  lemma SettledAfterProgress<D>(d: Def<D>, d': Def<D>)
    requires Basic(d) && Settled(d) && Stage(d) == 3 && Basic(d')
    requires SameFrames(d, d', OnProgress) && SameHistory(d, d', OnProgress)
    requires Closed(d'.lists.progress)
    ensures Settled(d')
  {
    var w := d.settled.value.0;
    assert d'.lists.Get(w) == d.lists.Get(w) && FrameFor(d'.control, w) == FrameFor(d.control, w);
    assert d'.lists.Get(Other(w)) == d.lists.Get(Other(w));
    assert d'.added.Get(w) == d.added.Get(w) && d'.ran.Get(w) == d.ran.Get(w);
    assert d'.ran.Get(Other(w)) == d.ran.Get(Other(w));
  }

  lemma SettledAfterWinner<D>(d: Def<D>, d': Def<D>)
    requires Basic(d) && Settled(d) && Stage(d) == 3 && Basic(d')
    requires SameFrames(d, d', d.settled.value.0) && SameHistory(d, d', d.settled.value.0)
    requires var (w, data) := d.settled.value;
      && Winner(d'.lists.Get(w), FrameFor(d'.control, w), w, data, d'.added.Get(w), d'.ran.Get(w))
      && !Reacting(d'.lists.Get(w), FrameFor(d'.control, w), w)
    ensures Settled(d')
  {
    var w := d.settled.value.0;
    assert d'.lists.Get(Other(w)) == d.lists.Get(Other(w));
    assert d'.lists.Get(OnProgress) == d.lists.Get(OnProgress);
    assert d'.ran.Get(Other(w)) == d.ran.Get(Other(w));
  }

  lemma OpenAfterProgress<D>(d: Def<D>, d': Def<D>)
    requires Basic(d) && Open(d) && Basic(d')
    requires SameFrames(d, d', OnProgress) && SameHistory(d, d', OnProgress)
    requires d'.lists.progress.list.Some? && d'.lists.progress.stack.Some?
    ensures Open(d')
  {
    assert d'.lists.Get(OnDone) == d.lists.Get(OnDone) && d'.added.Get(OnDone) == d.added.Get(OnDone) && d'.ran.Get(OnDone) == d.ran.Get(OnDone);
    assert d'.lists.Get(OnFail) == d.lists.Get(OnFail) && d'.added.Get(OnFail) == d.added.Get(OnFail) && d'.ran.Get(OnFail) == d.ran.Get(OnFail);
  }

  lemma StageAtUserTurn<D>(d: Def<D>)
    requires Basic(d) && Settled(d) && UserTurn(d)
    ensures Stage(d) == 3 && !Reacting(d.lists.Get(d.settled.value.0), FrameFor(d.control, d.settled.value.0), d.settled.value.0)
  {
  }

  lemma EnterFrame<D>(d: Def<D>, w: Which, fire: Option<D>)
    requires ControlOk(d.control) && UserTurn(d) && (fire.Some? ==> FrameFor(d.control, w).None?)
    ensures fire.Some? ==>
      && ControlOk(d.control + [Frame(w, fire.value, None)])
      && forall v :: FrameFor(d.control + [Frame(w, fire.value, None)], v) ==
                     if v == w then Some(Frame(w, fire.value, None)) else FrameFor(d.control, v)
  {
    if fire.Some? {
      FramesPush(d.control, Frame(w, fire.value, None));
    }
  }
}
