/**
  Notifications of a deferred over whole runs: they start in the order they were requested,
  and each calls the progress handlers added so far, and later ones while it is the latest,
  once and in order, with its data.
 */
module DeferredNotes {
  import opened Wrappers
  import Callbacks
  import opened Deferred
  import opened DeferredCalls
  import opened DeferredLoop
  import opened DeferredRuns

  // ---------- what the calls ask for ----------

  /** The handlers user code has added to one of the lists. */
  function AddedIn<D>(acts: seq<Act<D>>, w: Which): seq<nat> {
    if acts == [] then []
    else
      var front, act := acts[..|acts| - 1], acts[|acts| - 1];
      AddedIn(front, w) + (if act.Add? && act.which == w && UserTurn(RunAll(front)) then act.ids else [])
  }

  lemma AddedByStep<D>(d: Def<D>, act: Act<D>, w: Which)
    ensures Step(d, act).added.Get(w) == d.added.Get(w) + if act.Add? && act.which == w && UserTurn(d) then act.ids else []
  {
    match act
    case Add(v, ids) =>
    case Fire(v, data) =>
    case Return =>
    case Tick =>
  }

  lemma {:induction false} AddedRemembered<D>(acts: seq<Act<D>>, w: Which)
    ensures RunAll(acts).added.Get(w) == AddedIn(acts, w)
  {
    if acts != [] {
      AddedRemembered(acts[..|acts| - 1], w);
      AddedByStep(RunAll(acts[..|acts| - 1]), acts[|acts| - 1], w);
    }
  }

  /** A request to notify: the data, and how many progress handlers had been added before it. */
  type Note<D> = (D, nat)

  /** The notifications user code requested before anything was settled. */
  function Notified<D>(acts: seq<Act<D>>): seq<Note<D>> {
    if acts == [] then []
    else
      var front, act := acts[..|acts| - 1], acts[|acts| - 1];
      if act.Fire? && act.which == OnProgress && FirstSettling(front).None? && UserTurn(RunAll(front))
      then Notified(front) + [(act.data, |AddedIn(front, OnProgress)|)] else Notified(front)
  }

  function Queued<D>(d: Def<D>): nat {
    if d.lists.progress.stack.Some? then |d.lists.progress.stack.value| else 0
  }

  /** How many requests are waiting for a notification to end; after the settlement, how many were waiting then. */
  function Waiting<D>(acts: seq<Act<D>>): nat {
    if acts == [] then 0
    else if FirstSettling(acts[..|acts| - 1]).Some? then Waiting(acts[..|acts| - 1])
    else Queued(RunAll(acts))
  }

  // ---------- what they come to ----------

  /** The calls of the first n handlers, with one data. */
  function CallsOf<D>(added: seq<nat>, n: nat, data: D): (r: seq<(nat, D)>)
    requires n <= |added|
    ensures |r| == n && forall i :: 0 <= i < n ==> r[i] == (added[i], data)
  {
    seq(n, i requires 0 <= i < n => (added[i], data))
  }

  predicate Within(added: seq<nat>, upto: seq<nat>) {
    forall k :: 0 <= k < |upto| ==> upto[k] <= |added|
  }

  /** For one notification after the other, the calls of the handlers it has reached. */
  function Calls<D>(added: seq<nat>, notes: seq<Note<D>>, upto: seq<nat>): seq<(nat, D)>
    requires |upto| <= |notes| && Within(added, upto)
    decreases |upto|
  {
    if upto == [] then []
    else
      var last := |upto| - 1;
      Calls(added, notes, upto[..last]) + CallsOf(added, upto[last], notes[last].0)
  }

  /** What progress handlers have been called so far: the k-th notification to start has reached the first upto[k] of them. */
  ghost predicate Reached<D>(ran: seq<(nat, D)>, added: seq<nat>, notes: seq<Note<D>>, upto: seq<nat>) {
    && |upto| <= |notes| && Within(added, upto)
    && ran == Calls(added, notes, upto)
    && forall k :: 0 <= k < |upto| - 1 ==> notes[k].1 <= upto[k]
  }

  /** How many handlers the notification in force has called. */
  function Progress<D>(d: Def<D>, offset: nat): int {
    var frame := FrameFor(d.control, OnProgress);
    if frame.Some? then offset + Count(d.lists.progress, frame.value) else |d.added.progress|
  }

  /** The progress list holds the handlers added since some point, and its memory and queue are those requests. */
  ghost predicate Listed<D>(d: Def<D>, notes: seq<Note<D>>, upto: seq<nat>, offset: nat)
    requires |upto| <= |notes|
  {
    var cb := d.lists.progress;
    && (cb.list.None? ==> upto == [] && !cb.fired)
    && (cb.list.Some? ==>
      && offset <= |d.added.progress| && cb.list.value == Users(d.added.progress[offset..])
      && (cb.fired <==> upto != [])
      && (upto != [] ==> cb.memory == Some(notes[|upto| - 1].0) && upto[|upto| - 1] == Progress(d, offset)))
    && (cb.stack.Some? ==>
      && offset == 0 && cb.list.Some? && |upto| + |cb.stack.value| == |notes|
      && (forall j :: 0 <= j < |cb.stack.value| ==> cb.stack.value[j] == notes[|upto| + j].0)
      && (FrameFor(d.control, OnProgress).None? ==> cb.stack.value == []))
  }

  ghost predicate Notifying<D>(d: Def<D>, notes: seq<Note<D>>, waiting: nat, upto: seq<nat>, offset: nat) {
    && Reached(d.ran.progress, d.added.progress, notes, upto)
    && |upto| + waiting == |notes|
    && (forall k :: 0 <= k < |notes| ==> notes[k].1 <= |d.added.progress|)
    && Listed(d, notes, upto, offset)
    && (d.settled.None? ==> d.lists.progress.stack.Some?)
  }

  // ---------- the calls ----------

  lemma {:induction false} CallsGrow<D>(added: seq<nat>, ids: seq<nat>, notes: seq<Note<D>>, more: seq<Note<D>>, upto: seq<nat>)
    requires |upto| <= |notes| && Within(added, upto)
    ensures Within(added + ids, upto) && Calls(added + ids, notes + more, upto) == Calls(added, notes, upto)
    decreases |upto|
  {
    if upto != [] {
      var last := |upto| - 1;
      CallsGrow(added, ids, notes, more, upto[..last]);
      assert CallsOf(added + ids, upto[last], (notes + more)[last].0) == CallsOf(added, upto[last], notes[last].0);
    }
  }

  /** One more handler is called. */
  lemma CallsNext<D>(added: seq<nat>, notes: seq<Note<D>>, upto: seq<nat>)
    requires upto != [] && |upto| <= |notes| && Within(added, upto) && upto[|upto| - 1] < |added|
    ensures var last := |upto| - 1;
      var further := upto[last := upto[last] + 1];
      && Within(added, further)
      && Calls(added, notes, further) == Calls(added, notes, upto) + [(added[upto[last]], notes[last].0)]
  {
    var last := |upto| - 1;
    var further := upto[last := upto[last] + 1];
    assert further[..last] == upto[..last];
    assert CallsOf(added, upto[last] + 1, notes[last].0) == CallsOf(added, upto[last], notes[last].0) + [(added[upto[last]], notes[last].0)];
  }

  /** A notification that has called nobody yet. */
  lemma CallsStart<D>(added: seq<nat>, notes: seq<Note<D>>, upto: seq<nat>)
    requires |upto| < |notes| && Within(added, upto)
    ensures Within(added, upto + [0]) && Calls(added, notes, upto + [0]) == Calls(added, notes, upto)
  {
    assert (upto + [0])[..|upto|] == upto;
  }

  // ---------- steps that leave the progress list alone ----------

  ghost predicate ProgressAlone<D>(d: Def<D>, d': Def<D>) {
    && d'.lists.progress == d.lists.progress && d'.added.progress == d.added.progress && d'.ran.progress == d.ran.progress
    && FrameFor(d'.control, OnProgress) == FrameFor(d.control, OnProgress)
    && (d'.settled.None? ==> d.settled.None?)
  }

  lemma AloneKeeps<D>(d: Def<D>, d': Def<D>, notes: seq<Note<D>>, waiting: nat, upto: seq<nat>, offset: nat)
    requires Notifying(d, notes, waiting, upto, offset) && ProgressAlone(d, d')
    ensures Notifying(d', notes, waiting, upto, offset)
  {
  }

  lemma EnterAlone<D>(d: Def<D>, w: Which, fire: Option<D>)
    requires w != OnProgress
    ensures FrameFor(Enter(d, w, fire).control, OnProgress) == FrameFor(d.control, OnProgress)
    ensures Enter(d, w, fire).lists.progress == d.lists.progress
  {
    if fire.Some? {
      FrameForPush(d.control, Frame(w, fire.value, None), OnProgress);
    }
  }

  lemma OtherAddAlone<D>(d: Def<D>, w: Which, ids: seq<nat>)
    requires w != OnProgress
    ensures ProgressAlone(d, Step(d, Add(w, ids)))
  {
    var (cb, fire) := Callbacks.Add(d.lists.Get(w), Users(ids));
    EnterAlone(Logged(SetList(d, w, cb), w, ids), w, fire);
  }

  lemma OtherFireAlone<D>(d: Def<D>, w: Which, data: D)
    requires w != OnProgress
    ensures ProgressAlone(d, Step(d, Fire(w, data)))
  {
    var (cb, fire) := Callbacks.Request(d.lists.Get(w), data);
    EnterAlone(FirstSettlement(SetList(d, w, cb), w, data), w, fire);
  }

  // ---------- adding progress handlers ----------

  lemma AddNotes<D>(d: Def<D>, ids: seq<nat>, notes: seq<Note<D>>, waiting: nat, upto: seq<nat>, offset: nat)
    requires Inv(d) && UserTurn(d) && Notifying(d, notes, waiting, upto, offset)
    ensures Notifying(Step(d, Add(OnProgress, ids)), notes, waiting, upto, offset)
  {
    var added := d.added.progress;
    CallsGrow(added, ids, notes, [], upto);
    assert notes + [] == notes;
    if d.lists.progress.list.Some? {
      PushAllAppends(d.lists.progress.list.value, Users(ids));
      UsersAppend(added[offset..], ids);
      assert (added + ids)[offset..] == added[offset..] + ids;
      AddMoves(d, ids);
    }
  }

  /** Adding to the progress list at rest replays the notification in force to the new handlers; otherwise the list just grows. */
  lemma AddMoves<D>(d: Def<D>, ids: seq<nat>)
    requires Inv(d) && UserTurn(d) && d.lists.progress.list.Some?
    ensures var d', cb, frame := Step(d, Add(OnProgress, ids)), d.lists.progress, FrameFor(d.control, OnProgress);
      var list := cb.list.value + Users(ids);
      && d'.added.progress == d.added.progress + ids && d'.ran.progress == d.ran.progress && d'.settled == d.settled
      && d'.lists.progress.list == Some(list) && d'.lists.progress.stack == cb.stack
      && d'.lists.progress.fired == cb.fired && d'.lists.progress.memory == cb.memory
      && (if frame.None? && cb.memory.Some? then
            && FrameFor(d'.control, OnProgress) == Some(Frame(OnProgress, cb.memory.value, None))
            && d'.lists.progress.firingIndex == |cb.list.value|
          else FrameFor(d'.control, OnProgress) == frame && d'.lists.progress.firingIndex == cb.firingIndex)
  {
    PushAllAppends(d.lists.progress.list.value, Users(ids));
    var (cb', fire) := Callbacks.Add(d.lists.progress, Users(ids));
    if fire.Some? {
      FrameForPush(d.control, Frame(OnProgress, fire.value, None), OnProgress);
    }
  }

  // ---------- notify ----------

  /** On an unsettled deferred whose progress list is at rest, notifying starts a fire of all handlers added so far. */
  lemma NotifyStarts<D>(d: Def<D>, data: D)
    requires Inv(d) && UserTurn(d) && d.settled.None? && FrameFor(d.control, OnProgress).None?
    ensures var d' := Step(d, Fire(OnProgress, data));
      && d'.control == d.control + [Frame(OnProgress, data, None)]
      && FrameFor(d'.control, OnProgress) == Some(Frame(OnProgress, data, None))
      && d'.lists.progress == d.lists.progress.(memory := Some(data), fired := true, firing := true, firingStart := 0, firingIndex := 0,
                                                firingLength := |d.lists.progress.list.value|)
      && d'.lists.done == d.lists.done && d'.lists.fail == d.lists.fail
      && d'.settled.None? && d'.added == d.added && d'.ran == d.ran
  {
    FrameForPush(d.control, Frame(OnProgress, data, None), OnProgress);
    assert Callbacks.Request(d.lists.progress, data) == (d.lists.progress, Some(data));
  }

  /** While a notification is going on, the next one is put at the end of the queue, and nothing else happens. */
  lemma NotifyQueues<D>(d: Def<D>, data: D)
    requires Inv(d) && UserTurn(d) && d.settled.None? && FrameFor(d.control, OnProgress).Some?
    ensures d.lists.progress.stack.Some?
    ensures Step(d, Fire(OnProgress, data)) ==
            SetList(d, OnProgress, d.lists.progress.(stack := Some(d.lists.progress.stack.value + [data])))
  {
  }

  lemma NotifyNotes<D>(d: Def<D>, data: D, notes: seq<Note<D>>, waiting: nat, upto: seq<nat>, offset: nat) returns (upto': seq<nat>)
    requires Inv(d) && UserTurn(d) && d.settled.None? && Notifying(d, notes, waiting, upto, offset)
    ensures var d' := Step(d, Fire(OnProgress, data));
      Notifying(d', notes + [(data, |d.added.progress|)], Queued(d'), upto', offset)
  {
    MoreNotes(d.ran.progress, d.added.progress, notes, (data, |d.added.progress|), upto);
    if FrameFor(d.control, OnProgress).None? {
      StartNotes(d, data, notes, waiting, upto, offset);
      upto' := upto + [0];
    } else {
      QueueNotes(d, data, notes, waiting, upto, offset);
      upto' := upto;
    }
  }

  lemma MoreNotes<D>(ran: seq<(nat, D)>, added: seq<nat>, notes: seq<Note<D>>, note: Note<D>, upto: seq<nat>)
    requires Reached(ran, added, notes, upto)
    ensures Reached(ran, added, notes + [note], upto)
  {
    CallsGrow(added, [], notes, [note], upto);
    assert added + [] == added;
  }

  lemma StartNotes<D>(d: Def<D>, data: D, notes: seq<Note<D>>, waiting: nat, upto: seq<nat>, offset: nat)
    requires Inv(d) && UserTurn(d) && d.settled.None? && FrameFor(d.control, OnProgress).None?
    requires Notifying(d, notes, waiting, upto, offset)
    requires Reached(d.ran.progress, d.added.progress, notes + [(data, |d.added.progress|)], upto)
    ensures Notifying(Step(d, Fire(OnProgress, data)), notes + [(data, |d.added.progress|)], 0, upto + [0], offset)
    ensures Queued(Step(d, Fire(OnProgress, data))) == 0
  {
    NotifyStarts(d, data);
    CallsStart(d.added.progress, notes + [(data, |d.added.progress|)], upto);
  }

  lemma QueueNotes<D>(d: Def<D>, data: D, notes: seq<Note<D>>, waiting: nat, upto: seq<nat>, offset: nat)
    requires Inv(d) && UserTurn(d) && d.settled.None? && FrameFor(d.control, OnProgress).Some?
    requires Notifying(d, notes, waiting, upto, offset)
    requires Reached(d.ran.progress, d.added.progress, notes + [(data, |d.added.progress|)], upto)
    ensures var d' := Step(d, Fire(OnProgress, data)); Notifying(d', notes + [(data, |d.added.progress|)], Queued(d'), upto, offset)
  {
    NotifyQueues(d, data);
  }

  // ---------- the firing loop ----------

  lemma ReturnNotes<D>(d: Def<D>, notes: seq<Note<D>>, waiting: nat, upto: seq<nat>, offset: nat)
    requires Inv(d) && UserTurn(d) && d.control != [] && Notifying(d, notes, waiting, upto, offset)
    ensures Notifying(Step(d, Return), notes, waiting, upto, offset)
  {
    ReturnBasics(d);
    var top := d.control[|d.control| - 1];
    if top.which != OnProgress {
      assert d.lists.Get(OnProgress) == Step(d, Return).lists.Get(OnProgress);
      AloneKeeps(d, Step(d, Return), notes, waiting, upto, offset);
    }
  }

  /** The loop of a notification calls the next handler. */
  lemma CallNotes<D>(d: Def<D>, notes: seq<Note<D>>, waiting: nat, upto: seq<nat>, offset: nat) returns (upto': seq<nat>)
    requires Inv(d) && !UserTurn(d) && d.control[|d.control| - 1].which == OnProgress && Callbacks.HasNext(d.lists.progress)
    requires Notifying(d, notes, waiting, upto, offset)
    ensures Notifying(Step(d, Tick), notes, waiting, upto', offset)
  {
    var added := d.added.progress;
    FramesPop(d.control);
    var last := |upto| - 1;
    var id := added[upto[last]];
    assert d.lists.progress.list.value[d.lists.progress.firingIndex] == User(added[offset..][d.lists.progress.firingIndex]) == User(id);
    CallMoves(d, id);
    CallsNext(added, notes, upto);
    upto' := upto[last := upto[last] + 1];
  }

  lemma CallMoves<D>(d: Def<D>, id: nat)
    requires Inv(d) && !UserTurn(d) && d.control[|d.control| - 1].which == OnProgress && Callbacks.HasNext(d.lists.progress)
    requires var cb := d.lists.progress; 0 <= cb.firingIndex < |cb.list.value| && cb.list.value[cb.firingIndex] == User(id)
    ensures var d', top := Step(d, Tick), d.control[|d.control| - 1];
      && d'.lists == d.lists && d'.added == d.added && d'.settled == d.settled
      && d'.ran.progress == d.ran.progress + [(id, top.data)]
      && FrameFor(d.control, OnProgress) == Some(top) && FrameFor(d'.control, OnProgress) == Some(top.(inside := Some(id)))
  {
    FramesPop(d.control);
    FrameForTop(d.control, d.control[|d.control| - 1].(inside := Some(id)), OnProgress);
  }

  /** A notification has called everybody, and none is waiting. */
  lemma RestNotes<D>(d: Def<D>, notes: seq<Note<D>>, waiting: nat, upto: seq<nat>, offset: nat) returns (offset': nat)
    requires Inv(d) && !UserTurn(d) && d.control[|d.control| - 1].which == OnProgress && !Callbacks.HasNext(d.lists.progress)
    requires Callbacks.Finish(d.lists.progress).1.None? && Notifying(d, notes, waiting, upto, offset)
    ensures Notifying(Step(d, Tick), notes, waiting, upto, offset')
  {
    PopProgress(d);
    FramesPop(d.control);
    offset' := if d.lists.progress.stack.Some? then offset else |d.added.progress|;
  }

  /** It has called everybody, and the next one starts. */
  lemma NextNotes<D>(d: Def<D>, notes: seq<Note<D>>, waiting: nat, upto: seq<nat>, offset: nat) returns (upto': seq<nat>)
    requires Inv(d) && !UserTurn(d) && d.control[|d.control| - 1].which == OnProgress && !Callbacks.HasNext(d.lists.progress)
    requires Callbacks.Finish(d.lists.progress).1.Some? && Notifying(d, notes, waiting, upto, offset)
    ensures var d' := Step(d, Tick); Notifying(d', notes, Queued(d'), upto', offset)
  {
    PopProgress(d);
    FramesPop(d.control);
    var (cb, fire) := Callbacks.Finish(d.lists.progress);
    var popped := Pop(SetList(d, OnProgress, cb));
    FrameForPush(popped.control, Frame(OnProgress, fire.value, None), OnProgress);
    CallsStart(d.added.progress, notes, upto);
    upto' := upto + [0];
  }

  /** The winning list's loop touches the progress list only when it locks it; what is waiting then never starts. */
  lemma WinnerNotes<D>(d: Def<D>, notes: seq<Note<D>>, waiting: nat, upto: seq<nat>, offset: nat)
    requires Inv(d) && !UserTurn(d) && d.control[|d.control| - 1].which != OnProgress
    requires Notifying(d, notes, waiting, upto, offset)
    ensures Notifying(Step(d, Tick), notes, waiting, upto, offset)
  {
    FramesPop(d.control);
    var w := d.settled.value.0;
    if !Callbacks.HasNext(d.lists.Get(w)) {
      PopWinner(d);
      assert Step(d, Tick).lists.Get(OnProgress) == d.lists.Get(OnProgress);
      AloneKeeps(d, Step(d, Tick), notes, waiting, upto, offset);
    } else if Stage(d) == 3 {
      WinnerCallAlone(d);
      AloneKeeps(d, Step(d, Tick), notes, waiting, upto, offset);
    } else {
      ReactStep(d);
      ReactNotes(d, notes, waiting, upto, offset);
    }
  }

  lemma WinnerCallAlone<D>(d: Def<D>)
    requires Inv(d) && !UserTurn(d) && d.settled.Some? && d.control[|d.control| - 1].which == d.settled.value.0
    requires Callbacks.HasNext(d.lists.Get(d.settled.value.0)) && Stage(d) == 3
    ensures ProgressAlone(d, Step(d, Tick))
  {
    var (w, data) := d.settled.value;
    var top := d.control[|d.control| - 1];
    FramesPop(d.control);
    NextOnWinner(d.lists.Get(w), top, w, data, d.added.Get(w), d.ran.Get(w));
    FrameForTop(d.control, top.(inside := Some(d.added.Get(w)[|d.ran.Get(w)|])), OnProgress);
  }

  lemma ReactNotes<D>(d: Def<D>, notes: seq<Note<D>>, waiting: nat, upto: seq<nat>, offset: nat)
    requires AtReaction(d) && Notifying(d, notes, waiting, upto, offset)
    requires var w := d.settled.value.0;
      0 <= Stage(d) && Step(d, Tick) == SetList(React(d, Internals(w)[Stage(d)]), w, d.lists.Get(w).(firingIndex := Stage(d) + 1))
    ensures Notifying(Step(d, Tick), notes, waiting, upto, offset)
  {
    if Stage(d) < 2 {
      assert ProgressAlone(d, Step(d, Tick));
      AloneKeeps(d, Step(d, Tick), notes, waiting, upto, offset);
    }
  }

  /** A loop with user handlers left calls the next one, with the data of its fire. */
  lemma LoopCalls<D>(d: Def<D>) returns (id: nat)
    requires Inv(d) && !UserTurn(d) && !AtReaction(d)
    requires Callbacks.HasNext(d.lists.Get(d.control[|d.control| - 1].which))
    ensures var d', top := Step(d, Tick), d.control[|d.control| - 1];
      var w := top.which;
      && d.lists.Get(w).list.value[d.lists.Get(w).firingIndex] == User(id)
      && d'.control == d.control[|d.control| - 1 := top.(inside := Some(id))]
      && d'.ran.Get(w) == d.ran.Get(w) + [(id, top.data)] && d'.lists == d.lists
  {
    var top := d.control[|d.control| - 1];
    FramesPop(d.control);
    var cb := d.lists.Get(top.which);
    if top.which != OnProgress {
      var (w, data) := d.settled.value;
      NextOnWinner(cb, top, w, data, d.added.Get(w), d.ran.Get(w));
    }
    id := cb.list.value[cb.firingIndex].id;
  }

  /** A loop with nobody left ends its fire; if a notification is waiting, the next one starts at once. */
  lemma LoopEnds<D>(d: Def<D>)
    requires Inv(d) && !UserTurn(d)
    requires !Callbacks.HasNext(d.lists.Get(d.control[|d.control| - 1].which))
    ensures var d', top, rest := Step(d, Tick), d.control[|d.control| - 1], d.control[..|d.control| - 1];
      var stack := d.lists.Get(top.which).stack;
      if stack.Some? && stack.value != [] then
        d'.control == rest + [Frame(top.which, stack.value[0], None)] && d'.lists.Get(top.which).stack == Some(stack.value[1..])
      else d'.control == rest
  {
    FramesPop(d.control);
  }

  // ---------- whole runs ----------

  lemma TickNotes<D>(d: Def<D>, notes: seq<Note<D>>, waiting: nat, upto: seq<nat>, offset: nat) returns (upto': seq<nat>, offset': nat)
    requires Inv(d) && !UserTurn(d) && Notifying(d, notes, waiting, upto, offset)
    ensures var d' := Step(d, Tick); Notifying(d', notes, if d.settled.Some? then waiting else Queued(d'), upto', offset')
  {
    upto', offset' := upto, offset;
    FramesPop(d.control);
    if d.control[|d.control| - 1].which != OnProgress {
      WinnerNotes(d, notes, waiting, upto, offset);
    } else if Callbacks.HasNext(d.lists.progress) {
      upto' := CallNotes(d, notes, waiting, upto, offset);
    } else if Callbacks.Finish(d.lists.progress).1.None? {
      offset' := RestNotes(d, notes, waiting, upto, offset);
    } else {
      upto' := NextNotes(d, notes, waiting, upto, offset);
    }
  }

  lemma StepNotes<D>(d: Def<D>, act: Act<D>, notes: seq<Note<D>>, waiting: nat, upto: seq<nat>, offset: nat)
    returns (upto': seq<nat>, offset': nat)
    requires Inv(d) && Notifying(d, notes, waiting, upto, offset)
    ensures var d' := Step(d, act);
      var noted := act.Fire? && act.which == OnProgress && d.settled.None? && UserTurn(d);
      Notifying(d', if noted then notes + [(act.data, |d.added.progress|)] else notes,
                if d.settled.Some? then waiting else Queued(d'), upto', offset')
  {
    upto', offset' := upto, offset;
    if act.Fire? && act.which == OnProgress && d.settled.None? && UserTurn(d) {
      upto' := NotifyNotes(d, act.data, notes, waiting, upto, offset);
    } else if UserTurn(d) {
      CallerNotes(d, act, notes, waiting, upto, offset);
    } else if act.Tick? {
      upto', offset' := TickNotes(d, notes, waiting, upto, offset);
    }
  }

  /** Any other call by user code starts no notification and adds none to the queue. */
  lemma CallerNotes<D>(d: Def<D>, act: Act<D>, notes: seq<Note<D>>, waiting: nat, upto: seq<nat>, offset: nat)
    requires Inv(d) && UserTurn(d) && Notifying(d, notes, waiting, upto, offset)
    requires act.Fire? && act.which == OnProgress ==> d.settled.Some?
    ensures Notifying(Step(d, act), notes, waiting, upto, offset)
  {
    match act
    case Add(w, ids) =>
      if w == OnProgress {
        AddNotes(d, ids, notes, waiting, upto, offset);
      } else {
        OtherAddAlone(d, w, ids);
        AloneKeeps(d, Step(d, act), notes, waiting, upto, offset);
      }
    case Fire(w, data) =>
      if w == OnProgress {
        FireAfterSettlement(d, w, data);
      } else {
        OtherFireAlone(d, w, data);
        AloneKeeps(d, Step(d, act), notes, waiting, upto, offset);
      }
    case Return => if d.control != [] { ReturnNotes(d, notes, waiting, upto, offset); }
    case Tick =>
  }

  lemma {:induction false} EveryRunNotes<D>(acts: seq<Act<D>>) returns (upto: seq<nat>, offset: nat)
    ensures Notifying(RunAll(acts), Notified(acts), Waiting(acts), upto, offset)
  {
    if acts == [] {
      upto, offset := [], 0;
      assert Users([]) == [];
    } else {
      var front, act := acts[..|acts| - 1], acts[|acts| - 1];
      upto, offset := EveryRunNotes(front);
      EveryRunKeeps(front);
      FirstSettlingRemembered(front);
      AddedRemembered(front, OnProgress);
      upto, offset := StepNotes(RunAll(front), act, Notified(front), Waiting(front), upto, offset);
    }
  }

  /**
    Notifications start in the order user code requested them, all but those that were
    waiting for another one when the deferred was settled.  Each calls the progress handlers
    from the first one on, each once and in the order they were added, with its data.
    Between two fires each has called at least the handlers added before it was requested,
    and the latest one has called every handler there is.
   */
  lemma NotifiesInOrder<D>(acts: seq<Act<D>>)
    ensures var d, added, notes := RunAll(acts), AddedIn(acts, OnProgress), Notified(acts);
      exists upto: seq<nat> ::
        && Reached(d.ran.progress, added, notes, upto) && |upto| + Waiting(acts) == |notes|
        && (FrameFor(d.control, OnProgress).None? && upto != [] ==> upto[|upto| - 1] == |added|)
    ensures var d := RunAll(acts); d.settled.None? && d.control == [] ==> Waiting(acts) == 0
  {
    var upto, offset := EveryRunNotes(acts);
    EveryRunKeeps(acts);
    AddedRemembered(acts, OnProgress);
    var d := RunAll(acts);
    assert Reached(d.ran.progress, AddedIn(acts, OnProgress), Notified(acts), upto);
  }

  /** After the settlement no request is added and none of those waiting starts. */
  lemma {:induction false} SettledNotes<D>(acts: seq<Act<D>>, more: seq<Act<D>>)
    requires FirstSettling(acts).Some?
    ensures FirstSettling(acts + more).Some? && Notified(acts + more) == Notified(acts) && Waiting(acts + more) == Waiting(acts)
    decreases |more|
  {
    if more == [] {
      assert acts + more == acts;
    } else {
      SettledNotes(acts, more[..|more| - 1]);
      assert (acts + more)[..|acts + more| - 1] == acts + more[..|more| - 1];
    }
  }

  /** progress(7), notify(1), and while 7 runs, notify(2) and resolve(3). */
  function NotifyThenResolve(): seq<Act<nat>> {
    [Add(OnProgress, [7]), Fire(OnProgress, 1), Tick, Fire(OnProgress, 2), Fire(OnDone, 3)]
  }

  /** Then the second notification was waiting when the deferred was settled, and whatever happens later it is never seen. */
  lemma DroppedNote(more: seq<Act<nat>>)
    ensures var acts := NotifyThenResolve() + more;
      Notified(acts) == [(1, 1), (2, 1)] && Waiting(acts) == 1 && forall call :: call in RunAll(acts).ran.progress ==> call.1 == 1
  {
    var acts := NotifyThenResolve();
    NotifyThenResolves();
    SettledNotes(acts, more);
    var upto, offset := EveryRunNotes(acts + more);
    assert upto[..0] == [];
    assert Calls(RunAll(acts + more).added.progress, Notified(acts), upto) == [] + CallsOf(RunAll(acts + more).added.progress, upto[0], 1);
  }

  lemma NotifyThenResolves()
    ensures var acts := NotifyThenResolve();
      FirstSettling(acts).Some? && Notified(acts) == [(1, 1), (2, 1)] && Waiting(acts) == 1
  {
    var acts := NotifyThenResolve();
    NotifiesTwice();
    assert acts[..4] == [Add(OnProgress, [7]), Fire(OnProgress, 1), Tick, Fire(OnProgress, 2)];
    assert FirstSettling(acts) == Some((OnDone, 3));
    FirstSettlingRemembered(acts);
    EveryRunKeeps(acts[..4]);
    OtherFireAlone(RunAll(acts[..4]), OnDone, 3);
  }

  lemma NotifiesTwice()
    ensures var acts: seq<Act<nat>> := [Add(OnProgress, [7]), Fire(OnProgress, 1), Tick, Fire(OnProgress, 2)];
      && FirstSettling(acts).None? && Notified(acts) == [(1, 1), (2, 1)] && UserTurn(RunAll(acts)) && Queued(RunAll(acts)) == 1
  {
    var acts: seq<Act<nat>> := [Add(OnProgress, [7]), Fire(OnProgress, 1), Tick, Fire(OnProgress, 2)];
    NotifiesOnce();
    assert acts[..3] == [Add(OnProgress, [7]), Fire(OnProgress, 1), Tick];
    FirstSettlingRemembered(acts[..3]);
    EveryRunKeeps(acts[..3]);
    NotifyQueues(RunAll(acts[..3]), 2);
    AddedByStep(RunAll(acts[..2]), Tick, OnProgress);
  }

  lemma NotifiesOnce()
    ensures var acts: seq<Act<nat>> := [Add(OnProgress, [7]), Fire(OnProgress, 1), Tick];
      var d := RunAll(acts);
      && FirstSettling(acts).None? && Notified(acts) == [(1, 1)] && AddedIn(acts, OnProgress) == [7]
      && d.control == [Frame(OnProgress, 1, Some(7))] && d.lists.progress.stack == Some([])
  {
    var acts: seq<Act<nat>> := [Add(OnProgress, [7]), Fire(OnProgress, 1), Tick];
    var two := StartsOne();
    assert acts[..2] == [Add(OnProgress, [7]), Fire(OnProgress, 1)];
  }

  lemma StartsOne() returns (two: Def<nat>)
    ensures var acts: seq<Act<nat>> := [Add(OnProgress, [7]), Fire(OnProgress, 1)];
      && two == RunAll(acts) && two.control == [Frame(OnProgress, 1, None)]
      && two.lists.progress.list == Some([User(7)]) && two.lists.progress.stack == Some([])
      && two.lists.progress.firingIndex == 0 && two.lists.progress.firingLength == 1
      && FirstSettling(acts).None? && Notified(acts) == [(1, 1)] && AddedIn(acts, OnProgress) == [7]
  {
    var acts: seq<Act<nat>> := [Add(OnProgress, [7]), Fire(OnProgress, 1)];
    var one := AddsOne();
    assert acts[..1] == [Add(OnProgress, [7])];
    NotifyStarts(one, 1);
    two := RunAll(acts);
  }

  lemma AddsOne() returns (one: Def<nat>)
    ensures var acts: seq<Act<nat>> := [Add(OnProgress, [7])];
      && one == RunAll(acts) && Inv(one) && one.control == [] && one.settled.None?
      && one.lists.progress.list == Some([User(7)]) && one.lists.progress.stack == Some([])
      && FirstSettling(acts).None? && Notified(acts) == [] && AddedIn(acts, OnProgress) == [7]
  {
    var acts: seq<Act<nat>> := [Add(OnProgress, [7])];
    assert acts[..0] == [];
    one := RunAll(acts);
    assert RunAll<nat>([]) == New<nat>();
    PushAllAppends([], Users([7]));
    assert [] + Users([7]) == [User(7)];
    EveryRunKeeps(acts);
  }
}
