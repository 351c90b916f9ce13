/**
  Hooks of any kind: as long as every clean-up ends on its own element's entry or on none,
  the ids stay sound, and hooks that spare the elements being cleaned see to that.
 */
module DataHooks {
  import opened Wrappers
  import opened Seqs
  import opened DataIds

  // ---------- any hooks at all ----------

  /** As long as every clean-up ended well, the ids are sound. */
  ghost predicate Good(s: State) {
    s.fine ==> Sound(s)
  }

  lemma {:induction false} OpsGood(s: State, ops: seq<Op>)
    requires Good(s)
    ensures Good(RunOps(s, ops))
    decreases OpsSize(ops), 1, |ops|
  {
    if ops != [] {
      OpGood(s, ops[0]);
      OpsGood(RunOp(s, ops[0]), ops[1..]);
    }
  }

  lemma {:induction false} OpGood(s: State, op: Op)
    requires Good(s)
    ensures Good(RunOp(s, op))
    decreases OpSize(op), 0, 0
  {
    match op
    case AllocateFor(e) => if s.fine { AllocatedSound(s, e); }
    case StoreFor(e, name, pvt) => if s.fine { StoredSound(s, e, name, pvt); }
    case RemoveFrom(e, t) => RemovedGood(s, e, t);
    case Bind(e, kind, newHandler) => if s.fine { BoundSound(s, e, kind, newHandler); }
    case Unbind(e, kind, hook) => UnboundGood(s, e, kind, hook);
    case Clean(e, hooks) => CleanedGood(s, e, hooks);
  }

  lemma RemovedGood(s: State, e: Elem, t: Target)
    requires Good(s)
    ensures Good(Removed(s, e, t))
  {
    if s.fine {
      RemovedSound(s, e, t);
    }
  }

  lemma SameIdsGood(s: State, r: State)
    requires Good(s) && SameIds(s, r) && EventsKept(s, r)
    ensures Good(r)
  {
    if s.fine {
      SameIdsSound(s, r);
    }
  }

  lemma {:induction false} TornDownGood(s: State, ref: Ref, kind: string, hook: seq<Op>)
    requires Good(s)
    ensures Good(TornDown(s, ref, kind, hook))
    decreases OpsSize(hook), 2, 0
  {
    if HasHandlers(RecordAt(s, ref), kind) {
      var spliced := Spliced(s, ref, kind);
      SameIdsGood(s, spliced);
      OpsGood(spliced, hook);
      var t := if kind in s.special then RunOps(spliced, hook) else spliced;
      SameIdsGood(t, Forgotten(t, ref, kind));
    }
  }

  lemma {:induction false} UnboundGood(s: State, e: Elem, kind: string, hook: seq<Op>)
    requires Good(s)
    ensures Good(Unbound(s, e, kind, hook))
    decreases OpsSize(hook), 3, 0
  {
    if e in s.expando && HasEvents(s, s.expando[e]) {
      var id := s.expando[e];
      var ref := s.cache[id].events.value;
      TornDownGood(s, ref, kind, hook);
      var t := TornDown(s, ref, kind, hook);
      var dropped := HandleDropped(t, id, s.cache[id].stamp);
      SameIdsGood(t, dropped);
      RemovedGood(dropped, e, PrivateKey("events"));
    }
  }

  lemma {:induction false} KindsGood(s: State, e: Elem, ref: Ref, kinds: seq<string>, hooks: seq<Hook>)
    requires Good(s)
    ensures Good(KindsCleaned(s, e, ref, kinds, hooks))
    decreases HooksSize(hooks), 4, |kinds|
  {
    if kinds != [] {
      HooksSplit(hooks);
      UnboundGood(s, e, kinds[0], First(hooks));
      var t := if kinds[0] in s.special && kinds[0] in RecordAt(s, ref).kinds then Unbound(s, e, kinds[0], First(hooks)) else s;
      KindsGood(t, e, ref, kinds[1..], Rest(hooks));
    }
  }

  lemma {:induction false} HooksGood(s: State, e: Elem, hooks: seq<Hook>)
    requires Good(s)
    ensures Good(HooksDone(s, e, hooks))
    decreases HooksSize(hooks), 5, 0
  {
    if e in s.expando && HasEvents(s, s.expando[e]) {
      var ref := s.cache[s.expando[e]].events.value;
      KindsGood(s, e, ref, RecordAt(s, ref).kinds, hooks);
    }
  }

  lemma {:induction false} CleanedGood(s: State, e: Elem, hooks: seq<Hook>)
    requires Good(s)
    ensures Good(Cleaned(s, e, hooks))
    decreases HooksSize(hooks), 6, 0
  {
    if e in s.expando {
      HooksGood(s, e, hooks);
      var mid := HooksDone(s, e, hooks);
      if mid.fine {
        ReleasedConsistent(mid, e, s.expando[e]);
      }
    }
  }

  /**
    After any hooks, a clean-up leaves the ids consistent exactly when the entry under the
    id read at the start is gone or still belongs to the element.
   */
  lemma CleanedConsistent(s: State, e: Elem, hooks: seq<Hook>)
    requires Sound(s) && e in s.expando && HooksDone(s, e, hooks).fine
    ensures var mid, id := HooksDone(s, e, hooks), s.expando[e];
      Sound(mid) && (Consistent(Cleaned(s, e, hooks)) <==> id !in mid.cache || Own(mid, e, id))
  {
    HooksGood(s, e, hooks);
    ReleasedConsistent(HooksDone(s, e, hooks), e, s.expando[e]);
  }

  // ---------- hooks that spare the elements being cleaned ----------

  /**
    The operation neither cleans a busy element, nor takes its events object away, nor adds
    handlers to it; and the hooks it calls spare its own element in the same way.
   */
  predicate Spares(op: Op, busy: set<Elem>)
    decreases OpSize(op), 0, 0
  {
    match op
    case AllocateFor(_) => true
    case StoreFor(_, _, _) => true
    case RemoveFrom(e, t) => t == PrivateKey("events") ==> e !in busy
    case Bind(e, _, _) => e !in busy
    case Unbind(e, _, hook) => AllSpare(hook, busy + {e})
    case Clean(e, hooks) => e !in busy && HooksSpare(hooks, busy + {e})
  }

  predicate AllSpare(ops: seq<Op>, busy: set<Elem>)
    decreases OpsSize(ops), 1, |ops|
  {
    ops == [] || (Spares(ops[0], busy) && AllSpare(ops[1..], busy))
  }

  predicate HooksSpare(hooks: seq<Hook>, busy: set<Elem>)
    decreases HooksSize(hooks), 2, |hooks|
  {
    hooks == [] || (AllSpare(hooks[0].ops, busy) && HooksSpare(hooks[1..], busy))
  }

  /** The tear-down hook of a type is running: its handlers are gone, the type is still there. */
  predicate TearsDown(s: State, e: Elem, kind: string) {
    && e in s.expando && HasEvents(s, s.expando[e])
    && var rec := RecordAt(s, s.cache[s.expando[e]].events.value);
    kind in rec.kinds && kind !in rec.live
  }

  /** It goes on running, on the same id and the same events object. */
  predicate Stays(s: State, r: State, e: Elem, kind: string) {
    && TearsDown(s, e, kind) && TearsDown(r, e, kind)
    && r.expando[e] == s.expando[e] && r.cache[r.expando[e]].events == s.cache[s.expando[e]].events
  }

  lemma AllocatedStays(s: State, e: Elem, x: Elem, kind: string)
    requires Sound(s) && TearsDown(s, x, kind)
    ensures Stays(s, Allocated(s, e), x, kind)
  {
    if e !in s.expando {
      AllocatedJoins(s, e);
    }
  }

  lemma StoredStays(s: State, e: Elem, name: string, pvt: bool, x: Elem, kind: string)
    requires Sound(s) && TearsDown(s, x, kind)
    ensures Stays(s, Stored(s, e, name, pvt), x, kind)
  {
    AllocatedStays(s, e, x, kind);
  }

  lemma EventsMadeStays(t: State, id: Id, x: Elem, kind: string)
    requires Separate(t) && TearsDown(t, x, kind) && id in t.cache && t.expando[x] != id
    ensures Stays(t, EventsMade(t, id), x, kind)
  {
  }

  lemma FilledStays(t: State, id: Id, k: string, newHandler: bool, x: Elem, kind: string)
    requires Separate(t) && TearsDown(t, x, kind) && HasEvents(t, id) && t.expando[x] != id
    ensures Stays(t, Filled(t, id, k, newHandler), x, kind)
  {
    assert t.cache[id].events != t.cache[t.expando[x]].events;
  }

  lemma StaysOn(s: State, t: State, r: State, x: Elem, kind: string)
    requires Stays(s, t, x, kind) && Stays(t, r, x, kind)
    ensures Stays(s, r, x, kind)
  {
  }

  lemma DifferentIds(s: State, e: Elem, x: Elem)
    requires Consistent(s) && e in s.expando && x in s.expando && e != x
    ensures s.expando[e] != s.expando[x]
  {
  }

  lemma BoundStays(s: State, e: Elem, k: string, newHandler: bool, x: Elem, kind: string)
    requires Sound(s) && TearsDown(s, x, kind) && e != x
    ensures Stays(s, Bound(s, e, k, newHandler), x, kind)
  {
    var t, w := Allocated(s, e), WithEvents(s, e);
    AllocatedStays(s, e, x, kind);
    AllocatedSound(s, e);
    DifferentIds(t, e, x);
    EventsMadeStays(t, t.expando[e], x, kind);
    WithEventsSound(s, e);
    FilledStays(w, w.expando[e], k, newHandler, x, kind);
    StaysOn(s, t, w, x, kind);
    StaysOn(s, w, Bound(s, e, k, newHandler), x, kind);
  }

  lemma ReleasedStays(s: State, e: Elem, x: Elem, kind: string)
    requires Sound(s) && TearsDown(s, x, kind) && e != x && e in s.expando
    ensures Stays(s, Released(s, e, s.expando[e]), x, kind)
  {
  }

  lemma WithoutStays(s: State, e: Elem, t: Target, x: Elem, kind: string)
    requires Consistent(s) && TearsDown(s, x, kind) && (e != x || t != PrivateKey("events")) && e in s.expando
    ensures Stays(s, Without(s, s.expando[e], t), x, kind)
  {
  }

  lemma RemovedStays(s: State, e: Elem, t: Target, x: Elem, kind: string)
    requires Sound(s) && TearsDown(s, x, kind) && (e != x || t != PrivateKey("events"))
    ensures Stays(s, Removed(s, e, t), x, kind)
  {
    if e in s.expando {
      var w := Without(s, s.expando[e], t);
      WithoutStays(s, e, t, x, kind);
      if e != x {
        WithoutSame(s, s.expando[e], t);
        SameIdsSound(s, w);
        ReleasedStays(w, e, x, kind);
        StaysOn(s, w, Released(w, e, s.expando[e]), x, kind);
      }
    }
  }

  /** The running tear-downs and the elements they belong to. */
  ghost predicate Running(s: State, frames: set<(Elem, string)>, busy: set<Elem>) {
    forall f :: f in frames ==> f.0 in busy && TearsDown(s, f.0, f.1)
  }

  ghost predicate AllStay(s: State, r: State, frames: set<(Elem, string)>) {
    forall f :: f in frames ==> Stays(s, r, f.0, f.1)
  }

  ghost predicate Healthy(s: State) {
    Sound(s) && s.fine
  }

  lemma {:induction false} OpsSpareFrames(s: State, ops: seq<Op>, frames: set<(Elem, string)>, busy: set<Elem>)
    requires Healthy(s) && Running(s, frames, busy) && AllSpare(ops, busy)
    ensures Healthy(RunOps(s, ops)) && AllStay(s, RunOps(s, ops), frames)
    decreases OpsSize(ops), 1, |ops|
  {
    if ops != [] {
      OpSparesFrames(s, ops[0], frames, busy);
      OpsSpareFrames(RunOp(s, ops[0]), ops[1..], frames, busy);
    }
  }

  lemma {:induction false} OpSparesFrames(s: State, op: Op, frames: set<(Elem, string)>, busy: set<Elem>)
    requires Healthy(s) && Running(s, frames, busy) && Spares(op, busy)
    ensures Healthy(RunOp(s, op)) && AllStay(s, RunOp(s, op), frames)
    decreases OpSize(op), 0, 0
  {
    match op
    case Unbind(e, kind, hook) => UnboundSpares(s, e, kind, hook, frames, busy);
    case Clean(e, hooks) => CleanedSpares(s, e, hooks, frames, busy);
    case _ =>
      SimpleSound(s, op);
      forall f | f in frames
        ensures Stays(s, RunOp(s, op), f.0, f.1)
      {
        SimpleStays(s, op, busy, f.0, f.1);
      }
  }

  /** Calls no hooks. */
  predicate Simple(op: Op) {
    !op.Unbind? && !op.Clean?
  }

  lemma SimpleSound(s: State, op: Op)
    requires Healthy(s) && Simple(op)
    ensures Healthy(RunOp(s, op))
  {
    match op
    case AllocateFor(e) => AllocatedSound(s, e);
    case StoreFor(e, name, pvt) => StoredSound(s, e, name, pvt);
    case RemoveFrom(e, t) => RemovedSound(s, e, t);
    case Bind(e, kind, newHandler) => BoundSound(s, e, kind, newHandler);
  }

  lemma SimpleStays(s: State, op: Op, busy: set<Elem>, x: Elem, kind: string)
    requires Sound(s) && Simple(op) && Spares(op, busy) && x in busy && TearsDown(s, x, kind)
    ensures Stays(s, RunOp(s, op), x, kind)
  {
    match op
    case AllocateFor(e) => AllocatedStays(s, e, x, kind);
    case StoreFor(e, name, pvt) => StoredStays(s, e, name, pvt, x, kind);
    case RemoveFrom(e, t) => RemovedStays(s, e, t, x, kind);
    case Bind(e, k, newHandler) => BoundStays(s, e, k, newHandler, x, kind);
  }

  /** While a hook runs, its own element keeps its id and its events object. */
  lemma {:induction false} TornDownSpares(s: State, e: Elem, kind: string, hook: seq<Op>, frames: set<(Elem, string)>, busy: set<Elem>)
    requires Healthy(s) && Running(s, frames, busy) && AllSpare(hook, busy + {e})
    requires e in s.expando && HasEvents(s, s.expando[e])
    ensures var ref := s.cache[s.expando[e]].events.value;
      var t := TornDown(s, ref, kind, hook);
      && Healthy(t) && AllStay(s, t, frames) && Own(t, e, s.expando[e])
    decreases OpsSize(hook), 2, 0
  {
    var ref := s.cache[s.expando[e]].events.value;
    if HasHandlers(RecordAt(s, ref), kind) {
      var spliced := Spliced(s, ref, kind);
      var more := frames + {(e, kind)};
      TearDownBegins(s, e, kind, frames, busy);
      var t := if kind in s.special then RunOps(spliced, hook) else spliced;
      OpsSpareFrames(spliced, hook, more, busy + {e});
      TearDownEnds(s, t, e, kind, frames);
    }
  }

  lemma TearDownBegins(s: State, e: Elem, kind: string, frames: set<(Elem, string)>, busy: set<Elem>)
    requires Healthy(s) && Running(s, frames, busy) && e in s.expando && HasEvents(s, s.expando[e])
    requires HasHandlers(RecordAt(s, s.cache[s.expando[e]].events.value), kind)
    ensures var r := Spliced(s, s.cache[s.expando[e]].events.value, kind);
      Healthy(r) && AllStay(s, r, frames) && Running(r, frames + {(e, kind)}, busy + {e})
  {
    SameIdsSound(s, Spliced(s, s.cache[s.expando[e]].events.value, kind));
  }

  lemma TearDownEnds(s: State, t: State, e: Elem, kind: string, frames: set<(Elem, string)>)
    requires Sound(s) && Healthy(t) && e in s.expando && HasEvents(s, s.expando[e])
    requires HasHandlers(RecordAt(s, s.cache[s.expando[e]].events.value), kind)
    requires var spliced := Spliced(s, s.cache[s.expando[e]].events.value, kind);
      AllStay(s, spliced, frames) && AllStay(spliced, t, frames + {(e, kind)})
    ensures var r := Forgotten(t, s.cache[s.expando[e]].events.value, kind);
      Healthy(r) && AllStay(s, r, frames) && Own(r, e, s.expando[e])
  {
    var ref := s.cache[s.expando[e]].events.value;
    var spliced := Spliced(s, ref, kind);
    SameIdsSound(t, Forgotten(t, ref, kind));
    forall f | f in frames
      ensures Stays(s, Forgotten(t, ref, kind), f.0, f.1)
    {
      assert f in frames + {(e, kind)};
      StaysOn(s, spliced, t, f.0, f.1);
      ForgottenStays(s, t, e, ref, kind, f.0, f.1);
    }
    assert (e, kind) in frames + {(e, kind)};
    assert Stays(spliced, t, e, kind);
  }

  lemma ForgottenStays(s: State, t: State, e: Elem, ref: Ref, kind: string, x: Elem, k: string)
    requires Separate(s) && Consistent(s) && Stays(s, t, x, k)
    requires e in s.expando && HasEvents(s, s.expando[e]) && s.cache[s.expando[e]].events == Some(ref)
    requires HasHandlers(RecordAt(s, ref), kind)
    ensures Stays(s, Forgotten(t, ref, kind), x, k)
  {
    KeepMember(RecordAt(t, ref).kinds, y => y != kind, k);
    assert k in OtherKinds(RecordAt(t, ref).kinds, kind) <==> k in RecordAt(t, ref).kinds && k != kind;
  }

  /** The element no longer has the id, and nobody else has it. */
  predicate Gone(s: State, e: Elem, id: Id) {
    e !in s.expando && id !in s.cache && id in s.deletedIds
  }

  lemma {:induction false} UnboundSpares(s: State, e: Elem, kind: string, hook: seq<Op>, frames: set<(Elem, string)>, busy: set<Elem>)
    requires Healthy(s) && Running(s, frames, busy) && AllSpare(hook, busy + {e})
    ensures var r := Unbound(s, e, kind, hook);
      && Healthy(r) && AllStay(s, r, frames)
      && (e in s.expando ==> Own(r, e, s.expando[e]) || Gone(r, e, s.expando[e]))
      && (e !in s.expando ==> r == s)
    decreases OpsSize(hook), 3, 0
  {
    if e in s.expando && HasEvents(s, s.expando[e]) {
      var id := s.expando[e];
      var ref := s.cache[id].events.value;
      TornDownSpares(s, e, kind, hook, frames, busy);
      var t := TornDown(s, ref, kind, hook);
      if RecordAt(t, ref).kinds == [] {
        LastTypeGone(s, t, e, frames);
      }
    }
  }

  /** The events object is empty, so no tear-down runs on the element, and its events key may go. */
  lemma LastTypeGone(s: State, t: State, e: Elem, frames: set<(Elem, string)>)
    requires Healthy(t) && AllStay(s, t, frames)
    requires e in s.expando && HasEvents(s, s.expando[e]) && Own(t, e, s.expando[e])
    requires RecordAt(t, s.cache[s.expando[e]].events.value).kinds == []
    ensures var id := s.expando[e];
      var r := Removed(HandleDropped(t, id, s.cache[id].stamp), e, PrivateKey("events"));
      Healthy(r) && AllStay(s, r, frames) && (Own(r, e, id) || Gone(r, e, id))
  {
    var id := s.expando[e];
    var d := HandleDropped(t, id, s.cache[id].stamp);
    HandleSame(t, id, s.cache[id].stamp);
    SameIdsSound(t, d);
    RemovedSound(d, e, PrivateKey("events"));
    LastTypeAllStay(s, t, e, s.cache[id].stamp, frames);
    GoneOrOwn(d, e);
  }

  lemma HandleSame(t: State, id: Id, stamp: nat)
    ensures SameIds(t, HandleDropped(t, id, stamp)) && EventsKept(t, HandleDropped(t, id, stamp))
  {
  }

  lemma LastTypeAllStay(s: State, t: State, e: Elem, stamp: nat, frames: set<(Elem, string)>)
    requires AllStay(s, t, frames) && e in s.expando && HasEvents(s, s.expando[e]) && Own(t, e, s.expando[e])
    requires Sound(HandleDropped(t, s.expando[e], stamp))
    requires RecordAt(t, s.cache[s.expando[e]].events.value).kinds == []
    ensures AllStay(s, Removed(HandleDropped(t, s.expando[e], stamp), e, PrivateKey("events")), frames)
  {
    var d := HandleDropped(t, s.expando[e], stamp);
    forall f | f in frames
      ensures Stays(s, Removed(d, e, PrivateKey("events")), f.0, f.1)
    {
      assert Stays(s, t, f.0, f.1) && f.0 != e;
      LastTypeStays(t, d, e, stamp, f.0, f.1);
      StaysOn(s, t, Removed(d, e, PrivateKey("events")), f.0, f.1);
    }
  }

  lemma LastTypeStays(t: State, d: State, e: Elem, stamp: nat, x: Elem, kind: string)
    requires Sound(d) && TearsDown(t, x, kind) && e in t.expando && x != e && d == HandleDropped(t, t.expando[e], stamp)
    ensures Stays(t, Removed(d, e, PrivateKey("events")), x, kind)
  {
    HandleStays(t, t.expando[e], stamp, x, kind);
    RemovedStays(d, e, PrivateKey("events"), x, kind);
    StaysOn(t, d, Removed(d, e, PrivateKey("events")), x, kind);
  }

  lemma HandleStays(t: State, id: Id, stamp: nat, x: Elem, kind: string)
    requires TearsDown(t, x, kind)
    ensures Stays(t, HandleDropped(t, id, stamp), x, kind)
  {
  }

  lemma GoneOrOwn(d: State, e: Elem)
    requires e in d.expando && d.expando[e] in d.cache
    ensures var r := Removed(d, e, PrivateKey("events")); Own(r, e, d.expando[e]) || Gone(r, e, d.expando[e])
  {
    var w := Without(d, d.expando[e], PrivateKey("events"));
    var r := Released(w, e, d.expando[e]);
    assert r.deletedIds[|w.deletedIds|] == d.expando[e];
  }

  lemma {:induction false} KindsSpare(s: State, e: Elem, id: Id, ref: Ref, kinds: seq<string>, hooks: seq<Hook>, frames: set<(Elem, string)>, busy: set<Elem>)
    requires Healthy(s) && Running(s, frames, busy) && HooksSpare(hooks, busy + {e})
    requires Own(s, e, id) || Gone(s, e, id)
    ensures var r := KindsCleaned(s, e, ref, kinds, hooks);
      Healthy(r) && AllStay(s, r, frames) && (Own(r, e, id) || Gone(r, e, id))
    decreases HooksSize(hooks), 4, |kinds|
  {
    if kinds != [] {
      HooksSplit(hooks);
      var t := if kinds[0] in s.special && kinds[0] in RecordAt(s, ref).kinds then Unbound(s, e, kinds[0], First(hooks)) else s;
      UnboundSpares(s, e, kinds[0], First(hooks), frames, busy);
      KindsSpare(t, e, id, ref, kinds[1..], Rest(hooks), frames, busy);
    }
  }

  /** A clean-up whose hooks spare the element frees its id exactly once. */
  lemma {:induction false} CleanedSpares(s: State, e: Elem, hooks: seq<Hook>, frames: set<(Elem, string)>, busy: set<Elem>)
    requires Healthy(s) && Running(s, frames, busy) && e !in busy && HooksSpare(hooks, busy + {e})
    ensures var r := Cleaned(s, e, hooks);
      && Healthy(r) && AllStay(s, r, frames) && e !in r.expando
      && (e in s.expando ==> Gone(r, e, s.expando[e]))
    decreases HooksSize(hooks), 6, 0
  {
    if e in s.expando {
      var id := s.expando[e];
      if HasEvents(s, id) {
        var ref := s.cache[id].events.value;
        KindsSpare(s, e, id, ref, RecordAt(s, ref).kinds, hooks, frames, busy);
      }
      LastBlock(s, HooksDone(s, e, hooks), e, id, frames, busy);
    }
  }

  lemma LastBlock(s: State, mid: State, e: Elem, id: Id, frames: set<(Elem, string)>, busy: set<Elem>)
    requires Healthy(mid) && Running(s, frames, busy) && AllStay(s, mid, frames) && e !in busy
    requires Own(mid, e, id) || Gone(mid, e, id)
    ensures var r := Released(mid, e, id); Healthy(r) && AllStay(s, r, frames) && Gone(r, e, id)
  {
    if Own(mid, e, id) {
      ReleasedOwn(mid, e);
      forall f | f in frames
        ensures Stays(s, Released(mid, e, id), f.0, f.1)
      {
        assert f.0 in busy;
        ReleasedStays(mid, e, f.0, f.1);
      }
      assert Released(mid, e, id).deletedIds[|mid.deletedIds|] == id;
    }
  }
}
