/** What a run does to an element that none of its operations, hooks included, mentions: nothing. */
module DataOthers {
  import opened Wrappers
  import opened DataIds
  import opened DataHooks

  predicate Avoids(op: Op, x: Elem)
    decreases OpSize(op), 0, 0
  {
    op.e != x && match op
      case Unbind(_, _, hook) => AllAvoid(hook, x)
      case Clean(_, hooks) => HooksAvoid(hooks, x)
      case _ => true
  }

  predicate AllAvoid(ops: seq<Op>, x: Elem)
    decreases OpsSize(ops), 1, |ops|
  {
    ops == [] || (Avoids(ops[0], x) && AllAvoid(ops[1..], x))
  }

  predicate HooksAvoid(hooks: seq<Hook>, x: Elem)
    decreases HooksSize(hooks), 2, |hooks|
  {
    hooks == [] || (AllAvoid(hooks[0].ops, x) && HooksAvoid(hooks[1..], x))
  }

  /** The element has what it had: no id, or the same one with the same entry and events object. */
  predicate Keeps(s: State, r: State, x: Elem) {
    && (x in r.expando <==> x in s.expando)
    && (x in s.expando ==>
      && var id := s.expando[x];
      && r.expando[x] == id && (id in s.cache <==> id in r.cache)
      && (id in s.cache ==> r.cache[id] == s.cache[id])
      && (HasEvents(s, id) ==> RecordAt(r, s.cache[id].events.value) == RecordAt(s, s.cache[id].events.value)))
  }

  lemma KeepsOn(s: State, t: State, r: State, x: Elem)
    requires Keeps(s, t, x) && Keeps(t, r, x)
    ensures Keeps(s, r, x)
  {
  }

  lemma AllocatedKeeps(s: State, e: Elem, x: Elem)
    requires Sound(s) && e != x
    ensures Keeps(s, Allocated(s, e), x)
  {
    if e !in s.expando {
      AllocatedJoins(s, e);
    }
  }

  lemma StoredKeeps(s: State, e: Elem, name: string, pvt: bool, x: Elem)
    requires Sound(s) && e != x
    ensures Keeps(s, Stored(s, e, name, pvt), x)
  {
    AllocatedKeeps(s, e, x);
    AllocatedSound(s, e);
  }

  lemma BoundKeeps(s: State, e: Elem, kind: string, newHandler: bool, x: Elem)
    requires Sound(s) && e != x
    ensures Keeps(s, Bound(s, e, kind, newHandler), x)
  {
    var t, w := Allocated(s, e), WithEvents(s, e);
    AllocatedKeeps(s, e, x);
    AllocatedSound(s, e);
    WithEventsSound(s, e);
    EventsMadeKeeps(t, e, x);
    FilledKeeps(w, e, kind, newHandler, x);
    KeepsOn(s, t, w, x);
    KeepsOn(s, w, Bound(s, e, kind, newHandler), x);
  }

  lemma EventsMadeKeeps(t: State, e: Elem, x: Elem)
    requires Sound(t) && e in t.expando && e != x
    ensures Keeps(t, EventsMade(t, t.expando[e]), x)
  {
  }

  lemma FilledKeeps(t: State, e: Elem, kind: string, newHandler: bool, x: Elem)
    requires Sound(t) && e in t.expando && HasEvents(t, t.expando[e]) && e != x
    ensures Keeps(t, Filled(t, t.expando[e], kind, newHandler), x)
  {
    if x in t.expando && HasEvents(t, t.expando[x]) {
      assert t.cache[t.expando[e]].events != t.cache[t.expando[x]].events;
    }
  }

  lemma ReleasedKeeps(s: State, e: Elem, id: Id, x: Elem)
    requires Good(s) && e != x && Released(s, e, id).fine
    ensures s.fine && Keeps(s, Released(s, e, id), x)
  {
  }

  lemma RemovedKeeps(s: State, e: Elem, t: Target, x: Elem)
    requires Sound(s) && e != x
    ensures Keeps(s, Removed(s, e, t), x)
  {
    if e in s.expando {
      var w := Without(s, s.expando[e], t);
      WithoutSame(s, s.expando[e], t);
      SameIdsSound(s, w);
      WithoutKeeps(s, e, t, x);
      ReleasedOwnKeeps(w, e, x);
      KeepsOn(s, w, Released(w, e, s.expando[e]), x);
    }
  }

  lemma WithoutKeeps(s: State, e: Elem, t: Target, x: Elem)
    requires Consistent(s) && e in s.expando && e != x
    ensures Keeps(s, Without(s, s.expando[e], t), x)
  {
  }

  lemma ReleasedOwnKeeps(w: State, e: Elem, x: Elem)
    requires Sound(w) && e in w.expando && e != x
    ensures Keeps(w, Released(w, e, w.expando[e]), x)
  {
  }

  /** If every clean-up of a run ended well, an element the run never mentions keeps its id and its data. */
  lemma {:induction false} OpsAvoid(s: State, ops: seq<Op>, x: Elem)
    requires Good(s) && AllAvoid(ops, x) && RunOps(s, ops).fine
    ensures s.fine && Keeps(s, RunOps(s, ops), x)
    decreases OpsSize(ops), 1, |ops|
  {
    if ops != [] {
      OpGood(s, ops[0]);
      OpsAvoid(RunOp(s, ops[0]), ops[1..], x);
      OpAvoids(s, ops[0], x);
      KeepsOn(s, RunOp(s, ops[0]), RunOps(s, ops), x);
    }
  }

  lemma {:induction false} OpAvoids(s: State, op: Op, x: Elem)
    requires Good(s) && Avoids(op, x) && RunOp(s, op).fine
    ensures s.fine && Keeps(s, RunOp(s, op), x)
    decreases OpSize(op), 0, 0
  {
    match op
    case AllocateFor(e) => AllocatedKeeps(s, e, x);
    case StoreFor(e, name, pvt) => StoredKeeps(s, e, name, pvt, x);
    case RemoveFrom(e, t) => RemovedFine(s, e, t); RemovedKeeps(s, e, t, x);
    case Bind(e, kind, newHandler) => BoundKeeps(s, e, kind, newHandler, x);
    case Unbind(e, kind, hook) => UnboundAvoids(s, e, kind, hook, x);
    case Clean(e, hooks) => CleanedAvoids(s, e, hooks, x);
  }

  lemma RemovedFine(s: State, e: Elem, t: Target)
    requires Removed(s, e, t).fine
    ensures s.fine
  {
  }

  lemma {:induction false} UnboundAvoids(s: State, e: Elem, kind: string, hook: seq<Op>, x: Elem)
    requires Good(s) && AllAvoid(hook, x) && e != x && Unbound(s, e, kind, hook).fine
    ensures s.fine && Keeps(s, Unbound(s, e, kind, hook), x)
    decreases OpsSize(hook), 3, 0
  {
    if e in s.expando && HasEvents(s, s.expando[e]) {
      var id := s.expando[e];
      var ref := s.cache[id].events.value;
      var t := TornDown(s, ref, kind, hook);
      var d := HandleDropped(t, id, s.cache[id].stamp);
      TornDownGood(s, ref, kind, hook);
      HandleSame(t, id, s.cache[id].stamp);
      SameIdsGood(t, d);
      if RecordAt(t, ref).kinds == [] {
        RemovedFine(d, e, PrivateKey("events"));
      }
      TornDownAvoids(s, e, kind, hook, x);
      if RecordAt(t, ref).kinds == [] {
        HandleKeeps(s, t, e, x);
        RemovedKeeps(d, e, PrivateKey("events"), x);
        KeepsOn(s, d, Removed(d, e, PrivateKey("events")), x);
      }
    }
  }

  lemma HandleKeeps(s: State, t: State, e: Elem, x: Elem)
    requires Sound(s) && Keeps(s, t, x) && e in s.expando && e != x
    ensures Keeps(s, HandleDropped(t, s.expando[e], s.cache[s.expando[e]].stamp), x)
  {
  }

  lemma {:induction false} TornDownAvoids(s: State, e: Elem, kind: string, hook: seq<Op>, x: Elem)
    requires Good(s) && AllAvoid(hook, x) && e != x && e in s.expando && HasEvents(s, s.expando[e])
    requires TornDown(s, s.cache[s.expando[e]].events.value, kind, hook).fine
    ensures s.fine && Keeps(s, TornDown(s, s.cache[s.expando[e]].events.value, kind, hook), x)
    decreases OpsSize(hook), 2, 0
  {
    var ref := s.cache[s.expando[e]].events.value;
    if HasHandlers(RecordAt(s, ref), kind) {
      var spliced := Spliced(s, ref, kind);
      SameIdsGood(s, spliced);
      var t := if kind in s.special then RunOps(spliced, hook) else spliced;
      if kind in s.special {
        OpsAvoid(spliced, hook, x);
      }
      OthersRecord(s, t, spliced, e, ref, kind, x);
    }
  }

  lemma OthersRecord(s: State, t: State, spliced: State, e: Elem, ref: Ref, kind: string, x: Elem)
    requires Sound(s) && e in s.expando && HasEvents(s, s.expando[e]) && s.cache[s.expando[e]].events == Some(ref) && e != x
    requires spliced == Spliced(s, ref, kind) && Keeps(spliced, t, x)
    ensures Keeps(s, Forgotten(t, ref, kind), x)
  {
    if x in s.expando && HasEvents(s, s.expando[x]) {
      assert s.cache[s.expando[x]].events != Some(ref);
    }
  }

  lemma {:induction false} KindsAvoid(s: State, e: Elem, ref: Ref, kinds: seq<string>, hooks: seq<Hook>, x: Elem)
    requires Good(s) && HooksAvoid(hooks, x) && e != x && KindsCleaned(s, e, ref, kinds, hooks).fine
    ensures s.fine && Keeps(s, KindsCleaned(s, e, ref, kinds, hooks), x)
    decreases HooksSize(hooks), 4, |kinds|
  {
    if kinds != [] {
      HooksSplit(hooks);
      var t := if kinds[0] in s.special && kinds[0] in RecordAt(s, ref).kinds then Unbound(s, e, kinds[0], First(hooks)) else s;
      UnboundGood(s, e, kinds[0], First(hooks));
      KindsAvoid(t, e, ref, kinds[1..], Rest(hooks), x);
      if t != s {
        UnboundAvoids(s, e, kinds[0], First(hooks), x);
      }
      KeepsOn(s, t, KindsCleaned(s, e, ref, kinds, hooks), x);
    }
  }

  lemma {:induction false} CleanedAvoids(s: State, e: Elem, hooks: seq<Hook>, x: Elem)
    requires Good(s) && HooksAvoid(hooks, x) && e != x && Cleaned(s, e, hooks).fine
    ensures s.fine && Keeps(s, Cleaned(s, e, hooks), x)
    decreases HooksSize(hooks), 6, 0
  {
    if e in s.expando && s.expando[e] in s.cache {
      var mid := HooksDone(s, e, hooks);
      HooksGood(s, e, hooks);
      ReleasedKeeps(mid, e, s.expando[e], x);
      if HasEvents(s, s.expando[e]) {
        var ref := s.cache[s.expando[e]].events.value;
        KindsAvoid(s, e, ref, RecordAt(s, ref).kinds, hooks, x);
      }
      KeepsOn(s, mid, Cleaned(s, e, hooks), x);
    }
  }
}
