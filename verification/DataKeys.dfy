/**
  What the store holds for one element: its public keys, its private keys and its events
  object.  Storing adds a key and nothing else; removing takes what it names and nothing
  else; and the element loses its id only when nothing is left.
 */
module DataKeys {
  import opened Wrappers
  import opened Seqs
  import opened DataIds
  import opened DataHooks
  import opened DataOthers

  predicate HasEntry(s: State, e: Elem) {
    e in s.expando && s.expando[e] in s.cache
  }

  function PublicOf(s: State, e: Elem): set<string> {
    if HasEntry(s, e) then s.cache[s.expando[e]].pub else {}
  }

  function PrivateOf(s: State, e: Elem): set<string> {
    if HasEntry(s, e) then s.cache[s.expando[e]].priv else {}
  }

  function EventsOf(s: State, e: Elem): Option<Ref> {
    if HasEntry(s, e) then s.cache[s.expando[e]].events else None
  }

  /** The element holds the same keys and events object, under the same id if it had one. */
  predicate SameHoldings(s: State, r: State, x: Elem) {
    && PublicOf(r, x) == PublicOf(s, x) && PrivateOf(r, x) == PrivateOf(s, x) && EventsOf(r, x) == EventsOf(s, x)
    && (x in r.expando <==> x in s.expando) && (x in s.expando ==> r.expando[x] == s.expando[x])
  }

  // ---------- one operation ----------

  /** After allocating the element has an id, the one it had if it had one, and holds what it held. */
  lemma AllocatedHolds(s: State, e: Elem)
    requires Sound(s)
    ensures var r := Allocated(s, e);
      && HasEntry(r, e) && (e in s.expando ==> r.expando[e] == s.expando[e])
      && PublicOf(r, e) == PublicOf(s, e) && PrivateOf(r, e) == PrivateOf(s, e) && EventsOf(r, e) == EventsOf(s, e)
  {
    if e !in s.expando {
      AllocatedJoins(s, e);
    }
  }

  /** Storing adds the key to the element's own data; its other keys and its events object are as before. */
  lemma StoredHolds(s: State, e: Elem, name: string, pvt: bool)
    requires Sound(s)
    ensures var r := Stored(s, e, name, pvt);
      && HasEntry(r, e) && (e in s.expando ==> r.expando[e] == s.expando[e])
      && PublicOf(r, e) == PublicOf(s, e) + (if pvt then {} else {name})
      && PrivateOf(r, e) == PrivateOf(s, e) + (if pvt then {name} else {})
      && EventsOf(r, e) == EventsOf(s, e)
  {
    AllocatedHolds(s, e);
    var t, r := Allocated(s, e), Stored(s, e, name, pvt);
    assert r.expando == t.expando && r.cache[r.expando[e]] == WithKey(t.cache[t.expando[e]], name, pvt);
  }

  /**
    Removing takes exactly what is named.  Everything else is still there under the same id,
    unless there is nothing else: then, and only then, the element loses its id.
   */
  lemma RemovedHolds(s: State, e: Elem, t: Target)
    requires Sound(s) && e in s.expando
    ensures var r := Removed(s, e, t);
      && (forall n :: n in PublicOf(r, e) <==> n in PublicOf(s, e) && t != PublicKey(n) && t != AllPublic)
      && (forall n :: n in PrivateOf(r, e) <==> n in PrivateOf(s, e) && t != PrivateKey(n))
      && EventsOf(r, e) == (if t == PrivateKey("events") then None else EventsOf(s, e))
      && (e in r.expando ==> r.expando[e] == s.expando[e])
      && (e !in r.expando <==> PublicOf(r, e) == {} && PrivateOf(r, e) == {} && EventsOf(r, e) == None)
  {
  }

  /** An element that loses its id leaves it on the free list. */
  lemma RemovedFrees(s: State, e: Elem, t: Target)
    requires Sound(s) && e in s.expando
    ensures var r := Removed(s, e, t); r.deletedIds == if e in r.expando then s.deletedIds else s.deletedIds + [s.expando[e]]
  {
  }

  /** Adding a handler gives the element an events object, if it had none, with the type in it; other types and keys stay. */
  lemma BoundHolds(s: State, e: Elem, kind: string, newHandler: bool)
    requires Sound(s)
    ensures var r := Bound(s, e, kind, newHandler);
      && HasEntry(r, e) && (e in s.expando ==> r.expando[e] == s.expando[e])
      && PublicOf(r, e) == PublicOf(s, e) && PrivateOf(r, e) == PrivateOf(s, e) + {"handle"}
      && EventsOf(r, e).Some? && (EventsOf(s, e).Some? ==> EventsOf(r, e) == EventsOf(s, e))
      && var rec := if EventsOf(s, e).Some? then RecordAt(s, EventsOf(s, e).value) else Record([], {});
      && RecordAt(r, EventsOf(r, e).value) == Record(if kind in rec.kinds then rec.kinds else rec.kinds + [kind], rec.live + {kind})
  {
    AllocatedHolds(s, e);
  }

  /**
    Removing the handlers of a type, with no hook to call, leaves the other types in their
    order and all keys; the last type takes the events object and the handler with it.
   */
  lemma UnboundHolds(s: State, e: Elem, kind: string)
    requires Sound(s) && EventsOf(s, e).Some? && HasHandlers(RecordAt(s, EventsOf(s, e).value), kind)
    ensures var r, rec := Unbound(s, e, kind, []), RecordAt(s, EventsOf(s, e).value);
      var others := Keep(rec.kinds, k => k != kind);
      && PublicOf(r, e) == PublicOf(s, e)
      && (others != [] ==>
        && EventsOf(r, e) == EventsOf(s, e) && PrivateOf(r, e) == PrivateOf(s, e)
        && RecordAt(r, EventsOf(s, e).value) == Record(others, rec.live - {kind}))
      && (others == [] ==> EventsOf(r, e) == None && PrivateOf(r, e) == PrivateOf(s, e) - {"handle", "events"})
  {
    var ref := EventsOf(s, e).value;
    LastTypeTorn(s, ref, kind);
    if Keep(RecordAt(s, ref).kinds, k => k != kind) == [] {
      LastTypeTaken(s, TornDown(s, ref, kind, []), e);
    }
  }

  lemma LastTypeTaken(s: State, t: State, e: Elem)
    requires Sound(s) && HasEntry(s, e) && t == s.(records := t.records)
    ensures var r := Removed(HandleDropped(t, s.expando[e], s.cache[s.expando[e]].stamp), e, PrivateKey("events"));
      && PublicOf(r, e) == PublicOf(s, e) && EventsOf(r, e) == None && PrivateOf(r, e) == PrivateOf(s, e) - {"handle", "events"}
  {
    var id := s.expando[e];
    var d := HandleDropped(t, id, s.cache[id].stamp);
    HandleTaken(s, t, d, e);
    RemovedHolds(d, e, PrivateKey("events"));
  }

  lemma HandleTaken(s: State, t: State, d: State, e: Elem)
    requires Sound(s) && HasEntry(s, e) && t == s.(records := t.records)
    requires d == HandleDropped(t, s.expando[e], s.cache[s.expando[e]].stamp)
    ensures Sound(d) && e in d.expando
    ensures PublicOf(d, e) == PublicOf(s, e) && EventsOf(d, e) == EventsOf(s, e) && PrivateOf(d, e) == PrivateOf(s, e) - {"handle"}
  {
    assert Sound(d) by {
      SameIdsSound(s, t);
      HandleSame(t, s.expando[e], s.cache[s.expando[e]].stamp);
      SameIdsSound(t, d);
    }
    var id := s.expando[e];
    assert d.expando == s.expando && d.cache[id] == s.cache[id].(priv := s.cache[id].priv - {"handle"});
  }

  lemma LastTypeTorn(s: State, ref: Ref, kind: string)
    requires HasHandlers(RecordAt(s, ref), kind)
    ensures var t, rec := TornDown(s, ref, kind, []), RecordAt(s, ref);
      && t == s.(records := t.records)
      && RecordAt(t, ref) == Record(Keep(rec.kinds, k => k != kind), rec.live - {kind})
  {
  }

  /** None of these operations touches what another element holds. */
  lemma OthersHold(s: State, op: Op, x: Elem)
    requires Sound(s) && Simple(op) && op.e != x
    ensures SameHoldings(s, RunOp(s, op), x)
  {
    match op
    case AllocateFor(e) => AllocatedKeeps(s, e, x);
    case StoreFor(e, name, pvt) => StoredKeeps(s, e, name, pvt, x);
    case RemoveFrom(e, t) => RemovedKeeps(s, e, t, x);
    case Bind(e, kind, newHandler) => BoundKeeps(s, e, kind, newHandler, x);
  }

  // ---------- runs ----------

  /** One public key, or one private key. */
  predicate Holds(s: State, x: Elem, key: Target) {
    match key
    case PublicKey(n) => n in PublicOf(s, x)
    case PrivateKey(n) => n in PrivateOf(s, x)
    case AllPublic => false
  }

  /** A key of the user's: the library keeps its handler and its events object under two private names. */
  predicate Ordinary(key: Target) {
    key != AllPublic && key != PrivateKey("handle") && key != PrivateKey("events")
  }

  predicate Names(t: Target, key: Target) {
    t == key || (t == AllPublic && key.PublicKey?)
  }

  /** The operation neither removes the key from the element nor cleans the element, and neither do the hooks it calls. */
  predicate Leaves(op: Op, x: Elem, key: Target)
    decreases OpSize(op), 0, 0
  {
    match op
    case RemoveFrom(e, t) => e != x || !Names(t, key)
    case Unbind(_, _, hook) => AllLeave(hook, x, key)
    case Clean(e, hooks) => e != x && HooksLeave(hooks, x, key)
    case _ => true
  }

  predicate AllLeave(ops: seq<Op>, x: Elem, key: Target)
    decreases OpsSize(ops), 1, |ops|
  {
    ops == [] || (Leaves(ops[0], x, key) && AllLeave(ops[1..], x, key))
  }

  predicate HooksLeave(hooks: seq<Hook>, x: Elem, key: Target)
    decreases HooksSize(hooks), 2, |hooks|
  {
    hooks == [] || (AllLeave(hooks[0].ops, x, key) && HooksLeave(hooks[1..], x, key))
  }

  /** If the element held the key it still does, under the same id. */
  predicate Carries(s: State, r: State, x: Elem, key: Target) {
    Holds(s, x, key) ==> Holds(r, x, key) && r.expando[x] == s.expando[x]
  }

  lemma KeepsCarries(s: State, r: State, x: Elem, key: Target)
    requires Keeps(s, r, x)
    ensures Carries(s, r, x, key)
  {
  }

  /** If every clean-up of a run ended well, a key stays until it is removed or its element is cleaned. */
  lemma {:induction false} OpsLeave(s: State, ops: seq<Op>, x: Elem, key: Target)
    requires Good(s) && Ordinary(key) && AllLeave(ops, x, key) && RunOps(s, ops).fine
    ensures s.fine && Carries(s, RunOps(s, ops), x, key)
    decreases OpsSize(ops), 1, |ops|
  {
    if ops != [] {
      OpGood(s, ops[0]);
      OpsLeave(RunOp(s, ops[0]), ops[1..], x, key);
      OpLeaves(s, ops[0], x, key);
    }
  }

  lemma {:induction false} OpLeaves(s: State, op: Op, x: Elem, key: Target)
    requires Good(s) && Ordinary(key) && Leaves(op, x, key) && RunOp(s, op).fine
    ensures s.fine && Carries(s, RunOp(s, op), x, key)
    decreases OpSize(op), 0, 0
  {
    match op
    case AllocateFor(e) => if e != x { AllocatedKeeps(s, e, x); }
    case StoreFor(e, name, pvt) => StoredLeaves(s, e, name, pvt, x, key);
    case RemoveFrom(e, t) => RemovedFine(s, e, t); RemovedLeaves(s, e, t, x, key);
    case Bind(e, kind, newHandler) => BoundLeaves(s, e, kind, newHandler, x, key);
    case Unbind(e, kind, hook) => UnboundLeaves(s, e, kind, hook, x, key);
    case Clean(e, hooks) => CleanedLeaves(s, e, hooks, x, key);
  }

  lemma StoredLeaves(s: State, e: Elem, name: string, pvt: bool, x: Elem, key: Target)
    requires Sound(s)
    ensures Carries(s, Stored(s, e, name, pvt), x, key)
  {
    if e == x {
      StoredHolds(s, e, name, pvt);
    } else {
      StoredKeeps(s, e, name, pvt, x);
    }
  }

  lemma BoundLeaves(s: State, e: Elem, kind: string, newHandler: bool, x: Elem, key: Target)
    requires Sound(s)
    ensures Carries(s, Bound(s, e, kind, newHandler), x, key)
  {
    if e == x {
      BoundHolds(s, e, kind, newHandler);
    } else {
      BoundKeeps(s, e, kind, newHandler, x);
    }
  }

  lemma RemovedLeaves(s: State, e: Elem, t: Target, x: Elem, key: Target)
    requires Sound(s) && (e != x || !Names(t, key))
    ensures Carries(s, Removed(s, e, t), x, key)
  {
    if e != x {
      RemovedKeeps(s, e, t, x);
    } else if e in s.expando {
      RemovedHolds(s, e, t);
    }
  }

  lemma {:induction false} TornDownLeaves(s: State, ref: Ref, kind: string, hook: seq<Op>, x: Elem, key: Target)
    requires Good(s) && Ordinary(key) && AllLeave(hook, x, key) && TornDown(s, ref, kind, hook).fine
    ensures s.fine && Carries(s, TornDown(s, ref, kind, hook), x, key)
    decreases OpsSize(hook), 2, 0
  {
    if HasHandlers(RecordAt(s, ref), kind) {
      var spliced := Spliced(s, ref, kind);
      SameIdsGood(s, spliced);
      RecordsCarry(s, spliced, x, key);
      if kind in s.special {
        OpsLeave(spliced, hook, x, key);
      }
      var t := if kind in s.special then RunOps(spliced, hook) else spliced;
      RecordsCarry(t, Forgotten(t, ref, kind), x, key);
    }
  }

  lemma RecordsCarry(s: State, r: State, x: Elem, key: Target)
    requires r.expando == s.expando && r.cache == s.cache
    ensures Carries(s, r, x, key)
  {
  }

  lemma {:induction false} UnboundLeaves(s: State, e: Elem, kind: string, hook: seq<Op>, x: Elem, key: Target)
    requires Good(s) && Ordinary(key) && AllLeave(hook, x, key) && Unbound(s, e, kind, hook).fine
    ensures s.fine && Carries(s, Unbound(s, e, kind, hook), x, key)
    decreases OpsSize(hook), 3, 0
  {
    if e in s.expando && HasEvents(s, s.expando[e]) {
      var id := s.expando[e];
      var ref := s.cache[id].events.value;
      TornDownGood(s, ref, kind, hook);
      if RecordAt(TornDown(s, ref, kind, hook), ref).kinds == [] {
        LastTypeLeaves(TornDown(s, ref, kind, hook), e, id, s.cache[id].stamp, x, key);
      }
      TornDownLeaves(s, ref, kind, hook, x, key);
    }
  }

  lemma LastTypeLeaves(t: State, e: Elem, id: Id, stamp: nat, x: Elem, key: Target)
    requires Good(t) && Ordinary(key) && Removed(HandleDropped(t, id, stamp), e, PrivateKey("events")).fine
    ensures t.fine && Carries(t, Removed(HandleDropped(t, id, stamp), e, PrivateKey("events")), x, key)
  {
    var d := HandleDropped(t, id, stamp);
    RemovedFine(d, e, PrivateKey("events"));
    HandleSame(t, id, stamp);
    SameIdsGood(t, d);
    RemovedLeaves(d, e, PrivateKey("events"), x, key);
    HandleLeaves(t, id, stamp, x, key);
  }

  lemma HandleLeaves(t: State, id: Id, stamp: nat, x: Elem, key: Target)
    requires Ordinary(key)
    ensures Carries(t, HandleDropped(t, id, stamp), x, key)
  {
  }

  lemma {:induction false} KindsLeave(s: State, e: Elem, ref: Ref, kinds: seq<string>, hooks: seq<Hook>, x: Elem, key: Target)
    requires Good(s) && Ordinary(key) && HooksLeave(hooks, x, key) && KindsCleaned(s, e, ref, kinds, hooks).fine
    ensures s.fine && Carries(s, KindsCleaned(s, e, ref, kinds, hooks), x, key)
    decreases HooksSize(hooks), 4, |kinds|
  {
    if kinds != [] {
      HooksSplit(hooks);
      var t := if kinds[0] in s.special && kinds[0] in RecordAt(s, ref).kinds then Unbound(s, e, kinds[0], First(hooks)) else s;
      UnboundGood(s, e, kinds[0], First(hooks));
      KindsLeave(t, e, ref, kinds[1..], Rest(hooks), x, key);
      if t != s {
        UnboundLeaves(s, e, kinds[0], First(hooks), x, key);
      }
    }
  }

  lemma {:induction false} CleanedLeaves(s: State, e: Elem, hooks: seq<Hook>, x: Elem, key: Target)
    requires Good(s) && Ordinary(key) && e != x && HooksLeave(hooks, x, key) && Cleaned(s, e, hooks).fine
    ensures s.fine && Carries(s, Cleaned(s, e, hooks), x, key)
    decreases HooksSize(hooks), 6, 0
  {
    if e in s.expando && s.expando[e] in s.cache {
      var mid := HooksDone(s, e, hooks);
      HooksGood(s, e, hooks);
      ReleasedKeeps(mid, e, s.expando[e], x);
      KeepsCarries(mid, Cleaned(s, e, hooks), x, key);
      if HasEvents(s, s.expando[e]) {
        var ref := s.cache[s.expando[e]].events.value;
        KindsLeave(s, e, ref, RecordAt(s, ref).kinds, hooks, x, key);
      }
    }
  }

  /** Every ordinary key that the run leaves alone is still held, under the same id. */
  ghost predicate KeysStay(s: State, r: State, ops: seq<Op>) {
    forall x, key :: Ordinary(key) && AllLeave(ops, x, key) ==> Carries(s, r, x, key)
  }

  lemma RunKeepsKeys(s: State, ops: seq<Op>)
    requires Healthy(s) && RunOps(s, ops).fine
    ensures KeysStay(s, RunOps(s, ops), ops)
  {
    forall x, key | Ordinary(key) && AllLeave(ops, x, key)
      ensures Carries(s, RunOps(s, ops), x, key)
    {
      OpsLeave(s, ops, x, key);
    }
  }

  /** Storing a key, and then anything that neither removes it nor cleans the element: it is there in the end. */
  lemma StoredStaysStored(s: State, x: Elem, name: string, pvt: bool, ops: seq<Op>)
    requires Healthy(s) && (pvt ==> name != "handle" && name != "events")
    requires var key := if pvt then PrivateKey(name) else PublicKey(name); AllLeave(ops, x, key)
    requires AllSpare(ops, {})
    ensures var r := RunOps(Stored(s, x, name, pvt), ops);
      x in r.expando && r.expando[x] in r.cache && name in (if pvt then r.cache[r.expando[x]].priv else r.cache[r.expando[x]].pub)
  {
    var t := Stored(s, x, name, pvt);
    StoredSound(s, x, name, pvt);
    StoredHolds(s, x, name, pvt);
    OpsSpareFrames(t, ops, {}, {});
    OpsLeave(t, ops, x, if pvt then PrivateKey(name) else PublicKey(name));
  }
}
