/**
  Data ids: elements get numbers from a free list or a counter, and give them back when
  their data is cleaned.  Cleaning calls the tear-down hooks of special events, and a hook
  may do anything to any element, including the one that is being cleaned.
 */
module DataIds {
  import opened Wrappers
  import opened Seqs

  type Elem = nat
  type Id = nat
  type Ref = nat

  /** An events object: its types in the order they were added, and those with handlers left. */
  datatype Record = Record(kinds: seq<string>, live: set<string>)

  /** A cache entry.  The stamp tells entry objects apart; `events` refers to an events object. */
  datatype Entry = Entry(stamp: nat, pub: set<string>, priv: set<string>, events: Option<Ref>)

  /**
    The counter, the free list, the ids on elements, and the cache.  `fine` records whether
    every clean-up so far ended on its own element's entry, or on none.
   */
  datatype State = State(
    guid: nat,
    deletedIds: seq<Id>,
    expando: map<Elem, Id>,
    cache: map<Id, Entry>,
    records: map<Ref, Record>,
    next: nat,
    special: set<string>,
    fine: bool)

  function Blank(stamp: nat): Entry {
    Entry(stamp, {}, {}, None)
  }

  function WithKey(entry: Entry, name: string, pvt: bool): Entry {
    if pvt then entry.(priv := entry.priv + {name}) else entry.(pub := entry.pub + {name})
  }

  /** Nothing is left but, at most, an empty public object. */
  predicate IsEmptyData(entry: Entry) {
    entry.priv == {} && entry.pub == {} && entry.events == None
  }

  datatype Target = PublicKey(name: string) | PrivateKey(name: string) | AllPublic

  function Stripped(entry: Entry, t: Target): Entry {
    match t
    case PublicKey(n) => entry.(pub := entry.pub - {n})
    case PrivateKey(n) => entry.(priv := entry.priv - {n}, events := if n == "events" then None else entry.events)
    case AllPublic => entry.(pub := {})
  }

  // ---------- what must hold ----------

  /** No two elements share an id, and ids in use have data and lie below the counter. */
  ghost predicate InUse(s: State) {
    && s.guid >= 1
    && (forall e :: e in s.expando ==> 1 <= s.expando[e] < s.guid && s.expando[e] in s.cache)
    && (forall e, f :: e in s.expando && f in s.expando && s.expando[e] == s.expando[f] ==> e == f)
  }

  /** The free list has no repeats, nothing in use and nothing the counter could still hand out. */
  ghost predicate Free(s: State) {
    && (forall i :: 0 <= i < |s.deletedIds| ==> 1 <= s.deletedIds[i] < s.guid && s.deletedIds[i] !in s.cache)
    && (forall i, j :: 0 <= i < j < |s.deletedIds| ==> s.deletedIds[i] != s.deletedIds[j])
  }

  ghost predicate Consistent(s: State) {
    InUse(s) && Free(s)
  }

  predicate Own(s: State, e: Elem, id: Id) {
    e in s.expando && s.expando[e] == id
  }

  /** Every cache entry belongs to some element. */
  ghost predicate Owned(s: State) {
    forall id :: id in s.cache ==> exists e :: Own(s, e, id)
  }

  predicate HasEvents(s: State, id: Id) {
    id in s.cache && s.cache[id].events.Some?
  }

  /** No two entries share an events object, and none has one that is still to be made. */
  ghost predicate Separate(s: State) {
    && (forall id :: HasEvents(s, id) ==> s.cache[id].events.value < s.next)
    && forall i, j :: HasEvents(s, i) && HasEvents(s, j) && s.cache[i].events == s.cache[j].events ==> i == j
  }

  ghost predicate Sound(s: State) {
    Consistent(s) && Owned(s) && Separate(s)
  }

  // ---------- single operations ----------

  /** Giving an element an id, if it has none: the last one freed, or a new one. */
  function Numbered(s: State, e: Elem): (r: State)
    ensures e in r.expando && r.fine == s.fine
  {
    if e in s.expando then s
    else if s.deletedIds != [] then
      s.(deletedIds := s.deletedIds[..|s.deletedIds| - 1], expando := s.expando[e := s.deletedIds[|s.deletedIds| - 1]])
    else s.(guid := s.guid + 1, expando := s.expando[e := s.guid])
  }

  /** And an empty entry under it, if there is none. */
  function Allocated(s: State, e: Elem): (r: State)
    ensures e in r.expando && r.expando[e] in r.cache && r.fine == s.fine
  {
    var t := Numbered(s, e);
    if t.expando[e] in t.cache then t
    else t.(cache := t.cache[t.expando[e] := Blank(t.next)], next := t.next + 1)
  }

  function Stored(s: State, e: Elem, name: string, pvt: bool): (r: State)
    ensures r.fine == s.fine
  {
    var t := Allocated(s, e);
    t.(cache := t.cache[t.expando[e] := WithKey(t.cache[t.expando[e]], name, pvt)])
  }

  function RecordAt(s: State, ref: Ref): Record {
    if ref in s.records then s.records[ref] else Record([], {})
  }

  /** An entry gets an events object, if it has none. */
  function EventsMade(t: State, id: Id): State
    requires id in t.cache
  {
    if t.cache[id].events.Some? then t
    else t.(cache := t.cache[id := t.cache[id].(events := Some(t.next))], records := t.records[t.next := Record([], {})], next := t.next + 1)
  }

  function WithEvents(s: State, e: Elem): (r: State)
    ensures e in r.expando && HasEvents(r, r.expando[e])
  {
    var t := Allocated(s, e);
    EventsMade(t, t.expando[e])
  }

  /** Adding a handler for one event type; a handler seen for the first time takes a number. */
  function Filled(t: State, id: Id, kind: string, newHandler: bool): State
    requires HasEvents(t, id)
  {
    var ref := t.cache[id].events.value;
    var rec := RecordAt(t, ref);
    t.(guid := if newHandler then t.guid + 1 else t.guid,
       cache := t.cache[id := WithKey(t.cache[id], "handle", true)],
       records := t.records[ref := Record(if kind in rec.kinds then rec.kinds else rec.kinds + [kind], rec.live + {kind})])
  }

  function Bound(s: State, e: Elem, kind: string, newHandler: bool): (r: State)
    ensures r.fine == s.fine
  {
    var t := WithEvents(s, e);
    Filled(t, t.expando[e], kind, newHandler)
  }

  /** The last block of a clean-up: only if there is still an entry under the id read at the start. */
  function Released(s: State, e: Elem, id: Id): State {
    if id !in s.cache then s
    else s.(cache := s.cache - {id}, expando := s.expando - {e}, deletedIds := s.deletedIds + [id],
            fine := s.fine && Own(s, e, id))
  }

  /** Removing some data; an entry left empty has no events, so it is cleaned without further ado. */
  function Removed(s: State, e: Elem, t: Target): State {
    if e !in s.expando || s.expando[e] !in s.cache then s
    else
      var id := s.expando[e];
      if IsEmptyData(Stripped(s.cache[id], t)) then Released(Without(s, id, t), e, id) else Without(s, id, t)
  }

  // ---------- operations that call hooks ----------

  /**
    What a program, or a hook, may do.  The scripts say what the tear-down hooks called on
    the way do: one for an unbound type, one after the other for the types of a cleaned element.
   */
  datatype Op =
    | AllocateFor(e: Elem)
    | StoreFor(e: Elem, name: string, pvt: bool)
    | RemoveFrom(e: Elem, t: Target)
    | Bind(e: Elem, kind: string, newHandler: bool)
    | Unbind(e: Elem, kind: string, hook: seq<Op>)
    | Clean(e: Elem, hooks: seq<Hook>)

  datatype Hook = Hook(ops: seq<Op>)

  function OpSize(op: Op): nat {
    match op
    case Unbind(_, _, hook) => 1 + OpsSize(hook)
    case Clean(_, hooks) => 1 + HooksSize(hooks)
    case _ => 1
  }

  function OpsSize(ops: seq<Op>): nat {
    if ops == [] then 0 else OpSize(ops[0]) + OpsSize(ops[1..])
  }

  function HooksSize(hooks: seq<Hook>): nat {
    if hooks == [] then 0 else OpsSize(hooks[0].ops) + HooksSize(hooks[1..])
  }

  function First(hooks: seq<Hook>): seq<Op> {
    if hooks == [] then [] else hooks[0].ops
  }

  function Rest(hooks: seq<Hook>): seq<Hook> {
    if hooks == [] then [] else hooks[1..]
  }

  lemma HooksSplit(hooks: seq<Hook>)
    ensures OpsSize(First(hooks)) + HooksSize(Rest(hooks)) == HooksSize(hooks)
  {
  }

  function RunOps(s: State, ops: seq<Op>): State
    decreases OpsSize(ops), 1, |ops|
  {
    if ops == [] then s else RunOps(RunOp(s, ops[0]), ops[1..])
  }

  function RunOp(s: State, op: Op): State
    decreases OpSize(op), 0, 0
  {
    match op
    case AllocateFor(e) => Allocated(s, e)
    case StoreFor(e, name, pvt) => Stored(s, e, name, pvt)
    case RemoveFrom(e, t) => Removed(s, e, t)
    case Bind(e, kind, newHandler) => Bound(s, e, kind, newHandler)
    case Unbind(e, kind, hook) => Unbound(s, e, kind, hook)
    case Clean(e, hooks) => Cleaned(s, e, hooks)
  }

  predicate HasHandlers(rec: Record, kind: string) {
    kind in rec.kinds && kind in rec.live
  }

  /** Taking out the handlers of a type, before its tear-down hook is called. */
  function Spliced(s: State, ref: Ref, kind: string): State {
    s.(records := s.records[ref := RecordAt(s, ref).(live := RecordAt(s, ref).live - {kind})])
  }

  function OtherKinds(kinds: seq<string>, kind: string): seq<string> {
    Keep(kinds, k => k != kind)
  }

  /** Forgetting the type afterwards: in the events object read at the start, wherever that is now. */
  function Forgotten(s: State, ref: Ref, kind: string): State {
    s.(records := s.records[ref := Record(OtherKinds(RecordAt(s, ref).kinds, kind), RecordAt(s, ref).live - {kind})])
  }

  /** Dropping the handle from the entry read at the start, if it is still in the cache. */
  function HandleDropped(s: State, id: Id, stamp: nat): State {
    if id in s.cache && s.cache[id].stamp == stamp then s.(cache := s.cache[id := s.cache[id].(priv := s.cache[id].priv - {"handle"})])
    else s
  }

  /** The tear-down hook runs when the last handler of the type goes, and not again. */
  function TornDown(s: State, ref: Ref, kind: string, hook: seq<Op>): State
    decreases OpsSize(hook), 2, 0
  {
    if !HasHandlers(RecordAt(s, ref), kind) then s
    else
      var spliced := Spliced(s, ref, kind);
      Forgotten(if kind in s.special then RunOps(spliced, hook) else spliced, ref, kind)
  }

  /** Removing all handlers of one type from an element. */
  function Unbound(s: State, e: Elem, kind: string, hook: seq<Op>): State
    decreases OpsSize(hook), 3, 0
  {
    if e !in s.expando || !HasEvents(s, s.expando[e]) then s
    else
      var id := s.expando[e];
      var ref := s.cache[id].events.value;
      var t := TornDown(s, ref, kind, hook);
      if RecordAt(t, ref).kinds != [] then t
      else Removed(HandleDropped(t, id, s.cache[id].stamp), e, PrivateKey("events"))
  }

  /** The loop over the events object read at the start: special types still there are removed. */
  function KindsCleaned(s: State, e: Elem, ref: Ref, kinds: seq<string>, hooks: seq<Hook>): State
    decreases HooksSize(hooks), 4, |kinds|
  {
    if kinds == [] then s
    else
      HooksSplit(hooks);
      var t := if kinds[0] in s.special && kinds[0] in RecordAt(s, ref).kinds then Unbound(s, e, kinds[0], First(hooks)) else s;
      KindsCleaned(t, e, ref, kinds[1..], Rest(hooks))
  }

  /** The state a clean-up's last block finds: everything the hooks did has happened. */
  function HooksDone(s: State, e: Elem, hooks: seq<Hook>): State
    decreases HooksSize(hooks), 5, 0
  {
    if e !in s.expando || !HasEvents(s, s.expando[e]) then s
    else
      var ref := s.cache[s.expando[e]].events.value;
      KindsCleaned(s, e, ref, RecordAt(s, ref).kinds, hooks)
  }

  function Cleaned(s: State, e: Elem, hooks: seq<Hook>): State
    decreases HooksSize(hooks), 6, 0
  {
    if e !in s.expando || s.expando[e] !in s.cache then s else Released(HooksDone(s, e, hooks), e, s.expando[e])
  }

  // ---------- single operations keep the ids sound ----------

  lemma AllocatedFree(s: State, e: Elem)
    requires Consistent(s)
    ensures Free(Allocated(s, e))
  {
    if e !in s.expando && s.deletedIds != [] {
      var id, rest := s.deletedIds[|s.deletedIds| - 1], s.deletedIds[..|s.deletedIds| - 1];
      assert forall i :: 0 <= i < |rest| ==> rest[i] == s.deletedIds[i] && rest[i] != id;
    }
  }

  lemma NumberIsNew(s: State, e: Elem)
    requires Consistent(s) && e !in s.expando
    ensures var r := Numbered(s, e);
      && r.expando == s.expando[e := r.expando[e]] && r.cache == s.cache && r.guid >= s.guid
      && 1 <= r.expando[e] < r.guid && r.expando[e] !in s.expando.Values
  {
    if s.deletedIds != [] {
      assert s.deletedIds[|s.deletedIds| - 1] !in s.cache;
    }
  }

  lemma AllocatedInUse(s: State, e: Elem)
    requires Consistent(s)
    ensures InUse(Allocated(s, e))
  {
    if e !in s.expando {
      NumberIsNew(s, e);
      var t, r := Numbered(s, e), Allocated(s, e);
      assert r.expando == t.expando && r.guid == t.guid && r.cache.Keys == s.cache.Keys + {t.expando[e]};
      assert forall f :: f in s.expando ==> s.expando[f] in s.expando.Values;
    }
  }

  /** Allocating from the free list or the counter keeps the ids consistent. */
  lemma AllocatedConsistent(s: State, e: Elem)
    requires Consistent(s)
    ensures Consistent(Allocated(s, e))
  {
    AllocatedFree(s, e);
    AllocatedInUse(s, e);
  }

  /** A new element with a new entry under its id. */
  ghost predicate Joins(s: State, r: State, e: Elem) {
    && e !in s.expando && e in r.expando
    && r.expando == s.expando[e := r.expando[e]] && r.cache == s.cache[r.expando[e] := Blank(s.next)]
    && r.expando[e] !in s.cache && r.next > s.next
  }

  lemma NewIdUnused(s: State, e: Elem)
    requires Consistent(s) && Owned(s) && e !in s.expando
    ensures Numbered(s, e).expando[e] !in s.cache
  {
    if s.deletedIds == [] {
      assert forall f :: Own(s, f, s.guid) ==> s.expando[f] < s.guid;
    } else {
      assert s.deletedIds[|s.deletedIds| - 1] !in s.cache;
    }
  }

  lemma AllocatedJoins(s: State, e: Elem)
    requires Consistent(s) && Owned(s) && e !in s.expando
    ensures Joins(s, Allocated(s, e), e)
  {
    NewIdUnused(s, e);
    var t := Numbered(s, e);
    assert t.cache == s.cache && t.next == s.next && t.expando == s.expando[e := t.expando[e]];
  }

  lemma OwnersJoin(s: State, r: State, e: Elem)
    requires Owned(s) && Joins(s, r, e)
    ensures Owned(r)
  {
    forall id | id in r.cache
      ensures exists f :: Own(r, f, id)
    {
      if id == r.expando[e] {
        assert Own(r, e, id);
      } else {
        var f :| Own(s, f, id);
        assert Own(r, f, id);
      }
    }
  }

  lemma SeparateJoin(s: State, r: State, e: Elem)
    requires Separate(s) && Joins(s, r, e)
    ensures Separate(r)
  {
    assert forall id :: HasEvents(r, id) ==> HasEvents(s, id) && r.cache[id] == s.cache[id];
  }

  lemma AllocatedSound(s: State, e: Elem)
    requires Sound(s)
    ensures Sound(Allocated(s, e))
  {
    if e !in s.expando {
      AllocatedConsistent(s, e);
      AllocatedJoins(s, e);
      OwnersJoin(s, Allocated(s, e), e);
      SeparateJoin(s, Allocated(s, e), e);
    }
  }

  /** The ids are the same, and so is the set of entries. */
  predicate SameIds(s: State, r: State) {
    && r.expando == s.expando && r.cache.Keys == s.cache.Keys && r.deletedIds == s.deletedIds
    && r.guid >= s.guid && r.fine == s.fine
  }

  lemma SameIdsConsistent(s: State, r: State)
    requires Consistent(s) && SameIds(s, r)
    ensures Consistent(r)
  {
  }

  lemma SameIdsOwned(s: State, r: State)
    requires Owned(s) && SameIds(s, r)
    ensures Owned(r)
  {
    forall id | id in r.cache
      ensures exists f :: Own(r, f, id)
    {
      var f :| Own(s, f, id);
      assert Own(r, f, id);
    }
  }

  /** No entry has gained or changed its events object. */
  ghost predicate EventsKept(s: State, r: State) {
    r.next >= s.next && forall id :: HasEvents(r, id) ==> HasEvents(s, id) && r.cache[id].events == s.cache[id].events
  }

  lemma SameIdsSound(s: State, r: State)
    requires Sound(s) && SameIds(s, r) && EventsKept(s, r)
    ensures Sound(r)
  {
    SameIdsConsistent(s, r);
    SameIdsOwned(s, r);
  }

  lemma StoredSound(s: State, e: Elem, name: string, pvt: bool)
    requires Sound(s)
    ensures Sound(Stored(s, e, name, pvt))
  {
    AllocatedSound(s, e);
    StoredSame(s, e, name, pvt);
    SameIdsSound(Allocated(s, e), Stored(s, e, name, pvt));
  }

  lemma StoredSame(s: State, e: Elem, name: string, pvt: bool)
    ensures SameIds(Allocated(s, e), Stored(s, e, name, pvt)) && EventsKept(Allocated(s, e), Stored(s, e, name, pvt))
  {
    var t := Allocated(s, e);
    assert t.cache.Keys == t.cache.Keys + {t.expando[e]};
  }

  lemma EventsMadeSame(t: State, id: Id)
    requires id in t.cache
    ensures SameIds(t, EventsMade(t, id))
  {
    assert t.cache.Keys == t.cache.Keys + {id};
  }

  lemma EventsMadeSeparate(t: State, id: Id)
    requires Separate(t) && id in t.cache
    ensures Separate(EventsMade(t, id))
  {
    var r := EventsMade(t, id);
    forall i | HasEvents(r, i)
      ensures i != id ==> HasEvents(t, i) && r.cache[i] == t.cache[i]
    {
    }
  }

  lemma WithEventsSound(s: State, e: Elem)
    requires Sound(s)
    ensures Sound(WithEvents(s, e))
  {
    AllocatedSound(s, e);
    var t := Allocated(s, e);
    EventsMadeSame(t, t.expando[e]);
    EventsMadeSeparate(t, t.expando[e]);
    SameIdsConsistent(t, WithEvents(s, e));
    SameIdsOwned(t, WithEvents(s, e));
  }

  lemma BoundSound(s: State, e: Elem, kind: string, newHandler: bool)
    requires Sound(s)
    ensures Sound(Bound(s, e, kind, newHandler))
  {
    WithEventsSound(s, e);
    BoundSame(s, e, kind, newHandler);
    SameIdsSound(WithEvents(s, e), Bound(s, e, kind, newHandler));
  }

  lemma BoundSame(s: State, e: Elem, kind: string, newHandler: bool)
    ensures SameIds(WithEvents(s, e), Bound(s, e, kind, newHandler)) && EventsKept(WithEvents(s, e), Bound(s, e, kind, newHandler))
  {
    var t := WithEvents(s, e);
    assert t.cache.Keys == t.cache.Keys + {t.expando[e]};
  }

  lemma ReleasedOwned(s: State, e: Elem)
    requires Owned(s) && e in s.expando
    ensures Owned(Released(s, e, s.expando[e]))
  {
    var id := s.expando[e];
    var r := Released(s, e, id);
    forall i | i in r.cache
      ensures exists f :: Own(r, f, i)
    {
      var f :| Own(s, f, i);
      if id in s.cache {
        assert f != e && Own(r, f, i);
      }
    }
  }

  lemma ReleasedOwnConsistent(s: State, e: Elem)
    requires Consistent(s) && e in s.expando
    ensures Consistent(Released(s, e, s.expando[e]))
  {
    var id := s.expando[e];
    var r := Released(s, e, id);
    assert forall f :: f in r.expando ==> f in s.expando && r.expando[f] == s.expando[f] && s.expando[f] != id;
  }

  /** Freeing an element's own id keeps the ids sound. */
  lemma ReleasedOwn(s: State, e: Elem)
    requires Sound(s) && e in s.expando
    ensures Sound(Released(s, e, s.expando[e]))
  {
    ReleasedOwned(s, e);
    ReleasedOwnConsistent(s, e);
    var r := Released(s, e, s.expando[e]);
    assert forall i :: HasEvents(r, i) ==> HasEvents(s, i) && r.cache[i] == s.cache[i];
  }

  /**
    The last block keeps the ids consistent exactly when the entry it finds is still the
    element's own: had it been freed and handed to another element meanwhile, that
    element's id would be put on the free list.
   */
  lemma ReleasedConsistent(s: State, e: Elem, id: Id)
    requires Sound(s)
    ensures Consistent(Released(s, e, id)) <==> id !in s.cache || Own(s, e, id)
    ensures Consistent(Released(s, e, id)) ==> Sound(Released(s, e, id))
  {
    if id in s.cache {
      if Own(s, e, id) {
        ReleasedOwn(s, e);
      } else {
        var f :| Own(s, f, id);
        assert f in Released(s, e, id).expando;
      }
    }
  }

  lemma RemovedSound(s: State, e: Elem, t: Target)
    requires Sound(s)
    ensures Sound(Removed(s, e, t)) && Removed(s, e, t).fine == s.fine
  {
    if e in s.expando {
      var r := Without(s, s.expando[e], t);
      WithoutSame(s, s.expando[e], t);
      SameIdsSound(s, r);
      ReleasedOwn(r, e);
    }
  }

  function Without(s: State, id: Id, t: Target): State
    requires id in s.cache
  {
    s.(cache := s.cache[id := Stripped(s.cache[id], t)])
  }

  lemma WithoutSame(s: State, id: Id, t: Target)
    requires id in s.cache
    ensures SameIds(s, Without(s, id, t)) && EventsKept(s, Without(s, id, t))
  {
    assert s.cache.Keys == s.cache.Keys + {id};
  }
}
