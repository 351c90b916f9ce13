/** The store itself: the same operations on mutable variables, hooks included. */
module DataStores {
  import opened Wrappers
  import opened DataIds
  import opened DataHooks
  import opened DataKeys
  import opened DataRuns

  class DataStore {
    var guid: nat
    var deletedIds: seq<Id>
    var expando: map<Elem, Id>
    var cache: map<Id, Entry>
    var records: map<Ref, Record>
    var next: nat
    const special: set<string>
    ghost var fine: bool

    ghost function View(): State
      reads this
    {
      State(guid, deletedIds, expando, cache, records, next, special, fine)
    }

    ghost predicate Valid()
      reads this
    {
      Sound(View())
    }

    constructor (special: set<string>)
      ensures Valid() && View() == Start(special)
    {
      guid, deletedIds, expando, cache, records, next, fine := 1, [], map[], map[], map[], 0, true;
      this.special := special;
    }

    /** jQuery.guid++ : the counter also numbers event handlers. */
    method NextGuid() returns (g: nat)
      modifies this`guid
      ensures g == old(guid) && guid == g + 1
    {
      g := guid;
      guid := guid + 1;
    }

    method Number(e: Elem)
      modifies this
      ensures View() == Numbered(old(View()), e)
    {
      if e in expando {
        return;
      }
      var id;
      if deletedIds != [] {
        id := deletedIds[|deletedIds| - 1];
        deletedIds := deletedIds[..|deletedIds| - 1];
      } else {
        id := NextGuid();
      }
      expando := expando[e := id];
    }

    method Allocate(e: Elem) returns (id: Id)
      modifies this
      ensures View() == Allocated(old(View()), e)
      ensures e in expando && expando[e] == id && id in cache
    {
      Number(e);
      id := expando[e];
      if id !in cache {
        cache := cache[id := Blank(next)];
        next := next + 1;
      }
    }

    /** Storing one value under a key. */
    method Store(e: Elem, name: string, pvt: bool)
      modifies this
      ensures View() == Stored(old(View()), e, name, pvt)
      ensures old(Valid()) ==>
        && HasEntry(View(), e) && EventsOf(View(), e) == old(EventsOf(View(), e))
        && PublicOf(View(), e) == old(PublicOf(View(), e)) + (if pvt then {} else {name})
        && PrivateOf(View(), e) == old(PrivateOf(View(), e)) + (if pvt then {name} else {})
    {
      if Sound(View()) {
        StoredHolds(View(), e, name, pvt);
      }
      var id := Allocate(e);
      cache := cache[id := WithKey(cache[id], name, pvt)];
    }

    /** Adding a handler. */
    method Add(e: Elem, kind: string, newHandler: bool)
      modifies this
      ensures View() == Bound(old(View()), e, kind, newHandler)
    {
      var id := Allocate(e);
      if newHandler {
        var _ := NextGuid();
      }
      if cache[id].events == None {
        cache := cache[id := cache[id].(events := Some(next))];
        records := records[next := Record([], {})];
        next := next + 1;
      }
      cache := cache[id := WithKey(cache[id], "handle", true)];
      var ref := cache[id].events.value;
      var rec := if ref in records then records[ref] else Record([], {});
      records := records[ref := Record(if kind in rec.kinds then rec.kinds else rec.kinds + [kind], rec.live + {kind})];
    }

    /** The last block of a clean-up. */
    method Release(e: Elem, id: Id)
      modifies this
      ensures View() == Released(old(View()), e, id)
    {
      if id in cache {
        fine := fine && e in expando && expando[e] == id;
        cache := cache - {id};
        expando := expando - {e};
        deletedIds := deletedIds + [id];
      }
    }

    /** Removing data by name, or all public data; an entry left empty is cleaned away. */
    method Remove(e: Elem, t: Target)
      modifies this
      ensures View() == Removed(old(View()), e, t)
      ensures old(Valid()) && e in old(expando) ==>
        && (forall n :: n in PublicOf(View(), e) <==> n in old(PublicOf(View(), e)) && t != PublicKey(n) && t != AllPublic)
        && (forall n :: n in PrivateOf(View(), e) <==> n in old(PrivateOf(View(), e)) && t != PrivateKey(n))
        && (e !in expando <==> PublicOf(View(), e) == {} && PrivateOf(View(), e) == {} && EventsOf(View(), e) == None)
    {
      if Sound(View()) && e in expando {
        RemovedHolds(View(), e, t);
      }
      if e !in expando || expando[e] !in cache {
        return;
      }
      var id := expando[e];
      cache := cache[id := Stripped(cache[id], t)];
      if t.PublicKey? && cache[id].pub != {} {
        return;
      }
      if !IsEmptyData(cache[id]) {
        return;
      }
      Release(e, id);
    }

    /** Removing all handlers of one type, with its tear-down hook. */
    method RemoveEvent(e: Elem, kind: string, hook: seq<Op>)
      modifies this
      ensures View() == Unbound(old(View()), e, kind, hook)
      decreases OpsSize(hook), 3, 0
    {
      if e !in expando || expando[e] !in cache || cache[expando[e]].events == None {
        return;
      }
      var id := expando[e];
      var stamp, ref := cache[id].stamp, cache[id].events.value;
      TearDown(ref, kind, hook);
      if ref !in records || records[ref].kinds == [] {
        DropHandle(id, stamp);
        Remove(e, PrivateKey("events"));
      }
    }

    method DropHandle(id: Id, stamp: nat)
      modifies this`cache
      ensures View() == HandleDropped(old(View()), id, stamp)
    {
      if id in cache && cache[id].stamp == stamp {
        cache := cache[id := cache[id].(priv := cache[id].priv - {"handle"})];
      }
    }

    method TearDown(ref: Ref, kind: string, hook: seq<Op>)
      modifies this
      ensures View() == TornDown(old(View()), ref, kind, hook)
      decreases OpsSize(hook), 2, 0
    {
      var rec := if ref in records then records[ref] else Record([], {});
      if !HasHandlers(rec, kind) {
        return;
      }
      records := records[ref := rec.(live := rec.live - {kind})];
      if kind in special {
        Run(hook);
      }
      rec := if ref in records then records[ref] else Record([], {});
      records := records[ref := Record(OtherKinds(rec.kinds, kind), rec.live - {kind})];
    }

    /**
      Cleaning one element.  Removing its special events may already free its id; the hooks
      called on the way may do anything.  If they spare the element, the ids stay sound and
      its id ends on the free list.
     */
    method CleanData(e: Elem, hooks: seq<Hook>)
      modifies this
      ensures View() == Cleaned(old(View()), e, hooks)
      ensures old(Valid() && fine) && HooksSpare(hooks, {e}) ==>
        Valid() && e !in expando && (e in old(expando) ==> Gone(View(), e, old(expando)[e]))
      decreases HooksSize(hooks), 6, 0
    {
      if Healthy(View()) && HooksSpare(hooks, {e}) {
        assert {} + {e} == {e};
        CleanedSpares(View(), e, hooks, {}, {});
      }
      if e !in expando || expando[e] !in cache {
        return;
      }
      var id := expando[e];
      if cache[id].events.Some? {
        var ref := cache[id].events.value;
        CleanKinds(e, ref, hooks);
      }
      Release(e, id);
    }

    method CleanKinds(e: Elem, ref: Ref, hooks: seq<Hook>)
      modifies this
      ensures View() == KindsCleaned(old(View()), e, ref, RecordAt(old(View()), ref).kinds, hooks)
      decreases HooksSize(hooks), 4, 0
    {
      var kinds := if ref in records then records[ref].kinds else [];
      var todo := hooks;
      for i := 0 to |kinds|
        invariant HooksSize(todo) <= HooksSize(hooks)
        invariant KindsCleaned(View(), e, ref, kinds[i..], todo) == KindsCleaned(old(View()), e, ref, kinds, hooks)
      {
        HooksSplit(todo);
        assert kinds[i..][1..] == kinds[i + 1..];
        if kinds[i] in special && ref in records && kinds[i] in records[ref].kinds {
          RemoveEvent(e, kinds[i], First(todo));
        }
        todo := Rest(todo);
      }
    }

    /** A program, or a hook. */
    method Run(ops: seq<Op>)
      modifies this
      ensures View() == RunOps(old(View()), ops)
      ensures old(Valid() && fine) && AllSpare(ops, {}) ==> Valid() && KeysStay(old(View()), View(), ops)
      decreases OpsSize(ops), 1, 0
    {
      if Healthy(View()) && AllSpare(ops, {}) {
        OpsSpareFrames(View(), ops, {}, {});
        RunKeepsKeys(View(), ops);
      }
      for i := 0 to |ops|
        invariant RunOps(View(), ops[i..]) == RunOps(old(View()), ops)
      {
        assert ops[i..][1..] == ops[i + 1..];
        OneOfOps(ops, i);
        match ops[i]
        case AllocateFor(e) => var _ := Allocate(e);
        case StoreFor(e, name, pvt) => Store(e, name, pvt);
        case RemoveFrom(e, t) => Remove(e, t);
        case Bind(e, kind, newHandler) => Add(e, kind, newHandler);
        case Unbind(e, kind, hook) => RemoveEvent(e, kind, hook);
        case Clean(e, hooks) => CleanData(e, hooks);
      }
    }
  }

  lemma {:induction false} OneOfOps(ops: seq<Op>, i: nat)
    requires i < |ops|
    ensures OpSize(ops[i]) <= OpsSize(ops)
  {
    if i > 0 {
      OneOfOps(ops[1..], i - 1);
    }
  }
}
