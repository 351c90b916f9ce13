/** Whole runs from an empty store, and a run that goes wrong. */
module DataRuns {
  import opened Wrappers
  import opened Seqs
  import opened DataIds
  import opened DataHooks

  function Start(special: set<string>): State {
    State(1, [], map[], map[], map[], 0, special, true)
  }

  /** In every run whose hooks spare the elements being cleaned, no two elements ever share an id. */
  lemma EveryRunSound(special: set<string>, ops: seq<Op>)
    requires AllSpare(ops, {})
    ensures Healthy(RunOps(Start(special), ops))
  {
    OpsSpareFrames(Start(special), ops, {}, {});
  }

  /** In every run at all, the ids are sound as long as every clean-up ended on its own element's entry or on none. */
  lemma EveryRunGood(special: set<string>, ops: seq<Op>)
    ensures RunOps(Start(special), ops).fine ==> Sound(RunOps(Start(special), ops))
  {
    OpsGood(Start(special), ops);
  }

  /**
    The library's own tear-down hooks are of that kind.  focusin and focusout count their
    users in private data of the document, which may be the very element being cleaned;
    submit and change remove handlers of other types from the element itself.
   */
  lemma {:induction false} LibraryHooksSpare(doc: Elem, fix: string, self: Elem, kinds: seq<string>, busy: set<Elem>)
    requires fix != "events"
    ensures AllSpare([StoreFor(doc, fix, true)], busy) && AllSpare([RemoveFrom(doc, PrivateKey(fix))], busy)
    ensures AllSpare(seq(|kinds|, k requires 0 <= k < |kinds| => Unbind(self, kinds[k], [])), busy)
    decreases |kinds|
  {
    assert AllSpare([], busy);
    assert [StoreFor(doc, fix, true)][1..] == [] && [RemoveFrom(doc, PrivateKey(fix))][1..] == [];
    var unbinds := seq(|kinds|, k requires 0 <= k < |kinds| => Unbind(self, kinds[k], []));
    if kinds != [] {
      LibraryHooksSpare(doc, fix, self, kinds[1..], busy);
      assert unbinds[1..] == seq(|kinds[1..]|, k requires 0 <= k < |kinds[1..]| => Unbind(self, kinds[1..][k], []));
      assert unbinds[0] == Unbind(self, kinds[0], []);
    }
  }

  /** One element with id 1, and one special event type with a handler. */
  function OneElement(): State {
    State(2, [], map[7 := 1], map[1 := Entry(0, {}, {}, Some(1))], map[1 := Record(["x"], {"x"})], 2, {"x"}, true)
  }

  lemma OneElementHealthy()
    ensures Healthy(OneElement())
  {
    var s := OneElement();
    assert Consistent(s);
    assert Owned(s) by { assert Own(s, 7, 1); }
    assert Separate(s);
  }

  /** A tear-down hook that cleans the element being cleaned, and then stores data for another one, breaks the ids. */
  lemma HookMayBreakIds()
    ensures Healthy(OneElement())
    ensures !Consistent(Cleaned(OneElement(), 7, [Hook([Clean(7, []), AllocateFor(8)])]))
  {
    OneElementHealthy();
    IdBothFreeAndUsed(OneElement(), [Clean(7, []), AllocateFor(8)]);
  }

  lemma IdBothFreeAndUsed(s: State, hook: seq<Op>)
    requires hook == [Clean(7, []), AllocateFor(8)] && s.special == {"x"}
    requires s.expando == map[7 := 1] && 1 in s.cache && s.cache[1].events == Some(1) && s.deletedIds == []
    requires s.records == map[1 := Record(["x"], {"x"})] && s.cache.Keys == {1}
    ensures var r := Cleaned(s, 7, [Hook(hook)]); 8 in r.expando && r.expando[8] == 1 && 1 !in r.cache && 1 in r.deletedIds
  {
    var u := Unbound(s, 7, "x", hook);
    LastTypeUnbound(s, hook);
    var kinds := ["x"];
    assert kinds[1..] == [];
    var hooks := [Hook(hook)];
    assert First(hooks) == hook && Rest(hooks) == [];
    assert RecordAt(s, 1).kinds == kinds;
    assert KindsCleaned(s, 7, 1, kinds, hooks) == KindsCleaned(u, 7, 1, [], []) == u;
    assert HooksDone(s, 7, hooks) == u;
    assert Released(u, 7, 1).deletedIds[|u.deletedIds|] == 1;
  }

  lemma NoOtherKind(kind: string)
    ensures OtherKinds([kind], kind) == []
  {
    KeepNone([kind], k => k != kind);
  }

  lemma LastTypeUnbound(s: State, hook: seq<Op>)
    requires hook == [Clean(7, []), AllocateFor(8)] && s.special == {"x"}
    requires s.expando == map[7 := 1] && 1 in s.cache && s.cache[1].events == Some(1) && s.deletedIds == []
    requires s.records == map[1 := Record(["x"], {"x"})] && s.cache.Keys == {1}
    ensures var u := Unbound(s, 7, "x", hook); u.expando == map[8 := 1] && u.cache.Keys == {1}
  {
    var spliced := Spliced(s, 1, "x");
    assert s.records[1].live - {"x"} == {};
    assert spliced.records == map[1 := Record(["x"], {})];
    HookRuns(spliced, hook);
    var t := RunOps(spliced, hook);
    var f := Forgotten(t, 1, "x");
    assert TornDown(s, 1, "x", hook) == f;
    NoOtherKind("x");
    assert t.records == spliced.records && t.records[1].kinds == ["x"];
    assert RecordAt(f, 1).kinds == OtherKinds(["x"], "x");
    var d := HandleDropped(f, 1, s.cache[1].stamp);
    assert d.expando == map[8 := 1] && d.cache.Keys == {1};
  }

  /** Inside the hook: the element is cleaned, its one type having no handlers left, and its id goes to another. */
  lemma HookRuns(s: State, hook: seq<Op>)
    requires hook == [Clean(7, []), AllocateFor(8)]
    requires s.expando == map[7 := 1] && 1 in s.cache && s.cache[1].events == Some(1) && s.deletedIds == []
    requires s.records == map[1 := Record(["x"], {})] && s.cache.Keys == {1}
    ensures var t := RunOps(s, hook); t.expando == map[8 := 1] && t.cache.Keys == {1} && t.deletedIds == [] && t.records == s.records
  {
    var kinds := ["x"];
    assert kinds[1..] == [];
    assert TornDown(s, 1, "x", []) == s;
    assert Unbound(s, 7, "x", []) == s;
    assert HooksDone(s, 7, []) == s;
    var r := Released(s, 7, 1);
    assert r.expando == map[] && r.deletedIds == [1];
    assert hook[1..] == [AllocateFor(8)] && hook[1..][1..] == [];
    assert RunOp(s, hook[0]) == r;
    var t := Allocated(r, 8);
    assert t.expando == map[8 := 1];
    assert RunOps(s, hook) == RunOps(r, hook[1..]) == RunOps(t, []) == t;
  }
}
