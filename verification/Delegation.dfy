/**
  The handlers bound to one element for one event type: delegated ones in front, and the
  queue of handlers an event runs on its way up from its target.
 */
module Delegation {
  import opened Wrappers
  import opened Dom
  import opened Seqs

  /** `selector` is present for a delegated handler. */
  datatype HandleObj = HandleObj(guid: nat, origType: string, namespace: string, selector: Option<string>)

  /** One step of the walk: the handlers to run on a node. */
  datatype Queued = Queued(elem: Addr, handlers: seq<HandleObj>)

  /** What adding and removing amounts to: two separate lists. */
  datatype Lists = Lists(delegates: seq<HandleObj>, direct: seq<HandleObj>)

  function Added(l: Lists, h: HandleObj): Lists {
    if h.selector.Some? then l.(delegates := l.delegates + [h]) else l.(direct := l.direct + [h])
  }

  /** The request to remove: every part that is given must agree. */
  datatype Removal = Removal(mappedTypes: bool, origType: string, guid: Option<nat>, namespace: Option<string -> bool>, selector: Option<string>)

  predicate Matches(r: Removal, h: HandleObj) {
    && (r.mappedTypes || r.origType == h.origType)
    && (r.guid.None? || r.guid.value == h.guid)
    && (r.namespace.None? || r.namespace.value(h.namespace))
    && (r.selector.None? || r.selector == h.selector || (r.selector.value == "**" && h.selector.Some?))
  }

  /** What is left after a removal. */
  function Kept(s: seq<HandleObj>, r: Removal): seq<HandleObj> {
    Keep(s, h => !Matches(r, h))
  }

  function Removed(l: Lists, r: Removal): Lists {
    Lists(Kept(l.delegates, r), Kept(l.direct, r))
  }

  /** The event being dispatched, and how nodes answer to it. */
  datatype Event = Event(target: Addr, button: bool, click: bool)

  class Handlers {
    var list: seq<HandleObj>
    var delegateCount: nat

    ghost function View(): Lists
      reads this
      requires delegateCount <= |list|
    {
      Lists(list[..delegateCount], list[delegateCount..])
    }

    /** The first delegateCount handlers are exactly those with a selector. */
    ghost predicate Valid()
      reads this
    {
      delegateCount <= |list| && forall k :: 0 <= k < |list| ==> (k < delegateCount <==> list[k].selector.Some?)
    }

    constructor ()
      ensures Valid() && View() == Lists([], [])
    {
      list, delegateCount := [], 0;
    }

    method Add(h: HandleObj)
      requires Valid()
      modifies this
      ensures Valid() && View() == Added(old(View()), h)
      ensures if h.selector.Some? then
          list == old(list)[..old(delegateCount)] + [h] + old(list)[old(delegateCount)..] && delegateCount == old(delegateCount) + 1
        else list == old(list) + [h] && delegateCount == old(delegateCount)
    {
      if h.selector.Some? {
        list := list[..delegateCount] + [h] + list[delegateCount..];
        delegateCount := delegateCount + 1;
      } else {
        list := list + [h];
      }
    }

    /** Removes from the back; each removed delegate lowers the count. */
    method Remove(r: Removal)
      requires Valid()
      modifies this
      ensures Valid() && View() == Removed(old(View()), r)
    {
      var j := |list|;
      while j > 0
        invariant 0 <= j <= |list| && Valid()
        invariant Removed(View(), r) == Removed(old(View()), r)
        invariant forall k :: j <= k < |list| ==> !Matches(r, list[k])
      {
        j := j - 1;
        if Matches(r, list[j]) {
          SpliceOut(j, r);
        }
      }
      KeepAll(View().delegates, h => !Matches(r, h));
      KeepAll(View().direct, h => !Matches(r, h));
    }

    method SpliceOut(j: nat, ghost r: Removal)
      requires Valid() && j < |list| && Matches(r, list[j])
      modifies this
      ensures Valid() && Removed(View(), r) == Removed(old(View()), r)
      ensures list == old(list)[..j] + old(list)[j + 1..]
    {
      SpliceKeeps(list, delegateCount, j, r);
      var handleObj := list[j];
      list := list[..j] + list[j + 1..];
      if handleObj.selector.Some? {
        delegateCount := delegateCount - 1;
      }
    }
  }

  /** Taking out one handler that is to go changes nothing about the ones to be kept. */
  lemma SpliceKeeps(list: seq<HandleObj>, count: nat, j: nat, r: Removal)
    requires count <= |list| && j < |list| && Matches(r, list[j])
    ensures var spliced := list[..j] + list[j + 1..];
      var left := if j < count then count - 1 else count;
      && Kept(spliced[..left], r) == Kept(list[..count], r)
      && Kept(spliced[left..], r) == Kept(list[count..], r)
  {
    var spliced := list[..j] + list[j + 1..];
    if j < count {
      assert list[..count] == list[..j] + [list[j]] + list[j + 1..count];
      assert spliced[..count - 1] == list[..j] + list[j + 1..count];
      assert spliced[count - 1..] == list[count..];
      KeepDrop(list[..j], list[j], list[j + 1..count], r);
    } else {
      assert list[count..] == list[count..j] + [list[j]] + list[j + 1..];
      assert spliced[count..] == list[count..j] + list[j + 1..];
      assert spliced[..count] == list[..count];
      KeepDrop(list[count..j], list[j], list[j + 1..], r);
    }
  }

  lemma KeepDrop(a: seq<HandleObj>, x: HandleObj, b: seq<HandleObj>, r: Removal)
    requires Matches(r, x)
    ensures Kept(a + [x] + b, r) == Kept(a + b, r)
  {
    KeepConcat(a + [x], b, h => !Matches(r, h));
    KeepConcat(a, b, h => !Matches(r, h));
    KeepSnoc(a, x, h => !Matches(r, h));
  }

  lemma {:induction false} KeepAll(s: seq<HandleObj>, keep: HandleObj -> bool)
    requires forall k :: 0 <= k < |s| ==> keep(s[k])
    ensures Keep(s, keep) == s
  {
    if s != [] {
      KeepAll(s[..|s| - 1], keep);
    }
  }

  // ---------- dispatch ----------

  /** The page as the event sees it: which selector matches which node, and which nodes are disabled. */
  datatype Page = Page(tree: Tree, matches: (string, Addr) -> bool, disabled: Addr -> bool)

  predicate Eligible(page: Page, event: Event, cur: Addr) {
    IsElement(page.tree, cur) && (!page.disabled(cur) || !event.click)
  }

  predicate Delegated(page: Page, cur: Addr, h: HandleObj) {
    h.selector.Some? && page.matches(h.selector.value, cur)
  }

  /** The delegates to run on one node, in their order, if any. */
  function AtNode(page: Page, event: Event, delegates: seq<HandleObj>, cur: Addr): seq<Queued> {
    var hs := Hits(page, delegates, cur);
    if Eligible(page, event, cur) && hs != [] then [Queued(cur, hs)] else []
  }

  function Hits(page: Page, delegates: seq<HandleObj>, cur: Addr): seq<HandleObj> {
    Keep(delegates, h => Delegated(page, cur, h))
  }

  lemma HitsSnoc(page: Page, delegates: seq<HandleObj>, i: nat, cur: Addr)
    requires i < |delegates|
    ensures Hits(page, delegates[..i + 1], cur) ==
            Hits(page, delegates[..i], cur) + (if Delegated(page, cur, delegates[i]) then [delegates[i]] else [])
  {
    assert delegates[..i + 1] == delegates[..i] + [delegates[i]];
    KeepSnoc(delegates[..i], delegates[i], h => Delegated(page, cur, h));
  }

  /** From a node up to, but excluding, the bound element (or past the root, if it is not above). */
  function AlongPath(page: Page, event: Event, delegates: seq<HandleObj>, cur: Addr, bound: Addr): seq<Queued>
    decreases |cur|
  {
    if cur == bound then []
    else
      var above := if cur == [] then [] else AlongPath(page, event, delegates, Parent(cur), bound);
      AtNode(page, event, delegates, cur) + above
  }

  predicate AtOrAbove(x: Addr, y: Addr) {
    x == y || Ancestor(x, y)
  }

  /** On the way up from the target and strictly below the bound element, if that is above at all. */
  predicate OnPath(e: Addr, target: Addr, bound: Addr) {
    AtOrAbove(e, target) && (AtOrAbove(bound, target) ==> |bound| < |e|)
  }

  /** Every node on the path with a matching delegate is there, with all its matches, deepest first. */
  lemma {:induction false} PathVisits(page: Page, event: Event, delegates: seq<HandleObj>, cur: Addr, bound: Addr)
    ensures var path := AlongPath(page, event, delegates, cur, bound);
      && (forall q :: q in path <==>
        && OnPath(q.elem, cur, bound) && Eligible(page, event, q.elem)
        && q.handlers == Hits(page, delegates, q.elem) && q.handlers != [])
      && (forall i, j :: 0 <= i < j < |path| ==> |path[i].elem| > |path[j].elem|)
    decreases |cur|
  {
    if cur == bound || cur == [] {
      assert forall e :: OnPath(e, cur, bound) <==> e == cur && cur != bound;
    } else {
      PathVisits(page, event, delegates, Parent(cur), bound);
      forall e
        ensures OnPath(e, cur, bound) <==> e == cur || OnPath(e, Parent(cur), bound)
      {
        PathStep(e, cur, bound);
      }
    }
  }

  lemma PathStep(e: Addr, cur: Addr, bound: Addr)
    requires cur != [] && cur != bound
    ensures OnPath(e, cur, bound) <==> e == cur || OnPath(e, Parent(cur), bound)
  {
    AncestorStep(e, cur);
    AncestorStep(bound, cur);
  }

  lemma AncestorStep(e: Addr, cur: Addr)
    requires cur != []
    ensures AtOrAbove(e, cur) <==> e == cur || AtOrAbove(e, Parent(cur))
  {
    if |e| < |cur| {
      assert cur[..|e|] == Parent(cur)[..|e|];
      assert Parent(cur) == Parent(cur)[..|cur| - 1];
    }
  }

  /** What must run: the delegates along the path, then the direct handlers once. */
  function Queue(page: Page, event: Event, lists: Lists, bound: Addr): seq<Queued> {
    var delegated := if event.button && event.click then [] else AlongPath(page, event, lists.delegates, event.target, bound);
    var direct := if lists.direct == [] then [] else [Queued(bound, lists.direct)];
    delegated + direct
  }

  /**
    The order of the queue: the entries of nodes on the path, deepest first, and after all
    of them the direct handlers.  A click with another button runs the direct handlers alone.
   */
  lemma QueueOrder(page: Page, event: Event, lists: Lists, bound: Addr)
    ensures var queue := Queue(page, event, lists, bound);
      var n := if lists.direct == [] then |queue| else |queue| - 1;
      && 0 <= n && (lists.direct != [] ==> queue[n] == Queued(bound, lists.direct))
      && (forall k :: 0 <= k < n ==> OnPath(queue[k].elem, event.target, bound) && queue[k].handlers != [])
      && (forall i, j :: 0 <= i < j < n ==> |queue[i].elem| > |queue[j].elem|)
      && (event.button && event.click ==> n == 0)
  {
    PathVisits(page, event, lists.delegates, event.target, bound);
  }

  /** Any other event visits every eligible node on the path that has a matching delegate, and runs that delegate there. */
  lemma QueueVisits(page: Page, event: Event, lists: Lists, bound: Addr, e: Addr, h: HandleObj) returns (i: nat)
    requires !(event.button && event.click) && OnPath(e, event.target, bound) && Eligible(page, event, e)
    requires h in lists.delegates && Delegated(page, e, h)
    ensures var queue := Queue(page, event, lists, bound); i < |queue| && queue[i].elem == e && h in queue[i].handlers
  {
    var hits := Hits(page, lists.delegates, e);
    KeepMember(lists.delegates, x => Delegated(page, e, x), h);
    assert h in hits;
    PathVisits(page, event, lists.delegates, event.target, bound);
    var path := AlongPath(page, event, lists.delegates, event.target, bound);
    assert Queued(e, hits) in path;
    i :| 0 <= i < |path| && path[i] == Queued(e, hits);
  }

  /** jQuery.event.handlers: the same queue, asking each selector at most once per node. */
  method Dispatch(page: Page, event: Event, handlers: Handlers, bound: Addr) returns (queue: seq<Queued>)
    requires handlers.Valid()
    ensures queue == Queue(page, event, handlers.View(), bound)
  {
    queue := [];
    var delegates := handlers.list[..handlers.delegateCount];
    if handlers.delegateCount > 0 && !(event.button && event.click) {
      queue := WalkUp(page, event, delegates, bound);
    } else if handlers.delegateCount == 0 {
      assert delegates == [];
      NoDelegates(page, event, event.target, bound);
    }
    if handlers.delegateCount < |handlers.list| {
      queue := queue + [Queued(bound, handlers.list[handlers.delegateCount..])];
    }
  }

  /** What the rest of the walk will find. */
  function Ahead(page: Page, event: Event, delegates: seq<HandleObj>, cur: Option<Addr>, bound: Addr): seq<Queued> {
    if cur.None? then [] else AlongPath(page, event, delegates, cur.value, bound)
  }

  lemma AheadStep(page: Page, event: Event, delegates: seq<HandleObj>, cur: Addr, bound: Addr)
    requires cur != bound
    ensures AlongPath(page, event, delegates, cur, bound) ==
            AtNode(page, event, delegates, cur) + Ahead(page, event, delegates, Step(cur, Up), bound)
  {
  }

  lemma Associate(a: seq<Queued>, b: seq<Queued>, c: seq<Queued>)
    ensures a + b + c == a + (b + c)
  {
  }

  method WalkUp(page: Page, event: Event, delegates: seq<HandleObj>, bound: Addr) returns (queue: seq<Queued>)
    requires forall k :: 0 <= k < |delegates| ==> delegates[k].selector.Some?
    ensures queue == AlongPath(page, event, delegates, event.target, bound)
  {
    queue := [];
    var cur := Some(event.target);
    while cur.Some? && cur.value != bound
      invariant AlongPath(page, event, delegates, event.target, bound) == queue + Ahead(page, event, delegates, cur, bound)
      decreases if cur.Some? then |cur.value| + 1 else 0
    {
      var found := DelegatesAt(page, event, delegates, cur.value);
      AheadStep(page, event, delegates, cur.value, bound);
      Associate(queue, found, Ahead(page, event, delegates, Step(cur.value, Up), bound));
      queue := queue + found;
      cur := Step(cur.value, Up);
    }
    assert queue + [] == queue;
  }

  lemma {:induction false} NoDelegates(page: Page, event: Event, cur: Addr, bound: Addr)
    ensures AlongPath(page, event, [], cur, bound) == []
    decreases |cur|
  {
    if cur != bound && cur != [] {
      NoDelegates(page, event, Parent(cur), bound);
    }
  }

  method DelegatesAt(page: Page, event: Event, delegates: seq<HandleObj>, cur: Addr) returns (found: seq<Queued>)
    requires forall k :: 0 <= k < |delegates| ==> delegates[k].selector.Some?
    ensures found == AtNode(page, event, delegates, cur)
  {
    found := [];
    if Eligible(page, event, cur) {
      var memo: map<string, bool> := map[];
      var matches: seq<HandleObj> := [];
      for i := 0 to |delegates|
        invariant forall sel :: sel in memo ==> memo[sel] == page.matches(sel, cur)
        invariant matches == Hits(page, delegates[..i], cur)
      {
        var sel := delegates[i].selector.value;
        if sel !in memo {
          memo := memo[sel := page.matches(sel, cur)];
        }
        HitsSnoc(page, delegates, i, cur);
        if memo[sel] {
          matches := matches + [delegates[i]];
        }
      }
      assert delegates[..|delegates|] == delegates;
      if matches != [] {
        found := [Queued(cur, matches)];
      }
    }
  }
}
