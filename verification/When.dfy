/** jQuery.when: joining plain values and deferreds that settle in any order. */
module When {
  import opened Wrappers

  /** An argument: a plain value, or a deferred. */
  datatype Arg<V> = Plain(value: V) | Subordinate

  /** How a deferred settles: done or fail, with a list of arguments. */
  datatype Settlement<V> = Done(args: seq<V>) | Fail(args: seq<V>)

  /** A place in the result: still the deferred itself, or what it was resolved with. */
  datatype Slot<V> = Unset | Nothing | Single(value: V) | Several(values: seq<V>)

  /** One argument is passed on as it is, more than one as an array. */
  function Collect<V>(args: seq<V>): Slot<V> {
    if |args| > 1 then Several(args) else if |args| == 1 then Single(args[0]) else Nothing
  }

  /** What is collected tells the arguments: none, a single one, or an array of them when there are several. */
  lemma CollectedArgs<V>(args: seq<V>)
    ensures match Collect(args)
      case Unset => false
      case Nothing => args == []
      case Single(v) => args == [v]
      case Several(values) => values == args && |args| >= 2
  {
  }

  /** The master: with one deferred alone it is that deferred, so it passes its arguments through. */
  datatype Master<V> = Waiting | Resolved(values: seq<Slot<V>>) | PassedOn(args: seq<V>) | Rejected(args: seq<V>)

  /** Subordinates that have not been resolved. */
  function Outstanding<V>(args: seq<Arg<V>>, settled: map<nat, Settlement<V>>, n: nat): nat
    requires n <= |args|
  {
    if n == 0 then 0
    else Outstanding(args, settled, n - 1) +
         (if args[n - 1].Subordinate? && !(n - 1 in settled && settled[n - 1].Done?) then 1 else 0)
  }

  function SlotOf<V>(args: seq<Arg<V>>, settled: map<nat, Settlement<V>>, k: nat): Slot<V>
    requires k < |args|
  {
    match args[k]
    case Plain(v) => Single(v)
    case Subordinate => if k in settled && settled[k].Done? then Collect(settled[k].args) else Unset
  }

  function Slots<V>(args: seq<Arg<V>>, settled: map<nat, Settlement<V>>): (r: seq<Slot<V>>)
    ensures |r| == |args| && forall k :: 0 <= k < |args| ==> r[k] == SlotOf(args, settled, k)
  {
    seq(|args|, k requires 0 <= k < |args| => SlotOf(args, settled, k))
  }

  ghost predicate Failed<V>(settled: map<nat, Settlement<V>>) {
    exists k :: k in settled && settled[k].Fail?
  }

  /** Every argument has a value. */
  ghost predicate AllIn<V>(args: seq<Arg<V>>, settled: map<nat, Settlement<V>>) {
    forall k :: 0 <= k < |args| && args[k].Subordinate? ==> k in settled && settled[k].Done?
  }

  lemma {:induction false} NoneOutstanding<V>(args: seq<Arg<V>>, settled: map<nat, Settlement<V>>, n: nat)
    requires n <= |args|
    ensures Outstanding(args, settled, n) == 0 <==>
            forall k :: 0 <= k < n && args[k].Subordinate? ==> k in settled && settled[k].Done?
  {
    if n > 0 {
      NoneOutstanding(args, settled, n - 1);
    }
  }

  lemma {:induction false} SettleOne<V>(args: seq<Arg<V>>, settled: map<nat, Settlement<V>>, k: nat, s: Settlement<V>, n: nat)
    requires n <= |args| && k < |args| && args[k].Subordinate? && k !in settled
    ensures Outstanding(args, settled[k := s], n) == Outstanding(args, settled, n) - (if s.Done? && k < n then 1 else 0)
  {
    if n > 0 {
      SettleOne(args, settled, k, s, n - 1);
    }
  }

  /** What a list of settlements amounts to: the first for each deferred counts. */
  datatype History<V> = History(settled: map<nat, Settlement<V>>, firstFailure: Option<seq<V>>)

  function Happened<V>(args: seq<Arg<V>>, events: seq<(nat, Settlement<V>)>): History<V> {
    if events == [] then History(map[], None)
    else Happen(args, Happened(args, events[..|events| - 1]), events[|events| - 1])
  }

  function Happen<V>(args: seq<Arg<V>>, h: History<V>, event: (nat, Settlement<V>)): History<V> {
    if event.0 >= |args| || args[event.0].Plain? || event.0 in h.settled then h
    else History(h.settled[event.0 := event.1],
                 if event.1.Fail? && h.firstFailure.None? then Some(event.1.args) else h.firstFailure)
  }

  /** The event settles a subordinate. */
  predicate Settles<V>(args: seq<Arg<V>>, event: (nat, Settlement<V>)) {
    event.0 < |args| && args[event.0].Subordinate?
  }

  /** The event is the first settlement of a subordinate; later ones of the same deferred do not count. */
  predicate IsFirst<V>(args: seq<Arg<V>>, events: seq<(nat, Settlement<V>)>, i: int) {
    0 <= i < |events| && Settles(args, events[i]) && forall j :: 0 <= j < i ==> events[j].0 != events[i].0
  }

  /** The event is a first settlement and a failure, and no first settlement before it is one. */
  ghost predicate IsFailure<V>(args: seq<Arg<V>>, events: seq<(nat, Settlement<V>)>, i: int) {
    IsFirst(args, events, i) && events[i].1.Fail? && forall j :: j < i && IsFirst(args, events, j) ==> events[j].1.Done?
  }

  /** Which settlements count: each subordinate's first. */
  ghost predicate Recorded<V>(args: seq<Arg<V>>, events: seq<(nat, Settlement<V>)>, h: History<V>) {
    && (forall j :: 0 <= j < |events| && Settles(args, events[j]) ==> events[j].0 in h.settled)
    && (forall k :: k in h.settled ==> exists i :: IsFirst(args, events, i) && events[i] == (k, h.settled[k]))
  }

  /** And of the failures among them the earliest. */
  ghost predicate FailureRecorded<V>(args: seq<Arg<V>>, events: seq<(nat, Settlement<V>)>, h: History<V>) {
    if h.firstFailure.None? then forall i :: IsFirst(args, events, i) ==> events[i].1.Done?
    else exists i :: IsFailure(args, events, i) && events[i].1.args == h.firstFailure.value
  }

  lemma {:induction false} HappenedRecorded<V>(args: seq<Arg<V>>, events: seq<(nat, Settlement<V>)>)
    ensures Recorded(args, events, Happened(args, events)) && FailureRecorded(args, events, Happened(args, events))
  {
    if events != [] {
      var front, event := events[..|events| - 1], events[|events| - 1];
      assert events == front + [event];
      HappenedRecorded(args, front);
      FirstsKept(args, front, event);
      RecordedNext(args, front, Happened(args, front), event);
      FailureNext(args, front, Happened(args, front), event);
    }
  }

  lemma FirstsKept<V>(args: seq<Arg<V>>, events: seq<(nat, Settlement<V>)>, event: (nat, Settlement<V>))
    ensures forall i :: i < |events| ==> (IsFirst(args, events + [event], i) <==> IsFirst(args, events, i))
  {
    assert forall j :: 0 <= j < |events| ==> (events + [event])[j] == events[j];
  }

  /** The next event is a first settlement exactly if its deferred has not been settled before. */
  lemma NextIsFirst<V>(args: seq<Arg<V>>, events: seq<(nat, Settlement<V>)>, h: History<V>, event: (nat, Settlement<V>))
    requires Recorded(args, events, h)
    ensures IsFirst(args, events + [event], |events|) <==> Settles(args, event) && event.0 !in h.settled
  {
    if Settles(args, event) && event.0 in h.settled {
      var i :| IsFirst(args, events, i) && events[i] == (event.0, h.settled[event.0]);
      assert (events + [event])[i].0 == event.0;
    }
  }

  lemma RecordedNext<V>(args: seq<Arg<V>>, events: seq<(nat, Settlement<V>)>, h: History<V>, event: (nat, Settlement<V>))
    requires Recorded(args, events, h)
    ensures Recorded(args, events + [event], Happen(args, h, event))
  {
    var more, h' := events + [event], Happen(args, h, event);
    NextIsFirst(args, events, h, event);
    forall k | k in h'.settled
      ensures exists i :: IsFirst(args, more, i) && more[i] == (k, h'.settled[k])
    {
      if k in h.settled {
        var i :| IsFirst(args, events, i) && events[i] == (k, h.settled[k]);
        assert IsFirst(args, more, i) && more[i] == events[i];
      } else {
        assert IsFirst(args, more, |events|);
      }
    }
  }

  lemma FailureNext<V>(args: seq<Arg<V>>, events: seq<(nat, Settlement<V>)>, h: History<V>, event: (nat, Settlement<V>))
    requires Recorded(args, events, h) && FailureRecorded(args, events, h)
    ensures FailureRecorded(args, events + [event], Happen(args, h, event))
  {
    var more := events + [event];
    NextIsFirst(args, events, h, event);
    FirstsKept(args, events, event);
    if h.firstFailure.Some? {
      var i :| IsFailure(args, events, i) && events[i].1.args == h.firstFailure.value;
      assert more[i] == events[i] && IsFailure(args, more, i);
    } else if IsFirst(args, more, |events|) && event.1.Fail? {
      assert IsFailure(args, more, |events|);
    }
  }

  /** The settlements that were there at the start are seen in the order of the arguments. */
  lemma {:induction false} EarlyInOrder<V>(early: seq<Option<Settlement<V>>>, n: nat)
    requires n <= |early|
    ensures forall k: nat, s :: (k, s) in Order(early, n) <==> k < n && early[k] == Some(s)
    ensures forall i :: 0 <= i < |Order(early, n)| ==> Order(early, n)[i].0 < n
    ensures forall i, j :: 0 <= i < j < |Order(early, n)| ==> Order(early, n)[i].0 < Order(early, n)[j].0
  {
    if n > 0 {
      EarlyInOrder(early, n - 1);
      if early[n - 1].Some? {
        var last := (n - 1, early[n - 1].value);
        assert Order(early, n)[|Order(early, n - 1)|] == last;
        assert forall e :: e in Order(early, n) <==> e in Order(early, n - 1) || e == last;
      }
    }
  }

  /** The master of two or more arguments: rejected with the first failure, resolved when all are in. */
  ghost function Joined<V>(args: seq<Arg<V>>, h: History<V>): Master<V> {
    if h.firstFailure.Some? then Rejected(h.firstFailure.value)
    else if AllIn(args, h.settled) then Resolved(Slots(args, h.settled))
    else Waiting
  }

  class Join<V> {
    const args: seq<Arg<V>>
    var values: seq<Slot<V>>
    var remaining: int
    var master: Master<V>
    /** Arguments the loop has dealt with, and whether the call has returned. */
    var visited: nat
    ghost var ready: bool
    /** The subordinates: how each has settled, and the first failure among them. */
    var history: History<V>

    ghost predicate Counting()
      reads this
    {
      && |args| > 1 && visited <= |args| && |values| == |args|
      && (forall k :: k in history.settled ==> k < visited && args[k].Subordinate?)
      && remaining == Outstanding(args, history.settled, visited) + (|args| - visited)
      && (forall k :: 0 <= k < |args| ==> values[k] == SlotOf(args, history.settled, k))
      && (Failed(history.settled) <==> history.firstFailure.Some?)
    }

    ghost predicate Valid()
      reads this
    {
      && Counting()
      && (history.firstFailure.Some? ==> master == Rejected(history.firstFailure.value))
      && (history.firstFailure.None? ==> master == Waiting || (master == Resolved(values) && remaining == 0))
      && (ready ==> visited == |args| && (history.firstFailure.None? ==> (master.Resolved? <==> remaining == 0)))
    }

    constructor (args: seq<Arg<V>>)
      requires |args| > 1
      ensures Valid() && this.args == args && visited == 0 && !ready && history == History(map[], None)
    {
      this.args := args;
      values := seq(|args|, k requires 0 <= k < |args| => if args[k].Plain? then Single(args[k].value) else Unset);
      remaining := |args|;
      master := Waiting;
      visited, ready, history := 0, false, History(map[], None);
    }

    /** Settling the master: only the first time counts. */
    method SettleMaster(m: Master<V>)
      modifies this`master
      ensures master == if old(master).Waiting? then m else old(master)
    {
      if master.Waiting? {
        master := m;
      }
    }

    /** One turn of the loop. */
    method Visit()
      requires Valid() && visited < |args| && !ready
      modifies this`remaining, this`visited
      ensures Valid() && visited == old(visited) + 1
    {
      NoneOutstanding(args, history.settled, visited);
      if args[visited].Plain? {
        remaining := remaining - 1;
      }
      visited := visited + 1;
    }

    /** A subordinate settles; its first settlement reaches the join. */
    method Deliver(k: nat, s: Settlement<V>)
      requires Valid() && k < visited && args[k].Subordinate?
      modifies this`values, this`remaining, this`master, this`history
      ensures Valid() && history == Happen(args, old(history), (k, s))
    {
      if k in history.settled {
        return;
      }
      match s
      case Done(vs) => DeliverDone(k, vs);
      case Fail(vs) => DeliverFail(k, vs);
    }

    /** updateFunc: stores the value, and resolves the master when nothing is outstanding. */
    method DeliverDone(k: nat, vs: seq<V>)
      requires Valid() && k < visited && args[k].Subordinate? && k !in history.settled
      modifies this`values, this`remaining, this`master, this`history
      ensures Valid() && history == Happen(args, old(history), (k, Done(vs)))
    {
      SettleOne(args, history.settled, k, Done(vs), visited);
      NoneOutstanding(args, history.settled, visited);
      SameFailures(history, k, Done(vs));
      history := Happen(args, history, (k, Done(vs)));
      values := values[k := Collect(vs)];
      remaining := remaining - 1;
      assert Counting();
      if remaining == 0 {
        SettleMaster(Resolved(values));
      }
    }

    lemma SameFailures(h: History<V>, k: nat, s: Settlement<V>)
      requires k !in h.settled && s.Done?
      ensures Failed(h.settled) <==> Failed(h.settled[k := s])
    {
      if j :| j in h.settled && h.settled[j].Fail? {
        var more := h.settled[k := s];
        assert j in more && more[j].Fail?;
      }
    }

    method DeliverFail(k: nat, vs: seq<V>)
      requires Valid() && k < visited && args[k].Subordinate? && k !in history.settled
      modifies this`master, this`history
      ensures Valid() && history == Happen(args, old(history), (k, Fail(vs)))
    {
      SettleOne(args, history.settled, k, Fail(vs), visited);
      NoneOutstanding(args, history.settled, visited);
      history := Happen(args, history, (k, Fail(vs)));
      assert k in history.settled && history.settled[k].Fail?;
      StillOutstanding(k);
      SettleMaster(Rejected(vs));
    }

    lemma StillOutstanding(k: nat)
      requires visited <= |args| && k < visited && args[k].Subordinate? && k in history.settled && history.settled[k].Fail?
      ensures Outstanding(args, history.settled, visited) > 0
    {
      NoneOutstanding(args, history.settled, visited);
    }

    /** After the loop. */
    method Finish()
      requires Valid() && visited == |args| && !ready
      modifies this`master, this`ready
      ensures Valid() && ready && master == Joined(args, history)
    {
      NoneOutstanding(args, history.settled, visited);
      if remaining == 0 {
        SettleMaster(Resolved(values));
      }
      ready := true;
      Outcome();
    }

    /** Once when has returned, the master is at any time what the settlements so far make it. */
    lemma Outcome()
      requires Valid() && ready
      ensures master == Joined(args, history)
      ensures remaining == Outstanding(args, history.settled, |args|)
    {
      NoneOutstanding(args, history.settled, visited);
      if history.firstFailure.None? && remaining == 0 {
        assert values == Slots(args, history.settled);
      }
    }
  }

  /** Settlements in the order the join sees them: those already there when an argument is visited, then the rest. */
  function Order<V>(early: seq<Option<Settlement<V>>>, n: nat): seq<(nat, Settlement<V>)>
    requires n <= |early|
  {
    if n == 0 then []
    else Order(early, n - 1) + (if early[n - 1].Some? then [(n - 1, early[n - 1].value)] else [])
  }

  /** when with two or more arguments, some settled already (`early`), the others later, in any order. */
  method JoinAll<V>(args: seq<Arg<V>>, early: seq<Option<Settlement<V>>>, later: seq<(nat, Settlement<V>)>) returns (master: Master<V>)
    requires |args| > 1 && |early| == |args|
    ensures master == Joined(args, Happened(args, Order(early, |args|) + later))
  {
    var join := VisitAll(args, early);
    join.Finish();
    assert Order(early, |args|) + later[..0] == Order(early, |args|);
    for j := 0 to |later|
      invariant join.Valid() && join.ready && join.args == args && fresh(join)
      invariant join.history == Happened(args, Order(early, |args|) + later[..j])
    {
      assert Order(early, |args|) + later[..j + 1] == Order(early, |args|) + later[..j] + [later[j]];
      HappenedSnoc(args, Order(early, |args|) + later[..j], later[j]);
      if later[j].0 < |args| && args[later[j].0].Subordinate? {
        join.Deliver(later[j].0, later[j].1);
      }
    }
    assert later[..|later|] == later;
    join.Outcome();
    master := join.master;
  }

  /** The loop of when: a deferred that is settled already delivers as soon as it is visited. */
  method VisitAll<V>(args: seq<Arg<V>>, early: seq<Option<Settlement<V>>>) returns (join: Join<V>)
    requires |args| > 1 && |early| == |args|
    ensures fresh(join) && join.Valid() && join.args == args && join.visited == |args| && !join.ready
    ensures join.history == Happened(args, Order(early, |args|))
  {
    join := new Join(args);
    var i := 0;
    while i < |args|
      invariant 0 <= i <= |args| && join.visited == i && !join.ready && fresh(join)
      invariant join.Valid() && join.args == args
      invariant join.history == Happened(args, Order(early, i))
    {
      join.Visit();
      OrderSnoc(args, early, i);
      if early[i].Some? && args[i].Subordinate? {
        join.Deliver(i, early[i].value);
      }
      i := i + 1;
    }
  }

  lemma OrderSnoc<V>(args: seq<Arg<V>>, early: seq<Option<Settlement<V>>>, i: nat)
    requires |early| == |args| && i < |args|
    ensures Happened(args, Order(early, i + 1)) ==
      if early[i].Some? && args[i].Subordinate? then Happen(args, Happened(args, Order(early, i)), (i, early[i].value))
      else Happened(args, Order(early, i))
  {
    if early[i].Some? {
      HappenedSnoc(args, Order(early, i), (i, early[i].value));
    } else {
      assert Order(early, i) + [] == Order(early, i);
    }
  }

  lemma HappenedSnoc<V>(args: seq<Arg<V>>, events: seq<(nat, Settlement<V>)>, event: (nat, Settlement<V>))
    ensures Happened(args, events + [event]) == Happen(args, Happened(args, events), event)
  {
    assert (events + [event])[..|events|] == events;
  }

  /** when with no argument, or with one. */
  method JoinFew<V>(args: seq<Arg<V>>, settlement: Option<Settlement<V>>) returns (master: Master<V>)
    requires |args| <= 1
    ensures args == [] ==> master == Resolved([])
    ensures |args| == 1 && args[0].Plain? ==> master == Resolved([Single(args[0].value)])
    ensures |args| == 1 && args[0].Subordinate? ==>
      master == match settlement case None => Waiting case Some(Done(vs)) => PassedOn(vs) case Some(Fail(vs)) => Rejected(vs)
  {
    var remaining := if |args| != 1 || args[0].Subordinate? then |args| else 0;
    if remaining == 1 {
      master := match settlement case None => Waiting case Some(Done(vs)) => PassedOn(vs) case Some(Fail(vs)) => Rejected(vs);
    } else {
      master := Resolved(Slots(args, map[]));
    }
  }
}
