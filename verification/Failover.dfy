/**
  The failover watcher against an OpenShift project.  Every command, and every change the
  platform makes on its own, leaves a state in the history, so that safety can be stated
  for all moments of a run and not only for the ends of rounds.
 */
module Failover {
  import opened Wrappers

  type Pod = nat

  datatype Label = Master | Slave

  /** A service routes to every pod carrying its selector's label. */
  datatype Service = Service(id: nat, selector: Label)

  datatype State = State(pods: map<Pod, Label>, triggered: set<Pod>, service: Option<Service>)

  /** A pod that accepts writes: a master, or a slave that was told to promote itself. */
  predicate Writable(s: State, p: Pod) {
    p in s.pods && (s.pods[p] == Master || p in s.triggered)
  }

  predicate Selects(s: State, p: Pod) {
    s.service.Some? && p in s.pods && s.pods[p] == s.service.value.selector
  }

  /** No pod accepts writes: the old master is gone, and no slave has been promoted. */
  ghost predicate NoWriter(s: State) {
    forall p :: !Writable(s, p)
  }

  /**
    At most one pod accepts writes; and while a promoted pod does not carry the master
    label yet, there is no service, so no client can reach anything through it.
   */
  ghost predicate Safe(s: State) {
    && (forall p, q :: Writable(s, p) && Writable(s, q) ==> p == q)
    && (s.service.Some? ==> s.service.value.selector == Master)
    && (forall p :: p in s.pods && p in s.triggered && s.pods[p] == Slave ==> s.service.None?)
  }

  ghost predicate AllSafe(h: seq<State>) {
    forall k :: 0 <= k < |h| ==> Safe(h[k])
  }

  /** What the platform may do during a round: add new slaves under unused names. */
  predicate Adds(before: State, after: State) {
    && after.triggered == before.triggered && after.service == before.service
    && (forall p :: p in before.pods ==> p in after.pods && after.pods[p] == before.pods[p])
    && (forall p :: p in after.pods && p !in before.pods ==> after.pods[p] == Slave && p !in before.triggered)
  }

  /** Between rounds: promoted pods carry the master label, and the service routes to that label. */
  ghost predicate AtRest(s: State) {
    && (forall p :: p in s.pods && p in s.triggered ==> s.pods[p] == Master)
    && (s.service.Some? ==> s.service.value.selector == Master)
  }

  /** No pod becomes writable, and no promoted pod loses its label or gains a service. */
  ghost predicate Harmless(before: State, after: State) {
    && (forall p :: Writable(after, p) ==> Writable(before, p))
    && (after.service.None? || after.service == before.service)
    && (forall p :: p in after.pods && p in after.triggered && after.pods[p] == Slave ==>
      p in before.pods && p in before.triggered && before.pods[p] == Slave)
  }

  lemma StaysSafe(before: State, after: State)
    requires Safe(before) && Harmless(before, after)
    ensures Safe(after)
  {
  }

  /** After a harmless step every moment is safe if and only if every moment was. */
  lemma HarmlessStep(h: seq<State>, after: State)
    requires h != [] && Harmless(h[|h| - 1], after)
    ensures AllSafe(h + [after]) <==> AllSafe(h)
  {
    OneMore(h, after);
    if AllSafe(h) {
      assert Safe(h[|h| - 1]);
      StaysSafe(h[|h| - 1], after);
    }
  }

  lemma OneMore(h: seq<State>, s: State)
    ensures AllSafe(h + [s]) <==> AllSafe(h) && Safe(s)
  {
    assert (h + [s])[|h|] == s;
    assert forall k :: 0 <= k < |h| ==> (h + [s])[k] == h[k];
  }

  /** Promoting a slave is safe exactly when no pod accepts writes any more. */
  lemma TriggerSafeIff(s: State, p: Pod)
    requires Safe(s) && s.service.None? && p in s.pods && !Writable(s, p)
    ensures Safe(s.(triggered := s.triggered + {p})) <==> NoWriter(s)
  {
    var after := s.(triggered := s.triggered + {p});
    assert Writable(after, p);
    assert forall q :: Writable(after, q) <==> Writable(s, q) || q == p;
  }

  predicate IsMaster(s: State, p: Pod) {
    p in s.pods && s.pods[p] == Master
  }

  ghost predicate Distinct(slaves: seq<Pod>) {
    forall i, j :: 0 <= i < j < |slaves| ==> slaves[i] != slaves[j]
  }

  /**
    Between two commands of a round that started in `start`, after the snapshot was taken:
    the old masters are still there, and whoever else is not in the snapshot is a new slave.
   */
  ghost predicate InRound(start: State, s: State, slaves: seq<Pod>) {
    && (forall p :: p in slaves ==> !IsMaster(start, p))
    && (forall p :: IsMaster(start, p) ==> IsMaster(s, p))
    && (forall p :: p in s.pods && p !in slaves ==> IsMaster(start, p) || (s.pods[p] == Slave && p !in s.triggered))
  }

  ghost predicate Untouched(s: State, slaves: seq<Pod>, i: nat)
    requires i <= |slaves|
  {
    forall k :: i <= k < |slaves| ==> slaves[k] in s.pods && s.pods[slaves[k]] == Slave && slaves[k] !in s.triggered
  }

  lemma ArrivedInRound(start: State, s: State, s': State, known: set<Pod>, slaves: seq<Pod>, i: nat)
    requires i <= |slaves| && InRound(start, s, slaves) && Untouched(s, slaves, i) && Adds(s, s')
    requires forall p :: p in slaves ==> p in known
    requires forall p :: p in s'.pods && p !in s.pods ==> p !in known
    ensures InRound(start, s', slaves) && Untouched(s', slaves, i)
  {
  }

  /** What a command does to the pod it names, seen from the round. */
  lemma HandledInRound(start: State, s: State, s': State, slaves: seq<Pod>, i: nat)
    requires i < |slaves| && Distinct(slaves) && InRound(start, s, slaves) && Untouched(s, slaves, i)
    requires forall p :: p != slaves[i] ==> (p in s'.pods <==> p in s.pods) && (p in s.pods ==> s'.pods[p] == s.pods[p])
    requires forall p :: p != slaves[i] ==> (p in s'.triggered <==> p in s.triggered)
    ensures InRound(start, s', slaves) && Untouched(s', slaves, i + 1)
  {
  }

  function WithSlaves(s: State, arrivals: set<Pod>): State {
    s.(pods := map p | p in s.pods.Keys + arrivals :: if p in s.pods then s.pods[p] else Slave)
  }

  /** After a round the first listed slave is a master beside the old ones, and the other listed slaves are gone. */
  lemma EndOfRound(start: State, s: State, slaves: seq<Pod>)
    requires AtRest(start) && slaves != [] && InRound(start, s, slaves)
    requires IsMaster(s, slaves[0]) && s.service == start.service && s.triggered == start.triggered + {slaves[0]}
    requires forall k :: 1 <= k < |slaves| ==> slaves[k] !in s.pods
    ensures AtRest(s)
    ensures forall p :: IsMaster(s, p) <==> p == slaves[0] || IsMaster(start, p)
    ensures forall p :: p in slaves && p != slaves[0] ==> p !in s.pods
  {
  }

  /**
    What happens while the watcher waits: slaves appear, pods die, and the master is polled.
    A poll may answer anything; without a given answer it succeeds exactly when the service
    is there and leads to some pod.  `during` are the slaves that appear between the commands of a round.
   */
  datatype Event = Appear(pods: set<Pod>) | Die(pods: set<Pod>) | Poll(answer: Option<bool>, during: nat -> set<Pod>)

  predicate Reached(s: State, answer: Option<bool>) {
    if answer.Some? then answer.value else exists p :: p in s.pods && Selects(s, p)
  }

  /**
    A round that listed these slaves, all of the old ones and some that had just appeared.
    The first one, and no other pod, is newly promoted and a master; the rest are gone, and
    the service is back.  If none is listed nothing is promoted, and the service is gone.
   */
  ghost predicate Round(before: State, after: State, slaves: seq<Pod>, appeared: set<Pod>) {
    && (forall p :: p in before.pods && before.pods[p] == Slave ==> p in slaves)
    && (forall p :: p in slaves ==> p !in before.triggered && !IsMaster(before, p) && (p in before.pods || p in appeared))
    && (if slaves == [] then
          && after.service == None && after.triggered == before.triggered
          && (forall p :: IsMaster(after, p) <==> IsMaster(before, p))
        else
          && after.service == before.service && after.triggered == before.triggered + {slaves[0]}
          && (forall p :: IsMaster(after, p) <==> p == slaves[0] || IsMaster(before, p))
          && (forall p :: p in slaves && p != slaves[0] ==> p !in after.pods))
  }

  /** What one event does: a poll that reaches the master changes nothing, and a failing one is followed by a round. */
  ghost predicate Turn(event: Event, before: State, after: State) {
    match event
    case Appear(pods) => Adds(before, after) && after.pods.Keys <= before.pods.Keys + pods
    case Die(pods) => after == before.(pods := before.pods - pods)
    case Poll(answer, during) =>
      if Reached(before, answer) then after == before else exists slaves :: Round(before, after, slaves, during(0))
  }

  /** Every poll is answered by what the service leads to. */
  ghost predicate Unscripted(events: seq<Event>) {
    forall k :: 0 <= k < |events| && events[k].Poll? ==> events[k].answer == None
  }

  /** The states before each event and after the last. */
  ghost predicate Turns(events: seq<Event>, trace: seq<State>) {
    && |trace| == |events| + 1
    && forall k :: 0 <= k < |events| ==> Turn(events[k], trace[k], trace[k + 1])
  }

  /** Whenever a slave was promoted, no pod accepted writes at the start of the turn. */
  ghost predicate PromotionsRight(trace: seq<State>) {
    forall k :: 0 <= k < |trace| - 1 && trace[k + 1].triggered != trace[k].triggered ==> NoWriter(trace[k])
  }

  lemma OneMoreTurn(events: seq<Event>, trace: seq<State>, event: Event, after: State)
    requires Turns(events, trace) && Turn(event, trace[|events|], after)
    ensures Turns(events + [event], trace + [after])
    ensures PromotionsRight(trace + [after]) <==>
            PromotionsRight(trace) && (after.triggered != trace[|events|].triggered ==> NoWriter(trace[|events|]))
  {
    var longer := trace + [after];
    assert forall k :: 0 <= k < |trace| ==> longer[k] == trace[k];
    assert longer[|trace|] == after;
    if PromotionsRight(longer) {
      forall k | 0 <= k < |trace| - 1 && trace[k + 1].triggered != trace[k].triggered
        ensures NoWriter(trace[k])
      {
        assert longer[k + 1].triggered != longer[k].triggered;
      }
    }
  }

  /**
    After a failing poll a slave that was there, or had just appeared, is promoted and a master, and
    it is the only new one; unless there was none at all, and then the service is gone.
   */
  lemma FailingPoll(before: State, after: State, answer: Option<bool>, during: nat -> set<Pod>)
    requires Turn(Poll(answer, during), before, after)
    requires answer == Some(false) || (answer == None && forall p :: !Selects(before, p))
    ensures (exists p :: p in before.pods && before.pods[p] == Slave) ==> after.triggered != before.triggered
    ensures after.triggered == before.triggered ==> after.service == None
    ensures after.triggered != before.triggered ==>
      && after.service == before.service
      && exists p :: p !in before.triggered && !IsMaster(before, p) && IsMaster(after, p) && after.triggered == before.triggered + {p}
  {
    var slaves :| Round(before, after, slaves, during(0));
    if slaves != [] {
      assert slaves[0] in after.triggered && IsMaster(after, slaves[0]);
    }
  }

  /** A poll that reaches the master leaves everything as it is. */
  lemma SucceedingPoll(before: State, after: State, answer: Option<bool>, during: nat -> set<Pod>)
    requires Turn(Poll(answer, during), before, after)
    requires answer == Some(true) || (answer == None && exists p :: Selects(before, p))
    ensures after == before
  {
  }

  class Cluster {
    var now: State
    var saved: Option<Service>
    /** Every pod name used so far. */
    var known: set<Pod>
    /** Every state so far. */
    ghost var history: seq<State>

    constructor (start: State)
      ensures Valid() && now == start && history == [start]
    {
      now, saved, known, history := start, None, start.pods.Keys + start.triggered, [start];
    }

    ghost predicate Valid()
      reads this
    {
      && history != [] && history[|history| - 1] == now
      && now.pods.Keys <= known && now.triggered <= known
    }

    /** The platform adds replacement slaves; it never reuses a name. */
    method Arrive(arrivals: set<Pod>)
      requires Valid()
      modifies this`now, this`history, this`known
      ensures Valid() && Adds(old(now), now) && history == old(history) + [now]
      ensures old(known) <= known && forall p :: p in now.pods && p !in old(now).pods ==> p !in old(known)
      ensures now.pods.Keys == old(now).pods.Keys + (arrivals - old(known))
      ensures AllSafe(history) <==> AllSafe(old(history))
    {
      now := WithSlaves(now, arrivals - known);
      known := known + arrivals;
      HarmlessStep(history, now);
      history := history + [now];
    }

    /** While nobody intervenes, pods may die. */
    method Vanish(dead: set<Pod>)
      requires Valid()
      modifies this`now, this`history
      ensures Valid() && now == old(now).(pods := old(now).pods - dead) && history == old(history) + [now]
      ensures AllSafe(history) <==> AllSafe(old(history))
    {
      now := now.(pods := now.pods - dead);
      HarmlessStep(history, now);
      history := history + [now];
    }

    /** oc get service -o json, kept in a file */
    method SaveService()
      modifies this`saved
      ensures saved == now.service
    {
      saved := now.service;
    }

    /** oc delete service */
    method DeleteService()
      requires Valid()
      modifies this`now, this`history
      ensures Valid() && now == old(now).(service := None) && history == old(history) + [now]
      ensures AllSafe(history) <==> AllSafe(old(history))
    {
      now := now.(service := None);
      HarmlessStep(history, now);
      history := history + [now];
    }

    /** oc get pod --selector=name=slave, in any order */
    method ListSlaves() returns (slaves: seq<Pod>)
      ensures forall i, j :: 0 <= i < j < |slaves| ==> slaves[i] != slaves[j]
      ensures forall p :: p in slaves <==> p in now.pods && now.pods[p] == Slave
    {
      slaves := [];
      var todo := now.pods.Keys;
      while todo != {}
        invariant todo <= now.pods.Keys
        invariant forall i, j :: 0 <= i < j < |slaves| ==> slaves[i] != slaves[j]
        invariant forall p :: p in slaves <==> p in now.pods && p !in todo && now.pods[p] == Slave
      {
        var p :| p in todo;
        todo := todo - {p};
        if now.pods[p] == Slave {
          slaves := slaves + [p];
        }
      }
    }

    /** oc exec: touch the trigger file, which promotes the slave.  Nothing is checked before. */
    method Trigger(p: Pod)
      requires Valid() && p in now.pods && !Writable(now, p) && now.service.None?
      modifies this`now, this`history
      ensures Valid() && now == old(now).(triggered := old(now).triggered + {p}) && history == old(history) + [now]
      ensures AllSafe(history) <==> AllSafe(old(history)) && NoWriter(old(now))
    {
      ghost var before := now;
      now := now.(triggered := now.triggered + {p});
      OneMore(history, now);
      if AllSafe(history) {
        assert Safe(history[|history| - 1]);
        TriggerSafeIff(before, p);
      }
      history := history + [now];
    }

    /** oc label --overwrite */
    method Relabel(p: Pod)
      requires Valid() && p in now.pods && p in now.triggered
      modifies this`now, this`history
      ensures Valid() && now == old(now).(pods := old(now).pods[p := Master]) && history == old(history) + [now]
      ensures AllSafe(history) <==> AllSafe(old(history))
    {
      now := now.(pods := now.pods[p := Master]);
      HarmlessStep(history, now);
      history := history + [now];
    }

    /** oc create -f the saved service; without one the command does nothing */
    method CreateService()
      requires Valid() && now.service.None? && (saved.Some? ==> saved.value.selector == Master)
      requires forall p :: p in now.pods && p in now.triggered ==> now.pods[p] == Master
      modifies this`now, this`history
      ensures Valid() && now == old(now).(service := saved) && history == old(history) + [now]
      ensures AllSafe(history) <==> AllSafe(old(history))
    {
      ghost var before := now;
      now := now.(service := saved);
      OneMore(history, now);
      assert forall q :: Writable(now, q) <==> Writable(before, q);
      if AllSafe(history) {
        assert Safe(history[|history| - 1]);
      }
      history := history + [now];
    }

    /** oc delete pod */
    method DeletePod(p: Pod)
      requires Valid()
      modifies this`now, this`history
      ensures Valid() && now == old(now).(pods := old(now).pods - {p}) && history == old(history) + [now]
      ensures AllSafe(history) <==> AllSafe(old(history))
    {
      now := now.(pods := now.pods - {p});
      HarmlessStep(history, now);
      history := history + [now];
    }

    ghost predicate Midway(start: State, slaves: seq<Pod>)
      reads this
    {
      Distinct(slaves) && InRound(start, now, slaves) && forall p :: p in slaves ==> p in known
    }

    /** Snapshot slaves from index i on are still untouched. */
    ghost predicate Waiting(slaves: seq<Pod>, i: nat)
      reads this
      requires i <= |slaves|
    {
      Untouched(now, slaves, i)
    }

    /** Hides the service and lists the slaves there are. */
    method TakeSnapshot(first: set<Pod>, second: set<Pod>) returns (slaves: seq<Pod>)
      requires Valid() && AtRest(now)
      modifies this`now, this`saved, this`history, this`known
      ensures Valid() && old(history) <= history && Midway(old(now), slaves) && Waiting(slaves, 0)
      ensures saved == old(now).service && now.service.None? && now.triggered == old(now).triggered
      ensures forall p :: p in old(now).pods && old(now).pods[p] == Slave ==> p in slaves
      ensures forall p :: p in slaves ==> p in old(now).pods || p in first
      ensures slaves == [] ==> forall p :: IsMaster(now, p) <==> IsMaster(old(now), p)
      ensures NoWriter(now) <==> NoWriter(old(now))
      ensures AllSafe(history) <==> AllSafe(old(history))
    {
      SaveService();
      DeleteService();
      Arrive(first);
      slaves := ListSlaves();
      Arrive(second);
      assert forall p :: Writable(now, p) <==> Writable(old(now), p);
    }

    /** Slaves arriving during a round do not disturb it. */
    method Pause(ghost start: State, slaves: seq<Pod>, ghost i: nat, arrivals: set<Pod>)
      requires Valid() && i <= |slaves| && Midway(start, slaves) && Waiting(slaves, i)
      modifies this`now, this`history, this`known
      ensures Valid() && Midway(start, slaves) && Waiting(slaves, i) && Adds(old(now), now) && old(history) <= history
      ensures forall p :: p in old(known) && p !in old(now).pods ==> p !in now.pods
      ensures old(known) <= known
      ensures AllSafe(history) <==> AllSafe(old(history))
    {
      Arrive(arrivals);
      ArrivedInRound(start, old(now), now, old(known), slaves, i);
    }

    /** Trigger, relabel, restore: the branch taken for the first slave of the snapshot. */
    method Promote(ghost start: State, slaves: seq<Pod>, arrivals: (set<Pod>, set<Pod>, set<Pod>))
      requires Valid() && slaves != [] && Midway(start, slaves) && Waiting(slaves, 0) && AtRest(start)
      requires now.triggered == start.triggered
      requires now.service.None? && saved == start.service
      modifies this`now, this`history, this`known
      ensures Valid() && Midway(start, slaves) && Waiting(slaves, 1) && old(history) <= history
      ensures now.triggered == old(now).triggered + {slaves[0]} && Served(slaves, 1)
      ensures AllSafe(history) <==> AllSafe(old(history)) && NoWriter(old(now))
    {
      Trigger(slaves[0]);
      HandledInRound(start, old(now), now, slaves, 0);
      Pause(start, slaves, 1, arrivals.0);
      Relabelled(start, slaves);
      Restore(start, slaves, arrivals.1, arrivals.2);
    }

    method Restore(ghost start: State, slaves: seq<Pod>, before: set<Pod>, after: set<Pod>)
      requires Valid() && slaves != [] && Midway(start, slaves) && Waiting(slaves, 1) && IsMaster(now, slaves[0])
      requires forall p :: p in now.pods && p in now.triggered ==> now.pods[p] == Master
      requires now.service.None? && (saved.Some? ==> saved.value.selector == Master)
      modifies this`now, this`history, this`known
      ensures Valid() && Midway(start, slaves) && Waiting(slaves, 1) && old(history) <= history
      ensures now.triggered == old(now).triggered && Served(slaves, 1)
      ensures AllSafe(history) <==> AllSafe(old(history))
    {
      Pause(start, slaves, 1, before);
      CreateService();
      Pause(start, slaves, 1, after);
    }

    method Relabelled(ghost start: State, slaves: seq<Pod>)
      requires Valid() && slaves != [] && Midway(start, slaves) && Waiting(slaves, 1) && AtRest(start)
      requires slaves[0] in now.pods && now.triggered == start.triggered + {slaves[0]}
      modifies this`now, this`history
      ensures Valid() && Midway(start, slaves) && Waiting(slaves, 1) && old(history) <= history
      ensures IsMaster(now, slaves[0]) && now.triggered == old(now).triggered && now.service == old(now).service
      ensures forall p :: p in now.pods && p in now.triggered ==> now.pods[p] == Master
      ensures AllSafe(history) <==> AllSafe(old(history))
    {
      Relabel(slaves[0]);
    }

    /** The first slave is the master behind the saved service, and the next ones up to i are deleted. */
    ghost predicate Served(slaves: seq<Pod>, i: nat)
      reads this
      requires i <= |slaves|
    {
      && slaves != [] && now.service == saved && IsMaster(now, slaves[0])
      && forall k :: 1 <= k < i ==> slaves[k] !in now.pods
    }

    method DeleteOld(ghost start: State, slaves: seq<Pod>, i: nat, arrivals: set<Pod>)
      requires Valid() && 0 < i < |slaves| && Midway(start, slaves) && Waiting(slaves, i) && Served(slaves, i)
      modifies this`now, this`history, this`known
      ensures Valid() && old(history) <= history && Midway(start, slaves) && Waiting(slaves, i + 1) && Served(slaves, i + 1)
      ensures now.triggered == old(now).triggered
      ensures AllSafe(history) <==> AllSafe(old(history))
    {
      DeletePod(slaves[i]);
      HandledInRound(start, old(now), now, slaves, i);
      Pause(start, slaves, i + 1, arrivals);
    }

    /**
      One failover round.  The first listed slave is promoted, labelled and put behind the
      restored service, which leads to it and to any master that was still there; every
      other listed slave is deleted.  If none is listed, the service stays hidden.  Every
      moment is safe exactly when no pod accepted writes, or no slave is listed.
     */
    method OseFailover(arrivals: nat -> set<Pod>) returns (slaves: seq<Pod>)
      requires Valid() && AtRest(now)
      modifies this
      ensures Valid() && old(history) <= history && AtRest(now)
      ensures forall p :: p in old(now).pods && old(now).pods[p] == Slave ==> p in slaves
      ensures forall p :: p in slaves ==> p !in old(now).triggered && !IsMaster(old(now), p) && (p in old(now).pods || p in arrivals(0))
      ensures slaves == [] ==>
        && now.service == None && now.triggered == old(now).triggered
        && (forall p :: IsMaster(now, p) <==> IsMaster(old(now), p))
      ensures slaves != [] ==>
        && now.service == old(now).service && now.triggered == old(now).triggered + {slaves[0]}
        && (forall p :: IsMaster(now, p) <==> p == slaves[0] || IsMaster(old(now), p))
        && (forall p :: p in slaves && p != slaves[0] ==> p !in now.pods)
      ensures AllSafe(history) <==> AllSafe(old(history)) && (slaves == [] || NoWriter(old(now)))
    {
      ghost var start := now;
      slaves := TakeSnapshot(arrivals(0), arrivals(1));
      HandleSlaves(start, slaves, arrivals);
      if slaves != [] {
        EndOfRound(start, now, slaves);
      }
    }

    /** The loop over the listed slaves. */
    method HandleSlaves(ghost start: State, slaves: seq<Pod>, arrivals: nat -> set<Pod>)
      requires Valid() && AtRest(start) && Midway(start, slaves) && Waiting(slaves, 0)
      requires now.service.None? && saved == start.service && now.triggered == start.triggered && (NoWriter(now) <==> NoWriter(start))
      modifies this`now, this`history, this`known
      ensures Valid() && old(history) <= history && Midway(start, slaves)
      ensures slaves == [] ==> now == old(now)
      ensures slaves != [] ==> Served(slaves, |slaves|) && now.triggered == start.triggered + {slaves[0]}
      ensures AllSafe(history) <==> AllSafe(old(history)) && (slaves == [] || NoWriter(start))
    {
      var firstslave := true;
      var i := 0;
      while i < |slaves|
        invariant 0 <= i <= |slaves| && firstslave == (i == 0)
        invariant Valid() && old(history) <= history && Midway(start, slaves) && Waiting(slaves, i)
        invariant firstslave ==> now == old(now)
        invariant !firstslave ==> Served(slaves, i) && now.triggered == start.triggered + {slaves[0]}
        invariant AllSafe(history) <==> AllSafe(old(history)) && (firstslave || NoWriter(start))
      {
        if firstslave {
          firstslave := false;
          Promote(start, slaves, (arrivals(2), arrivals(3), arrivals(4)));
        } else {
          DeleteOld(start, slaves, i, arrivals(4 + i));
        }
        i := i + 1;
      }
    }

    /**
      The watch loop.  Event by event the cluster goes through turns, and every moment is
      safe if and only if each promotion starts when no pod accepts writes; so it is when all
      polls are right and the service was never lost.  A round without a slave loses the
      service for good; until then it is the one there was at the start, and leads to
      exactly the pods that accept writes.
     */
    method Watch(events: seq<Event>) returns (ghost trace: seq<State>)
      requires Valid() && AtRest(now)
      modifies this
      ensures Valid() && old(history) <= history
      ensures Turns(events, trace) && trace[0] == old(now) && trace[|events|] == now
      ensures AllSafe(history) <==> AllSafe(old(history)) && PromotionsRight(trace)
      ensures Unscripted(events) && now.service.Some? ==> PromotionsRight(trace)
      ensures now.service.None? || (now.service == old(now).service && forall p :: Selects(now, p) <==> Writable(now, p))
    {
      trace := [now];
      assert events[..0] == [];
      for k := 0 to |events|
        invariant Valid() && AtRest(now) && old(history) <= history
        invariant Turns(events[..k], trace) && trace[0] == old(now) && trace[k] == now
        invariant AllSafe(history) <==> AllSafe(old(history)) && PromotionsRight(trace)
        invariant Unscripted(events) && now.service.Some? ==> PromotionsRight(trace)
        invariant now.service.None? || now.service == old(now).service
      {
        TakeTurn(events[k]);
        OneMoreTurn(events[..k], trace, events[k], now);
        assert events[..k + 1] == events[..k] + [events[k]];
        trace := trace + [now];
      }
      assert events[..|events|] == events;
    }

    method TakeTurn(event: Event)
      requires Valid() && AtRest(now)
      modifies this
      ensures Valid() && AtRest(now) && old(history) <= history
      ensures Turn(event, old(now), now)
      ensures now.service.None? || now.service == old(now).service
      ensures event.Poll? && event.answer == None && old(now).service.Some? && now.triggered != old(now).triggered ==> NoWriter(old(now))
      ensures event.Appear? || event.Die? ==> now.triggered == old(now).triggered
      ensures AllSafe(history) <==> AllSafe(old(history)) && (now.triggered != old(now).triggered ==> NoWriter(old(now)))
    {
      match event
      case Appear(pods) => Arrive(pods);
      case Die(pods) => Vanish(pods);
      case Poll(answer, during) =>
        if !Reached(now, answer) {
          ghost var start := now;
          assert answer.None? && start.service.Some? ==> NoWriter(start) by {
            assert forall p :: Writable(start, p) ==> Selects(start, p) || start.service.None?;
          }
          var slaves := OseFailover(during);
          assert Round(start, now, slaves, during(0));
          assert slaves != [] ==> slaves[0] in now.triggered;
        }
    }
  }

  /** Once the service is lost, polls fail whatever the master does, and the next round makes a second writer. */
  method LostService() returns (c: Cluster)
    ensures fresh(c) && c.history != [] && c.history[0] == State(map[1 := Master, 2 := Slave], {}, None)
    ensures Safe(c.history[0]) && AtRest(c.history[0]) && forall p :: !Selects(c.history[0], p)
    ensures !AllSafe(c.history)
  {
    var start := State(map[1 := Master, 2 := Slave], {}, None);
    c := new Cluster(start);
    assert start.pods[2] == Slave && Writable(start, 1);
    var slaves := c.OseFailover(_ => {});
    assert c.history[0] == start;
  }
}
