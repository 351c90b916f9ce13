/** The fx queue of one element: functions run one at a time, marked by a sentinel. */
module FxQueue {
  import opened Wrappers

  datatype Item = InProgress | Fn(id: nat)

  function Fns(ids: seq<nat>): (r: seq<Item>)
    ensures |r| == |ids| && forall k :: 0 <= k < |ids| ==> r[k] == Fn(ids[k])
  {
    seq(|ids|, k requires 0 <= k < |ids| => Fn(ids[k]))
  }

  class Fx {
    var queue: seq<Item>
    /** How often the empty hook has fired. */
    var emptied: nat
    /** Functions started so far, in order; the one whose `next` is still to come; those added so far. */
    var started: seq<nat>
    ghost var running: Option<nat>
    ghost var added: seq<nat>

    /**
      The queue is what was added and not yet started, in order, with the sentinel in
      front exactly while a started function has not called next.
     */
    ghost predicate Valid()
      reads this
    {
      && started <= added
      && queue == (if running.Some? then [InProgress] else []) + Fns(added[|started|..])
      && (running.None? ==> started == added)
      && (running.Some? ==> started != [] && running.value == started[|started| - 1])
    }

    constructor ()
      ensures Valid() && added == [] && started == [] && running == None && emptied == 0
    {
      queue, emptied, started, running, added := [], 0, [], None, [];
    }

    /** jQuery.fn.queue: adds a function, and starts it if nothing is in progress. */
    method Queue(id: nat)
      requires Valid()
      modifies this
      ensures Valid() && added == old(added) + [id]
      ensures emptied == old(emptied)
      ensures if old(running).Some? then started == old(started) && running == old(running)
              else started == old(started) + [id] && running == Some(id)
    {
      queue := queue + [Fn(id)];
      added := added + [id];
      if queue[0] != InProgress {
        Dequeue();
      }
    }

    /** The running function calls the `next` it was given. */
    method Next()
      requires Valid() && running.Some?
      modifies this
      ensures Valid() && added == old(added)
      ensures if |old(started)| < |added| then started == added[..|old(started)| + 1] && running == Some(added[|old(started)|]) && emptied == old(emptied)
              else started == old(started) && running == None && emptied == old(emptied) + 1 && queue == []
    {
      running := None;
      Dequeue();
    }

    /** The state a dequeue may find: nothing in progress, and the sentinel possibly still in front. */
    ghost predicate Ready()
      reads this
    {
      && started <= added && running == None
      && (queue == Fns(added[|started|..]) || queue == [InProgress] + Fns(added[|started|..]))
    }

    method Dequeue()
      requires Ready()
      modifies this
      ensures Valid() && added == old(added)
      ensures if |old(started)| < |added| then started == added[..|old(started)| + 1] && running == Some(added[|old(started)|]) && emptied == old(emptied)
              else started == old(started) && running == None && emptied == old(emptied) + 1 && queue == []
    {
      var startLength := |queue|;
      var fn := Shift();
      if fn == Some(InProgress) {
        fn := Shift();
        startLength := startLength - 1;
      }
      if fn.Some? {
        queue := [InProgress] + queue;
        started := started + [fn.value.id];
        running := Some(fn.value.id);
        assert added[|old(started)|..][1..] == added[|started|..];
      }
      if startLength == 0 {
        emptied := emptied + 1;
        queue := [];
      }
    }

    method Shift() returns (fn: Option<Item>)
      modifies this`queue
      ensures old(queue) == [] ==> fn == None && queue == []
      ensures old(queue) != [] ==> fn == Some(old(queue)[0]) && queue == old(queue)[1..]
    {
      if queue == [] {
        return None;
      }
      fn := Some(queue[0]);
      queue := queue[1..];
    }
  }

  /** A run: functions are added at any time, also by the running one, which calls next once. */
  datatype Act = Add(id: nat) | CallNext

  /** Everything added during a run. */
  function AddedBy(acts: seq<Act>): seq<nat> {
    if acts == [] then []
    else
      var before := AddedBy(acts[..|acts| - 1]);
      match acts[|acts| - 1]
      case Add(id) => before + [id]
      case CallNext => before
  }

  /** How many functions have called next: one more whenever one is there to do it. */
  function Finished(acts: seq<Act>): (n: nat)
    ensures n <= |AddedBy(acts)|
  {
    if acts == [] then 0
    else
      var front := acts[..|acts| - 1];
      if acts[|acts| - 1].CallNext? && Finished(front) < |AddedBy(front)| then Finished(front) + 1 else Finished(front)
  }

  /** How often the last function there was has called next. */
  function Drained(acts: seq<Act>): nat {
    if acts == [] then 0
    else
      var front := acts[..|acts| - 1];
      Drained(front) + (if acts[|acts| - 1].CallNext? && Finished(front) + 1 == |AddedBy(front)| then 1 else 0)
  }

  /**
    In every run functions start in the order they were added, each once, and a function
    starts as soon as all before it have called next.  The sentinel stands at the head
    exactly while a function runs, and the empty hook has fired each time the last one ended.
   */
  method Run(acts: seq<Act>) returns (fx: Fx)
    ensures fresh(fx) && fx.Valid()
    ensures fx.added == AddedBy(acts)
    ensures fx.started == if Finished(acts) < |fx.added| then fx.added[..Finished(acts) + 1] else fx.added
    ensures fx.running == if Finished(acts) < |fx.added| then Some(fx.added[Finished(acts)]) else None
    ensures fx.emptied == Drained(acts)
    ensures fx.running.None? ==> fx.queue == []
    ensures forall k :: 0 <= k < |fx.queue| ==> (fx.queue[k] == InProgress <==> k == 0 && fx.running.Some?)
  {
    fx := new Fx();
    for k := 0 to |acts|
      invariant fresh(fx) && fx.Valid()
      invariant fx.added == AddedBy(acts[..k]) && fx.emptied == Drained(acts[..k])
      invariant fx.running.Some? <==> Finished(acts[..k]) < |fx.added|
      invariant |fx.started| == Finished(acts[..k]) + (if fx.running.Some? then 1 else 0)
    {
      assert acts[..k + 1][..k] == acts[..k];
      match acts[k]
      case Add(id) => fx.Queue(id);
      case CallNext =>
        if fx.queue != [] && fx.queue[0] == InProgress {
          fx.Next();
        }
    }
    assert acts[..|acts|] == acts;
  }
}
