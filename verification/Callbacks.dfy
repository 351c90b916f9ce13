/**
  Callback lists that may be changed, and fired again, while they are being fired.
  Calls into handlers are points where control leaves the list: a handler is whatever
  sequence of calls on the list happens before it returns.
 */
module Callbacks {
  import opened Wrappers

  datatype Options = Options(once: bool, memory: bool, unique: bool, stopOnFalse: bool)

  /** The variables of one list.  An absent `list` means disabled, an absent `stack` locked or once. */
  datatype CB<F, D> = CB(
    options: Options,
    list: Option<seq<F>>,
    stack: Option<seq<D>>,
    memory: Option<D>,
    fired: bool,
    firing: bool,
    firingStart: nat,
    firingIndex: int,
    firingLength: int)

  function New<F, D>(options: Options): CB<F, D> {
    CB(options, Some([]), if options.once then None else Some([]), None, false, false, 0, 0, 0)
  }

  function PushAll<F(==)>(list: seq<F>, fs: seq<F>, unique: bool): seq<F>
    decreases |fs|
  {
    if fs == [] then list
    else if unique && fs[0] in list then PushAll(list, fs[1..], unique)
    else PushAll(list + [fs[0]], fs[1..], unique)
  }

  /** Without one value, wherever it occurs. */
  function Drop<F(==)>(list: seq<F>, f: F): seq<F> {
    if list == [] then [] else Drop(list[..|list| - 1], f) + (if list[|list| - 1] == f then [] else [list[|list| - 1]])
  }

  function Occurrences<F(==)>(list: seq<F>, f: F): nat {
    if list == [] then 0 else Occurrences(list[..|list| - 1], f) + (if list[|list| - 1] == f then 1 else 0)
  }

  /** add: the new state, and the data to fire at once when memory demands it. */
  function Add<F(==), D>(cb: CB<F, D>, fs: seq<F>): (CB<F, D>, Option<D>) {
    if cb.list.None? then (cb, None)
    else
      var start := |cb.list.value|;
      var list := PushAll(cb.list.value, fs, cb.options.unique);
      if cb.firing then (cb.(list := Some(list), firingLength := |list|), None)
      else if cb.memory.Some? then (cb.(list := Some(list), firingStart := start), cb.memory)
      else (cb.(list := Some(list)), None)
  }

  /** How many of the first n entries equal f. */
  function Before<F(==)>(list: seq<F>, n: int, f: F): nat {
    if n <= 0 then 0 else if n >= |list| then Occurrences(list, f) else Occurrences(list[..n], f)
  }

  function Remove<F(==), D>(cb: CB<F, D>, f: F): CB<F, D> {
    if cb.list.None? then cb
    else if !cb.firing then cb.(list := Some(Drop(cb.list.value, f)))
    else cb.(
      list := Some(Drop(cb.list.value, f)),
      firingLength := cb.firingLength - Before(cb.list.value, cb.firingLength + 1, f),
      firingIndex := cb.firingIndex - Before(cb.list.value, cb.firingIndex + 1, f))
  }

  /** fireWith: the new state, and the data to fire now if nothing is firing yet. */
  function Request<F, D>(cb: CB<F, D>, data: D): (CB<F, D>, Option<D>) {
    if cb.list.None? || (cb.fired && cb.stack.None?) then (cb, None)
    else if !cb.firing then (cb, Some(data))
    else (if cb.stack.Some? then cb.(stack := Some(cb.stack.value + [data])) else cb, None)
  }

  /** The head of fire. */
  function Begin<F, D>(cb: CB<F, D>, data: D): CB<F, D>
    requires cb.list.Some?
  {
    cb.(memory := if cb.options.memory then Some(data) else None, fired := true, firingIndex := cb.firingStart,
        firingStart := 0, firingLength := |cb.list.value|, firing := true)
  }

  predicate HasNext<F, D>(cb: CB<F, D>) {
    cb.list.Some? && cb.firingIndex < cb.firingLength
  }

  /** After a handler returned. */
  function Advance<F, D>(cb: CB<F, D>, stop: bool): CB<F, D> {
    if stop && cb.options.stopOnFalse then cb.(memory := None) else cb.(firingIndex := cb.firingIndex + 1)
  }

  function Disable<F, D>(cb: CB<F, D>): CB<F, D> {
    cb.(list := None, stack := None, memory := None)
  }

  function Lock<F, D>(cb: CB<F, D>): CB<F, D> {
    var locked := cb.(stack := None);
    if cb.memory.None? then Disable(locked) else locked
  }

  /** The tail of fire: the new state, and a stacked request to fire next. */
  function Finish<F, D>(cb: CB<F, D>): (CB<F, D>, Option<D>) {
    var idle := cb.(firing := false);
    if cb.list.None? then (idle, None)
    else if cb.stack.Some? then
      if cb.stack.value == [] then (idle, None)
      else (idle.(stack := Some(cb.stack.value[1..])), Some(cb.stack.value[0]))
    else if cb.memory.Some? then (idle.(list := Some([])), None)
    else (Disable(idle), None)
  }

  // ---------- the list object ----------

  class CallbackList<F(==), D> {
    const options: Options
    var list: Option<seq<F>>
    var stack: Option<seq<D>>
    var memory: Option<D>
    var fired: bool
    var firing: bool
    var firingStart: nat
    var firingIndex: int
    var firingLength: int

    ghost function State(): CB<F, D>
      reads this
    {
      CB(options, list, stack, memory, fired, firing, firingStart, firingIndex, firingLength)
    }

    constructor (options: Options)
      ensures State() == New(options)
    {
      this.options, list := options, Some([]);
      stack := if options.once then None else Some([]);
      memory, fired, firing, firingStart, firingIndex, firingLength := None, false, false, 0, 0, 0;
    }

    /** `fire` is the data fire must be called with before add returns. */
    method AddAll(fs: seq<F>) returns (fire: Option<D>)
      modifies this
      ensures (State(), fire) == Add(old(State()), fs)
    {
      fire := None;
      if list.Some? {
        var start := |list.value|;
        var i := 0;
        while i < |fs|
          invariant 0 <= i <= |fs|
          invariant list.Some?
          invariant State() == old(State()).(list := list)
          invariant PushAll(list.value, fs[i..], options.unique) == PushAll(old(list).value, fs, options.unique)
        {
          if !options.unique || fs[i] !in list.value {
            list := Some(list.value + [fs[i]]);
          }
          i := i + 1;
        }
        if firing {
          firingLength := |list.value|;
        } else if memory.Some? {
          firingStart := start;
          fire := memory;
        }
      }
    }

    method InArray(f: F, xs: seq<F>, from: nat) returns (index: int)
      requires from <= |xs|
      ensures index == -1 ==> f !in xs[from..]
      ensures index != -1 ==> from <= index < |xs| && xs[index] == f && f !in xs[from..index]
    {
      index := from;
      while index < |xs|
        invariant from <= index <= |xs| && f !in xs[from..index]
      {
        if xs[index] == f {
          return;
        }
        index := index + 1;
      }
      return -1;
    }

    method RemoveAll(f: F)
      requires firing && list.Some? ==> firingLength == |list.value|
      modifies this
      ensures State() == Remove(old(State()), f)
    {
      if list.Some? {
        var index := InArray(f, list.value, 0);
        while index > -1
          invariant list.Some?
          invariant Remove(State(), f) == Remove(old(State()), f)
          invariant firing ==> firingLength == |list.value|
          invariant index >= -1 && (index == -1 ==> f !in list.value)
          invariant index > -1 ==> index < |list.value| && list.value[index] == f && f !in list.value[..index]
          decreases |list.value|
        {
          SpliceOut(f, index);
          var from := index;
          index := InArray(f, list.value, index);
          assert list.value == list.value[..from] + list.value[from..];
        }
        RemoveNothing(State(), f);
      }
    }

    /** Takes out one occurrence and handles the firing indexes. */
    method SpliceOut(f: F, index: nat)
      requires list.Some? && index < |list.value| && list.value[index] == f
      requires firing ==> firingLength == |list.value|
      modifies this
      ensures list == Some(old(list).value[..index] + old(list).value[index + 1..])
      ensures Remove(State(), f) == Remove(old(State()), f)
      ensures firing == old(firing) && (firing ==> firingLength == |list.value|)
    {
      RemoveStep(State(), index, f);
      list := Some(list.value[..index] + list.value[index + 1..]);
      if firing {
        if index <= firingLength {
          firingLength := firingLength - 1;
        }
        if index <= firingIndex {
          firingIndex := firingIndex - 1;
        }
      }
    }

    method FireWith(data: D) returns (fire: Option<D>)
      requires firing ==> fired
      modifies this
      ensures (State(), fire) == Request(old(State()), data)
    {
      fire := None;
      if list.Some? && (!fired || stack.Some?) {
        if firing {
          stack := Some(stack.value + [data]);
        } else {
          fire := Some(data);
        }
      }
    }

    method BeginFire(data: D)
      requires list.Some?
      modifies this
      ensures State() == Begin(old(State()), data)
    {
      memory := if options.memory then Some(data) else None;
      fired := true;
      firingIndex := firingStart;
      firingStart := 0;
      firingLength := |list.value|;
      firing := true;
    }

    /** After the loop of fire has ended. */
    method EndFire() returns (fire: Option<D>)
      modifies this
      ensures (State(), fire) == Finish(old(State()))
    {
      fire := None;
      firing := false;
      if list.Some? {
        if stack.Some? {
          if |stack.value| > 0 {
            fire := Some(stack.value[0]);
            stack := Some(stack.value[1..]);
          }
        } else if memory.Some? {
          list := Some([]);
        } else {
          DisableList();
        }
      }
    }

    method DisableList()
      modifies this
      ensures State() == Disable(old(State()))
    {
      list, stack, memory := None, None, None;
    }

    method LockList()
      modifies this
      ensures State() == Lock(old(State()))
    {
      stack := None;
      if memory.None? {
        DisableList();
      }
    }
  }

  // ---------- adding ----------

  lemma {:induction false} PushAllSnoc<F>(list: seq<F>, fs: seq<F>, f: F, unique: bool)
    ensures var r := PushAll(list, fs, unique);
      PushAll(list, fs + [f], unique) == if unique && f in r then r else r + [f]
    decreases |fs|
  {
    if fs == [] {
      assert [f][1..] == [] && fs + [f] == [f];
    } else {
      assert (fs + [f])[1..] == fs[1..] + [f];
      PushAllSnoc(if unique && fs[0] in list then list else list + [fs[0]], fs[1..], f, unique);
    }
  }

  /** The handlers at these places, in this order. */
  ghost predicate Taken<F>(fs: seq<F>, at: seq<nat>, taken: seq<F>) {
    && |taken| == |at| && (forall i, j :: 0 <= i < j < |at| ==> at[i] < at[j])
    && forall k :: 0 <= k < |at| ==> at[k] < |fs| && taken[k] == fs[at[k]]
  }

  lemma TakenNext<F>(fs: seq<F>, at: seq<nat>, taken: seq<F>, f: F)
    requires Taken(fs, at, taken)
    ensures Taken(fs + [f], at, taken) && Taken(fs + [f], at + [|fs|], taken + [f])
  {
  }

  lemma {:induction false} PushAllExtends<F>(list: seq<F>, fs: seq<F>, unique: bool)
    ensures list <= PushAll(list, fs, unique)
    decreases |fs|
  {
    if fs != [] {
      PushAllExtends(if unique && fs[0] in list then list else list + [fs[0]], fs[1..], unique);
    }
  }

  lemma {:induction false} PushAllMembers<F>(list: seq<F>, fs: seq<F>, unique: bool)
    ensures forall f :: f in PushAll(list, fs, unique) <==> f in list || f in fs
    decreases |fs|
  {
    if fs != [] {
      PushAllMembers(if unique && fs[0] in list then list else list + [fs[0]], fs[1..], unique);
      assert fs == [fs[0]] + fs[1..];
    }
  }

  /**
    Which handlers adding appends, and in which order: all of them; but for a unique list
    those that are not in it yet, each at its first occurrence among the new ones.
   */
  lemma {:induction false} PushAllFirsts<F>(list: seq<F>, fs: seq<F>, unique: bool) returns (at: seq<nat>)
    ensures var r := PushAll(list, fs, unique); list <= r && Taken(fs, at, r[|list|..])
    ensures Firsts(list, fs, unique, at)
    decreases |fs|
  {
    if fs == [] {
      at := [];
    } else {
      var front, f := fs[..|fs| - 1], fs[|fs| - 1];
      assert fs == front + [f];
      at := PushAllFirsts(list, front, unique);
      at := FirstsStep(list, front, f, unique, at);
    }
  }

  lemma FirstsStep<F>(list: seq<F>, front: seq<F>, f: F, unique: bool, at: seq<nat>) returns (at': seq<nat>)
    requires var r := PushAll(list, front, unique); list <= r && Taken(front, at, r[|list|..]) && Firsts(list, front, unique, at)
    ensures var r := PushAll(list, front + [f], unique); list <= r && Taken(front + [f], at', r[|list|..])
    ensures Firsts(list, front + [f], unique, at')
  {
    var before := PushAll(list, front, unique);
    PushAllSnoc(list, front, f, unique);
    PushAllMembers(list, front, unique);
    FirstsNext(list, front, f, unique, at);
    TakenNext(front, at, before[|list|..], f);
    if unique && f in before {
      at' := at;
    } else {
      at' := at + [|front|];
      assert (before + [f])[|list|..] == before[|list|..] + [f];
    }
  }

  ghost predicate Firsts<F>(list: seq<F>, fs: seq<F>, unique: bool, at: seq<nat>) {
    forall i :: 0 <= i < |fs| ==> (i in at <==> !unique || (fs[i] !in list && fs[i] !in fs[..i]))
  }

  lemma FirstsNext<F>(list: seq<F>, front: seq<F>, f: F, unique: bool, at: seq<nat>)
    requires Firsts(list, front, unique, at) && forall i :: i in at ==> i < |front|
    ensures Firsts(list, front + [f], unique, if unique && (f in list || f in front) then at else at + [|front|])
  {
    var fs, more := front + [f], at + [|front|];
    assert more[|at|] == |front| && forall i :: i in more <==> i in at || i == |front|;
    assert fs[..|front|] == front && forall i :: 0 <= i < |front| ==> fs[..i] == front[..i];
  }

  // ---------- removal ----------

  lemma {:induction false} DropNone<F>(xs: seq<F>, f: F)
    ensures f !in xs ==> Drop(xs, f) == xs && Occurrences(xs, f) == 0
  {
    if xs != [] && f !in xs {
      var front := xs[..|xs| - 1];
      DropNone(front, f);
      assert xs == front + [xs[|xs| - 1]];
    }
  }

  lemma {:induction false} DropConcat<F>(xs: seq<F>, ys: seq<F>, f: F)
    ensures Drop(xs + ys, f) == Drop(xs, f) + Drop(ys, f)
    ensures Occurrences(xs + ys, f) == Occurrences(xs, f) + Occurrences(ys, f)
  {
    if ys == [] {
      assert xs + ys == xs;
    } else {
      DropConcat(xs, ys[..|ys| - 1], f);
      assert (xs + ys)[..|xs + ys| - 1] == xs + ys[..|ys| - 1];
    }
  }

  lemma {:induction false} DropLength<F>(xs: seq<F>, f: F)
    ensures |Drop(xs, f)| == |xs| - Occurrences(xs, f)
  {
    if xs != [] {
      DropLength(xs[..|xs| - 1], f);
    }
  }

  lemma RemoveNothing<F, D>(cb: CB<F, D>, f: F)
    requires cb.list.Some? && f !in cb.list.value
    ensures Remove(cb, f) == cb
  {
    DropNone(cb.list.value, f);
    BeforeNone(cb.list.value, cb.firingIndex + 1, f);
    BeforeNone(cb.list.value, cb.firingLength + 1, f);
  }

  lemma BeforeNone<F>(xs: seq<F>, n: int, f: F)
    requires f !in xs
    ensures Before(xs, n, f) == 0
  {
    DropNone(if 0 < n < |xs| then xs[..n] else xs, f);
  }

  /** Splicing out the occurrence at i, and shifting the indexes past it, leaves the rest of the removal the same. */
  lemma RemoveStep<F, D>(cb: CB<F, D>, i: nat, f: F)
    requires cb.list.Some? && i < |cb.list.value| && cb.list.value[i] == f
    requires cb.firing ==> cb.firingLength == |cb.list.value|
    ensures var xs := cb.list.value;
      var spliced := cb.(list := Some(xs[..i] + xs[i + 1..]));
      var shifted := if !cb.firing then spliced
        else spliced.(firingLength := cb.firingLength - 1, firingIndex := if i <= cb.firingIndex then cb.firingIndex - 1 else cb.firingIndex);
      Remove(shifted, f) == Remove(cb, f)
  {
    var xs := cb.list.value;
    DropStep(xs, i, f);
    if cb.firing {
      BeforeStep(xs, i, cb.firingIndex + 1, f);
      BeforeStep(xs, i, cb.firingLength + 1, f);
    }
  }

  lemma DropStep<F>(xs: seq<F>, i: nat, f: F)
    requires i < |xs| && xs[i] == f
    ensures Drop(xs, f) == Drop(xs[..i] + xs[i + 1..], f)
  {
    assert xs == xs[..i] + [f] + xs[i + 1..];
    assert Drop([f], f) == [];
    DropConcat(xs[..i], [f], f);
    DropConcat(xs[..i] + [f], xs[i + 1..], f);
    DropConcat(xs[..i], xs[i + 1..], f);
  }

  lemma BeforeStep<F>(xs: seq<F>, i: nat, n: int, f: F)
    requires i < |xs| && xs[i] == f
    ensures Before(xs, n, f) == if i < n then Before(xs[..i] + xs[i + 1..], n - 1, f) + 1 else Before(xs[..i] + xs[i + 1..], n, f)
  {
    var ys := xs[..i] + xs[i + 1..];
    var m := if n > |xs| then |xs| else n;
    if i < n {
      assert xs[..m] == xs[..i] + [f] + xs[i + 1..m];
      assert ys[..m - 1] == xs[..i] + xs[i + 1..m];
      assert xs[..|xs|] == xs && ys[..|ys|] == ys;
      assert Occurrences([f], f) == 1;
      DropConcat(xs[..i], [f], f);
      DropConcat(xs[..i] + [f], xs[i + 1..m], f);
      DropConcat(xs[..i], xs[i + 1..m], f);
    } else if n > 0 {
      assert xs[..n] == ys[..n];
      assert ys[..|ys|] == ys;
    }
  }
}
