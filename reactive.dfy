/** `defineReactive`: a property turned into a cell that owns a fresh `Dep`
    and a value. Reads register the active subscriber, writes store and then
    notify. The pure part states one access and a run of accesses; the class
    is the cell itself and is proved against the pure part. */
module Reactive {
  import opened Values
  import opened Deps

  /** What a cell holds: its current value and its dependency list. */
  datatype CellState = CellState(val: Value, subs: seq<Watcher>)

  /** One access to the property: a read while the slot holds `target`, or a
      write of `v`. */
  datatype Access = Read(target: Option<Watcher>) | Write(v: Value)

  /** The outcome of one access: the new state, the value a read returned and
      the watchers a write notified (`None` for a read). */
  datatype Outcome = Outcome(state: CellState, returned: Value, notified: Option<seq<Watcher>>)

  /** The getter and the setter of the property, one access at a time. */
  function Step(c: CellState, a: Access): (o: Outcome)
  {
    match a
    case Read(t) => Outcome(CellState(c.val, c.subs + Registered(t)), c.val, None)
    case Write(v) => Outcome(CellState(v, c.subs), Undefined, Some(c.subs))
  }

  /** A run of accesses: the final state and one notify cycle per write. */
  function Run(c: CellState, accesses: seq<Access>): (result: (CellState, seq<seq<Watcher>>))
    decreases |accesses|
  {
    if accesses == [] then (c, [])
    else
      var o := Step(c, accesses[0]);
      var (final, cycles) := Run(o.state, accesses[1..]);
      (final, (if o.notified.Some? then [o.notified.value] else []) + cycles)
  }

  /** The values written by a run, in order. */
  function Writes(accesses: seq<Access>): (written: seq<Value>)
  {
    if accesses == [] then []
    else (if accesses[0].Write? then [accesses[0].v] else []) + Writes(accesses[1..])
  }

  /** The watchers the reads of a run register, in order. */
  function Targets(accesses: seq<Access>): (registered: seq<Watcher>)
  {
    if accesses == [] then []
    else (if accesses[0].Read? then Registered(accesses[0].target) else []) + Targets(accesses[1..])
  }

  /** A read returns the stored value and registers the active subscriber at
      the end of the list, and only then; the value is untouched. */
  lemma ReadRegistersTarget(c: CellState, t: Option<Watcher>)
    ensures Step(c, Read(t)).returned == c.val
    ensures Step(c, Read(t)).state.val == c.val
    ensures t.Some? ==> Step(c, Read(t)).state.subs == c.subs + [t.value]
    ensures t.None? ==> Step(c, Read(t)).state == c
  {
  }

  /** After any run, the value is the last one written, or the initial one
      when the run wrote nothing. */
  lemma {:induction false} LastWriteWins(c: CellState, accesses: seq<Access>)
    ensures Run(c, accesses).0.val == if Writes(accesses) == [] then c.val else Writes(accesses)[|Writes(accesses)| - 1]
    decreases |accesses|
  {
    if accesses != [] {
      LastWriteWins(Step(c, accesses[0]).state, accesses[1..]);
    }
  }

  /** The dependency list only grows, by appending exactly the active
      subscribers of the reads, in order: nothing registers without a target
      and writes never register. */
  lemma {:induction false} SubsOnlyAppend(c: CellState, accesses: seq<Access>)
    ensures Run(c, accesses).0.subs == c.subs + Targets(accesses)
    decreases |accesses|
  {
    if accesses != [] {
      SubsOnlyAppend(Step(c, accesses[0]).state, accesses[1..]);
      assert c.subs + Targets(accesses)
          == (c.subs + (if accesses[0].Read? then Registered(accesses[0].target) else []))
             + Targets(accesses[1..]);
    }
  }

  /** Every write notifies, whatever value it writes: there is exactly one
      notify cycle per write. */
  lemma {:induction false} OneCyclePerWrite(c: CellState, accesses: seq<Access>)
    ensures |Run(c, accesses).1| == |Writes(accesses)|
    decreases |accesses|
  {
    if accesses != [] {
      OneCyclePerWrite(Step(c, accesses[0]).state, accesses[1..]);
    }
  }

  /** Without reads, the list is fixed and every write's cycle is the whole
      list. */
  lemma {:induction false} WritesNotifyAllSubs(c: CellState, accesses: seq<Access>)
    requires forall i :: 0 <= i < |accesses| ==> accesses[i].Write?
    ensures Run(c, accesses).0.subs == c.subs
    ensures |Run(c, accesses).1| == |accesses|
    ensures forall i :: 0 <= i < |accesses| ==> Run(c, accesses).1[i] == c.subs
    decreases |accesses|
  {
    if accesses != [] {
      WritesNotifyAllSubs(Step(c, accesses[0]).state, accesses[1..]);
    }
  }

  /** Writing the same value twice gives two notify cycles over the same list,
      and the value afterwards is that value. */
  lemma IdenticalWritesNotifyTwice(c: CellState, v: Value)
    ensures Run(c, [Write(v), Write(v)]).1 == [c.subs, c.subs]
    ensures Run(c, [Write(v), Write(v)]).0 == CellState(v, c.subs)
  {
    WritesNotifyAllSubs(c, [Write(v), Write(v)]);
    LastWriteWins(c, [Write(v), Write(v)]);
    assert Writes([Write(v), Write(v)]) == [v, v] by {
      assert [Write(v), Write(v)][1..] == [Write(v)];
      assert Writes([Write(v)]) == [v];
    }
  }

  /** A reactive property: the closure cell `val` and its own `Dep`. */
  class Cell {
    const dep: Dep
    var val: Value

    function State(): CellState
      reads this, dep
    {
      CellState(val, dep.subs)
    }

    /** `defineReactive`: captures the current value and a fresh `Dep`. */
    constructor (initial: Value)
      ensures fresh(dep)
      ensures State() == CellState(initial, [])
    {
      dep := new Dep();
      val := initial;
    }

    /** The getter: registers the active subscriber, if any, then returns the
        current value. */
    method Get(slot: Tracking) returns (v: Value)
      modifies dep
      ensures Step(old(State()), Read(slot.target)) == Outcome(State(), v, None)
    {
      if slot.target.Some? {
        dep.AddSub(slot.target.value);
      }
      v := val;
    }

    /** The setter: stores the value first, then notifies every subscriber. */
    method Set(v: Value) returns (trace: seq<Watcher>)
      modifies this
      ensures Step(old(State()), Write(v)) == Outcome(State(), Undefined, Some(trace))
    {
      val := v;
      trace := dep.Notify();
    }
  }
}
