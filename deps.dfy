/** The dependency registry (`Dep`), the subscriber (`Watcher`) and the
    process-wide active-subscriber slot (`Dep.target`). */
module Deps {
  import opened Values

  /** A subscriber. The update callback it wraps is identified by `id`; the
      instance that created the watcher runs its render for it. */
  datatype Watcher = Watcher(id: nat)

  /** The watchers a read registers: the active one, if any. */
  function Registered(target: Option<Watcher>): (r: seq<Watcher>)
    ensures |r| <= 1
    ensures target.None? <==> r == []
  {
    if target.Some? then [target.value] else []
  }

  /** An ordered subscriber list, duplicates allowed. */
  class Dep {
    var subs: seq<Watcher>

    constructor ()
      ensures subs == []
    {
      subs := [];
    }

    /** Appends one subscriber at the end; no de-duplication. */
    method AddSub(w: Watcher)
      modifies this
      ensures subs == old(subs) + [w]
    {
      subs := subs + [w];
    }

    /** Invokes every registered subscriber's update, in registration order,
        once per entry. The invocations are returned as the trace; the list
        itself is not changed. */
    method Notify() returns (trace: seq<Watcher>)
      ensures trace == subs
    {
      trace := [];
      var i := 0;
      while i < |subs|
        invariant 0 <= i <= |subs|
        invariant trace == subs[..i]
      {
        trace := trace + [subs[i]];
        i := i + 1;
      }
    }
  }

  /** The single active-subscriber slot shared by every reactive property. */
  class Tracking {
    var target: Option<Watcher>

    /** The slot starts out empty. */
    constructor ()
      ensures target == None
    {
      target := None;
    }
  }
}
