/** The root instance: `initData` makes each data key a reactive cell,
    `initComputed` installs computed accessors, `proxy` forwards the
    instance's properties to both, and `mount` runs the render once with the
    render watcher in the active-subscriber slot. */
module Instance {
  import opened Values
  import opened Deps
  import opened Reactive
  import opened Template

  /** A computed getter: the instance properties it reads, in order, and how
      it combines what they return. */
  datatype Getter = Getter(inputs: seq<string>, combine: seq<Value> -> Value)

  /** A declared computed setter: it assigns `f(v)` to instance property
      `target`. */
  datatype Setter = Forward(target: string, f: Value -> Value)

  /** What the proxy reads through: the data cells' values and the plain
      properties. */
  datatype View = View(values: map<string, Value>, plain: map<string, Value>)

  /** A computed declaration: a bare function, or a `{get, set}` pair. */
  datatype Computed = Bare(getter: Getter) | Accessor(getter: Getter, setter: Setter)

  /** What the default setter of a bare computed reports, and about what. */
  datatype Report = NoSetter(subject: Value)

  /** The report the default setter makes as written: its parameter, named
      `key`, receives the assigned value, so the value is what it names. */
  function DefaultSetterReportAsWritten(key: string, v: Value): (r: Report)
  {
    NoSetter(v)
  }

  /** Assigning 5 to a bare computed named "double" reports 5, not "double". */
  lemma DefaultSetterAsWrittenNamesValue()
    ensures DefaultSetterReportAsWritten("double", Num(5)).subject != Str("double")
  {
  }

  /** The report the default setter is meant to make: it names the key,
      whatever value was assigned. */
  function DefaultSetterReport(key: string, v: Value): (r: Report)
    ensures r.subject == Str(key)
  {
    NoSetter(Str(key))
  }

  /** The report as written and the intended one agree only when the assigned
      value happens to be the key's own name as a string. */
  lemma ReportsAgree(key: string, v: Value)
    ensures DefaultSetterReportAsWritten(key, v) == DefaultSetterReport(key, v) <==> v == Str(key)
  {
  }

  /** A declaration whose getter reads and setter writes stay off the computed
      keys (the model does not nest computed properties). */
  predicate StaysOffComputed(c: Computed, computedKeys: set<string>)
  {
    (forall r :: r in c.getter.inputs ==> r !in computedKeys)
    && (c.Accessor? ==> c.setter.target !in computedKeys)
  }

  /** How often `k` occurs in `keys`. */
  function Count(keys: seq<string>, k: string): (n: nat)
  {
    if keys == [] then 0 else (if keys[0] == k then 1 else 0) + Count(keys[1..], k)
  }

  /** `ws` repeated `n` times. */
  function Copies(ws: seq<Watcher>, n: nat): (r: seq<Watcher>)
  {
    if n == 0 then [] else ws + Copies(ws, n - 1)
  }

  /** One read of `key` while the slot holds `target`: the target, if any,
      is appended to that key's list and to no other. */
  function Register(subs: map<string, seq<Watcher>>, target: Option<Watcher>, key: string)
    : (r: map<string, seq<Watcher>>)
  {
    if key in subs then subs[key := subs[key] + Registered(target)] else subs
  }

  /** The dependency lists after reading the data keys `keys`, in order,
      while the slot holds `target`. */
  function Track(subs: map<string, seq<Watcher>>, target: Option<Watcher>, keys: seq<string>)
    : (r: map<string, seq<Watcher>>)
    ensures r.Keys == subs.Keys
    decreases |keys|
  {
    if keys == [] then subs else Track(Register(subs, target, keys[0]), target, keys[1..])
  }

  /** The lists of freshly bound keys: all empty. */
  function NoSubs(keys: set<string>): (r: map<string, seq<Watcher>>)
  {
    map k | k in keys :: []
  }

  /** Tracking a single read is registering it. */
  lemma TrackOne(subs: map<string, seq<Watcher>>, target: Option<Watcher>, key: string)
    ensures Track(subs, target, [key]) == Register(subs, target, key)
  {
    assert [key][1..] == [];
  }

  /** Reads outside a tracked render register nothing. */
  lemma {:induction false} TrackWithoutTarget(subs: map<string, seq<Watcher>>, keys: seq<string>)
    ensures Track(subs, None, keys) == subs
    decreases |keys|
  {
    if keys != [] {
      if keys[0] in subs {
        assert subs[keys[0] := subs[keys[0]] + []] == subs by {
          assert subs[keys[0]] + [] == subs[keys[0]];
        }
      }
      TrackWithoutTarget(subs, keys[1..]);
    }
  }

  /** Tracking two runs of reads one after the other is tracking their
      concatenation. */
  lemma {:induction false} TrackConcat(subs: map<string, seq<Watcher>>, target: Option<Watcher>,
                                       a: seq<string>, b: seq<string>)
    ensures Track(Track(subs, target, a), target, b) == Track(subs, target, a + b)
    decreases |a|
  {
    if a == [] {
      assert a + b == b;
    } else {
      assert (a + b)[1..] == a[1..] + b;
      TrackConcat(Register(subs, target, a[0]), target, a[1..], b);
    }
  }

  /** Each list only grows, by appending the active subscriber once for every
      read of its own key: without a target nothing is registered, and a key
      nobody reads keeps its list. */
  lemma {:induction false} TrackAppendsPerRead(subs: map<string, seq<Watcher>>, target: Option<Watcher>,
                                               keys: seq<string>, k: string)
    requires k in subs
    ensures Track(subs, target, keys)[k] == subs[k] + Copies(Registered(target), Count(keys, k))
    decreases |keys|
  {
    if keys != [] {
      var next := Register(subs, target, keys[0]);
      TrackAppendsPerRead(next, target, keys[1..], k);
      var w := Registered(target);
      var n := Count(keys[1..], k);
      if keys[0] == k {
        assert next[k] == subs[k] + w;
        assert Copies(w, n + 1) == w + Copies(w, n);
      }
    }
  }

  /** Every list holds `w` and nothing else. */
  predicate OnlyWatcher(subs: map<string, seq<Watcher>>, w: Watcher)
  {
    forall k, i :: k in subs && 0 <= i < |subs[k]| ==> subs[k][i] == w
  }

  /** Reads made while the slot holds `w`, or holds nothing, keep every list
      holding `w` alone: the render watcher is the only subscriber there is. */
  lemma {:induction false} TrackKeepsOnlyWatcher(subs: map<string, seq<Watcher>>, target: Option<Watcher>,
                                                 keys: seq<string>, w: Watcher)
    requires OnlyWatcher(subs, w)
    requires target.None? || target == Some(w)
    ensures OnlyWatcher(Track(subs, target, keys), w)
    decreases |keys|
  {
    if keys != [] {
      var next := Register(subs, target, keys[0]);
      forall k, i | k in next && 0 <= i < |next[k]|
        ensures next[k][i] == w
      {
        if k == keys[0] && i >= |subs[k]| {
          assert next[k] == subs[k] + Registered(target);
        }
      }
      TrackKeepsOnlyWatcher(next, target, keys[1..], w);
    }
  }

  /** After `mount`, every data key's list holds the render watcher alone,
      once per read of that key during the render. */
  lemma MountedListsHoldWatcher(keys: set<string>, w: Watcher, visits: seq<string>, k: string)
    requires k in keys
    ensures OnlyWatcher(Track(NoSubs(keys), Some(w), visits), w)
    ensures Track(NoSubs(keys), Some(w), visits)[k] == Copies([w], Count(visits, k))
  {
    TrackKeepsOnlyWatcher(NoSubs(keys), Some(w), visits, w);
    TrackAppendsPerRead(NoSubs(keys), Some(w), visits, k);
  }

  /** The accesses the cell of data key `k` sees when the data keys `keys`
      are read in order with `target` in the slot: one read per occurrence
      of `k`. */
  function CellReads(keys: seq<string>, k: string, target: Option<Watcher>): (r: seq<Access>)
    ensures |r| == Count(keys, k)
    ensures forall i :: 0 <= i < |r| ==> r[i] == Read(target)
  {
    if keys == [] then []
    else (if keys[0] == k then [Read(target)] else []) + CellReads(keys[1..], k, target)
  }

  /** The watchers a run of identical reads registers. */
  lemma {:induction false} TargetsOfReads(keys: seq<string>, k: string, target: Option<Watcher>)
    ensures Targets(CellReads(keys, k, target)) == Copies(Registered(target), Count(keys, k))
    decreases |keys|
  {
    if keys != [] {
      TargetsOfReads(keys[1..], k, target);
      var rest := CellReads(keys[1..], k, target);
      var w, n := Registered(target), Count(keys[1..], k);
      if keys[0] == k {
        var r := [Read(target)] + rest;
        assert r[0] == Read(target) && r[1..] == rest;
        assert Targets(r) == w + Targets(rest);
        assert Copies(w, n + 1) == w + Copies(w, n);
      } else {
        assert CellReads(keys, k, target) == [] + rest == rest;
      }
    }
  }

  /** Each key's list after a run of reads is the list its own cell reaches
      by stepping through its reads: the per-instance bookkeeping and the
      per-cell getter agree. */
  lemma TrackIsCellRun(subs: map<string, seq<Watcher>>, target: Option<Watcher>,
                       keys: seq<string>, k: string, v: Value)
    requires k in subs
    ensures Track(subs, target, keys)[k] == Run(CellState(v, subs[k]), CellReads(keys, k, target)).0.subs
  {
    TrackAppendsPerRead(subs, target, keys, k);
    SubsOnlyAppend(CellState(v, subs[k]), CellReads(keys, k, target));
    TargetsOfReads(keys, k, target);
  }

  /** The element the instance renders into. */
  class Element {
    /** Its text, markers included until the first render. */
    var innerHTML: string
    /** How many times its text has been assigned. */
    var writes: nat

    constructor (text: string)
      ensures innerHTML == text && writes == 0
    {
      innerHTML := text;
      writes := 0;
    }

    /** `el.innerHTML = text`. */
    method Assign(text: string)
      modifies this
      ensures innerHTML == text && writes == old(writes) + 1
    {
      innerHTML := text;
      writes := writes + 1;
    }
  }

  /** The root instance after `initState` and `mount`. */
  class Vm {
    /** `Dep.target`. */
    const slot: Tracking
    /** The render watcher created by `mount`. */
    const watcher: Watcher
    /** The data object: one reactive cell per key. */
    const data: map<string, Cell>
    /** The computed declarations, with the setter each one was given. */
    const computed: map<string, Computed>
    /** The render surface. */
    const el: Element
    /** The render surface's text as `compile` captured it. */
    const template: string
    /** Properties assigned on the instance that no accessor forwards. */
    var plain: map<string, Value>
    /** What default setters have reported, in order. */
    var reports: seq<Report>

    /** The key each data cell belongs to. */
    ghost const cellKey: map<Cell, string>
    /** The key each data cell's `Dep` belongs to. */
    ghost const depKey: map<Dep, string>

    /** The wiring fixed by `initState`: every data key has its own cell and
        its own `Dep`, data and computed keys are apart, and the computed
        declarations stay off the computed keys. It reads no mutable state. */
    ghost predicate Wired()
    {
      && (forall k :: k in data ==> data[k] in cellKey && cellKey[data[k]] == k)
      && (forall k :: k in data ==> data[k].dep in depKey && depKey[data[k].dep] == k)
      && data.Keys !! computed.Keys
      && (forall k :: k in computed ==> StaysOffComputed(computed[k], computed.Keys))
    }

    /** The plain properties stay apart from the proxied keys. */
    ghost predicate Valid()
      reads this`plain
    {
      && Wired()
      && plain.Keys !! data.Keys
      && plain.Keys !! computed.Keys
    }

    /** The values held by the data cells. */
    ghost function DataValues(): map<string, Value>
      requires Wired()
      reads cellKey.Keys
    {
      map k | k in data :: data[k].val
    }

    /** The dependency list of every data key. */
    ghost function Subs(): map<string, seq<Watcher>>
      requires Wired()
      reads depKey.Keys
    {
      map k | k in data :: data[k].dep.subs
    }

    /** What the proxy reads through: the data cells' values and the plain
        properties. */
    ghost function Current(): View
      requires Wired()
      reads this`plain, cellKey.Keys
    {
      View(DataValues(), plain)
    }

    /** `vm[key]` for a key that is not computed. */
    function Peek(w: View, key: string): (v: Value)
    {
      if key in w.values then w.values[key]
      else if key in w.plain then w.plain[key]
      else Undefined
    }

    function PeekAll(w: View, keys: seq<string>): (r: seq<Value>)
      ensures |r| == |keys|
    {
      if keys == [] then [] else [Peek(w, keys[0])] + PeekAll(w, keys[1..])
    }

    /** `vm[key]`: forwarded to the data cell or the computed getter. */
    function ReadKey(w: View, key: string): (v: Value)
    {
      if key in computed then computed[key].getter.combine(PeekAll(w, computed[key].getter.inputs))
      else Peek(w, key)
    }

    /** The data keys among `keys`, in order. */
    function InData(keys: seq<string>): (r: seq<string>)
    {
      if keys == [] then []
      else (if keys[0] in data then [keys[0]] else []) + InData(keys[1..])
    }

    /** The data keys a read of `vm[key]` goes through, in order. */
    function ReadsOf(key: string): (r: seq<string>)
    {
      if key in data then [key]
      else if key in computed then InData(computed[key].getter.inputs)
      else []
    }

    /** The data keys a render goes through for the markers `names`. */
    function RenderReads(names: seq<string>): (r: seq<string>)
    {
      if names == [] then [] else ReadsOf(names[0]) + RenderReads(names[1..])
    }

    /** The text each marker in `names` is replaced by. */
    function MarkerTexts(w: View, names: seq<string>): (r: seq<string>)
      ensures |r| == |names|
    {
      if names == [] then [] else [ToString(ReadKey(w, names[0]))] + MarkerTexts(w, names[1..])
    }

    /** The template with every marker replaced by the value of the property
        it names. */
    function Rendered(w: View): (text: string)
    {
      Fill(template, MarkerTexts(w, Names(template)))
    }

    /** Where an assignment `vm[key] = v` lands: a declared setter forwards
        `f(v)` to its target, anything else stays as it is. */
    function Forwarded(key: string, v: Value): (dest: (string, Value))
    {
      if key in computed && computed[key].Accessor? then
        (computed[key].setter.target, computed[key].setter.f(v))
      else (key, v)
    }

    /** `initState`: binds each data key to a fresh cell with a fresh,
        empty `Dep`, and keeps the computed declarations. Nothing has been
        rendered yet. */
    constructor (slot: Tracking, watcher: Watcher, data0: map<string, Value>,
                 computed: map<string, Computed>, el: Element)
      requires data0.Keys !! computed.Keys
      requires forall k :: k in computed ==> StaysOffComputed(computed[k], computed.Keys)
      ensures Valid()
      ensures this.slot == slot && this.watcher == watcher && this.computed == computed
      ensures this.el == el && template == el.innerHTML
      ensures fresh(cellKey.Keys) && fresh(depKey.Keys)
      ensures DataValues() == data0
      ensures Subs() == NoSubs(data0.Keys)
      ensures plain == map[] && reports == []
    {
      this.slot := slot;
      this.watcher := watcher;
      this.computed := computed;
      this.el := el;
      this.template := el.innerHTML;
      var cells;
      ghost var cellOwner, depOwner;
      cells, cellOwner, depOwner := InitData(data0);
      data := cells;
      cellKey := cellOwner;
      depKey := depOwner;
      plain := map[];
      reports := [];
      new;
      assert DataValues() == data0 by {
        assert forall k | k in data :: DataValues()[k] == data0[k];
      }
      assert Subs() == NoSubs(data0.Keys) by {
        assert forall k | k in data :: Subs()[k] == [];
      }
    }

    /** `mount`: the watcher wrapping the update callback occupies the slot
        for exactly one render; the slot is empty again afterwards. */
    method Mount()
      requires Wired() && slot.target == None
      modifies slot, depKey.Keys, el
      ensures slot.target == None
      ensures el.innerHTML == Rendered(Current())
      ensures el.writes == old(el.writes) + 1
      ensures Subs() == Track(old(Subs()), Some(watcher), RenderReads(Names(template)))
    {
      Bind(Some(watcher));
      Render();
      Bind(None);
    }

    /** Sets `Dep.target`; no data, plain property or dependency list changes. */
    method Bind(target: Option<Watcher>)
      requires Wired()
      modifies slot
      ensures slot.target == target
      ensures Subs() == old(Subs()) && Current() == old(Current())
    {
      slot.target := target;
    }

    /** Reads `vm[key]` through the proxy: a data key goes through its cell's
        getter, a computed key runs its getter (whose reads go through the
        instance), anything else is a plain property or `undefined`. */
    method Get(key: string) returns (v: Value)
      requires Wired()
      modifies depKey.Keys
      ensures v == ReadKey(Current(), key)
      ensures Subs() == Track(old(Subs()), slot.target, ReadsOf(key))
      ensures Current() == old(Current())
      decreases if key in computed then 2 else 0, 0
    {
      if key in data {
        v := GetData(key);
        TrackOne(old(Subs()), slot.target, key);
      } else if key in computed {
        v := GetComputed(key);
      } else {
        v := if key in plain then plain[key] else Undefined;
        TrackWithoutTarget(old(Subs()), []);
      }
    }

    /** The getter `defineReactive` installed for a data key, reached through
        the proxy: registers the slot's watcher with that key's list only. */
    method GetData(key: string) returns (v: Value)
      requires Wired() && key in data
      modifies data[key].dep
      ensures v == DataValues()[key]
      ensures Subs() == Register(old(Subs()), slot.target, key)
      ensures Current() == old(Current())
    {
      v := data[key].Get(slot);
    }

    /** A computed getter bound to the instance: reads its inputs through the
        instance, in order, then combines what they returned. */
    method GetComputed(key: string) returns (v: Value)
      requires Wired()
      requires key in computed
      modifies depKey.Keys
      ensures v == ReadKey(Current(), key)
      ensures Subs() == Track(old(Subs()), slot.target, InData(computed[key].getter.inputs))
      ensures Current() == old(Current())
      decreases 1, |computed[key].getter.inputs| + 1
    {
      var g := computed[key].getter;
      var args := GetInputs(g.inputs);
      v := g.combine(args);
    }

    /** The reads a computed getter makes, in order. */
    method GetInputs(inputs: seq<string>) returns (args: seq<Value>)
      requires Wired()
      requires forall r :: r in inputs ==> r !in computed
      modifies depKey.Keys
      ensures args == PeekAll(Current(), inputs)
      ensures Subs() == Track(old(Subs()), slot.target, InData(inputs))
      ensures Current() == old(Current())
      decreases 1, |inputs|
    {
      if inputs == [] {
        args := [];
        TrackWithoutTarget(Subs(), []);
      } else {
        var a := Get(inputs[0]);
        var rest := GetInputs(inputs[1..]);
        args := [a] + rest;
        TrackConcat(old(Subs()), slot.target, ReadsOf(inputs[0]), InData(inputs[1..]));
      }
    }

    /** The update callback built by `compile`: reads every marker's property
        through the instance, in order, and writes the substituted template
        to the render surface. */
    method Render()
      requires Wired()
      modifies depKey.Keys, el
      ensures el.innerHTML == Rendered(Current())
      ensures el.writes == old(el.writes) + 1
      ensures Subs() == Track(old(Subs()), slot.target, RenderReads(Names(template)))
    {
      var vals := GetAll(Names(template));
      Show(Fill(template, vals));
    }

    /** Writes the render surface; no data, plain property or dependency list
        changes. */
    method Show(text: string)
      requires Wired()
      modifies el
      ensures el.innerHTML == text && el.writes == old(el.writes) + 1
      ensures Subs() == old(Subs()) && Current() == old(Current())
    {
      el.Assign(text);
    }

    /** The replacement callback run for each marker in turn, left to right:
        reads the property it names through the instance. */
    method GetAll(names: seq<string>) returns (vals: seq<string>)
      requires Wired()
      modifies depKey.Keys
      ensures vals == MarkerTexts(Current(), names)
      ensures Subs() == Track(old(Subs()), slot.target, RenderReads(names))
      ensures Current() == old(Current())
      decreases |names|
    {
      if names == [] {
        vals := [];
        TrackWithoutTarget(Subs(), []);
      } else {
        var v := Get(names[0]);
        var rest := GetAll(names[1..]);
        vals := [ToString(v)] + rest;
        TrackConcat(old(Subs()), slot.target, ReadsOf(names[0]), RenderReads(names[1..]));
      }
    }

    /** Writes `vm[key] = v` through the proxy. A data key's cell stores the
        value, then notifies, and the instance re-renders once per entry of
        that key's list; a bare computed only reports; a declared setter
        forwards; any other key becomes a plain property. Nothing registers:
        the slot is empty outside `mount`. */
    method Set(key: string, v: Value)
      requires Valid() && slot.target == None
      modifies this`plain, el, this`reports, cellKey.Keys, depKey.Keys
      ensures Valid() && slot.target == None
      ensures Subs() == old(Subs())
      ensures key in computed && computed[key].Bare? ==>
        && reports == old(reports) + [DefaultSetterReport(key, v)]
        && DataValues() == old(DataValues()) && plain == old(plain)
        && el.innerHTML == old(el.innerHTML) && el.writes == old(el.writes)
      ensures !(key in computed && computed[key].Bare?) ==> reports == old(reports)
      ensures !(key in computed && computed[key].Bare?) && Forwarded(key, v).0 in data ==>
        var (k, w) := Forwarded(key, v);
        && DataValues() == old(DataValues())[k := w] && plain == old(plain)
        && el.writes == old(el.writes) + |old(Subs())[k]|
        && el.innerHTML == (if old(Subs())[k] == [] then old(el.innerHTML) else Rendered(Current()))
      ensures !(key in computed && computed[key].Bare?) && Forwarded(key, v).0 !in data ==>
        var (k, w) := Forwarded(key, v);
        && DataValues() == old(DataValues()) && plain == old(plain)[k := w]
        && el.innerHTML == old(el.innerHTML) && el.writes == old(el.writes)
      decreases if key in computed then 1 else 0
    {
      if key in data {
        SetData(key, v);
      } else if key in computed {
        match computed[key]
        case Bare(_) =>
          reports := reports + [DefaultSetterReport(key, v)];
        case Accessor(_, s) =>
          Set(s.target, s.f(v));
      } else {
        plain := plain[key := v];
      }
    }

    /** The setter `defineReactive` installed for a data key, reached through
        the proxy: the cell stores the value, then its `Dep` notifies. */
    method SetData(key: string, v: Value)
      requires Wired() && slot.target == None && key in data
      modifies data[key], depKey.Keys, el
      ensures Subs() == old(Subs())
      ensures DataValues() == old(DataValues())[key := v]
      ensures el.writes == old(el.writes) + |old(Subs())[key]|
      ensures el.innerHTML == if old(Subs())[key] == [] then old(el.innerHTML) else Rendered(Current())
    {
      var trace := data[key].Set(v);
      assert Subs() == old(Subs());
      assert DataValues() == old(DataValues())[key := v] by {
        assert DataValues().Keys == old(DataValues())[key := v].Keys;
        forall k | k in data
          ensures DataValues()[k] == old(DataValues())[key := v][k]
        {
          assert k != key ==> data[k] != data[key];
        }
      }
      RunUpdates(trace);
    }

    /** The notified watchers' updates, in order: each one re-renders. With
        the slot empty, the renders register nothing. */
    method RunUpdates(trace: seq<Watcher>)
      requires Wired() && slot.target == None
      modifies depKey.Keys, el
      ensures Subs() == old(Subs())
      ensures el.writes == old(el.writes) + |trace|
      ensures el.innerHTML == if trace == [] then old(el.innerHTML) else Rendered(Current())
    {
      var i := 0;
      while i < |trace|
        invariant 0 <= i <= |trace|
        invariant Subs() == old(Subs())
        invariant el.writes == old(el.writes) + i
        invariant el.innerHTML == if i == 0 then old(el.innerHTML) else Rendered(Current())
      {
        Render();
        TrackWithoutTarget(old(Subs()), RenderReads(Names(template)));
        i := i + 1;
      }
    }
  }

  /** `new Vue(options)`: `initState`, then `mount`, which captures the
      surface's text as the template and renders it once. Only the
      template's reads register, each with the render watcher. */
  method Create(slot: Tracking, watcher: Watcher, data0: map<string, Value>,
                computed: map<string, Computed>, el: Element) returns (vm: Vm)
    requires slot.target == None
    requires data0.Keys !! computed.Keys
    requires forall k :: k in computed ==> StaysOffComputed(computed[k], computed.Keys)
    modifies slot, el
    ensures fresh(vm) && vm.Valid() && slot.target == None
    ensures vm.slot == slot && vm.watcher == watcher && vm.computed == computed
    ensures vm.el == el && vm.template == old(el.innerHTML)
    ensures vm.DataValues() == data0 && vm.plain == map[] && vm.reports == []
    ensures fresh(vm.cellKey.Keys) && fresh(vm.depKey.Keys)
    ensures el.writes == old(el.writes) + 1 && el.innerHTML == vm.Rendered(vm.Current())
    ensures vm.Subs() == Track(NoSubs(data0.Keys), Some(watcher), vm.RenderReads(Names(vm.template)))
  {
    vm := new Vm(slot, watcher, data0, computed, el);
    vm.Mount();
  }

  /** `new Vue({el, data: {a: 1}})` over the text `{{a}}`, then `vm.a = 2`:
      the element shows what it held after mount and after the write. */
  method CounterPage() returns (shown: seq<string>)
    ensures shown == ["1", "2"]
  {
    var slot := new Tracking();
    var el := new Element("{{a}}");
    var vm := Create(slot, Watcher(0), map["a" := Num(1)], map[], el);
    CounterTemplate();
    assert vm.RenderReads(["a"]) == ["a"];
    TrackOne(NoSubs({"a"}), Some(Watcher(0)), "a");
    assert vm.Subs()["a"] == [Watcher(0)];
    assert vm.MarkerTexts(vm.Current(), ["a"]) == ["1"];
    var first := el.innerHTML;
    vm.Set("a", Num(2));
    assert vm.MarkerTexts(vm.Current(), ["a"]) == ["2"];
    shown := [first, el.innerHTML];
  }

  /** The page's text holds one marker, for `a`, and nothing else. */
  lemma CounterTemplate()
    ensures Names("{{a}}") == ["a"]
    ensures Fill("{{a}}", ["1"]) == "1" && Fill("{{a}}", ["2"]) == "2"
  {
    MarkerIsReplaced("a", "", "1", []);
    MarkerIsReplaced("a", "", "2", []);
    assert Marker("a") + "" == "{{a}}";
  }

  /** `double` as a bare computed: twice `a`, when `a` is a number. */
  function Twice(args: seq<Value>): (v: Value)
  {
    if |args| == 1 && args[0].Num? then Num(2 * args[0].n) else Undefined
  }

  /** `new Vue({el, data: {a: 3}, computed: {double() {...}}})` over the text
      `{{double}}`, then `vm.a = 5`, then `vm.double = 7`: the element shows
      twice `a` after mount and after the write to `a`; the assignment to the
      computed only reports, naming it. */
  method DoublePage() returns (shown: seq<string>, reports: seq<Report>)
    ensures shown == ["6", "10", "10"]
    ensures reports == [NoSetter(Str("double"))]
  {
    var slot := new Tracking();
    var el := new Element("{{double}}");
    var computed := map["double" := Bare(Getter(["a"], Twice))];
    var vm := Create(slot, Watcher(0), map["a" := Num(3)], computed, el);
    DoubleTemplate();
    assert vm.RenderReads(["double"]) == ["a"] by {
      assert vm.InData(["a"]) == ["a"];
    }
    TrackOne(NoSubs({"a"}), Some(Watcher(0)), "a");
    assert vm.Subs()["a"] == [Watcher(0)];
    DoubleNumerals();
    assert vm.MarkerTexts(vm.Current(), ["double"]) == ["6"];
    var first := el.innerHTML;
    vm.Set("a", Num(5));
    assert vm.MarkerTexts(vm.Current(), ["double"]) == ["10"];
    var second := el.innerHTML;
    vm.Set("double", Num(7));
    shown, reports := [first, second, el.innerHTML], vm.reports;
  }

  /** The texts of the two values `double` takes. */
  lemma DoubleNumerals()
    ensures ToString(Num(6)) == "6" && ToString(Num(10)) == "10"
  {
    assert NatToString(1) == "1" && NatToString(6) == "6";
    assert NatToString(10) == NatToString(1) + "0";
  }

  /** The page's text holds one marker, for `double`, and nothing else. */
  lemma DoubleTemplate()
    ensures Names("{{double}}") == ["double"]
    ensures Fill("{{double}}", ["6"]) == "6" && Fill("{{double}}", ["10"]) == "10"
  {
    MarkerIsReplaced("double", "", "6", []);
    MarkerIsReplaced("double", "", "10", []);
    assert Marker("double") + "" == "{{double}}";
  }

  /** `initData`: a fresh cell, with a fresh `Dep`, for every data key. */
  method InitData(data0: map<string, Value>)
    returns (cells: map<string, Cell>, ghost cellOwner: map<Cell, string>, ghost depOwner: map<Dep, string>)
    ensures cells.Keys == data0.Keys
    ensures forall k :: k in cells ==> cells[k].val == data0[k] && cells[k].dep.subs == []
    ensures forall k :: k in cells ==> cells[k] in cellOwner && cellOwner[cells[k]] == k
    ensures forall k :: k in cells ==> cells[k].dep in depOwner && depOwner[cells[k].dep] == k
    ensures forall c :: c in cellOwner ==> fresh(c)
    ensures forall d :: d in depOwner ==> fresh(d)
  {
    cells, cellOwner, depOwner := map[], map[], map[];
    var todo := data0.Keys;
    while todo != {}
      invariant todo <= data0.Keys && cells.Keys == data0.Keys - todo
      invariant forall k :: k in cells ==> cells[k].val == data0[k] && cells[k].dep.subs == []
      invariant forall k :: k in cells ==> cells[k] in cellOwner && cellOwner[cells[k]] == k
      invariant forall k :: k in cells ==> cells[k].dep in depOwner && depOwner[cells[k].dep] == k
      invariant forall c :: c in cellOwner ==> fresh(c)
      invariant forall d :: d in depOwner ==> fresh(d)
      decreases todo
    {
      var k :| k in todo;
      var c := new Cell(data0[k]);
      cells := cells[k := c];
      cellOwner := cellOwner[c := k];
      depOwner := depOwner[c.dep := k];
      todo := todo - {k};
    }
  }
}
