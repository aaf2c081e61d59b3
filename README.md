# A verified model of a minimal Vue-style reactive core

The repository is a teaching rebuild of Vue's reactivity in about 130
lines of JavaScript, together with a small `Object.defineProperty`
example. This project models both in Dafny and proves what they do.

- **Dependency tracking.** A `Dep` keeps an ordered list of subscribers
  (`addSub` appends and `notify` calls each one in order). `Dep.target` is
  the one global slot that says which watcher is collecting dependencies
  right now.
- **`defineReactive`.** It turns a data property into a getter/setter pair
  over a closure cell. The getter registers `Dep.target` when the slot is
  set. The setter stores the value, then notifies.
- **The instance.**
  - `initData` makes every data key reactive and proxies it onto the
    instance.
  - `initComputed` installs computed getters bound to the instance. A
    computed key gets its declared setter, or a default setter that only
    reports.
  - `mount` compiles the element's text into an update function. It runs
    that function once with the render watcher in `Dep.target`, so the
    render's reads subscribe it, then clears the slot.
- **Rendering.** Every marker of `/{{(.*?)}}/g` in the captured text is
  replaced by `vm[name]`, converted to a string. The matching is non-greedy,
  and `.` does not cross a line terminator.
- **`person.fullName`.** It reads as `lastName + ' ' + firstName`.
  Assigning it splits the text at spaces into the two fields.

Files:

- `values.dfy`: JavaScript values (`undefined`, numbers, strings) and
  `String(v)`, with the numeral reading that inverts it on numbers.
- `deps.dfy`: `Watcher`, the `Dep` class and the `Tracking` slot for
  `Dep.target`.
- `reactive.dfy`: the cell of `defineReactive`, as the `Cell` class and as a
  pure state machine (`Step`, `Run`). Lemmas describe runs of reads and
  writes.
- `template.dfy`: the substitution done by `compile`. `Names` gives the
  marker names in callback order, and `Fill` replaces the markers.
- `instance.dfy`: the `Vm` class (`initState`, the proxy's get and set,
  `mount`, and the re-render run for every notified watcher). It also holds
  the pure bookkeeping of dependency lists (`Track`).
- `full_name.dfy`: the `fullName` accessor, with `split(' ')` and its
  inverse.

The instance's state is described by pure views:

- `DataValues()`: the data cells' values;
- `Subs()`: each data key's dependency list;
- `Current()`: what a read through the proxy sees.

Each method states its result and the new state in terms of these views.
The pure functions that carry the meaning have no contract of their own:

- `Reactive.Step` is one access to a property;
- `Template.Names` and `Template.Fill` are the scan and the substitution;
- `Instance.Vm.Rendered` is the text a render writes;
- `FullName.Assigned` and `FullName.Shown` are the setter and the getter of `fullName`.

The lemma rows below state their properties.
The lemmas about `Track`, `Fill` and `Split` then prove what the source
promises: reads subscribe the render watcher, writes re-render, markers are
replaced and text passes through.

## Model

| member | source | states |
|---|---|---|
| Values.NatToString | vue.js:118-120 | a number's decimal text is a non-empty run of digits without leading zeros |
| Values.NatToStringValue | vue.js:118-120 | the digits denote the number they were written for |
| Values.ToString | vue.js:118-120 | a string is spliced in as itself |
| Values.NumberText | vue.js:118-120 | an integer's text is a numeral, optionally signed, that denotes that integer |
| Values.NumberTextInjective | vue.js:118-120 | distinct numbers render as distinct texts |
| Deps.Dep.constructor | vue.js:2-4 | a new `Dep` has an empty subscriber list |
| Deps.Dep.AddSub | vue.js:5-7 | the subscriber is appended at the end, with duplicates kept |
| Deps.Dep.Notify | vue.js:8-12 | every subscriber is updated once, in registration order, and the list is left unchanged |
| Deps.Registered | vue.js:30-33 | a read registers at most one watcher, and none exactly when the slot is empty |
| Deps.Tracking.constructor | vue.js:24 | `Dep.target` starts out empty |
| Reactive.Cell.constructor | vue.js:25-27 | the cell captures the property's current value and a fresh, empty `Dep` |
| Reactive.Cell.Get | vue.js:29-35 | the getter returns the stored value and appends the active watcher, if there is one, to this cell's list |
| Reactive.Cell.Set | vue.js:36-40 | the setter stores the value, then notifies the whole list once, whatever the value |
| Reactive.ReadRegistersTarget | vue.js:29-35 | a read returns the stored value, keeps it, and adds exactly the active watcher or nothing |
| Reactive.LastWriteWins | vue.js:36-37 | after any run of accesses the value is the last one written, or the initial one if nothing was written |
| Reactive.SubsOnlyAppend | vue.js:30-33 | the list only grows, by the watchers active at the reads, in order |
| Reactive.OneCyclePerWrite | vue.js:36-40 | every write causes exactly one notify cycle; there is no equality check |
| Reactive.WritesNotifyAllSubs | vue.js:36-40 | without reads, every write notifies the whole unchanged list |
| Reactive.IdenticalWritesNotifyTwice | vue.js:36-40 | writing the same value twice notifies twice |
| Template.Close | vue.js:118 | the lazy `(.*?)` stops at the first `}}`, and finds none past a line terminator |
| Template.NamesAreValid | vue.js:118 | every captured name is free of line terminators and of `}}` |
| Template.FillWithMarkersIsIdentity | vue.js:118-121 | replacing each marker by itself gives the text back: the scan loses nothing |
| Template.MarkerSpan | vue.js:118 | a marker found at the head of the text consists of its braces and its name |
| Template.NoMarkersUnchanged | vue.js:118 | text without markers is returned unchanged |
| Template.PlainTextPassesThrough | vue.js:118 | text in which no marker starts is copied through and adds no names, whatever follows it |
| Template.StrayBracePassesThrough | vue.js:118 | a lone `{`, as in `p{x}`, is copied through |
| Template.UnclosedMarkerPassesThrough | vue.js:118 | a `{{` whose line ends before any `}}` opens no marker and is copied through |
| Template.MarkerIsReplaced | vue.js:118-121 | a marker with a valid name is replaced by its value, and the scan goes on right after it |
| Template.MarkersOf | vue.js:118 | one marker per name |
| Instance.DefaultSetterAsWrittenNamesValue | vue.js:86-91 | as written, assigning 5 to a bare computed reports the value 5 instead of the key |
| Instance.ReportsAgree | vue.js:86-91 | for every key and value, the report as written equals the corrected one exactly when the value is the key's own name |
| Instance.Track | vue.js:29-33 | reads keep the set of data keys with a list |
| Instance.TrackOne | vue.js:29-33 | tracking one read is registering it with that key alone |
| Instance.TrackWithoutTarget | vue.js:30 | reads made while the slot is empty register nothing |
| Instance.TrackConcat | vue.js:118-121 | tracking two runs of reads one after the other equals tracking them together |
| Instance.TrackAppendsPerRead | vue.js:29-33 | each key's list grows by the active watcher once per read of that key, and not at all for other keys |
| Instance.TrackKeepsOnlyWatcher | vue.js:105-109 | reads made with the render watcher, or no watcher, in the slot keep every list holding that watcher alone |
| Instance.CellReads | vue.js:29-33 | a key's cell sees one read, with the same slot, per occurrence of its key |
| Instance.TargetsOfReads | vue.js:30-33 | those reads register the slot's watcher once per occurrence |
| Instance.TrackIsCellRun | vue.js:29-33 | each key's list after a run of reads is the list its own cell's getter reaches |
| Instance.MountedListsHoldWatcher | vue.js:103-110 | after mount every list holds only the render watcher, once per read of its key during the render |
| Instance.Element.constructor | vue.js:113-116 | the element holds its text and has not been written |
| Instance.Element.Assign | vue.js:125 | assigning `innerHTML` replaces the text and counts one write |
| Instance.Vm.constructor | vue.js:56-69 | `initState` gives every data key a fresh cell holding its value with an empty list, and keeps the computed declarations |
| Instance.Vm.Mount | vue.js:103-110 | mount renders once with the watcher in the slot, clears the slot, and subscribes the watcher for exactly the render's reads |
| Instance.Vm.Bind | vue.js:107 | setting `Dep.target` changes no value, plain property or list |
| Instance.Vm.Get | vue.js:71-76 | a proxied read returns the data value, the computed getter's result, the plain property or `undefined`, and registers exactly the data keys it goes through |
| Instance.Vm.GetData | vue.js:29-35 | a data read returns that key's value and registers with that key's list alone |
| Instance.Vm.GetComputed | vue.js:90-93 | a computed read runs the getter bound to the instance, whose reads go through the proxy |
| Instance.Vm.GetInputs | vue.js:93 | the computed getter's reads return their values in order and register their data keys in order |
| Instance.Vm.Render | vue.js:117-126 | the update writes the substituted template once and registers the reads of every marker, left to right |
| Instance.Vm.Show | vue.js:125 | writing the element changes no value, plain property or list |
| Instance.Vm.GetAll | vue.js:118-121 | the replacement callback reads `vm[name]` for each marker in order and returns its string form |
| Instance.Vm.Set | vue.js:77-79 | a proxied write reaches the data cell (re-rendering once per list entry), reports for a bare computed, forwards through a declared setter, or sets a plain property; lists never change |
| Instance.Vm.SetData | vue.js:36-40 | a data write stores the value, leaves every list unchanged, and re-renders once per entry of that key's list |
| Instance.Vm.RunUpdates | vue.js:9-11 | each notified watcher's update re-renders once, and with the slot empty nothing registers |
| Instance.Create | vue.js:44-54 | `new Vue` yields a valid instance, with fresh cells and `Dep`s that later reads and writes may change, whose template is the element's text as `compile` captures it at mount, showing that template rendered once, and whose lists hold the render watcher for exactly the render's reads |
| Instance.CounterPage | vue.js:103-126 | with data `{a: 1}` over the text `{{a}}`, the element shows "1" after mount and "2" after `vm.a = 2` |
| Instance.DoublePage | vue.js:84-99 | with data `{a: 3}` and a bare computed `double`, the element shows "6" after mount and "10" after `vm.a = 5`; `vm.double = 7` changes nothing shown and makes one report naming `double` |
| Instance.InitData | vue.js:61-69 | every data key gets its own fresh cell holding its value and its own fresh, empty `Dep` |
| FullName.Split | definePropertyExample.js:10 | `split(' ')` yields one more piece than there are spaces, and no piece contains a space |
| FullName.JoinSplit | definePropertyExample.js:10 | joining the pieces with spaces gives the text back |
| FullName.SplitAfterWord | definePropertyExample.js:10 | a leading word without spaces joins the first piece of what follows it |
| FullName.SplitJoin | definePropertyExample.js:10 | splitting words joined by spaces gives the words back |
| FullName.Piece | definePropertyExample.js:11-12 | indexing past the pieces gives `undefined` |
| FullName.OneSpaceRoundTrip | definePropertyExample.js:6-13 | assigning text with one space and reading it back gives the same text |
| FullName.NoSpaceLeavesFirstUndefined | definePropertyExample.js:9-13 | text without a space becomes the last name, the first name becomes `undefined`, and the getter shows "undefined" |
| FullName.ExtraWordsDropped | definePropertyExample.js:9-13 | with two or more spaces, the words after the second are lost and the getter shows a proper prefix |
| FullName.GetThenSet | definePropertyExample.js:6-13 | assigning what was read restores names that contain no space |
| FullName.Person.constructor | definePropertyExample.js:1-4 | the object starts with "meimei" and "han", so `fullName` reads "han meimei" |
| FullName.Person.FullName | definePropertyExample.js:6-8 | the getter's text splits back into the two names when neither contains a space |
| FullName.Person.SetFullName | definePropertyExample.js:9-13 | the setter stores the first piece as the last name and the second piece, or `undefined`, as the first name |

## Left out

- `document.querySelector` and the DOM are not modelled. The element is an `Element` object holding its `innerHTML` and a count of writes.
- `console.error` is not modelled as output. Each default-setter report is appended to the instance's `reports` sequence instead.
- A `data` option given as a function is not modelled. The constructor receives the data object itself, that is, the result of calling the function.
- Computed getters and setters are arbitrary JavaScript functions and cannot be modelled in general. A getter is modelled by the instance properties it reads, in order, plus a pure function combining the values. A declared setter is modelled as assigning `f(v)` to one instance property.
- Computed properties that read or write other computed properties are not modelled. `StaysOffComputed` rules them out.
- Numbers are mathematical integers, not IEEE doubles. Only integral values and their decimal form are modelled.
- Strings are sequences of Unicode characters rather than UTF-16 code units.
- A data key that is also a computed key makes the JavaScript throw a `TypeError` when the accessor is redefined. The model requires the two key sets to be disjoint instead.
- Instance.Vm.Set requires the slot to be empty. Only in that state does the source write after mount, and the model does not cover writes during a render, nor any other re-entrancy.
- Watcher identity is a number. The update function a watcher holds is the instance's `Render`, which `RunUpdates` runs once per notified entry.
- Instance.Create and Instance.Vm.constructor do not model the inputs on which `initState` throws a `TypeError`:
  - a missing or `null` `data` option (`Object.keys`, vue.js:64);
  - a missing or `null` `computed` option (`Object.keys`, vue.js:89);
  - a computed entry that is `null` (`null.get`, vue.js:90);
  - a computed entry with no getter: `{set}` alone, or a value that is neither a function nor an object, such as `5` (`getter.bind` on `undefined`, vue.js:90 and 93);
  - a computed declared as `{get}` without `set` (`setter.bind` on `undefined`, vue.js:91 and 94).

  The model takes both options as maps, an absent option reading as an empty one. Every computed declaration carries a getter, and every declared accessor carries a setter, so these constructions cannot be written down or succeed in the model.
- Instance.Vm.Get reads `undefined` for a name that is neither data, computed nor a plain property. In the source, `vm[name]` also reaches the instance's own `$options` and `$el` (vue.js:51 and 115) and prototype members such as `_init`, `constructor` and `toString`, so `{{$el}}` or `{{_init}}` render an object's or a function's text there.
- Values.Value has no booleans, `null`, objects or functions. Their `String` forms ("true", "null", "[object Object]", function source) are not modelled, so such data values cannot be rendered.
- Instance.Vm.Set records the corrected report `DefaultSetterReport(key, v)`, which names the key. As written, the source's default setter names the assigned value (see Findings, and `Instance.ReportsAgree` for when the two differ).
- FullName.Person.SetFullName takes a string. Assigning a non-string makes `split` throw in the source, and that case is not modelled.

## Findings

| source | as written | input that shows it | evidently intended | confidence | as-written member | corrected member |
|---|---|---|---|---|---|---|
| vue.js:86-91 | `defaultSetter` is bound with no arguments, so its parameter `key` receives the assigned value, and the report names the value | a bare computed `double`, then `vm.double = 5`: the report names `5` | the report names the computed key that has no setter | high, not executed | Instance.DefaultSetterAsWrittenNamesValue | Instance.Vm.Set |
