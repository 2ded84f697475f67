# pippi engine core, modelled in Dafny

pippi is a Python 2 live-coding engine for sound. Its core, in
`pippi/__init__.py`, lets generator code, background workers and a
command console talk to each other through one shared namespace object.
This project models four parts of that core:

- **The MIDI controller reader** (`MidiManager`). `get`, `geti`, `getr` and
  `getri` read the last value a device's controller published under the
  attribute `cc<device id><controller>`. The value is rescaled from 0..127
  into `low..high`. It can be shifted by an offset, rounded, or multiplied by
  a random factor. When the attribute is missing or does not convert, the
  reader returns a fallback.
- **The capture worker's publish step.** One `setattr` per received MIDI
  event. The rest of the worker is left out (see below).
- **The parameter store** (`ParamManager`). It holds named namespaces. Each
  is an attribute of the shared object whose value is a dict.
  - `set` is a read-modify-write of that dict.
  - `get` without a throttle returns a stored value. When the value is
    missing or None, it installs the default and returns that.
  - `getAll` reads a namespace, or gives an empty dict when there is none.
- **One pass of the command event loop** (`EventManager.loop`). It drains
  the `console_cmds` queue and splits each command at its first space into a
  verb and arguments. It calls the console's `do_<verb>` handler when there
  is one.
- **Group selection in the voice supervisor.** Voice number `voice_index`
  renders with group `groups[voice_index % len(groups)]`.

## How the model is built

- `python.dfy` (module `Python`) holds the Python 2 behaviour the core relies
  on:
  - the values stored in the shared object (`Value`) and the exceptions that
    can be raised (`PyError`, `Result`);
  - `str()` and `int()` on integers and text, and `int()` on floats,
    booleans and other values;
  - `round`, which rounds halves away from zero in Python 2;
  - `str.split` and `str.join` with a one-character separator.
- `shared.dfy` (module `Shared`) holds the shared object itself. It is a class
  `Namespace` with one field, `attrs: map<string, Value>`. Its methods are
  `setattr` and `del`, and its predicate is `hasattr`. `getattr` is a
  function on a snapshot of the attributes, used by every reader.

  Every component reads and writes this single attribute space, as in the
  source. MIDI keys, parameter namespaces and the command queue are not kept
  in separate maps. That means a parameter namespace named like a MIDI key,
  or a namespace attribute that holds something other than a dict, does
  what the source does with it.
- `midi.dfy`, `params.dfy`, `events.dfy` and `voices.dfy` follow the
  source's components. Each stateful component is a class over the shared
  `Namespace`, and each has pure snapshot functions on an `attrs` map that
  say what an operation computes:
  - `ReadScaled` and `PublishAll` for MIDI;
  - `Lookup`, `Stored` and `Fetched` for the parameter store;
  - `Dispatch` and `DispatchQueue` for the event loop.

  The methods are proved against these functions. The lemmas about the
  functions state what the source promises.

Python's `%` takes the sign of the divisor. For the positive divisor here it
agrees with Dafny's `%`. Floats are modelled as reals.

## Model

| member | source | states |
|---|---|---|
| Python.NatToStrValue | pippi/__init__.py:89 | the decimal text `%s` gives a natural number reads back as that number |
| Python.IntToStr | pippi/__init__.py:89 | `%s` of an int is non-empty text that starts with `-` exactly when the int is negative, with only digits after that |
| Python.IntToStrInjective | pippi/__init__.py:89 | distinct integers format to distinct text |
| Python.ParseIntOfIntToStr | pippi/__init__.py:90 | `int()` of the text of an integer is that integer, negatives included |
| Python.ParseIntCases | pippi/__init__.py:90 | `int()` accepts surrounding whitespace and a sign followed by whitespace, and rejects empty text, a bare sign and a space between digits |
| Python.Round | pippi/__init__.py:71 | the result is at most 0.5 from the input, and a tie goes away from zero |
| Python.RoundWhole | pippi/__init__.py:71 | whole numbers are not changed by rounding |
| Python.Split | pippi/__init__.py:45 | `split(' ')` gives at least one piece, and no piece contains a space |
| Python.JoinSplit | pippi/__init__.py:45-47 | joining the pieces of a split with the same separator gives back the original string |
| Python.SplitWithoutSeparator | pippi/__init__.py:45-46 | a string without the separator splits into just itself |
| Python.SplitAtFirst | pippi/__init__.py:45-46 | the first piece is the text before the first separator, and the other pieces are the split of the text after it |
| Shared.GetAttrAfterSetAttr | pippi/__init__.py:113 | after `setattr`, `getattr` of that name gives the new value and every other name reads as before |
| Shared.GetAttrAfterDelAttr | pippi/__init__.py:42 | after `del`, `getattr` of that name raises AttributeError and every other name reads as before |
| Shared.HasIsGetAttr | pippi/__init__.py:40-41 | `hasattr` holds exactly when `getattr` would not raise |
| Shared.Namespace.SetAttr | pippi/__init__.py:113 | `setattr` replaces one attribute and leaves every other attribute unchanged |
| Shared.Namespace.DelAttr | pippi/__init__.py:42 | `del` removes exactly that attribute, and raises AttributeError when it is absent |
| Midi.CcKeyInjective | pippi/__init__.py:89 | for one device, different controller numbers use different attribute keys |
| Midi.CcKey | pippi/__init__.py:89 | a controller key is `cc` followed only by digits and minus signs, the decimal text of the device id and then of the controller |
| Midi.CcKeyAvoidsOtherAttributes | pippi/__init__.py:89 | a controller key is never `console_cmds` or `global`, the other attributes that share the space |
| Midi.CcKeysCollideAcrossDevices | pippi/__init__.py:89 | across devices the keys can collide: device 1 controller 23 and device 12 controller 3 both use `cc123` |
| Midi.RescaleEnds | pippi/__init__.py:90 | raw 0 gives `low` and raw 127 gives `high` |
| Midi.RescaleWithin | pippi/__init__.py:90 | a raw value in 0..127 lands between `low` and `high`, whichever of the two is larger |
| Midi.RescaleMonotonic | pippi/__init__.py:90 | when `low <= high`, a larger raw value never gives a smaller result |
| Midi.ReadScaledFallback | pippi/__init__.py:88-95 | a missing or unconvertible value gives `default` when one is given, 0 included, and `low` otherwise |
| Midi.ReadScaledPresent | pippi/__init__.py:88-90 | a published int is read back rescaled, and a 7-bit value lands within `low..high` |
| Midi.ReadScaledText | pippi/__init__.py:90 | a value stored as the text of an integer is read like the integer |
| Midi.SpreadAboveOneIsOne | pippi/__init__.py:74-75 | every spread of 1 or more allows exactly the factors that spread 1 allows |
| Midi.FactorBounds | pippi/__init__.py:74-75 | the random factor is in [0, 1] for a spread of 0 or more, and in [-1, 1] for a spread of -1 or more |
| Midi.Randomize | pippi/__init__.py:73-79 | for a spread of 0 or more the product lies between 0 and the value, and for a spread of -1 or more its size is at most the value's, so it is never amplified |
| Midi.NegativeSpreadNotClamped | pippi/__init__.py:74-75 | a spread of -5 is not clamped, so the factor may be -5 |
| Midi.MidiManager.constructor | pippi/__init__.py:62-65 | a new reader is bound to its device and the shared object, and has no offset |
| Midi.MidiManager.SetOffset | pippi/__init__.py:67-68 | the new offset replaces the old one, None included |
| Midi.MidiManager.Get | pippi/__init__.py:84-95 | `get` is the snapshot read of this device's key for the controller shifted by the offset |
| Midi.MidiManager.GetInt | pippi/__init__.py:70-71 | `geti` is within 0.5 of `get` |
| Midi.MidiManager.GetRandomized | pippi/__init__.py:73-79 | for a spread of 0 or more `getr` lies between 0 and `get`, and for a spread of -1 or more its size is at most that of `get` |
| Midi.MidiManager.GetRandomizedInt | pippi/__init__.py:81-82 | `getri` is within 0.5 of `getr` |
| Midi.Writes | pippi/__init__.py:184-188 | publishing makes one write per event, in order, under the event's key, with its value byte |
| Midi.ApplyLastWins | pippi/__init__.py:184-188 | after a sequence of `setattr`s, a key holds the value of the last write to it |
| Midi.ApplyOthersUnchanged | pippi/__init__.py:184-188 | a key that no write names keeps its old value, or stays absent |
| Midi.Publish | pippi/__init__.py:184-188 | the publish loop leaves the shared object equal to `PublishAll` of its old state |
| Midi.PublishLastKeyWins | pippi/__init__.py:184-188 | after publishing, each key holds the value of the last event published under it |
| Midi.PublishLastWriteWins | pippi/__init__.py:184-188 | after publishing, each controller of the device holds the value of the last event that named it |
| Midi.PublishOtherKeysUnchanged | pippi/__init__.py:184-188 | attributes that no event names are untouched |
| Midi.PublishedValueIsRead | pippi/__init__.py:84-90 | a reader of the same device with no offset reads back the rescaled value of the last event published for its controller |
| Params.GetAllUnwritten | pippi/__init__.py:142-147 | a namespace that was never written reads as the empty dict |
| Params.SetThenGetAll | pippi/__init__.py:105-113 | after `set`, `getAll` shows the old dict with only `param` replaced. No other attribute changes, and no other namespace changes |
| Params.SetOnNonDict | pippi/__init__.py:109-111 | `set` on a namespace attribute that is not a dict raises TypeError |
| Params.SetTwiceLastWins | pippi/__init__.py:105-113 | when the same parameter is set twice, the second value wins |
| Params.SetsToDistinctNamespacesCommute | pippi/__init__.py:105-113 | sets to two different namespaces commute |
| Params.GetInstallsDefault | pippi/__init__.py:128-136 | `get` of a missing or None parameter returns the default and installs it. The rest of the namespace and every other attribute are unchanged |
| Params.GetPresentNoWrite | pippi/__init__.py:128-136 | `get` of a present, non-None parameter returns it and writes nothing |
| Params.GetAfterGet | pippi/__init__.py:128-136 | once `get` has installed a non-None default, later `get`s return it whatever default they pass |
| Params.SetThenGet | pippi/__init__.py:105-136 | `set(p, v)` followed by `get(p, d)` returns `v` when `v` is not None |
| Params.GetOnNonDict | pippi/__init__.py:128-130 | `get` on a namespace attribute that is not a dict raises AttributeError |
| Params.ExplicitNamespaceActsAsCurrent | pippi/__init__.py:105-117 | a call with an explicit namespace reads and writes what an unqualified call does on a store whose current namespace is that one, whatever the caller's own current namespace is |
| Params.ParamManager.constructor | pippi/__init__.py:98-100 | a new store targets namespace `global` |
| Params.ParamManager.SetNamespace | pippi/__init__.py:102-103 | `setNamespace` replaces the current namespace and touches no shared state |
| Params.ParamManager.GetAll | pippi/__init__.py:138-147 | `getAll` gives the namespace attribute's value, or the empty dict when there is none |
| Params.ParamManager.Set | pippi/__init__.py:105-113 | `set` leaves the shared object as `Stored` gives it, or unchanged with the TypeError `Stored` reports. On success `getAll` shows the old dict with `param` replaced |
| Params.ParamManager.Get | pippi/__init__.py:128-136 | `get` returns the value and leaves the state that `Fetched` gives, or raises its error and changes nothing |
| Events.ParseCommand | pippi/__init__.py:45-47 | the verb contains no space. A command without a space is all verb with empty arguments; otherwise verb, a space and the arguments give back the command |
| Events.ParseCommandAtFirstSpace | pippi/__init__.py:45-47 | the verb is the text before the first space and the arguments are all the text after it |
| Events.ParseVol | pippi/__init__.py:45-47 | `"vol 10"` parses as verb `vol` with arguments `10` |
| Events.ParseUnknown | pippi/__init__.py:45-47 | `"unknown_cmd foo"` parses as verb `unknown_cmd` with arguments `foo` |
| Events.Dispatch | pippi/__init__.py:44-50 | only calls whose verb has a handler are made, and there are at most as many calls as queued items |
| Events.DispatchAppend | pippi/__init__.py:44-50 | the batch runs front to back: dispatching `a + b` is dispatching `a` and then `b`, unless `a` raised |
| Events.DispatchOne | pippi/__init__.py:45-50 | a single command is called when its verb has a handler, and skipped silently otherwise |
| Events.DispatchAllHandled | pippi/__init__.py:44-50 | when every command is a string with a known verb, each one is called once, in queue order, and nothing is raised |
| Events.DispatchNoneHandled | pippi/__init__.py:44-50 | commands with unknown verbs are all ignored, without an error |
| Events.DispatchStopsAtNonString | pippi/__init__.py:44-45 | a non-string item raises AttributeError. The commands before it have been dispatched, and those after it are lost |
| Events.DispatchExample | pippi/__init__.py:44-50 | the batch `vol 10`, `unknown_cmd foo` calls only `do_vol("10")` |
| Events.DispatchAsWritten | pippi/__init__.py:48 | using the unbound global `console`, no handler is ever called, and every non-empty batch raises |
| Events.GlobalConsoleDropsBatch | pippi/__init__.py:48 | as written, `["vol 10"]` raises NameError with no call made; with the manager's own console it calls `do_vol("10")` |
| Events.EventManager.constructor | pippi/__init__.py:30-32 | a new manager is bound to the shared object and the console |
| Events.EventManager.Cycle | pippi/__init__.py:40-50 | with a queue present, only the queue attribute is removed and the calls are `DispatchQueue` of the drained value; with no queue nothing changes and no call is made |
| Voices.GroupIndex | pippi/__init__.py:271 | the index is Python's remainder: it lies in `0..count-1` and completes the floor division |
| Voices.SelectGroup | pippi/__init__.py:269-271 | no `groups` gives None, and an empty `groups` raises ZeroDivisionError; otherwise the group chosen is one of the groups |
| Voices.SelectGroupPeriodic | pippi/__init__.py:271 | voices whose indices differ by a multiple of the group count share a group |
| Voices.SelectGroupRoundRobin | pippi/__init__.py:271 | among any `len(groups)` consecutive voices, no two get the same group index, so each position of `groups` is used once per lap |
| Voices.SelectGroupFirstLap | pippi/__init__.py:271 | voices `0..len(groups)-1` take the groups in declaration order |
| Voices.SelectGroupNegativeIndex | pippi/__init__.py:271 | voice -1 of three groups gets the last group, because of Python's `%` |

## Left out

- The imports and the probing for audio libraries (lines 1-25) are left out. They are module loading and console output.
- `IOManager.__init__` and `__del__` (lines 150-167) are left out. They create the multiprocessing manager, start the capture process and close audio streams. The shared object itself is modelled by `Shared.Namespace`.
- `capture_midi` is left out except its publish step (lines 184-188). Initialising the device, polling the MIDI hardware, the device bookkeeping, the 50 ms sleep and the MidiException handler are all I/O. The events a read returns are a parameter of `Midi.Publish`.
- `open_alsa_pcm` and `open_pyaudio_pcm` are left out. They open audio devices.
- `play` is left out except its group selection. Importing and reloading the generator, building the MIDI managers, starting and joining the render processes, `os.nice` and audio output are all process management or I/O.
- The `while self.run` loop and the `dsp.delay(4410)` pause of `EventManager.loop` are left out. The model is one pass of the loop body, `Events.EventManager.Cycle`.
- The empty `midi_handler`, `osc_handler` and `cmd_handler` stubs are left out. They do nothing.
- The console's handlers are not run. `Events.EventManager.Cycle` returns the sequence of handler calls it makes, and the console is given by the set of its attribute names.
- Iterating a dict-valued `console_cmds` is not modelled: it would iterate the dict's keys. The model raises TypeError for every value other than a list or a string.
- The throttle branch of `ParamManager.get` (lines 119-126) is left out. It reads the clock, and as written it uses the unbound names `name` and `interval`, so any call with a throttle raises NameError.
- `dsp.rand` is outside this model. Its draw is the `factor` parameter, constrained by `Midi.RandRange` to lie between its two bounds.
- Floats are modelled as exact reals. Binary floating-point rounding in `(int(value) / 127.0) * (high - low) + low` and in `round` is not captured.
- Concurrent access is not modelled. Every process's reads and writes of the shared object are treated as atomic and sequential. Two races are not captured: the read-modify-write in `ParamManager.set` (lines 109-113), where a concurrent `set` to the same namespace is lost, and the drain of `EventManager.loop` (lines 41-42), a read followed by a separate `del`, so a command queued between the two is dropped.
- Values are copied, not shared. The shared object's proxy hands out copies, so only the final `setattr` in `ParamManager.set` makes a change visible. The model keeps that value semantics and does not model aliasing.
- Midi.MidiManager.Get: `default` is any Python object in the source; the model takes an optional real.
- Python.ToInt: `int()` on text accepts only ASCII decimal digits, a sign and the six ASCII whitespace characters (around the number and between the sign and the digits). Unicode digits and `long` suffixes are not modelled.
- Midi.MidiManager.GetRandomized: bounds the product only for a spread of -1 or more. Below -1 the factor can exceed 1 in size and amplify, as `Midi.NegativeSpreadNotClamped` shows, so nothing is promised there.
- Events.Dispatch: the ensures gives the handler property and the length bound. The exact sequence of calls is stated by the lemmas `DispatchAllHandled`, `DispatchNoneHandled`, `DispatchStopsAtNonString` and `DispatchAppend`.

## Findings

| source | as written | input that shows it | evidently intended | confidence | as-written member | corrected member |
|---|---|---|---|---|---|---|
| pippi/__init__.py:48-49 | the handler is looked up on the module-level name `console`, which the module never binds, so the first string command raises NameError and the rest of the drained batch is lost | queue `["vol 10"]` with a console that has `do_vol` | look the handler up on the manager's own console, `self.console`, which the constructor stores | high; not executed | Events.DispatchAsWritten (shown by Events.GlobalConsoleDropsBatch) | Events.Dispatch (used by Events.EventManager.Cycle) |
