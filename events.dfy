/** The command event loop (`EventManager`, pippi/__init__.py:29-50): one
    cycle drains the console's queued command strings from the shared region
    and calls the console's `do_<verb>` handler for each command whose verb
    it knows. */
module Events {
  import opened Python
  import opened Shared

  /** The attribute the console queues command strings under. */
  const QueueKey: string := "console_cmds"

  /** One call of a console handler: `do_<verb>(args)`. */
  datatype Call = Call(verb: string, args: string)

  /** The handler calls a cycle makes, in order, and the exception that ended
      it early, if any. */
  datatype Trace = Trace(calls: seq<Call>, error: Option<PyError>)

  /** Lines 45-47: split at every space, take the first piece as the verb and
      join the others back with spaces. The result is the text before the
      first space and the text after it (or the whole command and ""). */
  function ParseCommand(cmd: string): (c: Call)
    ensures ' ' !in c.verb
    ensures ' ' !in cmd ==> c == Call(cmd, "")
    ensures ' ' in cmd ==> c.verb + " " + c.args == cmd
  {
    var parts := Split(cmd, ' ');
    var c := Call(parts[0], Join(parts[1..], ' '));
    if ' ' in cmd then
      var k := FirstSpace(cmd);
      SplitAtFirst(cmd, ' ', k);
      JoinSplit(cmd[k + 1..], ' ');
      assert parts[1..] == Split(cmd[k + 1..], ' ');
      assert cmd[..k] + " " + cmd[k + 1..] == cmd;
      c
    else
      SplitWithoutSeparator(cmd, ' ');
      c
  }

  /** The position of the first space of a string that has one. */
  function FirstSpace(s: string): (k: nat)
    requires ' ' in s
    ensures k < |s| && s[k] == ' ' && ' ' !in s[..k]
  {
    if s[0] == ' ' then 0
    else
      var k := FirstSpace(s[1..]) + 1;
      assert s[..k] == [s[0]] + s[1..][..k - 1];
      k
  }

  /** The verb and the arguments are cut at the first space: the verb is all
      the text before it and the arguments all the text after it. */
  lemma ParseCommandAtFirstSpace(cmd: string, k: nat)
    requires k < |cmd| && cmd[k] == ' ' && ' ' !in cmd[..k]
    ensures ParseCommand(cmd) == Call(cmd[..k], cmd[k + 1..])
  {
    var c := ParseCommand(cmd);
    var j := |c.verb|;
    assert cmd[j] == ' ' && cmd[..j] == c.verb;
    assert cmd[k + 1..] == c.args;
  }

  /** `hasattr(console, 'do_%s' % verb)`, the console being given by the set
      of its attribute names. */
  predicate HasHandler(console: set<string>, verb: string) {
    "do_" + verb in console
  }

  /** The handler calls for a batch of queued items, in queue order; an item
      that is not a string has no `split`, so AttributeError ends the batch. */
  function Dispatch(items: seq<Value>, console: set<string>): (t: Trace)
    ensures forall i :: 0 <= i < |t.calls| ==> HasHandler(console, t.calls[i].verb)
    ensures |t.calls| <= |items|
    decreases |items|
  {
    if items == [] then Trace([], None)
    else
      match items[0]
      case Str(cmd) =>
        var c := ParseCommand(cmd);
        var rest := Dispatch(items[1..], console);
        if HasHandler(console, c.verb) then Trace([c] + rest.calls, rest.error) else rest
      case _ => Trace([], Some(AttributeError))
  }

  /** `for cmd in cmds`: a list yields its items and a string its characters;
      other values are not iterable. */
  function Iterate(v: Value): (r: Result<seq<Value>>)
    ensures v.List? ==> r == Ok(v.items)
    ensures v.Str? ==> r.Ok? && |r.value| == |v.s|
                       && forall i :: 0 <= i < |v.s| ==> r.value[i] == Str([v.s[i]])
  {
    match v
    case List(items) => Ok(items)
    case Str(s) => Ok(seq(|s|, i requires 0 <= i < |s| => Str([s[i]])))
    case _ => Raised(TypeError)
  }

  /** The handler calls for a drained queue value. */
  function DispatchQueue(v: Value, console: set<string>): Trace {
    match Iterate(v)
    case Ok(items) => Dispatch(items, console)
    case Raised(e) => Trace([], Some(e))
  }

  // ---------------------------------------------------------------------
  // Properties of dispatch
  // ---------------------------------------------------------------------

  /** Dispatch runs the batch front to back: dispatching two batches one after
      the other is dispatching their concatenation, unless the first one
      raised. */
  lemma {:induction false} DispatchAppend(a: seq<Value>, b: seq<Value>, console: set<string>)
    ensures Dispatch(a + b, console) ==
            if Dispatch(a, console).error.Some? then Dispatch(a, console)
            else Trace(Dispatch(a, console).calls + Dispatch(b, console).calls, Dispatch(b, console).error)
    decreases |a|
  {
    if a == [] {
      assert a + b == b;
    } else {
      assert (a + b)[0] == a[0];
      assert (a + b)[1..] == a[1..] + b;
      DispatchAppend(a[1..], b, console);
      if a[0].Str? {
        var c := ParseCommand(a[0].s);
        var ra := Dispatch(a[1..], console);
        var rb := Dispatch(b, console);
        if HasHandler(console, c.verb) && ra.error.None? {
          assert [c] + (ra.calls + rb.calls) == ([c] + ra.calls) + rb.calls;
        }
      }
    }
  }

  /** A single command: called when its verb has a handler, silently skipped
      otherwise. */
  lemma DispatchOne(cmd: string, console: set<string>)
    ensures Dispatch([Str(cmd)], console) ==
            if HasHandler(console, ParseCommand(cmd).verb) then Trace([ParseCommand(cmd)], None)
            else Trace([], None)
  {
    assert [Str(cmd)][1..] == [];
  }

  /** A batch of strings whose verbs all have handlers raises nothing and
      calls every command once, in queue order. */
  lemma {:induction false} DispatchAllHandled(items: seq<Value>, console: set<string>)
    requires forall i :: 0 <= i < |items| ==>
               items[i].Str? && HasHandler(console, ParseCommand(items[i].s).verb)
    ensures Dispatch(items, console).error == None
    ensures |Dispatch(items, console).calls| == |items|
    ensures forall i :: 0 <= i < |items| ==> Dispatch(items, console).calls[i] == ParseCommand(items[i].s)
    decreases |items|
  {
    if items != [] {
      var tail := items[1..];
      assert forall i :: 0 <= i < |tail| ==> tail[i] == items[i + 1];
      DispatchAllHandled(tail, console);
      var rest := Dispatch(tail, console);
      var t := Dispatch(items, console);
      assert t.calls == [ParseCommand(items[0].s)] + rest.calls;
      forall i | 0 < i < |items|
        ensures t.calls[i] == ParseCommand(items[i].s)
      {
        assert t.calls[i] == rest.calls[i - 1];
        assert tail[i - 1] == items[i];
      }
    }
  }

  /** A batch of strings none of whose verbs has a handler calls nothing and
      raises nothing. */
  lemma {:induction false} DispatchNoneHandled(items: seq<Value>, console: set<string>)
    requires forall i :: 0 <= i < |items| ==>
               items[i].Str? && !HasHandler(console, ParseCommand(items[i].s).verb)
    ensures Dispatch(items, console) == Trace([], None)
    decreases |items|
  {
    if items != [] {
      var tail := items[1..];
      assert forall i :: 0 <= i < |tail| ==> tail[i] == items[i + 1];
      DispatchNoneHandled(tail, console);
    }
  }

  /** An item that is not a string stops the batch there with AttributeError:
      the commands before it have been dispatched, those after it are lost. */
  lemma {:induction false} DispatchStopsAtNonString(items: seq<Value>, j: nat, console: set<string>)
    requires j < |items| && !items[j].Str?
    requires forall i :: 0 <= i < j ==> items[i].Str?
    ensures Dispatch(items, console) == Trace(Dispatch(items[..j], console).calls, Some(AttributeError))
    decreases j
  {
    if j == 0 {
      assert items[..0] == [];
    } else {
      assert items[1..][j - 1] == items[j];
      DispatchStopsAtNonString(items[1..], j - 1, console);
      assert items[1..][..j - 1] == items[..j][1..];
      assert items[..j][0] == items[0];
    }
  }

  /** The example batch: only `vol` has a handler, so only `do_vol("10")` is
      called and the unknown verb is ignored. */
  lemma DispatchExample(vol: string, unknown: string)
    requires vol == "vol 10" && unknown == "unknown_cmd foo"
    ensures Dispatch([Str(vol), Str(unknown)], {"do_vol"}) == Trace([Call("vol", "10")], None)
  {
    var console := {"do_vol"};
    ParseVol();
    ParseUnknown(unknown);
    assert HasHandler(console, "vol") by {
      assert "do_" + "vol" == "do_vol";
    }
    assert !HasHandler(console, "unknown_cmd") by {
      assert ("do_" + "unknown_cmd")[3] == 'u';
    }
    DispatchOne(vol, console);
    DispatchOne(unknown, console);
    DispatchAppend([Str(vol)], [Str(unknown)], console);
    assert [Str(vol)] + [Str(unknown)] == [Str(vol), Str(unknown)];
  }

  /** `"unknown_cmd foo"` parses as verb `unknown_cmd` with argument `foo`. */
  lemma ParseUnknown(cmd: string)
    requires cmd == "unknown_cmd foo"
    ensures ParseCommand(cmd) == Call("unknown_cmd", "foo")
  {
    ParseCommandAtFirstSpace(cmd, 11);
    assert cmd[..11] == "unknown_cmd" && cmd[12..] == "foo";
  }

  /** `"vol 10"` parses as verb `vol` with argument `10`. */
  lemma ParseVol()
    ensures ParseCommand("vol 10") == Call("vol", "10")
  {
    var cmd := "vol 10";
    ParseCommandAtFirstSpace(cmd, 3);
    assert cmd[..3] == "vol" && cmd[4..] == "10";
  }

  // ---------------------------------------------------------------------
  // The dispatch as written
  // ---------------------------------------------------------------------

  /** Lines 44-50 as written: line 48 looks up the module-level name
      `console`, which this module never binds, so the first string command
      raises NameError before any handler runs. */
  function DispatchAsWritten(items: seq<Value>): (t: Trace)
    ensures t.calls == []
    ensures items != [] <==> t.error.Some?
  {
    if items == [] then Trace([], None)
    else if items[0].Str? then Trace([], Some(NameError))
    else Trace([], Some(AttributeError))
  }

  /** As written, a batch whose first command names a known handler calls no
      handler and is lost; with the store's own console it is dispatched. */
  lemma GlobalConsoleDropsBatch()
    ensures DispatchAsWritten([Str("vol 10")]) == Trace([], Some(NameError))
    ensures Dispatch([Str("vol 10")], {"do_vol"}) == Trace([Call("vol", "10")], None)
  {
    ParseVol();
    assert "do_" + "vol" == "do_vol";
    DispatchOne("vol 10", {"do_vol"});
  }

  // ---------------------------------------------------------------------
  // The event manager
  // ---------------------------------------------------------------------

  class EventManager {
    const ns: Namespace
    /** The attribute names of the console object this manager dispatches to. */
    const console: set<string>

    constructor (ns: Namespace, console: set<string>)
      ensures this.ns == ns && this.console == console
    {
      this.ns := ns;
      this.console := console;
    }

    /** One pass of the body of `loop` (lines 40-50), dispatching to this
        manager's console. With a queue present, the queue attribute is
        removed (and only it) before anything is dispatched, and the calls
        made are those `DispatchQueue` gives for the drained value; with no
        queue nothing happens. The handlers themselves are the console's and
        are not run here: the returned trace is the sequence of calls. */
    method Cycle() returns (t: Trace)
      modifies ns
      ensures QueueKey in old(ns.attrs) ==>
                ns.attrs == old(ns.attrs) - {QueueKey} && t == DispatchQueue(old(ns.attrs[QueueKey]), console)
      ensures QueueKey !in old(ns.attrs) ==> ns.attrs == old(ns.attrs) && t == Trace([], None)
    {
      t := Trace([], None);
      if !ns.Has(QueueKey) {
        return;
      }
      var cmds := GetAttr(ns.attrs, QueueKey).value;
      var _ := ns.DelAttr(QueueKey);
      var iterated := Iterate(cmds);
      if iterated.Raised? {
        t := Trace([], Some(iterated.error));
        return;
      }
      var items := iterated.value;
      var calls: seq<Call> := [];
      var i := 0;
      while i < |items|
        invariant 0 <= i <= |items|
        invariant forall k :: 0 <= k < i ==> items[k].Str?
        invariant Dispatch(items, console) ==
                  Trace(calls + Dispatch(items[i..], console).calls, Dispatch(items[i..], console).error)
      {
        if !items[i].Str? {
          DispatchStopsAtNonString(items, i, console);
          assert items[i..][0] == items[i];
          t := Trace(calls, Some(AttributeError));
          return;
        }
        var c := ParseCommand(items[i].s);
        assert items[i..][0] == items[i] && items[i..][1..] == items[i + 1..];
        if HasHandler(console, c.verb) {
          calls := calls + [c];
        }
        i := i + 1;
      }
      t := Trace(calls, None);
    }
  }

  /** A client run of one cycle on the example queue. */
  method CycleScenario() {
    var ns := new Namespace();
    ns.SetAttr(QueueKey, List([Str("vol 10"), Str("unknown_cmd foo")]));
    var events := new EventManager(ns, {"do_vol"});
    var t := events.Cycle();
    DispatchExample("vol 10", "unknown_cmd foo");
    assert t == Trace([Call("vol", "10")], None);
    assert QueueKey !in ns.attrs;
    t := events.Cycle();
    assert t == Trace([], None);
  }
}
