/** MIDI control values: the reader that generator code uses
    (`MidiManager`, pippi/__init__.py:61-95) and the step of the capture
    worker that publishes each received event into the shared region
    (pippi/__init__.py:184-188). */
module Midi {
  import opened Python
  import opened Shared

  // ---------------------------------------------------------------------
  // Keys
  // ---------------------------------------------------------------------

  /** The attribute that holds the last value of controller `cc` of a device:
      `'cc%s%s' % (device_id, cc)`, with no separator between the two numbers. */
  function CcKey(deviceId: int, cc: int): (k: string)
    ensures |k| > 2 && k[..2] == "cc"
    ensures forall i :: 2 <= i < |k| ==> NumberChar(k[i])
  {
    var a, b := IntToStr(deviceId), IntToStr(cc);
    IntToStrChars(deviceId);
    IntToStrChars(cc);
    var k := "cc" + a + b;
    assert forall i :: 2 <= i < 2 + |a| ==> k[i] == a[i - 2];
    assert forall i :: 2 + |a| <= i < |k| ==> k[i] == b[i - 2 - |a|];
    k
  }

  /** The characters of an integer's decimal text. */
  predicate NumberChar(c: char) {
    c == '-' || IsDigit(c)
  }

  lemma IntToStrChars(i: int)
    ensures forall j :: 0 <= j < |IntToStr(i)| ==> NumberChar(IntToStr(i)[j])
  {
    var s := IntToStr(i);
    if i < 0 {
      assert forall j :: 1 <= j < |s| ==> s[j] == s[1..][j - 1];
    }
  }

  /** A controller key never names the command queue or the default
      parameter namespace, which share the attribute space with it. */
  lemma CcKeyAvoidsOtherAttributes(deviceId: int, cc: int)
    ensures CcKey(deviceId, cc) != "console_cmds"
    ensures CcKey(deviceId, cc) != "global"
  {
    var k := CcKey(deviceId, cc);
    assert k[1] == 'c';
    assert "console_cmds"[1] == 'o';
    assert "global"[0] == 'g';
  }

  /** For one device, distinct controller numbers have distinct keys. */
  lemma CcKeyInjective(deviceId: int, a: int, b: int)
    requires CcKey(deviceId, a) == CcKey(deviceId, b)
    ensures a == b
  {
    var p := "cc" + IntToStr(deviceId);
    assert CcKey(deviceId, a)[|p|..] == IntToStr(a);
    assert CcKey(deviceId, b)[|p|..] == IntToStr(b);
    IntToStrInjective(a, b);
  }

  /** Across devices keys are not unique: device 1 / controller 23 and
      device 12 / controller 3 share "cc123". */
  lemma CcKeysCollideAcrossDevices()
    ensures CcKey(1, 23) == CcKey(12, 3) == "cc123"
  {
    assert NatToStr(23) == NatToStr(2) + [DigitChar(3)];
    assert NatToStr(12) == NatToStr(1) + [DigitChar(2)];
  }

  // ---------------------------------------------------------------------
  // Rescaling and fallback
  // ---------------------------------------------------------------------

  /** `(raw / 127.0) * (high - low) + low` */
  function Rescale(raw: int, low: real, high: real): real {
    (raw as real / 127.0) * (high - low) + low
  }

  /** The bottom and top of the controller range land on `low` and `high`. */
  lemma RescaleEnds(low: real, high: real)
    ensures Rescale(0, low, high) == low
    ensures Rescale(127, low, high) == high
  {
  }

  /** A controller value in 0..127 lands between `low` and `high`, whichever
      of them is larger. */
  lemma RescaleWithin(raw: int, low: real, high: real)
    requires 0 <= raw <= 127
    ensures low <= high ==> low <= Rescale(raw, low, high) <= high
    ensures high <= low ==> high <= Rescale(raw, low, high) <= low
  {
    var t := raw as real / 127.0;
    var d := high - low;
    assert Rescale(raw, low, high) == t * d + low;
    if low <= high {
      ScaleBetween(t, d);
    } else {
      ScaleBetween(t, -d);
      assert t * d == -(t * (-d));
    }
  }

  /** Scaling by a fraction in [0, 1] stays between zero and the amount. */
  lemma ScaleBetween(t: real, d: real)
    requires 0.0 <= t <= 1.0 && d >= 0.0
    ensures 0.0 <= t * d <= d
  {
    assert (1.0 - t) * d >= 0.0;
  }

  /** With `low < high` a larger controller value never gives a smaller result. */
  lemma RescaleMonotonic(a: int, b: int, low: real, high: real)
    requires a <= b && low <= high
    ensures Rescale(a, low, high) <= Rescale(b, low, high)
  {
    assert (b as real / 127.0 - a as real / 127.0) * (high - low) >= 0.0;
  }

  /** What the reader answers when the lookup or the conversion fails:
      `default` unless it is None, in which case `low`. */
  function Fallback(default: Option<real>, low: real): real {
    if default.Some? then default.value else low
  }

  /** `MidiManager.get` on a snapshot of the shared region, once the key is
      chosen: the controller's raw value converted with `int()` and rescaled,
      or the fallback when the attribute is missing or will not convert. */
  function ReadScaled(attrs: map<string, Value>, key: string, default: Option<real>,
                      low: real, high: real): (r: real)
  {
    match GetAttr(attrs, key)
    case Some(v) => if ToInt(v).Some? then Rescale(ToInt(v).value, low, high) else Fallback(default, low)
    case None => Fallback(default, low)
  }

  /** The reader falls back exactly when the attribute is missing or not
      convertible; an explicit default, 0 included, wins over `low`. */
  lemma ReadScaledFallback(attrs: map<string, Value>, key: string, default: Option<real>,
                           low: real, high: real)
    requires key !in attrs || ToInt(attrs[key]).None?
    ensures default.Some? ==> ReadScaled(attrs, key, default, low, high) == default.value
    ensures default.None? ==> ReadScaled(attrs, key, default, low, high) == low
  {
  }

  /** A controller value published as an int is read back rescaled, and lands
      between `low` and `high` when it is a proper 7-bit value. */
  lemma ReadScaledPresent(attrs: map<string, Value>, key: string, raw: int,
                          default: Option<real>, low: real, high: real)
    requires key in attrs && attrs[key] == Int(raw)
    ensures ReadScaled(attrs, key, default, low, high) == Rescale(raw, low, high)
    ensures 0 <= raw <= 127 && low <= high ==>
              low <= ReadScaled(attrs, key, default, low, high) <= high
  {
    if 0 <= raw <= 127 {
      RescaleWithin(raw, low, high);
    }
  }

  /** A controller value stored as text that `int()` accepts is read like the
      number itself. */
  lemma ReadScaledText(attrs: map<string, Value>, key: string, raw: int,
                       default: Option<real>, low: real, high: real)
    requires key in attrs && attrs[key] == Str(IntToStr(raw))
    ensures ReadScaled(attrs, key, default, low, high) == Rescale(raw, low, high)
  {
    ParseIntOfIntToStr(raw);
  }

  // ---------------------------------------------------------------------
  // Randomised reads
  // ---------------------------------------------------------------------

  /** `spread = 1 if spread > 1 else spread`: a ceiling of 1 and nothing else. */
  function SpreadCeiling(spread: real): (s: real)
    ensures s <= 1.0
    ensures spread <= 1.0 ==> s == spread
    ensures spread > 1.0 ==> s == 1.0
  {
    if spread > 1.0 then 1.0 else spread
  }

  /** The values `dsp.rand(a, b)` can return: a number between its two bounds,
      in either order. */
  predicate RandRange(x: real, a: real, b: real) {
    (a <= x <= b) || (b <= x <= a)
  }

  /** Every spread above 1 allows exactly the factors that spread 1 allows. */
  lemma SpreadAboveOneIsOne(spread: real, factor: real)
    requires spread >= 1.0
    ensures RandRange(factor, 0.0, SpreadCeiling(spread)) <==> RandRange(factor, 0.0, 1.0)
  {
  }

  /** The factors `dsp.rand(0, SpreadCeiling(spread))` can draw: within
      [0, 1] for a spread of at least 0, within [-1, 1] down to a spread of -1. */
  lemma FactorBounds(spread: real, factor: real)
    requires RandRange(factor, 0.0, SpreadCeiling(spread))
    ensures spread >= 0.0 ==> 0.0 <= factor <= 1.0
    ensures spread >= -1.0 ==> -1.0 <= factor <= 1.0
  {
  }

  /** `getr`'s product, for a value `get` returned and a factor `dsp.rand`
      drew: for a spread of at least 0 it lies between 0 and the value;
      down to a spread of -1 its size is at most the value's, so randomising
      never amplifies. */
  function Randomize(value: real, spread: real, factor: real): (r: real)
    requires RandRange(factor, 0.0, SpreadCeiling(spread))
    ensures spread >= 0.0 && value >= 0.0 ==> 0.0 <= r <= value
    ensures spread >= 0.0 && value <= 0.0 ==> value <= r <= 0.0
    ensures spread >= -1.0 && value >= 0.0 ==> -value <= r <= value
    ensures spread >= -1.0 && value <= 0.0 ==> value <= r <= -value
  {
    var r := factor * value;
    if spread >= -1.0 then
      FactorBounds(spread, factor);
      ScaleWithin(factor, value);
      r
    else r
  }

  /** Scaling by a factor of size at most 1 never moves a value away from
      zero, and a factor in [0, 1] keeps its sign. */
  lemma ScaleWithin(t: real, v: real)
    requires -1.0 <= t <= 1.0
    ensures v >= 0.0 ==> -v <= t * v <= v
    ensures v <= 0.0 ==> v <= t * v <= -v
    ensures t >= 0.0 && v >= 0.0 ==> 0.0 <= t * v <= v
    ensures t >= 0.0 && v <= 0.0 ==> v <= t * v <= 0.0
  {
    if t >= 0.0 {
      if v >= 0.0 {
        ScaleBetween(t, v);
      } else {
        ScaleBetween(t, -v);
        assert t * (-v) == -(t * v);
      }
    } else {
      if v >= 0.0 {
        ScaleBetween(-t, v);
        assert (-t) * v == -(t * v);
      } else {
        ScaleBetween(-t, -v);
        assert (-t) * (-v) == t * v;
      }
    }
  }

  /** A spread below -1 is not clamped: the factor may then exceed 1 in size. */
  lemma NegativeSpreadNotClamped()
    ensures SpreadCeiling(-5.0) == -5.0 && RandRange(-5.0, 0.0, SpreadCeiling(-5.0))
  {
  }

  // ---------------------------------------------------------------------
  // The reader
  // ---------------------------------------------------------------------

  /** One MIDI device's controller reader, bound to a device id and the
      shared region, with an optional offset added to every controller number. */
  class MidiManager {
    const deviceId: int
    const ns: Namespace
    var offset: Option<int>

    constructor (deviceId: int, ns: Namespace)
      ensures this.deviceId == deviceId && this.ns == ns && offset == None
    {
      this.deviceId := deviceId;
      this.ns := ns;
      offset := None;
    }

    /** `setOffset`: the new offset replaces the old one, None included. */
    method SetOffset(offset: Option<int>)
      modifies this
      ensures this.offset == offset
    {
      this.offset := offset;
    }

    /** The controller number actually looked up for `cc`. */
    function Controller(cc: int): (c: int)
      reads this
      ensures offset.None? ==> c == cc
      ensures offset.Some? ==> c - cc == offset.value
    {
      if offset.Some? then cc + offset.value else cc
    }

    /** `get(cc, default, low, high)`: the value of controller `cc` (shifted
        by the offset) of this device, rescaled from 0..127 into low..high,
        or the fallback. */
    function Get(cc: int, default: Option<real>, low: real, high: real): (r: real)
      reads this, ns
      ensures offset.None? ==> r == ReadScaled(ns.attrs, CcKey(deviceId, cc), default, low, high)
      ensures offset.Some? ==> r == ReadScaled(ns.attrs, CcKey(deviceId, cc + offset.value), default, low, high)
    {
      ReadScaled(ns.attrs, CcKey(deviceId, Controller(cc)), default, low, high)
    }

    /** `geti`: `get` rounded half away from zero, so at most 0.5 from it. */
    function GetInt(cc: int, default: Option<real>, low: real, high: real): (r: int)
      reads this, ns
      ensures -0.5 <= r as real - Get(cc, default, low, high) <= 0.5
    {
      Round(Get(cc, default, low, high))
    }

    /** `getr`: `get` times the random factor, which `dsp.rand(0, spread)`
        draws after the spread is capped at 1; the factor is a parameter here. */
    function GetRandomized(cc: int, default: Option<real>, low: real, high: real,
                           spread: real, factor: real): (r: real)
      reads this, ns
      requires RandRange(factor, 0.0, SpreadCeiling(spread))
      ensures spread >= 0.0 && Get(cc, default, low, high) >= 0.0 ==>
                0.0 <= r <= Get(cc, default, low, high)
      ensures spread >= 0.0 && Get(cc, default, low, high) <= 0.0 ==>
                Get(cc, default, low, high) <= r <= 0.0
      ensures spread >= -1.0 && Get(cc, default, low, high) >= 0.0 ==>
                -Get(cc, default, low, high) <= r <= Get(cc, default, low, high)
      ensures spread >= -1.0 && Get(cc, default, low, high) <= 0.0 ==>
                Get(cc, default, low, high) <= r <= -Get(cc, default, low, high)
    {
      Randomize(Get(cc, default, low, high), spread, factor)
    }

    /** `getri`: `getr` rounded half away from zero. */
    function GetRandomizedInt(cc: int, default: Option<real>, low: real, high: real,
                              spread: real, factor: real): (r: int)
      reads this, ns
      requires RandRange(factor, 0.0, SpreadCeiling(spread))
      ensures -0.5 <= r as real - GetRandomized(cc, default, low, high, spread, factor) <= 0.5
    {
      Round(GetRandomized(cc, default, low, high, spread, factor))
    }
  }

  // ---------------------------------------------------------------------
  // Publishing captured events
  // ---------------------------------------------------------------------

  /** An event as the MIDI input returns it: `[[status, data1, data2, data3], timestamp]`.
      The capture worker publishes `data1` as the controller number and
      `data2` as its value, whatever the status byte says. */
  datatype MidiEvent = MidiEvent(status: int, data1: int, data2: int, data3: int, timestamp: int)

  /** The attribute writes publishing `events` makes, in order: one per
      event, under the event's controller key, with its value byte. */
  function Writes(deviceId: int, events: seq<MidiEvent>): (w: seq<(string, Value)>)
    ensures |w| == |events|
    ensures forall k :: 0 <= k < |events| ==> w[k] == (EventKey(deviceId, events[k]), Int(events[k].data2))
    decreases |events|
  {
    if events == [] then []
    else
      var n := |events| - 1;
      var prefix := events[..n];
      var w := Writes(deviceId, prefix) + [(EventKey(deviceId, events[n]), Int(events[n].data2))];
      assert forall k :: 0 <= k < n ==> prefix[k] == events[k];
      w
  }

  /** The shared region after a sequence of `setattr` calls, in order. */
  function ApplyAll(attrs: map<string, Value>, writes: seq<(string, Value)>): map<string, Value>
    decreases |writes|
  {
    if writes == [] then attrs
    else
      var w := writes[|writes| - 1];
      ApplyAll(attrs, writes[..|writes| - 1])[w.0 := w.1]
  }

  /** After a sequence of writes, a key holds the value of the last write to it. */
  lemma {:induction false} ApplyLastWins(attrs: map<string, Value>, writes: seq<(string, Value)>, j: int)
    requires 0 <= j < |writes|
    requires forall k :: j < k < |writes| ==> writes[k].0 != writes[j].0
    ensures writes[j].0 in ApplyAll(attrs, writes)
    ensures ApplyAll(attrs, writes)[writes[j].0] == writes[j].1
    decreases |writes|
  {
    var n := |writes| - 1;
    if j < n {
      var prefix := writes[..n];
      assert prefix[j] == writes[j];
      assert forall k :: j < k < |prefix| ==> prefix[k] == writes[k];
      ApplyLastWins(attrs, prefix, j);
    }
  }

  /** A key no write names keeps its old value, or stays absent. */
  lemma {:induction false} ApplyOthersUnchanged(attrs: map<string, Value>, writes: seq<(string, Value)>,
                                                key: string)
    requires forall k :: 0 <= k < |writes| ==> writes[k].0 != key
    ensures key in ApplyAll(attrs, writes) <==> key in attrs
    ensures key in attrs ==> ApplyAll(attrs, writes)[key] == attrs[key]
    decreases |writes|
  {
    if writes != [] {
      var prefix := writes[..|writes| - 1];
      assert forall k :: 0 <= k < |prefix| ==> prefix[k] == writes[k];
      ApplyOthersUnchanged(attrs, prefix, key);
    }
  }

  /** The shared region after publishing `events` of one device in order. */
  function PublishAll(attrs: map<string, Value>, deviceId: int, events: seq<MidiEvent>): map<string, Value> {
    ApplyAll(attrs, Writes(deviceId, events))
  }

  /** The loop of pippi/__init__.py:184-188: one `setattr` per event, in order. */
  method Publish(ns: Namespace, deviceId: int, events: seq<MidiEvent>)
    modifies ns
    ensures ns.attrs == PublishAll(old(ns.attrs), deviceId, events)
  {
    var i := 0;
    while i < |events|
      invariant 0 <= i <= |events|
      invariant ns.attrs == PublishAll(old(ns.attrs), deviceId, events[..i])
    {
      var e := events[i];
      assert events[..i + 1][..i] == events[..i];
      ns.SetAttr(EventKey(deviceId, e), Int(e.data2));
      i := i + 1;
    }
    assert events[..i] == events;
  }

  /** The key event `e` of a device is published under. */
  function EventKey(deviceId: int, e: MidiEvent): string {
    CcKey(deviceId, e.data1)
  }

  /** Last write wins, by key: after publishing, a key holds the value of the
      last event published under it. */
  lemma PublishLastKeyWins(attrs: map<string, Value>, deviceId: int, events: seq<MidiEvent>, j: int)
    requires 0 <= j < |events|
    requires forall k :: j < k < |events| ==> EventKey(deviceId, events[k]) != EventKey(deviceId, events[j])
    ensures EventKey(deviceId, events[j]) in PublishAll(attrs, deviceId, events)
    ensures PublishAll(attrs, deviceId, events)[EventKey(deviceId, events[j])] == Int(events[j].data2)
  {
    ApplyLastWins(attrs, Writes(deviceId, events), j);
  }

  /** Last write wins, by controller: a controller holds the value of the
      last event of this device that named it. */
  lemma PublishLastWriteWins(attrs: map<string, Value>, deviceId: int,
                             events: seq<MidiEvent>, j: int)
    requires 0 <= j < |events|
    requires forall k :: j < k < |events| ==> events[k].data1 != events[j].data1
    ensures CcKey(deviceId, events[j].data1) in PublishAll(attrs, deviceId, events)
    ensures PublishAll(attrs, deviceId, events)[CcKey(deviceId, events[j].data1)] == Int(events[j].data2)
  {
    forall k | j < k < |events|
      ensures EventKey(deviceId, events[k]) != EventKey(deviceId, events[j])
    {
      if EventKey(deviceId, events[k]) == EventKey(deviceId, events[j]) {
        CcKeyInjective(deviceId, events[k].data1, events[j].data1);
      }
    }
    PublishLastKeyWins(attrs, deviceId, events, j);
  }

  /** Keys that no event names keep their old value, or stay absent. */
  lemma PublishOtherKeysUnchanged(attrs: map<string, Value>, deviceId: int,
                                  events: seq<MidiEvent>, key: string)
    requires forall k :: 0 <= k < |events| ==> EventKey(deviceId, events[k]) != key
    ensures key in PublishAll(attrs, deviceId, events) <==> key in attrs
    ensures key in attrs ==> PublishAll(attrs, deviceId, events)[key] == attrs[key]
  {
    ApplyOthersUnchanged(attrs, Writes(deviceId, events), key);
  }

  /** End to end: a reader of the same device, with no offset, reads the
      rescaled value of the last event published for its controller. */
  lemma PublishedValueIsRead(attrs: map<string, Value>, deviceId: int, events: seq<MidiEvent>,
                             j: int, default: Option<real>, low: real, high: real)
    requires 0 <= j < |events|
    requires forall k :: j < k < |events| ==> events[k].data1 != events[j].data1
    ensures ReadScaled(PublishAll(attrs, deviceId, events), CcKey(deviceId, events[j].data1),
                       default, low, high)
            == Rescale(events[j].data2, low, high)
  {
    PublishLastWriteWins(attrs, deviceId, events, j);
  }
}
