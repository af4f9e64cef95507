// Normalising a connector's telemetry to entries with a timestamp.
module TelemetryNormaliser {
  import opened Options
  import opened PyDict
  import opened Platform

  // An item of a connector's telemetry: plain values, values with an integer
  // timestamp, or values whose timestamp is not an integer, `clock` being the time
  // read when such an item is met.
  datatype RawItem = Untimed(values: Object) | Timed(ts: int, values: Object) | BadTs(clock: int, values: Object)

  datatype Telemetry = List(entries: seq<Entry>) | Single(entry: Entry) {
    function Entries(): seq<Entry> {
      if List? then entries else [entry]
    }
  }

  function Merged(items: seq<RawItem>): Object {
    if items == [] then []
    else
      var init := Merged(items[..|items| - 1]);
      var item := items[|items| - 1];
      if item.Untimed? then Update(init, item.values) else init
  }

  function WithTs(items: seq<RawItem>): seq<Entry> {
    if items == [] then []
    else
      var init := WithTs(items[..|items| - 1]);
      match items[|items| - 1]
      case Untimed(_) => init
      case Timed(ts, values) => init + [Entry(ts, values)]
      case BadTs(clock, values) => init + [Entry(clock, values)]
  }

  function Normalised(items: seq<RawItem>, now: int): Telemetry {
    if WithTs(items) != [] then List(WithTs(items))
    else if |items| > 0 then Single(Entry(now, Merged(items)))
    else List([])
  }

  method ConvertTelemetryToTs(items: seq<RawItem>, now: int) returns (r: Telemetry)
    ensures r == Normalised(items, now)
  {
    var telemetry: Object := [];
    var telemetryWithTs: seq<Entry> := [];
    for i := 0 to |items|
      invariant telemetry == Merged(items[..i])
      invariant telemetryWithTs == WithTs(items[..i])
    {
      assert items[..i + 1][..i] == items[..i];
      match items[i] {
        case Untimed(values) => telemetry := Update(telemetry, values);
        case Timed(ts, values) => telemetryWithTs := telemetryWithTs + [Entry(ts, values)];
        case BadTs(clock, values) => telemetryWithTs := telemetryWithTs + [Entry(clock, values)];
      }
    }
    assert items[..|items|] == items;
    if telemetryWithTs != [] {
      r := List(telemetryWithTs);
    } else if |items| > 0 {
      r := Single(Entry(now, telemetry));
    } else {
      r := List([]);
    }
  }

  // What the connector asked for: every item written, under its own timestamp or
  // under the time of the conversion.
  function Stamp(item: RawItem, now: int): Entry {
    match item
    case Untimed(values) => Entry(now, values)
    case Timed(ts, values) => Entry(ts, values)
    case BadTs(clock, values) => Entry(clock, values)
  }

  function Stamped(items: seq<RawItem>, now: int): seq<Entry> {
    if items == [] then [] else Stamped(items[..|items| - 1], now) + [Stamp(items[|items| - 1], now)]
  }

  predicate HasTs(items: seq<RawItem>) { exists i | i in items :: !i.Untimed? }

  // Items with a timestamp come together with a valued item without one.
  predicate Mixed(items: seq<RawItem>) {
    HasTs(items) && exists i | i in items :: i.Untimed? && i.values != []
  }

  lemma SnocItems(items: seq<RawItem>)
    requires items != []
    ensures items == items[..|items| - 1] + [items[|items| - 1]]
  {}

  lemma {:induction false} WithTsEmpty(items: seq<RawItem>)
    ensures WithTs(items) == [] <==> !HasTs(items)
  {
    if items != [] {
      WithTsEmpty(items[..|items| - 1]);
      SnocItems(items);
    }
  }

  lemma {:induction false} UntimedMeaning(items: seq<RawItem>, now: int, i: Item)
    requires !HasTs(items)
    ensures EntryAt(Entry(now, Merged(items)), i) == TelemetryAt(Stamped(items, now), i)
  {
    if items != [] {
      var init, item := items[..|items| - 1], items[|items| - 1];
      SnocItems(items);
      UntimedMeaning(init, now, i);
      if i.Point? { UpdateGet(Merged(init), item.values, i.key); }
    }
  }

  lemma {:induction false} TimedMeaning(items: seq<RawItem>, now: int, i: Item)
    requires forall r | r in items && r.Untimed? :: r.values == []
    ensures TelemetryAt(WithTs(items), i) == TelemetryAt(Stamped(items, now), i)
  {
    if items != [] {
      SnocItems(items);
      TimedMeaning(items[..|items| - 1], now, i);
    }
  }

  lemma {:induction false} FreshTime(items: seq<RawItem>) returns (now: int)
    ensures forall e | e in WithTs(items) :: e.ts < now
  {
    now := 0;
    if items != [] {
      now := FreshTime(items[..|items| - 1]);
      var e := Stamp(items[|items| - 1], 0);
      now := if now > e.ts then now else e.ts + 1;
    }
  }

  lemma {:induction false} StampedHolds(items: seq<RawItem>, now: int, item: RawItem, k: Key)
    requires item in items && k in Keys(item.values)
    ensures TelemetryAt(Stamped(items, now), Point(Stamp(item, now).ts, k)).Some?
  {
    SnocItems(items);
    if item in items[..|items| - 1] {
      StampedHolds(items[..|items| - 1], now, item, k);
    }
  }

  lemma MixedLoses(items: seq<RawItem>) returns (now: int, i: Item)
    requires Mixed(items)
    ensures TelemetryAt(Normalised(items, now).Entries(), i) == None
    ensures TelemetryAt(Stamped(items, now), i).Some?
  {
    WithTsEmpty(items);
    var item :| item in items && item.Untimed? && item.values != [];
    now := FreshTime(items);
    i := Point(now, item.values[0].0);
    assert Keys(item.values)[0] == i.key;
    StampedHolds(items, now, item, i.key);
    TelemetryAtOtherTime(WithTs(items), i);
  }

  lemma UnmixedKeeps(items: seq<RawItem>, now: int, i: Item)
    requires !Mixed(items)
    ensures TelemetryAt(Normalised(items, now).Entries(), i) == TelemetryAt(Stamped(items, now), i)
  {
    WithTsEmpty(items);
    if HasTs(items) {
      TimedMeaning(items, now, i);
    } else {
      UntimedMeaning(items, now, i);
    }
  }

  // Normalisation keeps every value whatever the time is, unless timed items are
  // mixed with an untimed item that holds a value.
  lemma NormalisingLosesExactlyMixed(items: seq<RawItem>)
    ensures (forall now: int, i ::
              TelemetryAt(Normalised(items, now).Entries(), i) == TelemetryAt(Stamped(items, now), i))
       <==> !Mixed(items)
  {
    if Mixed(items) {
      var now, i := MixedLoses(items);
    } else {
      forall now: int, i
        ensures TelemetryAt(Normalised(items, now).Entries(), i) == TelemetryAt(Stamped(items, now), i)
      {
        UnmixedKeeps(items, now, i);
      }
    }
  }
}
