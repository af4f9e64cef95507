// What the gateway sends and what the platform keeps: a last-writer-wins store of
// attributes (device, key) and of telemetry points (device, ts, key). The value a
// sequence of writes leaves in one place is read off the last write to that place.
module Platform {
  import opened Options
  import opened PyDict

  type Name = string
  type Key = string  // a key as its JSON string literal
  type Json = string // a value as its compact JSON text

  // A JSON object; should a key be written twice, the last member is its value.
  type Object = Dict<Key, Json>

  datatype Entry = Entry(ts: int, values: Object)

  // One record of the event storage.
  datatype Pack = Pack(device: Name, attributes: seq<Object>, telemetry: seq<Entry>)

  // A stored text: not JSON, JSON without a device name, a record, or a record with a part
  // at which the grouping raises, of which `pack` is what comes before it.
  datatype StoredEvent = Corrupt | Nameless | Faulty(pack: Pack) | Event(pack: Pack) {
    predicate Named() { Faulty? || Event? }

    // The grouping raises at it.
    predicate Halts() { Nameless? || Faulty? }
  }

  // A place a device can be written at.
  datatype Item = Attribute(key: Key) | Point(ts: int, key: Key)

  function MergeAll(o: Object, others: seq<Object>): Object {
    if others == [] then o else Update(MergeAll(o, others[..|others| - 1]), others[|others| - 1])
  }

  function AttributeAt(o: Object, i: Item): Option<Json> {
    if i.Attribute? then Get(o, i.key) else None
  }

  function AttributesAt(os: seq<Object>, i: Item): Option<Json> {
    if os == [] then None
    else Over(AttributesAt(os[..|os| - 1], i), AttributeAt(os[|os| - 1], i))
  }

  function EntryAt(e: Entry, i: Item): Option<Json> {
    if i.Point? && i.ts == e.ts then Get(e.values, i.key) else None
  }

  function TelemetryAt(es: seq<Entry>, i: Item): Option<Json> {
    if es == [] then None
    else Over(TelemetryAt(es[..|es| - 1], i), EntryAt(es[|es| - 1], i))
  }

  // What a record writes at a place of its device.
  function PackAt(p: Pack, i: Item): Option<Json> {
    Over(AttributesAt(p.attributes, i), TelemetryAt(p.telemetry, i))
  }

  function PacksAt(ps: seq<Pack>, i: Item): Option<Json> {
    if ps == [] then None
    else Over(PacksAt(ps[..|ps| - 1], i), PackAt(ps[|ps| - 1], i))
  }

  lemma {:induction false} TelemetryAtConcat(a: seq<Entry>, b: seq<Entry>, i: Item)
    ensures TelemetryAt(a + b, i) == Over(TelemetryAt(a, i), TelemetryAt(b, i))
  {
    if b == [] {
      assert a + b == a;
    } else {
      TelemetryAtConcat(a, b[..|b| - 1], i);
      assert (a + b)[..|a + b| - 1] == a + b[..|b| - 1];
    }
  }

  lemma TelemetryAtSnoc(es: seq<Entry>, e: Entry, i: Item)
    ensures TelemetryAt(es + [e], i) == Over(TelemetryAt(es, i), EntryAt(e, i))
  {
    assert (es + [e])[..|es|] == es;
  }

  lemma {:induction false} TelemetryAtOtherTime(es: seq<Entry>, i: Item)
    requires forall e | e in es :: i.Point? ==> e.ts != i.ts
    ensures TelemetryAt(es, i) == None
  {
    if es != [] {
      TelemetryAtOtherTime(es[..|es| - 1], i);
    }
  }

  lemma UpdateAt(o: Object, other: Object, i: Item)
    ensures AttributeAt(Update(o, other), i) == Over(AttributeAt(o, i), AttributeAt(other, i))
  {
    if i.Attribute? { UpdateGet(o, other, i.key); }
  }

  lemma {:induction false} MergeAllAt(o: Object, os: seq<Object>, i: Item)
    ensures AttributeAt(MergeAll(o, os), i) == Over(AttributeAt(o, i), AttributesAt(os, i))
  {
    if os != [] {
      MergeAllAt(o, os[..|os| - 1], i);
      UpdateAt(MergeAll(o, os[..|os| - 1]), os[|os| - 1], i);
    }
  }
}
