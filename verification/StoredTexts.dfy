// The JSON texts of the event storage, with whatever malformed parts they may have, and
// the events that they are for the grouping.
module StoredTexts {
  import opened Options
  import opened Platform

  // An element of a list of attributes; one that is no object is kept as its JSON text.
  datatype Part = Proper(members: Object) | Improper(text: Json)

  // Attributes come as a list or as one object.
  datatype Attributes = Listed(parts: seq<Part>) | Whole(members: Object)

  // A telemetry entry; its values may be null.
  datatype RawEntry = RawEntry(ts: int, values: Option<Object>)

  datatype Text = Text(device: Name, attributes: Attributes, telemetry: seq<RawEntry>)

  // What is missing writes nothing.
  function ObjectOf(o: Option<Object>): Object { match o case Some(x) => x case None => [] }

  function PartObject(p: Part): Object { match p case Proper(o) => o case Improper(_) => [] }

  function AllObjects(ps: seq<Part>): (r: seq<Object>)
    ensures |r| == |ps| && forall k | 0 <= k < |ps| :: r[k] == PartObject(ps[k])
  {
    seq(|ps|, k requires 0 <= k < |ps| => PartObject(ps[k]))
  }

  function Objects(a: Attributes): seq<Object> {
    match a case Listed(ps) => AllObjects(ps) case Whole(o) => [o]
  }

  function EntryOf(e: RawEntry): Entry { Entry(e.ts, ObjectOf(e.values)) }

  function Entries(es: seq<RawEntry>): (r: seq<Entry>)
    ensures |r| == |es| && forall k | 0 <= k < |es| :: r[k] == EntryOf(es[k])
  {
    seq(|es|, k requires 0 <= k < |es| => EntryOf(es[k]))
  }

  // The place of the first attribute that is no object.
  function FirstBad(ps: seq<Part>): (n: nat)
    ensures n <= |ps| && (n < |ps| ==> ps[n].Improper?) && forall k | 0 <= k < n :: ps[k].Proper?
  {
    if ps == [] || ps[0].Improper? then 0 else 1 + FirstBad(ps[1..])
  }

  // The place of the first entry with null for its values.
  function FirstNull(es: seq<RawEntry>): (n: nat)
    ensures n <= |es| && (n < |es| ==> es[n].values == None) && forall k | 0 <= k < n :: es[k].values.Some?
  {
    if es == [] || es[0].values == None then 0 else 1 + FirstNull(es[1..])
  }

  predicate HasBad(a: Attributes) { a.Listed? && FirstBad(a.parts) < |a.parts| }

  predicate HasNull(es: seq<RawEntry>) { FirstNull(es) < |es| }

  function ObjectsBefore(a: Attributes): seq<Object> {
    if a.Listed? then AllObjects(a.parts[..FirstBad(a.parts)]) else Objects(a)
  }

  // All that the text holds.
  function PackOf(t: Text): Pack { Pack(t.device, Objects(t.attributes), Entries(t.telemetry)) }

  // A record as a text; a piece of a split reading has its attributes in one object.
  function TextOf(p: Pack): (t: Text)
    ensures PackOf(t) == p && !HasNull(t.telemetry) && !HasBad(t.attributes)
  {
    Text(p.device,
         if |p.attributes| == 1 then Whole(p.attributes[0])
         else Listed(seq(|p.attributes|, k requires 0 <= k < |p.attributes| => Proper(p.attributes[k]))),
         seq(|p.telemetry|, k requires 0 <= k < |p.telemetry| =>
           RawEntry(p.telemetry[k].ts, Some(p.telemetry[k].values))))
  }

  // Telemetry is read first. An entry is taken before its values are counted, and reading
  // what is not there raises; so does an attribute that is no object.
  function BeforeHole(t: Text): Pack
    requires HasNull(t.telemetry) || HasBad(t.attributes)
  {
    if HasNull(t.telemetry) then Pack(t.device, [], Entries(t.telemetry[..FirstNull(t.telemetry) + 1]))
    else Pack(t.device, ObjectsBefore(t.attributes), Entries(t.telemetry))
  }

  function EventOf(t: Text): StoredEvent {
    if HasNull(t.telemetry) || HasBad(t.attributes) then Faulty(BeforeHole(t)) else Event(PackOf(t))
  }

  function EventsOf(ts: seq<Text>): (r: seq<StoredEvent>)
    ensures |r| == |ts| && forall k | 0 <= k < |ts| :: r[k] == EventOf(ts[k])
  {
    seq(|ts|, k requires 0 <= k < |ts| => EventOf(ts[k]))
  }
}
