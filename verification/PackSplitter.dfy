// Cutting a reading whose JSON text is too long into records of limited size.
module PackSplitter {
  import opened Options
  import opened PyDict
  import opened Platform

  // `empty` is the length of the record's JSON text with no attributes and no
  // telemetry, `max` the payload limit.
  datatype Limits = Limits(empty: nat, max: nat)

  // A stored record with the size the splitter believed it had and the last
  // contribution to that size.
  datatype Emitted = Emitted(pack: Pack, tracked: nat, last: nat)

  // The record under construction, `index` giving the place of each timestamp.
  datatype Adopted = Adopted(attributes: Object, telemetry: seq<Entry>, index: map<int, nat>,
                             tracked: nat, out: seq<Emitted>)

  // ---------- JSON sizes ----------

  function NatSize(n: nat): (r: nat)
    ensures r >= 1
  {
    if n < 10 then 1 else 1 + NatSize(n / 10)
  }

  function IntSize(n: int): nat {
    if n < 0 then 1 + NatSize(-n) else NatSize(n)
  }

  function MemberSize(k: Key, v: Json): nat { |k| + 1 + |v| }

  // Members with the commas between them.
  function BodySize(d: Dict<Key, Json>): nat {
    if d == [] then 0
    else BodySize(d[..|d| - 1]) + (if |d| > 1 then 1 else 0) + MemberSize(d[|d| - 1].0, d[|d| - 1].1)
  }

  function ObjectSize(o: Dict<Key, Json>): nat { 2 + BodySize(o) }

  // The characters of {"ts":,"values":} around an entry's timestamp and values.
  const ENTRY_FRAME: nat := 17

  function EntrySize(e: Entry): nat { ENTRY_FRAME + IntSize(e.ts) + ObjectSize(e.values) }

  function EntriesSize(es: seq<Entry>): nat {
    if es == [] then 0 else EntriesSize(es[..|es| - 1]) + EntrySize(es[|es| - 1])
  }

  function ObjectsSize(os: seq<Object>): nat {
    if os == [] then 0 else ObjectsSize(os[..|os| - 1]) + ObjectSize(os[|os| - 1])
  }

  function Commas(n: nat): nat { if n == 0 then 0 else n - 1 }

  // The size of a record under construction.
  function RecordSize(lim: Limits, attributes: Object, telemetry: seq<Entry>): nat {
    lim.empty + BodySize(attributes) + EntriesSize(telemetry) + Commas(|telemetry|)
  }

  // ---------- The splitter ----------

  // One value of the telemetry, in reading order.
  datatype Datapoint = Datapoint(ts: int, key: Key, value: Json)

  function PointsOf(ts: int, values: Dict<Key, Json>): seq<Datapoint> {
    if values == [] then []
    else PointsOf(ts, values[..|values| - 1]) + [Datapoint(ts, values[|values| - 1].0, values[|values| - 1].1)]
  }

  function Start(lim: Limits): Adopted { Adopted([], [], map[], lim.empty, []) }

  function Record(device: Name, s: Adopted): Pack { Pack(device, [s.attributes], s.telemetry) }

  // The size just reached the limit: store the record and start an empty one.
  function Cut(lim: Limits, device: Name, s: Adopted, last: nat): Adopted {
    if s.tracked >= lim.max
    then Adopted([], [], map[], lim.empty, s.out + [Emitted(Record(device, s), s.tracked, last)])
    else s
  }

  function Charge(s: Adopted, size: nat): Adopted { s.(tracked := s.tracked + size) }

  function AdoptAttribute(lim: Limits, device: Name, s: Adopted, o: Object): Adopted {
    Cut(lim, device, Charge(s.(attributes := Update(s.attributes, o)), ObjectSize(o)), ObjectSize(o))
  }

  predicate Indexed(s: Adopted) {
    && (forall ts | ts in s.index :: s.index[ts] < |s.telemetry| && s.telemetry[s.index[ts]].ts == ts)
    && (forall i | 0 <= i < |s.telemetry| ::
          s.telemetry[i].ts in s.index && s.index[s.telemetry[i].ts] == i)
  }

  function AddPoint(s: Adopted, p: Datapoint): (r: Adopted)
    requires Indexed(s)
    ensures Indexed(r)
  {
    if p.ts in s.index then
      var i := s.index[p.ts];
      s.(telemetry := s.telemetry[i := Entry(p.ts, Put(s.telemetry[i].values, p.key, p.value))])
    else
      s.(telemetry := s.telemetry + [Entry(p.ts, Put([], p.key, p.value))],
         index := s.index[p.ts := |s.telemetry|])
  }

  function Contribution(s: Adopted, p: Datapoint): nat {
    if p.ts in s.index then ObjectSize([(p.key, p.value)]) else EntrySize(Entry(p.ts, Put([], p.key, p.value)))
  }

  function AdoptPoint(lim: Limits, device: Name, s: Adopted, p: Datapoint): (r: Adopted)
    requires Indexed(s)
    ensures Indexed(r)
  {
    Cut(lim, device, Charge(AddPoint(s, p), Contribution(s, p)), Contribution(s, p))
  }

  function AdoptAttributes(lim: Limits, device: Name, s: Adopted, os: seq<Object>): (r: Adopted)
    requires Indexed(s)
    ensures Indexed(r)
  {
    if os == [] then s
    else AdoptAttribute(lim, device, AdoptAttributes(lim, device, s, os[..|os| - 1]), os[|os| - 1])
  }

  function AdoptPoints(lim: Limits, device: Name, s: Adopted, ps: seq<Datapoint>): (r: Adopted)
    requires Indexed(s)
    ensures Indexed(r)
  {
    if ps == [] then s
    else AdoptPoint(lim, device, AdoptPoints(lim, device, s, ps[..|ps| - 1]), ps[|ps| - 1])
  }

  function AdoptEntries(lim: Limits, device: Name, s: Adopted, es: seq<Entry>): (r: Adopted)
    requires Indexed(s)
    ensures Indexed(r)
  {
    if es == [] then s
    else AdoptPoints(lim, device, AdoptEntries(lim, device, s, es[..|es| - 1]),
                     PointsOf(es[|es| - 1].ts, es[|es| - 1].values))
  }

  function Adopt(lim: Limits, device: Name, attributes: seq<Object>, es: seq<Entry>): Adopted {
    AdoptEntries(lim, device, AdoptAttributes(lim, device, Start(lim), attributes), es)
  }

  // What is left over is stored last.
  function Flush(device: Name, s: Adopted): seq<Emitted> {
    if s.telemetry != [] || s.attributes != [] then s.out + [Emitted(Record(device, s), s.tracked, 0)] else s.out
  }

  function Split(lim: Limits, device: Name, attributes: seq<Object>, es: seq<Entry>): seq<Emitted> {
    Flush(device, Adopt(lim, device, attributes, es))
  }

  lemma AdoptPointsSnoc(lim: Limits, device: Name, s: Adopted, ps: seq<Datapoint>, p: Datapoint)
    requires Indexed(s)
    ensures AdoptPoints(lim, device, s, ps + [p]) == AdoptPoint(lim, device, AdoptPoints(lim, device, s, ps), p)
  {
    assert (ps + [p])[..|ps|] == ps;
  }

  // The loops of the splitter, over the record they mutate.
  method AdoptEntry(lim: Limits, device: Name, start: Adopted, e: Entry) returns (adopted: Adopted)
    requires Indexed(start)
    ensures adopted == AdoptPoints(lim, device, start, PointsOf(e.ts, e.values))
  {
    adopted := start;
    var values := e.values;
    for m := 0 to |values|
      invariant Indexed(adopted)
      invariant adopted == AdoptPoints(lim, device, start, PointsOf(e.ts, values[..m]))
    {
      var p := Datapoint(e.ts, values[m].0, values[m].1);
      assert values[..m + 1][..m] == values[..m];
      assert PointsOf(e.ts, values[..m + 1]) == PointsOf(e.ts, values[..m]) + [p];
      AdoptPointsSnoc(lim, device, start, PointsOf(e.ts, values[..m]), p);
      adopted := AdoptPoint(lim, device, adopted, p);
    }
    assert values[..|values|] == values;
  }

  method AdoptTelemetry(lim: Limits, device: Name, start: Adopted, es: seq<Entry>) returns (adopted: Adopted)
    requires Indexed(start)
    ensures adopted == AdoptEntries(lim, device, start, es)
  {
    adopted := start;
    for n := 0 to |es|
      invariant Indexed(adopted)
      invariant adopted == AdoptEntries(lim, device, start, es[..n])
    {
      assert es[..n + 1][..n] == es[..n];
      adopted := AdoptEntry(lim, device, adopted, es[n]);
    }
    assert es[..|es|] == es;
  }

  method AdoptReading(lim: Limits, device: Name, attributes: seq<Object>, es: seq<Entry>) returns (adopted: Adopted)
    ensures adopted == Adopt(lim, device, attributes, es)
  {
    adopted := Start(lim);
    for n := 0 to |attributes|
      invariant adopted == AdoptAttributes(lim, device, Start(lim), attributes[..n])
    {
      assert attributes[..n + 1][..n] == attributes[..n];
      adopted := AdoptAttribute(lim, device, adopted, attributes[n]);
    }
    assert attributes[..|attributes|] == attributes;
    adopted := AdoptTelemetry(lim, device, adopted, es);
  }

  method SplitReading(lim: Limits, device: Name, attributes: seq<Object>, es: seq<Entry>)
    returns (out: seq<Emitted>)
    ensures out == Split(lim, device, attributes, es)
    ensures forall i :: EmittedAt(out, i) == PackAt(Pack(device, attributes, es), i)
  {
    var adopted := AdoptReading(lim, device, attributes, es);
    out := Flush(device, adopted);
    SplittingKeepsMeaning(lim, device, attributes, es);
  }

  // ---------- Splitting preserves meaning ----------

  function EmittedAt(out: seq<Emitted>, i: Item): Option<Json> {
    if out == [] then None
    else Over(EmittedAt(out[..|out| - 1], i), PackAt(out[|out| - 1].pack, i))
  }

  // What the stored records and the one still held write at a place.
  function TotalAt(s: Adopted, i: Item): Option<Json> {
    Over(EmittedAt(s.out, i), Over(AttributeAt(s.attributes, i), TelemetryAt(s.telemetry, i)))
  }

  function PointAt(p: Datapoint, i: Item): Option<Json> {
    if i == Point(p.ts, p.key) then Some(p.value) else None
  }

  function PointsAt(ps: seq<Datapoint>, i: Item): Option<Json> {
    if ps == [] then None else Over(PointsAt(ps[..|ps| - 1], i), PointAt(ps[|ps| - 1], i))
  }

  lemma EmittedAtSnoc(out: seq<Emitted>, e: Emitted, i: Item)
    ensures EmittedAt(out + [e], i) == Over(EmittedAt(out, i), PackAt(e.pack, i))
  {
    assert (out + [e])[..|out|] == out;
  }

  lemma RecordAt(device: Name, s: Adopted, i: Item)
    ensures PackAt(Record(device, s), i) == Over(AttributeAt(s.attributes, i), TelemetryAt(s.telemetry, i))
  {
    var one: seq<Object> := [s.attributes];
    assert one[..0] == [];
    assert AttributesAt(one, i) == Over(AttributesAt(one[..0], i), AttributeAt(one[0], i));
  }

  lemma CutKeeps(lim: Limits, device: Name, s: Adopted, last: nat, i: Item)
    ensures TotalAt(Cut(lim, device, s, last), i) == TotalAt(s, i)
  {
    EmittedAtSnoc(s.out, Emitted(Record(device, s), s.tracked, last), i);
    RecordAt(device, s, i);
  }

  lemma AttributeStep(lim: Limits, device: Name, s: Adopted, o: Object, i: Item)
    requires s.telemetry == []
    ensures TotalAt(AdoptAttribute(lim, device, s, o), i) == Over(TotalAt(s, i), AttributeAt(o, i))
  {
    UpdateAt(s.attributes, o, i);
    CutKeeps(lim, device, Charge(s.(attributes := Update(s.attributes, o)), ObjectSize(o)), ObjectSize(o), i);
  }

  lemma {:induction false} AttributePhase(lim: Limits, device: Name, os: seq<Object>, i: Item)
    ensures AdoptAttributes(lim, device, Start(lim), os).telemetry == []
    ensures TotalAt(AdoptAttributes(lim, device, Start(lim), os), i) == AttributesAt(os, i)
  {
    if os != [] {
      var n := |os| - 1;
      AttributePhase(lim, device, os[..n], i);
      AttributeStep(lim, device, AdoptAttributes(lim, device, Start(lim), os[..n]), os[n], i);
    }
  }

  lemma {:induction false} AssignInside(es: seq<Entry>, at: nat, p: Datapoint, i: Item)
    requires at < |es| && es[at].ts == p.ts
    requires forall j | 0 <= j < |es| && j != at :: es[j].ts != p.ts
    ensures TelemetryAt(es[at := Entry(p.ts, Put(es[at].values, p.key, p.value))], i)
         == Over(TelemetryAt(es, i), PointAt(p, i))
  {
    var n := |es| - 1;
    var e := Entry(p.ts, Put(es[at].values, p.key, p.value));
    if at == n {
      assert es[at := e][..n] == es[..n];
      if i.Point? { PutGet(es[at].values, p.key, p.value, i.key); }
    } else {
      assert es[at := e][..n] == es[..n][at := e];
      AssignInside(es[..n], at, p, i);
    }
  }

  lemma AddOldPoint(s: Adopted, p: Datapoint, at: nat, i: Item)
    requires Indexed(s) && p.ts in s.index && at == s.index[p.ts]
    ensures TelemetryAt(s.telemetry[at := Entry(p.ts, Put(s.telemetry[at].values, p.key, p.value))], i)
         == Over(TelemetryAt(s.telemetry, i), PointAt(p, i))
  {
    AssignInside(s.telemetry, at, p, i);
  }

  lemma AddNewPoint(es: seq<Entry>, p: Datapoint, i: Item)
    ensures TelemetryAt(es + [Entry(p.ts, Put([], p.key, p.value))], i) == Over(TelemetryAt(es, i), PointAt(p, i))
  {
    TelemetryAtSnoc(es, Entry(p.ts, Put([], p.key, p.value)), i);
    if i.Point? { PutGet([], p.key, p.value, i.key); }
  }

  lemma AddPointKeeps(s: Adopted, p: Datapoint, i: Item)
    requires Indexed(s)
    ensures TelemetryAt(AddPoint(s, p).telemetry, i) == Over(TelemetryAt(s.telemetry, i), PointAt(p, i))
  {
    if p.ts in s.index { AddOldPoint(s, p, s.index[p.ts], i); } else { AddNewPoint(s.telemetry, p, i); }
  }

  lemma PointStep(lim: Limits, device: Name, s: Adopted, p: Datapoint, i: Item)
    requires Indexed(s)
    ensures TotalAt(AdoptPoint(lim, device, s, p), i) == Over(TotalAt(s, i), PointAt(p, i))
  {
    AddPointKeeps(s, p, i);
    CutKeeps(lim, device, Charge(AddPoint(s, p), Contribution(s, p)), Contribution(s, p), i);
  }

  lemma {:induction false} PointPhase(lim: Limits, device: Name, s: Adopted, ps: seq<Datapoint>, i: Item)
    requires Indexed(s)
    ensures TotalAt(AdoptPoints(lim, device, s, ps), i) == Over(TotalAt(s, i), PointsAt(ps, i))
  {
    if ps != [] {
      var n := |ps| - 1;
      PointPhase(lim, device, s, ps[..n], i);
      PointStep(lim, device, AdoptPoints(lim, device, s, ps[..n]), ps[n], i);
    }
  }

  lemma {:induction false} EntryPoints(ts: int, values: Dict<Key, Json>, i: Item)
    ensures PointsAt(PointsOf(ts, values), i) == if i.Point? && i.ts == ts then Get(values, i.key) else None
  {
    if values != [] {
      var n := |values| - 1;
      EntryPoints(ts, values[..n], i);
      var p := Datapoint(ts, values[n].0, values[n].1);
      assert (PointsOf(ts, values[..n]) + [p])[..|PointsOf(ts, values[..n])|] == PointsOf(ts, values[..n]);
    }
  }

  lemma {:induction false} EntryPhase(lim: Limits, device: Name, s: Adopted, es: seq<Entry>, i: Item)
    requires Indexed(s)
    ensures TotalAt(AdoptEntries(lim, device, s, es), i) == Over(TotalAt(s, i), TelemetryAt(es, i))
  {
    if es != [] {
      var n := |es| - 1;
      EntryPhase(lim, device, s, es[..n], i);
      PointPhase(lim, device, AdoptEntries(lim, device, s, es[..n]), PointsOf(es[n].ts, es[n].values), i);
      EntryPoints(es[n].ts, es[n].values, i);
    }
  }

  lemma FlushKeeps(device: Name, s: Adopted, i: Item)
    ensures EmittedAt(Flush(device, s), i) == TotalAt(s, i)
  {
    EmittedAtSnoc(s.out, Emitted(Record(device, s), s.tracked, 0), i);
    RecordAt(device, s, i);
  }

  // Applying the records in the order they are stored leaves, at every place, what
  // the unsplit reading leaves.
  lemma SplittingKeepsMeaning(lim: Limits, device: Name, attributes: seq<Object>, es: seq<Entry>)
    ensures forall i :: EmittedAt(Split(lim, device, attributes, es), i) == PackAt(Pack(device, attributes, es), i)
  {
    forall i ensures EmittedAt(Split(lim, device, attributes, es), i) == PackAt(Pack(device, attributes, es), i) {
      AttributePhase(lim, device, attributes, i);
      EntryPhase(lim, device, AdoptAttributes(lim, device, Start(lim), attributes), es, i);
      FlushKeeps(device, Adopt(lim, device, attributes, es), i);
    }
  }

  // ---------- Splitter arithmetic ----------

  predicate DistinctTs(es: seq<Entry>) {
    forall i, j | 0 <= i < j < |es| :: es[i].ts != es[j].ts
  }

  // The exact text length without the commas between telemetry entries.
  function UncommaedSize(lim: Limits, attributes: Object, telemetry: seq<Entry>): nat {
    lim.empty + BodySize(attributes) + EntriesSize(telemetry)
  }

  predicate SizedRecord(lim: Limits, device: Name, e: Emitted) {
    && e.pack.device == device
    && |e.pack.attributes| == 1
    && DistinctTs(e.pack.telemetry)
    && UncommaedSize(lim, e.pack.attributes[0], e.pack.telemetry) <= e.tracked
  }

  predicate CutRecord(lim: Limits, device: Name, e: Emitted) {
    && SizedRecord(lim, device, e)
    && e.tracked >= lim.max
    && (e.tracked - e.last < lim.max <==> lim.empty < lim.max)
  }

  predicate Sized(lim: Limits, device: Name, s: Adopted) {
    && UncommaedSize(lim, s.attributes, s.telemetry) <= s.tracked
    && (if lim.empty < lim.max then s.tracked < lim.max else s.tracked == lim.empty)
    && forall e | e in s.out :: CutRecord(lim, device, e)
  }

  // The bytes charged to the records, beyond their empty form.
  function Spent(lim: Limits, out: seq<Emitted>): int {
    if out == [] then 0 else Spent(lim, out[..|out| - 1]) + out[|out| - 1].tracked - lim.empty
  }

  function Charged(lim: Limits, s: Adopted): int { Spent(lim, s.out) + s.tracked - lim.empty }

  function PointsSize(ps: seq<Datapoint>): nat {
    if ps == [] then 0
    else PointsSize(ps[..|ps| - 1]) +
         EntrySize(Entry(ps[|ps| - 1].ts, Put([], ps[|ps| - 1].key, ps[|ps| - 1].value)))
  }

  // Every telemetry value counted as an entry of its own.
  function ValuesSize(es: seq<Entry>): nat {
    if es == [] then 0
    else ValuesSize(es[..|es| - 1]) + PointsSize(PointsOf(es[|es| - 1].ts, es[|es| - 1].values))
  }

  lemma {:induction false} ReplaceSize(d: Dict<Key, Json>, k: Key, v: Json)
    ensures BodySize(Replace(d, k, v)) <= BodySize(d) + (if k in Keys(d) then MemberSize(k, v) else 0)
  {
    if d != [] {
      var n := |d| - 1;
      hide Keys;
      ReplaceSize(d[..n], k, v);
      KeysSnoc(d[..n], d[n]);
      assert d == d[..n] + [d[n]];
      if d[n].0 == k {
        assert (d[..n] + [(k, v)])[..n] == d[..n];
      } else {
        assert (Replace(d[..n], k, v) + [d[n]])[..n] == Replace(d[..n], k, v);
      }
    }
  }

  lemma PutSize(d: Dict<Key, Json>, k: Key, v: Json)
    ensures BodySize(Put(d, k, v)) <= BodySize(d) + MemberSize(k, v) + 1
    ensures d == [] ==> BodySize(Put(d, k, v)) == MemberSize(k, v)
  {
    ReplaceSize(d, k, v);
    assert (d + [(k, v)])[..|d|] == d;
  }

  lemma {:induction false} UpdateSize(d: Dict<Key, Json>, other: Dict<Key, Json>)
    ensures BodySize(Update(d, other)) <= BodySize(d) + BodySize(other) + if other == [] then 0 else 1
  {
    if other != [] {
      var n := |other| - 1;
      UpdateSize(d, other[..n]);
      PutSize(Update(d, other[..n]), other[n].0, other[n].1);
    }
  }

  lemma {:induction false} EntriesSizeUpdate(es: seq<Entry>, at: nat, e: Entry, more: nat)
    requires at < |es| && EntrySize(e) <= EntrySize(es[at]) + more
    ensures EntriesSize(es[at := e]) <= EntriesSize(es) + more
  {
    var n := |es| - 1;
    if at == n {
      assert es[at := e][..n] == es[..n];
    } else {
      assert es[at := e][..n] == es[..n][at := e];
      EntriesSizeUpdate(es[..n], at, e, more);
    }
  }

  lemma AddPointSize(s: Adopted, p: Datapoint)
    requires Indexed(s)
    ensures EntriesSize(AddPoint(s, p).telemetry) <= EntriesSize(s.telemetry) + Contribution(s, p)
  {
    if p.ts in s.index {
      var i := s.index[p.ts];
      PutSize(s.telemetry[i].values, p.key, p.value);
      EntriesSizeUpdate(s.telemetry, i, Entry(p.ts, Put(s.telemetry[i].values, p.key, p.value)),
                        Contribution(s, p));
    } else {
      var e := Entry(p.ts, Put([], p.key, p.value));
      assert (s.telemetry + [e])[..|s.telemetry|] == s.telemetry;
    }
  }

  lemma CutSized(lim: Limits, device: Name, s: Adopted, last: nat)
    requires Indexed(s)
    requires UncommaedSize(lim, s.attributes, s.telemetry) <= s.tracked
    requires if lim.empty < lim.max then s.tracked - last < lim.max else s.tracked - last == lim.empty
    requires forall e | e in s.out :: CutRecord(lim, device, e)
    ensures Sized(lim, device, Cut(lim, device, s, last))
    ensures Charged(lim, Cut(lim, device, s, last)) == Charged(lim, s)
  {
    if s.tracked >= lim.max {
      var e := Emitted(Record(device, s), s.tracked, last);
      assert DistinctTs(s.telemetry);
      assert (s.out + [e])[..|s.out|] == s.out;
    }
  }

  lemma {:induction false} AttributesSized(lim: Limits, device: Name, os: seq<Object>)
    ensures var s := AdoptAttributes(lim, device, Start(lim), os);
            Sized(lim, device, s) && Charged(lim, s) == ObjectsSize(os)
  {
    if os != [] {
      var n := |os| - 1;
      AttributesSized(lim, device, os[..n]);
      var s := AdoptAttributes(lim, device, Start(lim), os[..n]);
      UpdateSize(s.attributes, os[n]);
      CutSized(lim, device, Charge(s.(attributes := Update(s.attributes, os[n])), ObjectSize(os[n])),
               ObjectSize(os[n]));
    }
  }

  lemma ContributionBound(s: Adopted, p: Datapoint)
    ensures Contribution(s, p) <= EntrySize(Entry(p.ts, Put([], p.key, p.value)))
  {
    PutSize([], p.key, p.value);
  }

  lemma PointSized(lim: Limits, device: Name, s: Adopted, p: Datapoint)
    requires Indexed(s) && Sized(lim, device, s)
    ensures Sized(lim, device, AdoptPoint(lim, device, s, p))
    ensures Charged(lim, AdoptPoint(lim, device, s, p))
         <= Charged(lim, s) + EntrySize(Entry(p.ts, Put([], p.key, p.value)))
  {
    AddPointSize(s, p);
    ContributionBound(s, p);
    PointCutSized(lim, device, s, AddPoint(s, p), Contribution(s, p));
  }

  lemma PointCutSized(lim: Limits, device: Name, s: Adopted, r: Adopted, size: nat)
    requires Sized(lim, device, s) && Indexed(r)
    requires r.attributes == s.attributes && r.out == s.out && r.tracked == s.tracked
    requires EntriesSize(r.telemetry) <= EntriesSize(s.telemetry) + size
    ensures Sized(lim, device, Cut(lim, device, Charge(r, size), size))
    ensures Charged(lim, Cut(lim, device, Charge(r, size), size)) == Charged(lim, s) + size
  {
    CutSized(lim, device, Charge(r, size), size);
  }

  lemma {:induction false} PointsSized(lim: Limits, device: Name, s: Adopted, ps: seq<Datapoint>)
    requires Indexed(s) && Sized(lim, device, s)
    ensures Sized(lim, device, AdoptPoints(lim, device, s, ps))
    ensures Charged(lim, AdoptPoints(lim, device, s, ps)) <= Charged(lim, s) + PointsSize(ps)
  {
    if ps != [] {
      var n := |ps| - 1;
      PointsSized(lim, device, s, ps[..n]);
      PointSized(lim, device, AdoptPoints(lim, device, s, ps[..n]), ps[n]);
    }
  }

  lemma {:induction false} EntriesSized(lim: Limits, device: Name, s: Adopted, es: seq<Entry>)
    requires Indexed(s) && Sized(lim, device, s)
    ensures Sized(lim, device, AdoptEntries(lim, device, s, es))
    ensures Charged(lim, AdoptEntries(lim, device, s, es)) <= Charged(lim, s) + ValuesSize(es)
  {
    if es != [] {
      var n := |es| - 1;
      EntriesSized(lim, device, s, es[..n]);
      PointsSized(lim, device, AdoptEntries(lim, device, s, es[..n]), PointsOf(es[n].ts, es[n].values));
    }
  }

  lemma OneMore(n: nat, c: int)
    ensures (n + 1) * c == n * c + c
  {}

  lemma MoreTimes(m: int, n: int, c: nat)
    requires m <= n
    ensures m * c <= n * c
  {}

  lemma {:induction false} SpentBound(lim: Limits, out: seq<Emitted>)
    requires forall e | e in out :: e.tracked >= lim.max
    ensures |out| * (lim.max - lim.empty) <= Spent(lim, out)
  {
    if out != [] {
      var n := |out| - 1;
      SpentBound(lim, out[..n]);
      OneMore(n, lim.max - lim.empty);
    }
  }

  // Every record but a last remainder was cut because its tracked size had reached
  // the limit, and before its last contribution it had not, exactly when an empty
  // record is below the limit; the remainder never reached it.
  lemma RecordsAreCutAtTheLimit(lim: Limits, device: Name, attributes: seq<Object>, es: seq<Entry>)
    ensures var s := Adopt(lim, device, attributes, es);
            && s.out <= Split(lim, device, attributes, es)
            && |Split(lim, device, attributes, es)| <= |s.out| + 1
            && (forall e | e in s.out ::
                  e.tracked >= lim.max && (e.tracked - e.last < lim.max <==> lim.empty < lim.max))
            && (lim.empty < lim.max ==> s.tracked < lim.max)
  {
    AttributesSized(lim, device, attributes);
    EntriesSized(lim, device, AdoptAttributes(lim, device, Start(lim), attributes), es);
  }

  // No timestamp occurs twice in a record, and the true length of its text exceeds
  // the tracked size by at most the commas between its timestamps.
  lemma TrackedSizeMissesOnlyCommas(lim: Limits, device: Name, attributes: seq<Object>, es: seq<Entry>)
    ensures forall e | e in Split(lim, device, attributes, es) ::
              && e.pack.device == device
              && |e.pack.attributes| == 1
              && DistinctTs(e.pack.telemetry)
              && RecordSize(lim, e.pack.attributes[0], e.pack.telemetry)
                   <= e.tracked + Commas(|e.pack.telemetry|)
  {
    AttributesSized(lim, device, attributes);
    EntriesSized(lim, device, AdoptAttributes(lim, device, Start(lim), attributes), es);
    var s := Adopt(lim, device, attributes, es);
    assert SizedRecord(lim, device, Emitted(Record(device, s), s.tracked, 0));
    assert forall e | e in Split(lim, device, attributes, es) :: SizedRecord(lim, device, e);
  }

  // The number of records is bounded by the bytes of the reading.
  lemma RecordCountBound(lim: Limits, device: Name, attributes: seq<Object>, es: seq<Entry>)
    requires lim.empty < lim.max
    ensures (|Split(lim, device, attributes, es)| - 1) * (lim.max - lim.empty)
         <= ObjectsSize(attributes) + ValuesSize(es)
  {
    AttributesSized(lim, device, attributes);
    EntriesSized(lim, device, AdoptAttributes(lim, device, Start(lim), attributes), es);
    var s := Adopt(lim, device, attributes, es);
    SpentBound(lim, s.out);
    MoreTimes(|Split(lim, device, attributes, es)| - 1, |s.out|, lim.max - lim.empty);
  }
}
