// A reading as the list of its single writes, in order.
module Writes {
  import opened Options
  import opened PyDict
  import opened Platform

  datatype Write = Write(place: Item, value: Json)

  function ObjectWrites(o: Object): seq<Write> {
    if o == [] then [] else ObjectWrites(o[..|o| - 1]) + [Write(Attribute(o[|o| - 1].0), o[|o| - 1].1)]
  }

  function AttributeWrites(os: seq<Object>): seq<Write> {
    if os == [] then [] else AttributeWrites(os[..|os| - 1]) + ObjectWrites(os[|os| - 1])
  }

  function ValueWrites(ts: int, values: Object): seq<Write> {
    if values == [] then []
    else ValueWrites(ts, values[..|values| - 1]) + [Write(Point(ts, values[|values| - 1].0), values[|values| - 1].1)]
  }

  function TelemetryWrites(es: seq<Entry>): seq<Write> {
    if es == [] then [] else TelemetryWrites(es[..|es| - 1]) + ValueWrites(es[|es| - 1].ts, es[|es| - 1].values)
  }

  function PackWrites(p: Pack): seq<Write> { AttributeWrites(p.attributes) + TelemetryWrites(p.telemetry) }

  // The value that the writes leave at a place.
  function WritesAt(ws: seq<Write>, i: Item): Option<Json> {
    if ws == [] then None
    else if ws[|ws| - 1].place == i then Some(ws[|ws| - 1].value)
    else WritesAt(ws[..|ws| - 1], i)
  }

  lemma {:induction false} WritesAtConcat(a: seq<Write>, b: seq<Write>, i: Item)
    ensures WritesAt(a + b, i) == Over(WritesAt(a, i), WritesAt(b, i))
  {
    if b == [] {
      assert a + b == a;
    } else {
      WritesAtConcat(a, b[..|b| - 1], i);
      assert (a + b)[..|a + b| - 1] == a + b[..|b| - 1];
    }
  }

  lemma WritesAtSnoc(ws: seq<Write>, w: Write, i: Item)
    ensures WritesAt(ws + [w], i) == if w.place == i then Some(w.value) else WritesAt(ws, i)
  {
    assert (ws + [w])[..|ws|] == ws;
  }

  lemma {:induction false} ObjectWritesAt(o: Object, i: Item)
    ensures WritesAt(ObjectWrites(o), i) == AttributeAt(o, i)
  {
    if o != [] {
      var n := |o| - 1;
      ObjectWritesAt(o[..n], i);
      WritesAtSnoc(ObjectWrites(o[..n]), Write(Attribute(o[n].0), o[n].1), i);
    }
  }

  lemma {:induction false} AttributeWritesAt(os: seq<Object>, i: Item)
    ensures WritesAt(AttributeWrites(os), i) == AttributesAt(os, i)
  {
    if os != [] {
      var n := |os| - 1;
      AttributeWritesAt(os[..n], i);
      ObjectWritesAt(os[n], i);
      WritesAtConcat(AttributeWrites(os[..n]), ObjectWrites(os[n]), i);
    }
  }

  lemma {:induction false} ValueWritesAt(ts: int, values: Object, i: Item)
    ensures WritesAt(ValueWrites(ts, values), i) == EntryAt(Entry(ts, values), i)
  {
    if values != [] {
      var n := |values| - 1;
      ValueWritesAt(ts, values[..n], i);
      WritesAtSnoc(ValueWrites(ts, values[..n]), Write(Point(ts, values[n].0), values[n].1), i);
    }
  }

  lemma {:induction false} TelemetryWritesAt(es: seq<Entry>, i: Item)
    ensures WritesAt(TelemetryWrites(es), i) == TelemetryAt(es, i)
  {
    if es != [] {
      var n := |es| - 1;
      TelemetryWritesAt(es[..n], i);
      ValueWritesAt(es[n].ts, es[n].values, i);
      WritesAtConcat(TelemetryWrites(es[..n]), ValueWrites(es[n].ts, es[n].values), i);
    }
  }

  lemma PackWritesAt(p: Pack, i: Item)
    ensures WritesAt(PackWrites(p), i) == PackAt(p, i)
  {
    AttributeWritesAt(p.attributes, i);
    TelemetryWritesAt(p.telemetry, i);
    WritesAtConcat(AttributeWrites(p.attributes), TelemetryWrites(p.telemetry), i);
  }

  predicate SameAt(ws: seq<Write>, m: nat, i: Item)
    requires m <= |ws|
  {
    WritesAt(ws, i) == WritesAt(ws[..m], i)
  }

  // Every write from the m-th on leaves its place as the writes before left it.
  predicate Settled(ws: seq<Write>, m: nat)
    requires m <= |ws|
  {
    forall k | m <= k < |ws| :: SameAt(ws, m, ws[k].place)
  }

  predicate DistinctPlaces(ws: seq<Write>) { forall j, k | 0 <= j < k < |ws| :: ws[j].place != ws[k].place }

  lemma {:induction false} OtherPlaces(ws: seq<Write>, m: nat, i: Item)
    requires m <= |ws| && forall k | m <= k < |ws| :: ws[k].place != i
    ensures WritesAt(ws, i) == WritesAt(ws[..m], i)
  {
    if m == |ws| {
      assert ws[..m] == ws;
    } else {
      OtherPlaces(ws[..|ws| - 1], m, i);
      assert ws[..|ws| - 1][..m] == ws[..m];
    }
  }

  // The first m writes do what all of them do if and only if those behind are settled.
  lemma SettledExactly(ws: seq<Write>, m: nat)
    requires m <= |ws|
    ensures (forall i :: SameAt(ws, m, i)) <==> Settled(ws, m)
  {
    if forall k | m <= k < |ws| :: SameAt(ws, m, ws[k].place) {
      forall i ensures SameAt(ws, m, i) {
        if forall k | m <= k < |ws| :: ws[k].place != i { OtherPlaces(ws, m, i); }
      }
    }
  }

  lemma {:induction false} LastWriteStands(ws: seq<Write>, k: nat)
    requires k < |ws| && forall j | k < j < |ws| :: ws[j].place != ws[k].place
    ensures WritesAt(ws, ws[k].place) == Some(ws[k].value)
  {
    if k < |ws| - 1 { LastWriteStands(ws[..|ws| - 1], k); }
  }

  // If no place is written twice, that is: if and only if there are none behind.
  lemma DistinctSettledExactly(ws: seq<Write>, m: nat)
    requires m <= |ws| && DistinctPlaces(ws)
    ensures Settled(ws, m) <==> m == |ws|
  {
    if m < |ws| {
      LastWriteStands(ws, m);
      OtherPlaces(ws[..m], 0, ws[m].place);
      assert ws[..m][..0] == [];
    }
  }
}
