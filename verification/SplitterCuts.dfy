// How many of a reading's values the splitter has stored when it stops half-way.
module SplitterCuts {
  import opened Platform
  import opened Writes
  import opened PackSplitter

  // The record under construction was stored with this contribution.
  predicate AttributeCuts(lim: Limits, device: Name, os: seq<Object>)
    requires os != []
  {
    AdoptAttributes(lim, device, Start(lim), os[..|os| - 1]).tracked + ObjectSize(os[|os| - 1]) >= lim.max
  }

  // The values in the records stored while these attributes were adopted.
  function AttributesCut(lim: Limits, device: Name, os: seq<Object>): (n: nat)
    ensures n <= |AttributeWrites(os)|
  {
    if os == [] then 0
    else if AttributeCuts(lim, device, os) then |AttributeWrites(os)|
    else AttributesCut(lim, device, os[..|os| - 1])
  }

  function Points(es: seq<Entry>): seq<Datapoint> {
    if es == [] then [] else Points(es[..|es| - 1]) + PointsOf(es[|es| - 1].ts, es[|es| - 1].values)
  }

  function PointWrites(ps: seq<Datapoint>): (ws: seq<Write>)
    ensures |ws| == |ps| && forall k | 0 <= k < |ps| :: ws[k] == Write(Point(ps[k].ts, ps[k].key), ps[k].value)
  {
    seq(|ps|, k requires 0 <= k < |ps| => Write(Point(ps[k].ts, ps[k].key), ps[k].value))
  }

  function Held(lim: Limits, device: Name, os: seq<Object>, ps: seq<Datapoint>): (s: Adopted)
    ensures Indexed(s)
  {
    AdoptPoints(lim, device, AdoptAttributes(lim, device, Start(lim), os), ps)
  }

  predicate PointCuts(lim: Limits, device: Name, os: seq<Object>, ps: seq<Datapoint>)
    requires ps != []
  {
    var s := Held(lim, device, os, ps[..|ps| - 1]);
    s.tracked + Contribution(s, ps[|ps| - 1]) >= lim.max
  }

  // The values in the records stored until these attributes and points were adopted.
  function PointsCut(lim: Limits, device: Name, os: seq<Object>, ps: seq<Datapoint>): (n: nat)
    ensures n <= |AttributeWrites(os)| + |ps|
  {
    if ps == [] then AttributesCut(lim, device, os)
    else if PointCuts(lim, device, os, ps) then |AttributeWrites(os)| + |ps|
    else PointsCut(lim, device, os, ps[..|ps| - 1])
  }

  // ---------- Entries as points ----------

  lemma {:induction false} AdoptInTwo(lim: Limits, device: Name, s: Adopted, ps: seq<Datapoint>, k: nat)
    requires Indexed(s) && k <= |ps|
    ensures AdoptPoints(lim, device, s, ps)
         == AdoptPoints(lim, device, AdoptPoints(lim, device, s, ps[..k]), ps[k..])
  {
    hide AdoptPoint, Indexed;
    if k == |ps| {
      assert ps[..k] == ps && ps[k..] == [];
    } else {
      var n := |ps| - 1;
      AdoptInTwo(lim, device, s, ps[..n], k);
      assert ps[..n][..k] == ps[..k] && ps[..n][k..] == ps[k..][..n - k];
    }
  }

  lemma {:induction false} EntriesArePoints(lim: Limits, device: Name, s: Adopted, es: seq<Entry>)
    requires Indexed(s)
    ensures AdoptEntries(lim, device, s, es) == AdoptPoints(lim, device, s, Points(es))
  {
    if es != [] {
      hide AdoptPoints;
      var n := |es| - 1;
      EntriesArePoints(lim, device, s, es[..n]);
      var a, b := Points(es[..n]), PointsOf(es[n].ts, es[n].values);
      AdoptInTwo(lim, device, s, a + b, |a|);
      assert (a + b)[..|a|] == a && (a + b)[|a|..] == b;
    } else {
      assert AdoptPoints(lim, device, s, []) == s;
    }
  }

  lemma {:induction false} PointsOfWrites(ts: int, values: Object)
    ensures PointWrites(PointsOf(ts, values)) == ValueWrites(ts, values)
  {
    if values != [] { PointsOfWrites(ts, values[..|values| - 1]); }
  }

  lemma {:induction false} PointsAreWrites(es: seq<Entry>)
    ensures PointWrites(Points(es)) == TelemetryWrites(es)
  {
    if es != [] {
      var n := |es| - 1;
      PointsAreWrites(es[..n]);
      PointsOfWrites(es[n].ts, es[n].values);
      var a, b := Points(es[..n]), PointsOf(es[n].ts, es[n].values);
      assert PointWrites(a + b) == PointWrites(a) + PointWrites(b);
    }
  }

  lemma {:induction false} PointWritesAt(ps: seq<Datapoint>, i: Item)
    ensures WritesAt(PointWrites(ps), i) == PointsAt(ps, i)
  {
    if ps != [] {
      var n := |ps| - 1;
      PointWritesAt(ps[..n], i);
      assert PointWrites(ps)[..n] == PointWrites(ps[..n]);
    }
  }

  // ---------- What is stored ----------

  // What is stored is, as a row of writes, all that came before the last cut.
  lemma {:induction false} AttributesStored(lim: Limits, device: Name, os: seq<Object>, i: Item)
    ensures EmittedAt(AdoptAttributes(lim, device, Start(lim), os).out, i)
         == WritesAt(AttributeWrites(os)[..AttributesCut(lim, device, os)], i)
  {
    if os != [] {
      var n := |os| - 1;
      var s := AdoptAttributes(lim, device, Start(lim), os[..n]);
      if AttributeCuts(lim, device, os) {
        AttributePhase(lim, device, os, i);
        AttributeWritesAt(os, i);
        assert AttributeWrites(os)[..|AttributeWrites(os)|] == AttributeWrites(os);
      } else {
        AttributesStored(lim, device, os[..n], i);
        Prefixes(AttributeWrites(os[..n]), ObjectWrites(os[n]), AttributesCut(lim, device, os[..n]));
      }
    }
  }

  lemma Prefixes(a: seq<Write>, b: seq<Write>, m: nat)
    requires m <= |a|
    ensures (a + b)[..m] == a[..m]
  {}

  lemma {:induction false} PointsStored(lim: Limits, device: Name, os: seq<Object>, ps: seq<Datapoint>, i: Item)
    ensures EmittedAt(Held(lim, device, os, ps).out, i)
         == WritesAt((AttributeWrites(os) + PointWrites(ps))[..PointsCut(lim, device, os, ps)], i)
  {
    hide Held, PointCuts, WritesAt, AttributeWrites;
    var aw := AttributeWrites(os);
    if ps == [] {
      NothingMore(lim, device, os);
      AttributesStored(lim, device, os, i);
      Prefixes(aw, PointWrites(ps), AttributesCut(lim, device, os));
    } else {
      var n := |ps| - 1;
      if PointCuts(lim, device, os, ps) {
        AllStored(lim, device, os, ps, i);
        assert (aw + PointWrites(ps))[..|aw| + |ps|] == aw + PointWrites(ps);
      } else {
        PointsStored(lim, device, os, ps[..n], i);
        NoCut(lim, device, os, ps);
        SameBeforeCut(aw, ps, PointsCut(lim, device, os, ps[..n]));
      }
    }
  }

  lemma NothingMore(lim: Limits, device: Name, os: seq<Object>)
    ensures Held(lim, device, os, []) == AdoptAttributes(lim, device, Start(lim), os)
  {}

  lemma SameBeforeCut(aw: seq<Write>, ps: seq<Datapoint>, m: nat)
    requires ps != [] && m <= |aw| + |ps| - 1
    ensures (aw + PointWrites(ps))[..m] == (aw + PointWrites(ps[..|ps| - 1]))[..m]
  {}

  lemma NoCut(lim: Limits, device: Name, os: seq<Object>, ps: seq<Datapoint>)
    requires ps != [] && !PointCuts(lim, device, os, ps)
    ensures Held(lim, device, os, ps).out == Held(lim, device, os, ps[..|ps| - 1]).out
  {
    hide AdoptAttributes, Indexed;
  }

  lemma AllStored(lim: Limits, device: Name, os: seq<Object>, ps: seq<Datapoint>, i: Item)
    requires ps != [] && PointCuts(lim, device, os, ps)
    ensures EmittedAt(Held(lim, device, os, ps).out, i) == WritesAt(AttributeWrites(os) + PointWrites(ps), i)
  {
    hide AdoptAttributes;
    AttributePhase(lim, device, os, i);
    PointPhase(lim, device, AdoptAttributes(lim, device, Start(lim), os), ps, i);
    AttributeWritesAt(os, i);
    PointWritesAt(ps, i);
    WritesAtConcat(AttributeWrites(os), PointWrites(ps), i);
  }

  // The number of values that the splitter has stored after these parts.
  function LastCut(lim: Limits, device: Name, os: seq<Object>, es: seq<Entry>): (n: nat)
    ensures n <= |AttributeWrites(os) + TelemetryWrites(es)|
  {
    PointsAreWrites(es);
    PointsCut(lim, device, os, Points(es))
  }

  lemma StoredBeforeLastCut(lim: Limits, device: Name, os: seq<Object>, es: seq<Entry>, i: Item)
    ensures EmittedAt(Adopt(lim, device, os, es).out, i)
         == WritesAt((AttributeWrites(os) + TelemetryWrites(es))[..LastCut(lim, device, os, es)], i)
  {
    EntriesArePoints(lim, device, AdoptAttributes(lim, device, Start(lim), os), es);
    PointsAreWrites(es);
    PointsStored(lim, device, os, Points(es), i);
  }
}
