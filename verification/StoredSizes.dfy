// Which readings are cut into pieces, how long what is stored of them can be, and what
// stops the splitter.
module StoredSizes {
  import opened Options
  import opened PyDict
  import opened Platform
  import opened JsonLists
  import opened StoredTexts
  import opened TelemetryNormaliser
  import opened PackSplitter
  import opened JsonTexts
  import opened StorageFeed

  // ---------- The size of a reading ----------

  function PartSize(p: Part): nat { match p case Proper(o) => ObjectSize(o) case Improper(text) => |text| }

  function PartsSize(ps: seq<Part>): nat {
    if ps == [] then 0 else PartsSize(ps[..|ps| - 1]) + PartSize(ps[|ps| - 1])
  }

  function AttributesSize(a: Attributes): nat {
    match a case Listed(ps) => 2 + PartsSize(ps) + Commas(|ps|) case Whole(o) => ObjectSize(o)
  }

  // null takes four characters.
  function RawEntrySize(e: RawEntry): nat {
    ENTRY_FRAME + IntSize(e.ts) + match e.values case Some(o) => ObjectSize(o) case None => 4
  }

  function RawEntriesSize(es: seq<RawEntry>): nat {
    if es == [] then 0 else RawEntriesSize(es[..|es| - 1]) + RawEntrySize(es[|es| - 1])
  }

  function TelemetrySize(r: Reading): nat {
    RawEntriesSize(RawTelemetry(r)) + Commas(|RawTelemetry(r)|)
      + if r.telemetry == [] || RawTimed(r.telemetry) != [] then 2 else 0
  }

  // All values with their keys and timestamps, and what is around them.
  function ReadingSize(r: Reading): nat {
    |r.around.head| + AttributesSize(r.attributes) + |r.around.middle| + TelemetrySize(r) + |r.around.tail|
  }

  lemma {:induction false} PartsTextSize(ps: seq<Part>)
    ensures ListSize(PartTexts(ps)) == 2 + PartsSize(ps) + Commas(|ps|)
  {
    if ps != [] {
      var n := |ps| - 1;
      PartsTextSize(ps[..n]);
      assert PartTexts(ps)[..n] == PartTexts(ps[..n]);
      if ps[n].Proper? { ObjectTextSize(ps[n].members); }
    }
  }

  lemma RawEntryTextSize(e: RawEntry)
    ensures |RawEntryText(e)| == RawEntrySize(e)
  {
    IntTextSize(e.ts);
    if e.values.Some? { ObjectTextSize(e.values.value); }
  }

  lemma {:induction false} RawEntriesTextSize(es: seq<RawEntry>)
    ensures ListSize(EntryTexts(es)) == 2 + RawEntriesSize(es) + Commas(|es|)
  {
    if es != [] {
      hide RawEntryText, RawEntrySize, EntryTexts;
      var n := |es| - 1;
      RawEntriesTextSize(es[..n]);
      RawEntryTextSize(es[n]);
      TextsSnoc(es, n);
    }
  }

  lemma AttributesTextSize(a: Attributes)
    ensures |AttributesText(a)| == AttributesSize(a)
  {
    match a
    case Listed(ps) =>
      PartsTextSize(ps);
      SizeOfText(PartTexts(ps));
    case Whole(o) => ObjectTextSize(o);
  }

  lemma TelemetryTextSize(r: Reading)
    ensures |TelemetryText(r)| == TelemetrySize(r)
  {
    RawTimedEntries(r.telemetry);
    var raw := RawTelemetry(r);
    RawEntriesTextSize(raw);
    SizeOfText(EntryTexts(raw));
    if Converted(r).Single? {
      RawEntryTextSize(raw[0]);
      assert raw[..0] == [];
    }
  }

  lemma ReadingTextSize(r: Reading)
    ensures |ReadingText(r)| == ReadingSize(r)
  {
    AttributesTextSize(r.attributes);
    TelemetryTextSize(r);
  }

  // ---------- What is stored ----------

  // The record that a piece is: one object of attributes, and no timestamp twice.
  predicate IsPiece(t: Text) {
    && t.attributes.Whole? && !HasNull(t.telemetry)
    && forall i, j | 0 <= i < j < |t.telemetry| :: t.telemetry[i].ts != t.telemetry[j].ts
  }

  // What the splitter emits, had it come to its end.
  function Records(c: Config, r: Reading): seq<Emitted> {
    Split(LimitsOf(c, r), Address(c, r), SplitObjects(r.attributes), SplitEntries(r))
  }

  lemma EmittedAs(c: Config, r: Reading, t: Text) returns (e: Emitted)
    requires TooLong(c, r) && t in TextsFor(c, r)
    ensures e in Records(c, r) && t == TextOf(e.pack)
  {
    hide Adopt, TextOf, Validation, SplitObjects, SplitEntries;
    var emitted := if HasHole(r) || HasNames(r) then CutBefore(c, r) else Records(c, r);
    assert forall x | x in emitted :: x in Records(c, r);
    PacksOfMembers(emitted);
    var k :| 0 <= k < |PacksOf(emitted)| && t == TextOf(PacksOf(emitted)[k]);
    assert PacksOf(emitted)[k] in PacksOf(emitted);
    e :| e in emitted && e.pack == PacksOf(emitted)[k];
  }

  lemma PieceOf(p: Pack)
    requires |p.attributes| == 1 && DistinctTs(p.telemetry)
    ensures IsPiece(TextOf(p))
  {}

  // A reading that is taken is stored as it is if its text is shorter than the limit, and in
  // pieces, or up to where the splitter raises, if not.
  lemma SizeDecidesExactly(c: Config, r: Reading)
    requires Validation(c, r) == Passed && !HasUnreadable(r)
    ensures ReadingSize(r) < c.max ==> TextsFor(c, r) == [Text(Address(c, r), r.attributes, RawTelemetry(r))]
    ensures ReadingSize(r) >= c.max ==> forall t | t in TextsFor(c, r) :: IsPiece(t)
  {
    ReadingTextSize(r);
    if TooLong(c, r) {
      hide ReadingSize, ReadingText, TextsFor, Split, Validation, SplitObjects, SplitEntries, RecordSize, TextOf;
      TrackedSizeMissesOnlyCommas(LimitsOf(c, r), Address(c, r), SplitObjects(r.attributes), SplitEntries(r));
      forall t | t in TextsFor(c, r) ensures IsPiece(t) {
        var e := EmittedAs(c, r, t);
        PieceOf(e.pack);
      }
    }
  }

  // No object of attributes, and no value under its timestamp, is longer than this.
  predicate NoneLonger(os: seq<Object>, es: seq<Entry>, size: nat) {
    && (forall o | o in os :: |ObjectText(o)| <= size)
    && forall e, m | e in es && m in e.values :: |EntryText(e.ts, ObjectText([m]))| <= size
  }

  // Nor was what came last into a record that was cut.
  predicate LastsWithin(out: seq<Emitted>, size: nat) { forall e | e in out :: e.last <= size }

  lemma {:induction false} AttributesLast(lim: Limits, device: Name, os: seq<Object>, size: nat)
    requires forall o | o in os :: |ObjectText(o)| <= size
    ensures LastsWithin(AdoptAttributes(lim, device, Start(lim), os).out, size)
  {
    if os != [] {
      var n := |os| - 1;
      assert forall o | o in os[..n] :: o in os;
      AttributesLast(lim, device, os[..n], size);
      assert os[n] in os;
      ObjectTextSize(os[n]);
    }
  }

  lemma {:induction false} PointsLast(lim: Limits, device: Name, s: Adopted, ts: int, values: Object, size: nat)
    requires Indexed(s) && LastsWithin(s.out, size)
    requires forall m | m in values :: |EntryText(ts, ObjectText([m]))| <= size
    ensures LastsWithin(AdoptPoints(lim, device, s, PointsOf(ts, values)).out, size)
  {
    if values != [] {
      hide Contribution, ObjectText, EntryText, AdoptPoints;
      var n := |values| - 1;
      var m := values[n];
      var ps, p := PointsOf(ts, values[..n]), Datapoint(ts, m.0, m.1);
      assert forall x | x in values[..n] :: x in values;
      PointsLast(lim, device, s, ts, values[..n], size);
      AdoptPointsSnoc(lim, device, s, ps, p);
      var held := AdoptPoints(lim, device, s, ps);
      LastWithin(held, p, size);
      OneAdopted(lim, device, held, p, size);
    }
  }

  lemma OneAdopted(lim: Limits, device: Name, s: Adopted, p: Datapoint, size: nat)
    requires Indexed(s) && LastsWithin(s.out, size) && Contribution(s, p) <= size
    ensures LastsWithin(AdoptPoint(lim, device, s, p).out, size)
  {}

  lemma LastWithin(s: Adopted, p: Datapoint, size: nat)
    requires |EntryText(p.ts, ObjectText([(p.key, p.value)]))| <= size
    ensures Contribution(s, p) <= size
  {
    ContributionBound(s, p);
    assert Put([], p.key, p.value) == [(p.key, p.value)];
    EntryTextSize(p.ts, [(p.key, p.value)]);
  }

  lemma {:induction false} EntriesLast(lim: Limits, device: Name, s: Adopted, es: seq<Entry>, size: nat)
    requires Indexed(s) && LastsWithin(s.out, size)
    requires forall e, m | e in es && m in e.values :: |EntryText(e.ts, ObjectText([m]))| <= size
    ensures LastsWithin(AdoptEntries(lim, device, s, es).out, size)
  {
    if es != [] {
      var n := |es| - 1;
      assert forall e | e in es[..n] :: e in es;
      assert es[n] in es;
      EntriesLast(lim, device, s, es[..n], size);
      PointsLast(lim, device, AdoptEntries(lim, device, s, es[..n]), es[n].ts, es[n].values, size);
    }
  }

  // The records emitted, and how much longer than the limit their texts can be.
  lemma RecordsKeepTheLimit(f: Frame, max: nat, device: Name, os: seq<Object>, es: seq<Entry>, size: nat)
    requires f.Size() < max && NoneLonger(os, es, size)
    ensures forall e | e in Split(Limits(f.Size(), max), device, os, es) ::
              |RecordText(f, TextOf(e.pack))| < max + size + Commas(|e.pack.telemetry|)
  {
    var lim := Limits(f.Size(), max);
    var s := Adopt(lim, device, os, es);
    AttributesLast(lim, device, os, size);
    EntriesLast(lim, device, AdoptAttributes(lim, device, Start(lim), os), es, size);
    TrackedSizeMissesOnlyCommas(lim, device, os, es);
    RecordsAreCutAtTheLimit(lim, device, os, es);
    forall e | e in Split(lim, device, os, es)
      ensures |RecordText(f, TextOf(e.pack))| < max + size + Commas(|e.pack.telemetry|)
    {
      assert e.pack == Pack(device, [e.pack.attributes[0]], e.pack.telemetry);
      RecordTextSize(f, max, device, e.pack.attributes[0], e.pack.telemetry);
    }
  }

  // A piece is longer than the limit by what came last into it and by the commas between
  // its timestamps at most, if an empty record is below the limit.
  lemma PiecesKeepTheLimit(c: Config, r: Reading, size: nat)
    requires |ReadingText(r)| >= c.max > r.record.Size()
    requires NoneLonger(Objects(r.attributes), Converted(r).Entries(), size)
    ensures forall t | t in TextsFor(c, r) ::
              |RecordText(r.record, t)| < c.max + size + Commas(|t.telemetry|)
  {
    var os, es := SplitObjects(r.attributes), SplitEntries(r);
    SplitterSees(r);
    RecordsKeepTheLimit(r.record, c.max, Address(c, r), os, es, size);
    forall t | t in TextsFor(c, r) ensures |RecordText(r.record, t)| < c.max + size + Commas(|t.telemetry|) {
      hide RecordText, TextsFor, Split, SplitObjects, SplitEntries;
      var e := EmittedAs(c, r, t);
    }
  }

  lemma SplitterSees(r: Reading)
    ensures forall o | o in SplitObjects(r.attributes) :: o in Objects(r.attributes)
    ensures forall e | e in SplitEntries(r) :: e in Converted(r).Entries()
  {
    RawIsConverted(r);
    var a := r.attributes;
    if a.Listed? {
      var objects := AllObjects(a.parts);
      assert SplitObjects(a) == objects[..FirstBad(a.parts)];
    }
    var raw := RawTelemetry(r);
    if !(HasNames(r) || HasBad(a)) {
      ReadableEntries(r, FirstNull(raw));
    }
  }

  // ---------- No empty pieces ----------

  predicate AllHaveData(out: seq<Emitted>) {
    forall e | e in out :: e.pack.telemetry != [] || e.pack.attributes != [[]]
  }

  lemma {:induction false} UpdateHasData(d: Object, other: Object)
    requires other != []
    ensures Update(d, other) != []
  {
    var n := |other| - 1;
    PutGet(Update(d, other[..n]), other[n].0, other[n].1, other[n].0);
  }

  lemma CutHasData(lim: Limits, device: Name, s: Adopted, last: nat)
    requires AllHaveData(s.out) && (s.attributes != [] || s.telemetry != [])
    ensures AllHaveData(Cut(lim, device, s, last).out)
  {}

  lemma {:induction false} AttributesHaveData(lim: Limits, device: Name, os: seq<Object>)
    requires [] !in os
    ensures AllHaveData(AdoptAttributes(lim, device, Start(lim), os).out)
  {
    if os != [] {
      hide Update;
      var n := |os| - 1;
      AttributesHaveData(lim, device, os[..n]);
      var s := AdoptAttributes(lim, device, Start(lim), os[..n]);
      UpdateHasData(s.attributes, os[n]);
      CutHasData(lim, device, Charge(s.(attributes := Update(s.attributes, os[n])), ObjectSize(os[n])),
                 ObjectSize(os[n]));
    }
  }

  lemma {:induction false} PointsHaveData(lim: Limits, device: Name, s: Adopted, ps: seq<Datapoint>)
    requires Indexed(s) && AllHaveData(s.out)
    ensures AllHaveData(AdoptPoints(lim, device, s, ps).out)
  {
    if ps != [] {
      hide Contribution;
      var n := |ps| - 1;
      PointsHaveData(lim, device, s, ps[..n]);
      var x := AdoptPoints(lim, device, s, ps[..n]);
      CutHasData(lim, device, Charge(AddPoint(x, ps[n]), Contribution(x, ps[n])), Contribution(x, ps[n]));
    }
  }

  lemma {:induction false} EntriesHaveData(lim: Limits, device: Name, s: Adopted, es: seq<Entry>)
    requires Indexed(s) && AllHaveData(s.out)
    ensures AllHaveData(AdoptEntries(lim, device, s, es).out)
  {
    if es != [] {
      var n := |es| - 1;
      EntriesHaveData(lim, device, s, es[..n]);
      PointsHaveData(lim, device, AdoptEntries(lim, device, s, es[..n]), PointsOf(es[n].ts, es[n].values));
    }
  }

  // No record without a value is stored, unless an object of attributes has none itself; there
  // is none at all for a reading without values.
  lemma RecordsHaveData(lim: Limits, device: Name, os: seq<Object>, es: seq<Entry>)
    requires [] !in os
    ensures AllHaveData(Split(lim, device, os, es))
    ensures os == [] && (forall e | e in es :: e.values == []) ==> Split(lim, device, os, es) == []
  {
    AttributesHaveData(lim, device, os);
    EntriesHaveData(lim, device, AdoptAttributes(lim, device, Start(lim), os), es);
    if os == [] && forall e | e in es :: e.values == [] { NothingAdopted(lim, device, es); }
  }

  lemma {:induction false} NothingAdopted(lim: Limits, device: Name, es: seq<Entry>)
    requires forall e | e in es :: e.values == []
    ensures AdoptEntries(lim, device, Start(lim), es) == Start(lim)
  {
    if es != [] {
      var n := |es| - 1;
      assert es[n] in es;
      NothingAdopted(lim, device, es[..n]);
    }
  }

  // ---------- What stops the splitter ----------

  // Storing a reading raises if and only if the validation does, or it passes and has an
  // unreadable item, or is long enough to be split and has a null for values, a listed
  // attribute that is no object, or attributes given as one object.
  lemma RaisesExactly(c: Config, r: Reading)
    ensures Raises(c, r) <==>
      Validation(c, r) == Raised
      || (Validation(c, r) == Passed
          && ((exists p :: p in r.telemetry && p == Unreadable)
              || (ReadingSize(r) >= c.max
                  && ((exists p :: p in r.telemetry && p.NullValues?)
                      || (r.attributes.Listed? && exists p :: p in r.attributes.parts && p.Improper?)
                      || (r.attributes.Whole? && |r.attributes.members| > 0)))))
  {
    hide Validation, ReadingText, ReadingSize, HasHole;
    ReadingTextSize(r);
    HolesExactly(r);
  }

  lemma {:induction false} RawTimedPrefix(ps: seq<RawPart>, n: nat)
    requires n <= |ps|
    ensures RawTimed(ps[..n]) <= RawTimed(ps)
  {
    if n == |ps| {
      assert ps[..n] == ps;
    } else {
      RawTimedPrefix(ps[..|ps| - 1], n);
      assert ps[..|ps| - 1][..n] == ps[..n];
    }
  }

  lemma FirstNullIs(es: seq<RawEntry>, n: nat)
    requires n < |es| && es[n].values == None && forall k | 0 <= k < n :: es[k].values.Some?
    ensures FirstNull(es) == n
  {}

  lemma {:induction false} NoNulls(ps: seq<RawPart>)
    requires forall k | 0 <= k < |ps| :: !ps[k].NullValues?
    ensures forall k | 0 <= k < |RawTimed(ps)| :: RawTimed(ps)[k].values.Some?
  {
    if ps != [] { NoNulls(ps[..|ps| - 1]); }
  }

  lemma ReadableTelemetry(r: Reading, n: nat)
    requires n < |r.telemetry| && r.telemetry[n].NullValues?
    requires forall k | 0 <= k < n :: !r.telemetry[k].NullValues?
    ensures Entries(RawTelemetry(r)[..FirstNull(RawTelemetry(r))]) == WithTs(Items(r.telemetry[..n]))
  {
    var ps := r.telemetry;
    var before := RawTimed(ps[..n]);
    assert ps[..n + 1][..n] == ps[..n];
    assert RawTimed(ps[..n + 1]) == before + [RawEntry(ps[n].ts, None)];
    RawTimedPrefix(ps, n + 1);
    assert RawTimed(ps)[..|before|] == before;
    NoNulls(ps[..n]);
    assert forall k | 0 <= k < |before| :: RawTimed(ps)[k] == before[k];
    FirstNullIs(RawTimed(ps), |before|);
    RawTimedEntries(ps[..n]);
  }

  // Of a list of attributes the splitter takes those before the first that is no object, and,
  // if there is none, of the telemetry the items before the first without values.
  lemma SplitterTakesExactly(r: Reading, k: nat, n: nat)
    requires r.attributes.Listed? && k <= |r.attributes.parts| && n <= |r.telemetry|
    requires (forall j | 0 <= j < k :: r.attributes.parts[j].Proper?)
             && (k < |r.attributes.parts| ==> r.attributes.parts[k].Improper?)
    requires (forall j | 0 <= j < n :: !r.telemetry[j].NullValues?)
             && (n < |r.telemetry| ==> r.telemetry[n].NullValues?)
    ensures |SplitObjects(r.attributes)| == k
    ensures forall j | 0 <= j < k :: SplitObjects(r.attributes)[j] == r.attributes.parts[j].members
    ensures SplitEntries(r) ==
      if k < |r.attributes.parts| then []
      else if n < |r.telemetry| then WithTs(Items(r.telemetry[..n]))
      else Converted(r).Entries()
  {
    var parts := r.attributes.parts;
    assert FirstBad(parts) == k;
    if k == |parts| {
      if n < |r.telemetry| {
        ReadableTelemetry(r, n);
      } else {
        HolesExactly(r);
        assert forall p | p in r.telemetry :: !p.NullValues?;
        ReadableEntries(r, |RawTelemetry(r)|);
      }
    }
  }
}
