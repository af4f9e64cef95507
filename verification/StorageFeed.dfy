// Filling the event storage: what each reading of a batch becomes in the storage, and which
// readings never get there.
module StorageFeed {
  import opened Options
  import opened PyDict
  import opened Platform
  import opened JsonLists
  import opened StoredTexts
  import opened JsonTexts
  import opened TelemetryNormaliser
  import opened PackSplitter
  import opened Sequences

  // A telemetry item as it arrives: as it should be, with a timestamp but null for its
  // values, or of no use: no object, or an object with a timestamp and without values.
  datatype RawPart = Readable(item: RawItem) | NullValues(ts: int) | Unreadable

  // `around` is the text of the reading around its attributes and its telemetry, with all its
  // other members, `record` that of the records the splitter makes of it, `now` the clock when
  // the reading is normalised.
  datatype Reading = Reading(device: Name, attributes: Attributes, telemetry: seq<RawPart>,
                             around: Frame, record: Frame, now: int)

  // `own` says that the gateway itself is the source.
  datatype Config = Config(own: bool, max: nat, renamed: Dict<Name, Name>)

  // A reading with the settings, and the rename map, under which it is stored.
  datatype Given = Given(config: Config, reading: Reading)

  const GATEWAY_DEVICE: Name := "currentThingsBoardGateway"

  // ---------- Validation ----------

  datatype Verdict = Passed | Refused | Raised

  // The item shows that the reading has telemetry.
  predicate Counts(p: RawPart) { p.Readable? && (p.item.Untimed? || p.item.values != []) }

  // The items in order, up to the first that counts; asking for the number of values that
  // are not there raises.
  function Scan(ps: seq<RawPart>): Verdict {
    if ps == [] then Refused
    else if Counts(ps[0]) then Passed
    else if !ps[0].Readable? then Raised
    else Scan(ps[1..])
  }

  predicate NoAttributes(a: Attributes) { match a case Listed(os) => os == [] case Whole(o) => o == [] }

  function Validation(c: Config, r: Reading): Verdict {
    if c.own then Passed
    else if Scan(r.telemetry) == Raised then Raised
    else if r.device != "" && (!NoAttributes(r.attributes) || Scan(r.telemetry) == Passed) then Passed
    else Refused
  }

  // ---------- The parts of a reading ----------

  // An item without values writes nothing.
  function ItemOf(p: RawPart): RawItem {
    match p
    case Readable(item) => item
    case NullValues(ts) => Timed(ts, [])
    case Unreadable => Untimed([])
  }

  function Items(ps: seq<RawPart>): (r: seq<RawItem>)
    ensures |r| == |ps| && forall k | 0 <= k < |ps| :: r[k] == ItemOf(ps[k])
  {
    seq(|ps|, k requires 0 <= k < |ps| => ItemOf(ps[k]))
  }

  function Converted(r: Reading): Telemetry { Normalised(Items(r.telemetry), r.now) }

  function RawTimed(ps: seq<RawPart>): seq<RawEntry> {
    if ps == [] then []
    else
      var init := RawTimed(ps[..|ps| - 1]);
      match ps[|ps| - 1]
      case Readable(Untimed(_)) => init
      case Readable(Timed(ts, values)) => init + [RawEntry(ts, Some(values))]
      case Readable(BadTs(clock, values)) => init + [RawEntry(clock, Some(values))]
      case NullValues(ts) => init + [RawEntry(ts, None)]
      case Unreadable => init
  }

  // The converted telemetry, null where the values are.
  function RawTelemetry(r: Reading): seq<RawEntry> {
    if RawTimed(r.telemetry) != [] then RawTimed(r.telemetry)
    else if r.telemetry != [] then [RawEntry(r.now, Some(Merged(Items(r.telemetry))))]
    else []
  }

  lemma {:induction false} RawTimedEntries(ps: seq<RawPart>)
    ensures Entries(RawTimed(ps)) == WithTs(Items(ps))
  {
    if ps != [] {
      var n := |ps| - 1;
      RawTimedEntries(ps[..n]);
      assert Items(ps)[..n] == Items(ps[..n]);
    }
  }

  // But for that it is what the normaliser yields.
  lemma RawIsConverted(r: Reading)
    ensures Entries(RawTelemetry(r)) == Converted(r).Entries()
  {
    RawTimedEntries(r.telemetry);
  }

  predicate HasUnreadable(r: Reading) { exists p | p in r.telemetry :: p == Unreadable }

  // A part at which reading the values raises.
  predicate HasHole(r: Reading) { HasNull(RawTelemetry(r)) || HasBad(r.attributes) }

  // The splitter takes the attributes for a list, and raises at the first name of an object.
  predicate HasNames(r: Reading) { r.attributes.Whole? && r.attributes.members != [] }

  // Items without a timestamp become one entry, not a list of them.
  function TelemetryText(r: Reading): string {
    match Converted(r)
    case List(_) => ListText(EntryTexts(RawTelemetry(r)))
    case Single(e) => EntryText(e.ts, ObjectText(e.values))
  }

  // The JSON text of the reading once it is normalised.
  function ReadingText(r: Reading): string {
    r.around.Around(AttributesText(r.attributes), TelemetryText(r))
  }

  predicate TooLong(c: Config, r: Reading) { |ReadingText(r)| >= c.max }

  function LimitsOf(c: Config, r: Reading): Limits { Limits(r.record.Size(), c.max) }

  // Storing and grouping the reading will both come to their end.
  predicate WellFormed(c: Config, r: Reading) {
    !HasUnreadable(r) && !HasHole(r) && !(HasNames(r) && TooLong(c, r))
  }

  // ---------- What a reading becomes ----------

  function Address(c: Config, r: Reading): Name {
    if c.own then GATEWAY_DEVICE
    else match Get(c.renamed, r.device) case Some(name) => name case None => r.device
  }

  function PacksOf(es: seq<Emitted>): seq<Pack> {
    if es == [] then [] else PacksOf(es[..|es| - 1]) + [es[|es| - 1].pack]
  }

  function Events(ps: seq<Pack>): (r: seq<StoredEvent>)
    ensures |r| == |ps| && forall k | 0 <= k < |ps| :: r[k] == Event(ps[k])
  {
    seq(|ps|, k requires 0 <= k < |ps| => Event(ps[k]))
  }

  function TextsOf(ps: seq<Pack>): (r: seq<Text>)
    ensures |r| == |ps| && forall k | 0 <= k < |ps| :: r[k] == TextOf(ps[k])
  {
    seq(|ps|, k requires 0 <= k < |ps| => TextOf(ps[k]))
  }

  // The attributes and entries that the splitter gets through: none once it has raised.
  function SplitObjects(a: Attributes): seq<Object> { if a.Listed? then ObjectsBefore(a) else [] }

  function SplitEntries(r: Reading): seq<Entry> {
    if HasNames(r) || HasBad(r.attributes) then []
    else Entries(RawTelemetry(r)[..FirstNull(RawTelemetry(r))])
  }

  lemma ReadableEntries(r: Reading, n: nat)
    requires n <= |RawTelemetry(r)|
    ensures |Converted(r).Entries()| == |RawTelemetry(r)|
    ensures Converted(r).Entries()[..n] == Entries(RawTelemetry(r)[..n])
  {
    RawIsConverted(r);
  }

  // What it has cut off when it raises is stored.
  function CutBefore(c: Config, r: Reading): seq<Emitted> {
    Adopt(LimitsOf(c, r), Address(c, r), SplitObjects(r.attributes), SplitEntries(r)).out
  }

  // A reading that is not split is stored as it is, with its holes.
  function WholeText(c: Config, r: Reading): Text { Text(Address(c, r), r.attributes, RawTelemetry(r)) }

  function TextsFor(c: Config, r: Reading): seq<Text> {
    if Validation(c, r) != Passed || HasUnreadable(r) then []
    else if !TooLong(c, r) then [WholeText(c, r)]
    else if HasHole(r) || HasNames(r) then TextsOf(PacksOf(CutBefore(c, r)))
    else TextsOf(PacksOf(Split(LimitsOf(c, r), Address(c, r), SplitObjects(r.attributes), SplitEntries(r))))
  }

  // The events they are for the grouping.
  function StoredFor(c: Config, r: Reading): seq<StoredEvent> { EventsOf(TextsFor(c, r)) }

  // Storing the reading raises, in the validation, the normalisation or the splitter.
  predicate Raises(c: Config, r: Reading) {
    Validation(c, r) == Raised ||
    (Validation(c, r) == Passed && (HasUnreadable(r) || ((HasHole(r) || HasNames(r)) && TooLong(c, r))))
  }

  function TextsForAll(given: seq<Given>): seq<Text> {
    if given == [] then []
    else TextsForAll(given[..|given| - 1]) + TextsFor(given[|given| - 1].config, given[|given| - 1].reading)
  }

  function StoredForAll(given: seq<Given>): seq<StoredEvent> {
    if given == [] then []
    else StoredForAll(given[..|given| - 1]) + StoredFor(given[|given| - 1].config, given[|given| - 1].reading)
  }

  lemma {:induction false} TextsAreEvents(given: seq<Given>)
    ensures EventsOf(TextsForAll(given)) == StoredForAll(given)
  {
    if given != [] {
      hide TextsFor, EventsOf;
      var n := |given| - 1;
      TextsAreEvents(given[..n]);
      EventsOfConcat(TextsForAll(given[..n]), TextsFor(given[n].config, given[n].reading));
    } else {
      assert EventsOf([]) == [];
    }
  }

  lemma EventsOfConcat(a: seq<Text>, b: seq<Text>)
    ensures EventsOf(a + b) == EventsOf(a) + EventsOf(b)
  {
    hide EventOf;
  }

  // How many readings are looked at: none behind the first that raises.
  function Reached(given: seq<Given>): (n: nat)
    ensures n <= |given|
    ensures forall k | 0 <= k < n - 1 :: !Raises(given[k].config, given[k].reading)
    ensures n < |given| ==> n > 0 && Raises(given[n - 1].config, given[n - 1].reading)
  {
    if given == [] then 0
    else if Raises(given[0].config, given[0].reading) then 1
    else 1 + Reached(given[1..])
  }

  function AllGiven(c: Config, rs: seq<Reading>): (given: seq<Given>)
    ensures |given| == |rs| && forall k | 0 <= k < |rs| :: given[k] == Given(c, rs[k])
  {
    seq(|rs|, k requires 0 <= k < |rs| => Given(c, rs[k]))
  }

  // The readings one connector handed over at once.
  datatype Task = Task(config: Config, readings: seq<Reading>)

  function Flat(tasks: seq<Task>): seq<Given> {
    if tasks == [] then []
    else Flat(tasks[..|tasks| - 1]) + AllGiven(tasks[|tasks| - 1].config, tasks[|tasks| - 1].readings)
  }

  // ---------- Batches ----------

  predicate SomeRaises(given: seq<Given>) {
    exists k :: 0 <= k < |given| && Raises(given[k].config, given[k].reading)
  }

  lemma {:induction false} TextsForAllConcat(a: seq<Given>, b: seq<Given>)
    ensures TextsForAll(a + b) == TextsForAll(a) + TextsForAll(b)
  {
    hide TextsFor;
    if b == [] {
      assert a + b == a;
    } else {
      TextsForAllConcat(a, b[..|b| - 1]);
      assert (a + b)[..|a + b| - 1] == a + b[..|b| - 1];
    }
  }

  lemma TextsForAllSnoc(given: seq<Given>, n: nat)
    requires n < |given|
    ensures TextsForAll(given[..n + 1]) == TextsForAll(given[..n]) + TextsFor(given[n].config, given[n].reading)
  {
    assert given[..n + 1][..n] == given[..n];
  }

  // The first reading that raises is the last one reached.
  lemma {:induction false} ReachedIs(given: seq<Given>, n: nat)
    requires n <= |given| && forall k | 0 <= k < n - 1 :: !Raises(given[k].config, given[k].reading)
    requires n < |given| ==> n > 0 && Raises(given[n - 1].config, given[n - 1].reading)
    ensures Reached(given) == n
  {
    hide Raises;
  }

  lemma ReachedConcat(a: seq<Given>, b: seq<Given>)
    ensures Reached(a + b) == if SomeRaises(a) then Reached(a) else |a| + Reached(b)
    ensures SomeRaises(a + b) <==> SomeRaises(a) || SomeRaises(b)
  {
    hide Raises;
    assert forall k | 0 <= k < |a| :: (a + b)[k] == a[k];
    assert forall k | 0 <= k < |b| :: (a + b)[|a| + k] == b[k];
    if SomeRaises(a) {
      var k :| 0 <= k < |a| && Raises(a[k].config, a[k].reading);
      assert Raises((a + b)[k].config, (a + b)[k].reading);
      ReachedIs(a + b, Reached(a));
    } else {
      forall k | 0 <= k < |a| + Reached(b) - 1 ensures !Raises((a + b)[k].config, (a + b)[k].reading) {
        if k < |a| { assert (a + b)[k] == a[k]; } else { assert (a + b)[k] == b[k - |a|]; }
      }
      ReachedIs(a + b, |a| + Reached(b));
      if SomeRaises(a + b) {
        var k :| 0 <= k < |a + b| && Raises((a + b)[k].config, (a + b)[k].reading);
        if k >= |a| { assert Raises(b[k - |a|].config, b[k - |a|].reading); }
      }
    }
  }

  class Feed {
    var stored: seq<Text>

    constructor ()
      ensures stored == []
    {
      stored := [];
    }

    // The thread that fills the storage takes a number of tasks from the queue; a reading
    // that raises ends the loop over them.
    method StoreTasks(tasks: seq<Task>) returns (raised: bool)
      modifies this
      ensures raised <==> SomeRaises(Flat(tasks))
      ensures stored == old(stored) + TextsForAll(Flat(tasks)[..Reached(Flat(tasks))])
    {
      raised := false;
      for n := 0 to |tasks|
        invariant !raised && !SomeRaises(Flat(tasks[..n]))
        invariant stored == old(stored) + TextsForAll(Flat(tasks[..n]))
      {
        FlatSnoc(tasks, n);
        StoredSoFar(old(stored), Flat(tasks[..n]), AllGiven(tasks[n].config, tasks[n].readings));
        raised := StoreReadings(tasks[n].config, tasks[n].readings);
        if raised {
          FlatStops(tasks, n + 1);
          return;
        }
      }
      assert tasks[..|tasks|] == tasks;
      AllAreReached(Flat(tasks));
    }

    method StoreReadings(c: Config, rs: seq<Reading>) returns (raised: bool)
      modifies this
      ensures raised <==> SomeRaises(AllGiven(c, rs))
      ensures stored == old(stored) + TextsForAll(AllGiven(c, rs)[..Reached(AllGiven(c, rs))])
    {
      hide Raises, TextsFor, Reached, TextsForAll;
      ghost var given := AllGiven(c, rs);
      raised := false;
      NothingStored(given);
      for n := 0 to |rs|
        invariant !raised && forall k | 0 <= k < n :: !Raises(given[k].config, given[k].reading)
        invariant stored == old(stored) + TextsForAll(given[..n])
      {
        StoredOneMore(old(stored), given, n);
        raised := StoreReading(c, rs[n]);
        if raised { return; }
      }
      assert given[..|rs|] == given;
      AllAreReached(given);
    }

    // Checks one reading, stores it whole or in pieces, or raises half-way.
    method StoreReading(c: Config, r: Reading) returns (raised: bool)
      modifies this
      ensures raised <==> Raises(c, r)
      ensures stored == old(stored) + TextsFor(c, r)
    {
      var verdict := Validate(c, r);
      if verdict == Raised { return true; }
      if verdict == Refused { return false; }
      if Unreadable in r.telemetry { return true; }
      var telemetry := ConvertTelemetryToTs(Items(r.telemetry), r.now);
      if |ReadingText(r)| < c.max {
        stored := stored + [WholeText(c, r)];
        return false;
      }
      var readable := if HasNames(r) || HasBad(r.attributes) then 0 else FirstNull(RawTelemetry(r));
      ReadableEntries(r, readable);
      var adopted := AdoptReading(LimitsOf(c, r), Address(c, r), SplitObjects(r.attributes),
                                  telemetry.Entries()[..readable]);
      raised := HasHole(r) || HasNames(r);
      StoreRecords(if raised then adopted.out else Flush(Address(c, r), adopted));
    }

    method StoreRecords(records: seq<Emitted>)
      modifies this
      ensures stored == old(stored) + TextsOf(PacksOf(records))
    {
      for n := 0 to |records|
        invariant stored == old(stored) + TextsOf(PacksOf(records[..n]))
      {
        RecordsSnoc(records, n);
        stored := stored + [TextOf(records[n].pack)];
      }
      assert records[..|records|] == records;
    }
  }

  method Validate(c: Config, r: Reading) returns (verdict: Verdict)
    ensures verdict == Validation(c, r)
  {
    if c.own { return Passed; }
    var gotTelemetry := false;
    for n := 0 to |r.telemetry|
      invariant !gotTelemetry && Scan(r.telemetry) == Scan(r.telemetry[n..])
    {
      var p := r.telemetry[n];
      assert r.telemetry[n..][0] == p && r.telemetry[n..][1..] == r.telemetry[n + 1..];
      if Counts(p) {
        gotTelemetry := true;
        break;
      }
      if !p.Readable? { return Raised; }
    }
    return if r.device != "" && (!NoAttributes(r.attributes) || gotTelemetry) then Passed else Refused;
  }

  lemma NothingStored(given: seq<Given>)
    ensures TextsForAll(given[..0]) == []
  {}

  lemma StoredOneMore(before: seq<Text>, given: seq<Given>, n: nat)
    requires n < |given| && forall k | 0 <= k < n :: !Raises(given[k].config, given[k].reading)
    ensures before + TextsForAll(given[..n]) + TextsFor(given[n].config, given[n].reading)
         == before + TextsForAll(given[..n + 1])
    ensures Raises(given[n].config, given[n].reading) ==> SomeRaises(given) && Reached(given) == n + 1
  {
    hide Raises, TextsFor;
    TextsForAllSnoc(given, n);
    Associative(before, TextsForAll(given[..n]), TextsFor(given[n].config, given[n].reading));
    if Raises(given[n].config, given[n].reading) { ReachedIs(given, n + 1); }
  }

  lemma RecordsSnoc(records: seq<Emitted>, n: nat)
    requires n < |records|
    ensures TextsOf(PacksOf(records[..n + 1])) == TextsOf(PacksOf(records[..n])) + [TextOf(records[n].pack)]
  {
    assert records[..n + 1][..n] == records[..n];
  }

  lemma FlatSnoc(tasks: seq<Task>, n: nat)
    requires n < |tasks|
    ensures Flat(tasks[..n + 1]) == Flat(tasks[..n]) + AllGiven(tasks[n].config, tasks[n].readings)
  {
    assert tasks[..n + 1][..n] == tasks[..n];
  }

  // What is stored after one more task, up to the first reading that raises.
  lemma StoredSoFar(before: seq<Text>, a: seq<Given>, b: seq<Given>)
    requires !SomeRaises(a)
    ensures SomeRaises(a + b) <==> SomeRaises(b)
    ensures before + TextsForAll(a) + TextsForAll(b[..Reached(b)])
         == before + TextsForAll((a + b)[..Reached(a + b)])
    ensures !SomeRaises(b) ==> (a + b)[..Reached(a + b)] == a + b
  {
    hide Raises, TextsForAll;
    ReachedConcat(a, b);
    assert (a + b)[..|a| + Reached(b)] == a + b[..Reached(b)];
    TextsForAllConcat(a, b[..Reached(b)]);
    Associative(before, TextsForAll(a), TextsForAll(b[..Reached(b)]));
    if !SomeRaises(b) { AllAreReached(b); }
  }

  lemma AllAreReached(given: seq<Given>)
    requires !SomeRaises(given)
    ensures given[..Reached(given)] == given
  {}

  // The tasks behind one with a reading that raises add nothing.
  lemma {:induction false} FlatStops(tasks: seq<Task>, n: nat)
    requires n <= |tasks| && SomeRaises(Flat(tasks[..n]))
    ensures SomeRaises(Flat(tasks))
    ensures Flat(tasks)[..Reached(Flat(tasks))] == Flat(tasks[..n])[..Reached(Flat(tasks[..n]))]
  {
    hide Raises, SomeRaises;
    if n == |tasks| {
      assert tasks[..n] == tasks;
    } else {
      var m := |tasks| - 1;
      assert tasks[..m][..n] == tasks[..n];
      FlatStops(tasks[..m], n);
      ReachedConcat(Flat(tasks[..m]), AllGiven(tasks[m].config, tasks[m].readings));
    }
  }

  // ---------- Malformed readings ----------

  // Validation raises if and only if an item without readable values comes before every
  // item that counts.
  lemma {:induction false} ScanRaisesExactly(ps: seq<RawPart>)
    ensures Scan(ps) == Raised <==>
      exists k :: 0 <= k < |ps| && !ps[k].Readable? && forall j | 0 <= j < k :: !Counts(ps[j])
  {
    if ps != [] {
      ScanRaisesExactly(ps[1..]);
      if Scan(ps[1..]) == Raised && !Counts(ps[0]) {
        var k :| 0 <= k < |ps| - 1 && !ps[1..][k].Readable? && forall j | 0 <= j < k :: !Counts(ps[1..][j]);
        forall j | 0 <= j < k + 1 ensures !Counts(ps[j]) { if j > 0 { assert !Counts(ps[1..][j - 1]); } }
        assert !ps[k + 1].Readable?;
      }
      if k :| 0 <= k < |ps| && !ps[k].Readable? && forall j | 0 <= j < k :: !Counts(ps[j]) {
        if k > 0 {
          assert !Counts(ps[0]);
          assert !ps[1..][k - 1].Readable?;
          forall j | 0 <= j < k - 1 ensures !Counts(ps[1..][j]) { assert !Counts(ps[j + 1]); }
        } else {
          assert !Counts(ps[0]);
        }
      }
    }
  }

  lemma {:induction false} PassedScan(ps: seq<RawPart>)
    requires Scan(ps) == Passed
    ensures exists p :: p in ps && Counts(p)
  {
    if !Counts(ps[0]) {
      PassedScan(ps[1..]);
      var p :| p in ps[1..] && Counts(p);
      assert p in ps;
    }
  }

  // An item that shows telemetry: without a timestamp, or with one and with some value.
  predicate ShowsTelemetry(p: RawPart) {
    match p case Readable(Untimed(_)) => true case Readable(item) => item.values != [] case _ => false
  }

  // An item that has a timestamp, and no values to count, comes before all that show telemetry.
  predicate Trips(ps: seq<RawPart>) {
    exists k :: 0 <= k < |ps| && !ps[k].Readable? && forall j | 0 <= j < k :: !ShowsTelemetry(ps[j])
  }

  // The gateway's own readings pass. Others raise if a tripping item comes first, and of the
  // rest exactly those pass that have a name, and an attribute or an item of telemetry; what is
  // refused is not stored.
  lemma ValidationExactly(c: Config, r: Reading)
    ensures Validation(c, r) == Raised <==> !c.own && Trips(r.telemetry)
    ensures Validation(c, r) == Passed <==>
      c.own || (!Trips(r.telemetry) && r.device != ""
                && ((match r.attributes case Listed(parts) => |parts| > 0 case Whole(o) => |o| > 0)
                    || exists p :: p in r.telemetry && ShowsTelemetry(p)))
    ensures Validation(c, r) != Passed ==> TextsFor(c, r) == []
  {
    var ps := r.telemetry;
    assert forall p :: ShowsTelemetry(p) == Counts(p);
    ScanRaisesExactly(ps);
    if Scan(ps) == Passed { PassedScan(ps); } else if Scan(ps) == Refused { RefusedScan(ps); }
  }

  // A part has a hole if and only if an item has null for its values, or a listed attribute
  // is no object.
  lemma HolesExactly(r: Reading)
    ensures HasHole(r) <==>
      (exists p | p in r.telemetry :: p.NullValues?)
      || (r.attributes.Listed? && exists p | p in r.attributes.parts :: p.Improper?)
  {
    NullsExactly(r.telemetry);
  }

  lemma {:induction false} NullsExactly(ps: seq<RawPart>)
    ensures HasNull(RawTimed(ps)) <==> exists p | p in ps :: p.NullValues?
  {
    if ps != [] {
      var n := |ps| - 1;
      NullsExactly(ps[..n]);
      assert ps == ps[..n] + [ps[n]];
      var es := RawTimed(ps);
      if FirstNull(RawTimed(ps[..n])) < |RawTimed(ps[..n])| {
        assert es[FirstNull(RawTimed(ps[..n]))].values == None;
      }
      if ps[n].NullValues? { assert es[|es| - 1].values == None; }
    }
  }

  // The pieces of a reading without malformed parts.
  function Pieces(c: Config, r: Reading): seq<Pack> {
    if TooLong(c, r)
    then PacksOf(Split(LimitsOf(c, r), Address(c, r), SplitObjects(r.attributes), Converted(r).Entries()))
    else [PackOf(WholeText(c, r))]
  }

  lemma TextsOfEvents(ps: seq<Pack>)
    ensures EventsOf(TextsOf(ps)) == Events(ps)
  {}

  lemma WellFormedPieces(c: Config, r: Reading)
    requires Validation(c, r) == Passed && WellFormed(c, r)
    ensures StoredFor(c, r) == Events(Pieces(c, r))
  {
    RawIsConverted(r);
    var raw := RawTelemetry(r);
    assert raw[..|raw|] == raw;
    if TooLong(c, r) { TextsOfEvents(Pieces(c, r)); }
  }

  // A reading puts an event into the storage at which the grouping will raise if and only
  // if it passes the validation, all its items are readable, some part has a hole, and it
  // is too short to be split.
  lemma BlocksExactly(c: Config, r: Reading)
    ensures (exists e | e in StoredFor(c, r) :: e.Halts())
       <==> Validation(c, r) == Passed && !HasUnreadable(r) && HasHole(r) && !TooLong(c, r)
  {
    hide Validation, HasUnreadable, TooLong, CutBefore, RawTelemetry, Split;
    TextsOfEvents(PacksOf(CutBefore(c, r)));
    TextsOfEvents(PacksOf(Split(LimitsOf(c, r), Address(c, r), SplitObjects(r.attributes), SplitEntries(r))));
    if Validation(c, r) == Passed && !HasUnreadable(r) && !TooLong(c, r) {
      var e := EventOf(WholeText(c, r));
      assert StoredFor(c, r) == [e] && StoredFor(c, r)[0] == e;
      assert e.Halts() <==> HasHole(r);
    }
  }

  // Of the readings that pass the validation exactly the malformed ones do harm: they
  // raise, and what is behind them is lost, or they block the storage.
  lemma HarmsExactly(c: Config, r: Reading)
    requires Validation(c, r) == Passed
    ensures Raises(c, r) || (exists e | e in StoredFor(c, r) :: e.Halts()) <==> !WellFormed(c, r)
  {
    BlocksExactly(c, r);
  }

  // ---------- What a reading means ----------

  // The values a connector handed over, each under the timestamp it should get.
  function ReadingAt(r: Reading, i: Item): Option<Json> {
    Over(AttributesAt(Objects(r.attributes), i), TelemetryAt(Stamped(Items(r.telemetry), r.now), i))
  }

  // The values with a timestamp and the attributes alone.
  function TimedAt(r: Reading, i: Item): Option<Json> {
    Over(AttributesAt(Objects(r.attributes), i), TelemetryAt(WithTs(Items(r.telemetry)), i))
  }

  // What of the readable parts the gateway is to keep, before it splits anything.
  function WholePack(c: Config, r: Reading): Pack { PackOf(WholeText(c, r)) }

  // That is all their values, or, if items with and without timestamp are mixed, those
  // that have one and the attributes.
  lemma WholePackMeaning(c: Config, r: Reading, i: Item)
    ensures PackAt(WholePack(c, r), i) == if Mixed(Items(r.telemetry)) then TimedAt(r, i) else ReadingAt(r, i)
  {
    RawIsConverted(r);
    WithTsEmpty(Items(r.telemetry));
    if !Mixed(Items(r.telemetry)) { UnmixedKeeps(Items(r.telemetry), r.now, i); }
  }

  lemma {:induction false} PacksOfAt(es: seq<Emitted>, i: Item)
    ensures PacksAt(PacksOf(es), i) == EmittedAt(es, i)
  {
    if es != [] {
      PacksOfAt(es[..|es| - 1], i);
      assert PacksOf(es)[..|PacksOf(es)| - 1] == PacksOf(es[..|es| - 1]);
    }
  }

  lemma SinglePack(p: Pack, i: Item)
    ensures PacksAt([p], i) == PackAt(p, i)
  {
    assert [p][..0] == [];
  }

  lemma {:induction false} PacksOfMembers(es: seq<Emitted>)
    ensures forall p | p in PacksOf(es) :: exists e | e in es :: e.pack == p
  {
    if es != [] {
      PacksOfMembers(es[..|es| - 1]);
      assert forall e | e in es[..|es| - 1] :: e in es;
      assert es[|es| - 1] in es;
    }
  }

  lemma TextsUnderOneName(c: Config, r: Reading)
    ensures forall t | t in TextsFor(c, r) :: t.device == Address(c, r)
  {
    hide Adopt, Validation, RawTelemetry, Split, TooLong, SplitObjects, SplitEntries, HasHole, HasNames, Address;
    CutUnderOneName(LimitsOf(c, r), Address(c, r), SplitObjects(r.attributes), SplitEntries(r));
    forall t | t in TextsFor(c, r) ensures t.device == Address(c, r) {
      if t != WholeText(c, r) { assert PackOf(t).device == t.device; }
    }
  }

  // Every record of a reading is stored under the name the platform knows.
  lemma StoredUnderOneName(c: Config, r: Reading)
    ensures forall e | e in StoredFor(c, r) :: e.Named() && e.pack.device == Address(c, r)
  {
    hide TextsFor, Address;
    TextsUnderOneName(c, r);
  }

  // What is cut off is part of what a splitter that comes to its end emits.
  lemma CutUnderOneName(lim: Limits, device: Name, os: seq<Object>, es: seq<Entry>)
    ensures forall p | p in PacksOf(Split(lim, device, os, es)) :: p.device == device
    ensures forall p | p in PacksOf(Adopt(lim, device, os, es).out) :: p.device == device
  {
    TrackedSizeMissesOnlyCommas(lim, device, os, es);
    var all, part := Split(lim, device, os, es), Adopt(lim, device, os, es).out;
    assert forall e | e in part :: e in all;
    PacksOfMembers(all);
    PacksOfMembers(part);
  }

  lemma PiecesUnderOneName(c: Config, r: Reading)
    ensures forall p | p in Pieces(c, r) :: p.device == Address(c, r)
  {
    CutUnderOneName(LimitsOf(c, r), Address(c, r), SplitObjects(r.attributes), Converted(r).Entries());
  }

  lemma SplitObjectsMeaning(a: Attributes, i: Item)
    requires !HasBad(a) && (a.Whole? ==> a.members == [])
    ensures AttributesAt(SplitObjects(a), i) == AttributesAt(Objects(a), i)
  {
    if a.Listed? {
      assert a.parts[..|a.parts|] == a.parts;
    } else {
      assert [a.members][..0] == [];
    }
  }

  // Whole or split, an accepted reading without malformed parts is stored as records that,
  // applied in storage order, write at each place exactly what the connector handed
  // over, unless its telemetry is mixed; then the values without timestamp are gone.
  lemma StoredReadingMeaning(c: Config, r: Reading)
    requires Validation(c, r) == Passed && WellFormed(c, r)
    ensures StoredFor(c, r) == Events(Pieces(c, r))
    ensures !Mixed(Items(r.telemetry)) ==> forall i :: PacksAt(Pieces(c, r), i) == ReadingAt(r, i)
    ensures Mixed(Items(r.telemetry)) ==> forall i :: PacksAt(Pieces(c, r), i) == TimedAt(r, i)
  {
    WellFormedPieces(c, r);
    forall i ensures PacksAt(Pieces(c, r), i) ==
                       if Mixed(Items(r.telemetry)) then TimedAt(r, i) else ReadingAt(r, i)
    {
      hide HasUnreadable, RawTelemetry, Mixed, Stamped, Validation;
      WholePackMeaning(c, r, i);
      PiecesMeaning(c, r, i);
    }
  }

  lemma PiecesMeaning(c: Config, r: Reading, i: Item)
    requires !HasHole(r) && !(HasNames(r) && TooLong(c, r))
    ensures PacksAt(Pieces(c, r), i) == PackAt(WholePack(c, r), i)
  {
    hide RawTelemetry, TooLong;
    RawIsConverted(r);
    SinglePack(WholePack(c, r), i);
    if TooLong(c, r) {
      var lim, os, es := LimitsOf(c, r), SplitObjects(r.attributes), Converted(r).Entries();
      SplittingKeepsMeaning(lim, Address(c, r), os, es);
      PacksOfAt(Split(lim, Address(c, r), os, es), i);
      SplitObjectsMeaning(r.attributes, i);
    }
  }

  lemma {:induction false} RefusedScan(ps: seq<RawPart>)
    requires Scan(ps) == Refused
    ensures forall k | 0 <= k < |ps| :: ps[k].Readable? && !Counts(ps[k])
  {
    if ps != [] {
      RefusedScan(ps[1..]);
      forall k | 0 <= k < |ps| ensures ps[k].Readable? && !Counts(ps[k]) {
        if k > 0 { assert ps[k] == ps[1..][k - 1]; }
      }
    }
  }

  // A named reading that is refused holds nothing that could be written.
  lemma RefusedReadingIsEmpty(c: Config, r: Reading)
    requires Validation(c, r) == Refused && r.device != ""
    ensures WellFormed(c, r) && forall i :: ReadingAt(r, i) == None
  {
    RefusedScan(r.telemetry);
    HolesExactly(r);
    forall i ensures ReadingAt(r, i) == None {
      EmptyItems(Items(r.telemetry), r.now, i);
      NothingInAttributes(r.attributes, i);
    }
  }

  lemma NothingInAttributes(a: Attributes, i: Item)
    requires NoAttributes(a)
    ensures AttributesAt(Objects(a), i) == None
  {
    if a.Whole? { assert [a.members][..0] == []; }
  }

  lemma {:induction false} EmptyItems(items: seq<RawItem>, now: int, i: Item)
    requires forall r | r in items :: r.values == []
    ensures TelemetryAt(Stamped(items, now), i) == None
  {
    if items != [] {
      SnocItems(items);
      EmptyItems(items[..|items| - 1], now, i);
    }
  }
}
