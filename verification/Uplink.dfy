// From the readings the connectors hand over to what the platform keeps of them.
module Uplink {
  import opened Options
  import opened PyDict
  import opened Platform
  import opened TelemetryNormaliser
  import opened Delivery
  import opened DeliverySafety
  import opened DeliveryRuns
  import opened AckExactness
  import opened AckProgress
  import opened CarefulRuns
  import D = DeliveryRenames
  import F = StorageFeed
  import R = Registry
  import RR = RegistryRuns

  // What a reading is to write: all its values, each under the timestamp it should get,
  // or, if items with and without timestamp are mixed, those that are kept.
  function Wanted(r: F.Reading, i: Item): Option<Json> {
    if Mixed(F.Items(r.telemetry)) then F.TimedAt(r, i) else F.ReadingAt(r, i)
  }

  // A reading that is refused writes nothing; a malformed one writes what is stored of it.
  function GivenAt(c: Config, g: F.Given, s: Slot): Option<Json> {
    if F.Validation(g.config, g.reading) == F.Passed && F.WellFormed(g.config, g.reading)
    then if TargetOf(c, F.Address(g.config, g.reading)) == s.target then Wanted(g.reading, s.item) else None
    else HistoryAt(c, F.StoredFor(g.config, g.reading), s)
  }

  // The value that the readings, taken in order, leave at a place.
  function ReadingsAt(c: Config, given: seq<F.Given>, s: Slot): Option<Json> {
    if given == [] then None else Over(ReadingsAt(c, given[..|given| - 1], s), GivenAt(c, given[|given| - 1], s))
  }

  lemma {:induction false} OneNameHistory(c: Config, ps: seq<Pack>, d: Name, s: Slot)
    requires forall p | p in ps :: p.device == d
    ensures HistoryAt(c, F.Events(ps), s) == if TargetOf(c, d) == s.target then PacksAt(ps, s.item) else None
  {
    if ps != [] {
      var n := |ps| - 1;
      assert ps[n] in ps;
      OneNameHistory(c, ps[..n], d, s);
      assert F.Events(ps)[..n] == F.Events(ps[..n]);
    }
  }

  lemma StoredHistory(c: Config, g: F.Given, s: Slot)
    ensures HistoryAt(c, F.StoredFor(g.config, g.reading), s) == GivenAt(c, g, s)
  {
    if F.Validation(g.config, g.reading) == F.Passed && F.WellFormed(g.config, g.reading) {
      F.PiecesUnderOneName(g.config, g.reading);
      F.StoredReadingMeaning(g.config, g.reading);
      OneNameHistory(c, F.Pieces(g.config, g.reading), F.Address(g.config, g.reading), s);
    }
  }

  // Storing, splitting and replaying the stored events gives what the readings say.
  lemma {:induction false} EventsMeanReadings(c: Config, given: seq<F.Given>, s: Slot)
    ensures HistoryAt(c, F.StoredForAll(given), s) == ReadingsAt(c, given, s)
  {
    if given != [] {
      hide F.StoredFor, GivenAt;
      var n := |given| - 1;
      EventsMeanReadings(c, given[..n], s);
      StoredHistory(c, given[n], s);
      HistoryAtConcat(c, F.StoredForAll(given[..n]), F.StoredFor(given[n].config, given[n].reading), s);
    }
  }

  // End to end: once the readings are acknowledged and no other pack is in hand, every
  // place on the platform has the value that the readings, in order, leave there - whether
  // they were split, sent in part, sent twice, or refused by a lost connection in between.
  lemma ReadingsReachThePlatform(c: Config, acts: seq<Action>, given: seq<F.Given>)
    requires CarefulRun(c, acts) && Run(c, acts).handed == 0 && Run(c, acts).acked == F.StoredForAll(given)
    ensures forall s :: PlatformAt(Run(c, acts).platform, s) == ReadingsAt(c, given, s)
  {
    CarefulRunDelivers(c, acts);
    forall s ensures PlatformAt(Run(c, acts).platform, s) == ReadingsAt(c, given, s) {
      EventsMeanReadings(c, given, s);
    }
  }

  // A drained storage has acknowledged all that was stored.
  lemma DrainedStorageDelivered(c: Config, acts: seq<Action>, given: seq<F.Given>)
    requires CarefulRun(c, acts) && Stored(acts) == F.StoredForAll(given)
    requires Run(c, acts).pending == []
    ensures forall s :: PlatformAt(Run(c, acts).platform, s) == ReadingsAt(c, given, s)
  {
    EventsAreConserved(c, acts);
    assert Run(c, acts).acked + [] == Run(c, acts).acked;
    ReadingsReachThePlatform(c, acts, given);
  }

  // The value that the readings leave, those of each stretch under its rename map.
  function ReadingsAcross(es: seq<D.Epoch>, given: seq<seq<F.Given>>, s: Slot): Option<Json>
    requires |given| == |es|
  {
    if es == [] then None
    else Over(ReadingsAcross(es[..|es| - 1], given[..|es| - 1], s),
              ReadingsAt(es[|es| - 1].config, given[|es| - 1], s))
  }

  // The events that each stretch acknowledged are those stored for these readings.
  predicate Acknowledges(es: seq<D.Epoch>, given: seq<seq<F.Given>>)
    requires |given| == |es|
  {
    es == [] || (Acknowledges(es[..|es| - 1], given[..|es| - 1])
                 && D.AckedLast(es) == F.StoredForAll(given[|es| - 1]))
  }

  lemma {:induction false} AcknowledgedAcross(es: seq<D.Epoch>, given: seq<seq<F.Given>>, s: Slot)
    requires |given| == |es| && Acknowledges(es, given)
    ensures D.EpochsAt(es, s) == ReadingsAcross(es, given, s)
  {
    if es != [] {
      hide D.AckedLast, F.StoredForAll;
      AcknowledgedAcross(es[..|es| - 1], given[..|es| - 1], s);
      EventsMeanReadings(es[|es| - 1].config, given[|es| - 1], s);
    }
  }

  // The same with renames in between.
  lemma ReadingsReachThePlatformAcrossRenames(es: seq<D.Epoch>, given: seq<seq<F.Given>>)
    requires D.CarefulEpochs(es) && D.RunEpochs(es).handed == 0 && |given| == |es| && Acknowledges(es, given)
    ensures forall s :: PlatformAt(D.RunEpochs(es).platform, s) == ReadingsAcross(es, given, s)
  {
    hide D.RunEpochs, D.CarefulEpochs, Acknowledges, D.EpochsAt;
    D.CarefulEpochsDeliver(es);
    forall s ensures PlatformAt(D.RunEpochs(es).platform, s) == ReadingsAcross(es, given, s) {
      AcknowledgedAcross(es, given, s);
    }
  }

  // ---------- Whether the readings can be delivered ----------

  // The grouping will raise at what is stored for the reading.
  predicate Blocks(g: F.Given) {
    && F.Validation(g.config, g.reading) == F.Passed && !F.HasUnreadable(g.reading)
    && F.HasHole(g.reading) && !F.TooLong(g.config, g.reading)
  }

  lemma HaltingConcat(a: seq<StoredEvent>, b: seq<StoredEvent>)
    ensures Halting(a + b) <==> Halting(a) || Halting(b)
  {
    assert forall k | 0 <= k < |a| :: (a + b)[k] == a[k];
    assert forall k | 0 <= k < |b| :: (a + b)[|a| + k] == b[k];
    if Halting(a + b) {
      var k :| 0 <= k < |a + b| && (a + b)[k].Halts();
      if k >= |a| { assert b[k - |a|].Halts(); }
    }
  }

  lemma StoredHalts(g: F.Given)
    ensures Halting(F.StoredFor(g.config, g.reading)) <==> Blocks(g)
  {
    hide F.StoredFor, F.Validation, F.HasUnreadable, F.HasHole, F.TooLong;
    F.BlocksExactly(g.config, g.reading);
    var evs := F.StoredFor(g.config, g.reading);
    if e :| e in evs && e.Halts() {
      var k :| 0 <= k < |evs| && evs[k] == e;
    }
  }

  predicate AnyBlocks(given: seq<F.Given>) { exists k :: 0 <= k < |given| && Blocks(given[k]) }

  lemma AnyBlocksSnoc(given: seq<F.Given>, n: nat)
    requires |given| == n + 1
    ensures AnyBlocks(given) <==> AnyBlocks(given[..n]) || Blocks(given[n])
  {
    hide Blocks;
    assert forall k | 0 <= k < n :: given[..n][k] == given[k];
    if AnyBlocks(given) {
      var k :| 0 <= k < |given| && Blocks(given[k]);
      if k < n { assert Blocks(given[..n][k]); }
    }
  }

  lemma {:induction false} SomeBlocks(given: seq<F.Given>)
    ensures Halting(F.StoredForAll(given)) <==> AnyBlocks(given)
  {
    hide F.StoredFor, Blocks;
    if given != [] {
      hide Halting, AnyBlocks;
      var n := |given| - 1;
      SomeBlocks(given[..n]);
      StoredHalts(given[n]);
      HaltingConcat(F.StoredForAll(given[..n]), F.StoredFor(given[n].config, given[n].reading));
      AnyBlocksSnoc(given, n);
    }
  }

  // From a storage that holds the readings, some turns clear all of it if and only if it
  // is empty, or no reading blocks it and some reading has data.
  lemma ReadingsCanBeDrainedExactly(c: Config, given: seq<F.Given>)
    ensures CanDrain(c, INITIAL.(pending := F.StoredForAll(given))) <==>
              F.StoredForAll(given) == []
              || (!AnyBlocks(given) && !Dataless(F.StoredForAll(given)))
  {
    hide F.StoredForAll, AnyBlocks, Halting, Dataless, CanDrain;
    SomeBlocks(given);
    DrainsExactly(c, INITIAL.(pending := F.StoredForAll(given)));
  }

  lemma GoodTurnIsCareful(c: Config, s: State, t: Turn)
    requires Bounded(s) && GoodTurn(c, s, t) && c.qos == 1
    ensures Careful(c, t)
  {
    assert FirstBad(t.calls) == |t.calls|;
  }

  lemma OneMoreTurn(c: Config, acts: seq<Action>, t: Turn)
    requires CarefulRun(c, acts) && Careful(c, t)
    ensures CarefulRun(c, acts + [TakeTurn(t)]) && Stored(acts + [TakeTurn(t)]) == Stored(acts)
    ensures Run(c, acts + [TakeTurn(t)]) == RunFrom(c, Run(c, acts), [TakeTurn(t)])
  {
    assert (acts + [TakeTurn(t)])[..|acts|] == acts;
    assert [TakeTurn(t)][..0] == [];
    assert Stored(acts) + [] == Stored(acts);
  }

  function Taking(ts: seq<Turn>): seq<Action> { seq(|ts|, k requires 0 <= k < |ts| => TakeTurn(ts[k])) }

  // One turn, or two, on which all goes well: they clear all that is stored.
  ghost predicate GoodEnd(c: Config, acts: seq<Action>, more: seq<Turn>) {
    && 1 <= |more| <= 2 && GoodTurn(c, Run(c, acts), more[0])
    && (|more| == 2 ==> GoodTurn(c, Run(c, acts + [TakeTurn(more[0])]), more[1]))
    && Run(c, acts + Taking(more)).pending == []
  }

  lemma OneIsEnough(c: Config, acts: seq<Action>, first: Turn)
    requires CarefulRun(c, acts) && c.qos == 1 && GoodTurn(c, Run(c, acts), first)
    requires Step(c, Run(c, acts), first).pending == []
    ensures GoodEnd(c, acts, [first]) && CarefulRun(c, acts + Taking([first]))
    ensures Stored(acts + Taking([first])) == Stored(acts)
  {
    hide Run, RunFrom, CarefulRun, Careful, GoodTurn, Step;
    GoodTurnIsCareful(c, Run(c, acts), first);
    OneMoreTurn(c, acts, first);
    OneTurnRun(c, Run(c, acts), first);
    assert acts + Taking([first]) == acts + [TakeTurn(first)];
  }

  lemma TwoAreEnough(c: Config, acts: seq<Action>, first: Turn, second: Turn)
    requires CarefulRun(c, acts) && c.qos == 1 && GoodTurn(c, Run(c, acts), first)
    requires GoodTurn(c, Step(c, Run(c, acts), first), second)
    requires Step(c, Step(c, Run(c, acts), first), second).pending == []
    ensures GoodEnd(c, acts, [first, second]) && CarefulRun(c, acts + Taking([first, second]))
    ensures Stored(acts + Taking([first, second])) == Stored(acts)
  {
    hide Run, RunFrom, CarefulRun, Careful, GoodTurn, Step;
    GoodTurnIsCareful(c, Run(c, acts), first);
    OneMoreTurn(c, acts, first);
    OneTurnRun(c, Run(c, acts), first);
    OneIsEnough(c, acts + [TakeTurn(first)], second);
    assert acts + Taking([first, second]) == acts + [TakeTurn(first)] + Taking([second]);
  }

  // If nothing blocks the storage, two more turns on which all goes well, at most, bring all
  // the readings to the platform, whatever has been delivered of them before and whatever
  // went wrong.
  lemma ReadingsGetDelivered(c: Config, acts: seq<Action>, given: seq<F.Given>) returns (more: seq<Turn>)
    requires CarefulRun(c, acts) && Stored(acts) == F.StoredForAll(given) && c.qos == 1
    requires !Halting(Run(c, acts).pending) && !Dataless(Run(c, acts).pending)
    ensures GoodEnd(c, acts, more) && CarefulRun(c, acts + Taking(more))
    ensures forall s :: PlatformAt(Run(c, acts + Taking(more)).platform, s) == ReadingsAt(c, given, s)
  {
    hide Run, RunFrom, CarefulRun, Halting, Dataless, GoodTurn, Acks, Step, Stored, Taking;
    var first, second := TwoGoodTurnsDrain(c, Run(c, acts));
    if Acks(c, Run(c, acts), first) {
      more := [first];
      OneIsEnough(c, acts, first);
    } else {
      more := [first, second];
      TwoAreEnough(c, acts, first, second);
    }
    DrainedStorageDelivered(c, acts + Taking(more), given);
  }

  // ---------- The right device ----------

  // As long as storing and sending go by a rename map in which no rename target is a
  // renamed local name, a reading goes to the device that the platform has for its name.
  lemma ReadingGoesToItsDevice(c: Config, g: F.Given, r: R.Registry, names: map<Name, Name>)
    requires RR.Follows(r, names) && RR.Disjoint(r.renamed) && c.renamed == r.renamed == g.config.renamed
    requires !g.config.own && g.reading.device in names
    requires names[g.reading.device] != c.name && names[g.reading.device] != c.alias
    ensures TargetOf(c, F.Address(g.config, g.reading)) == Device(names[g.reading.device])
  {
    RR.UplinkTwiceIsOnceExactly(r, names);
    assert R.UplinkName(r, g.reading.device) == names[g.reading.device];
    assert R.UplinkName(r, R.UplinkName(r, g.reading.device)) == R.UplinkName(r, g.reading.device);
  }
}
