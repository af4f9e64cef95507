// Whose data a reading is, and that the platform has it there: the gateway's own, or that of
// one device.
module Ownership {
  import opened Options
  import opened PyDict
  import opened Platform
  import opened StoredTexts
  import opened Writes
  import opened Delivery
  import opened DeliverySafety
  import opened DeliveryRuns
  import opened AckProgress
  import opened CarefulRuns
  import opened Uplink
  import F = StorageFeed
  import L = ReadingLosses

  function Renamed(names: Dict<Name, Name>, d: Name): Name {
    match Get(names, d) case Some(name) => name case None => d
  }

  // The gateway's own readings are its data, and so are those of a device that is called as
  // the gateway is, once its name is translated for the storage. All others are sent for the
  // device that this name is translated to.
  function Owner(c: Config, g: F.Given): Target {
    var d := Renamed(g.config.renamed, g.reading.device);
    if g.config.own || d == c.name || d == "currentThingsBoardGateway" then Gateway
    else Device(Renamed(c.renamed, d))
  }

  // The name under which the gateway stores its own data is the one the send loop knows.
  predicate Agree(c: Config) { c.alias == F.GATEWAY_DEVICE }

  // Data stored under a name is sent on the gateway's own topics if and only if the name is
  // one of the gateway's; under any other name it is sent for the device it is translated to.
  lemma TargetsExactly(c: Config, d: Name)
    requires Agree(c)
    ensures TargetOf(c, d) == Gateway <==> d == c.name || d == "currentThingsBoardGateway"
    ensures d != c.name && d != "currentThingsBoardGateway" ==> TargetOf(c, d) == Device(Renamed(c.renamed, d))
  {}

  // Storing and sending together bring a reading to its owner.
  lemma ReadingGoesToItsOwner(c: Config, g: F.Given)
    requires Agree(c)
    ensures TargetOf(c, F.Address(g.config, g.reading)) == Owner(c, g)
  {}

  // ---------- What is kept of a reading ----------

  // The values of a reading: none of one that is refused or has unreadable items, those before
  // the splitter's last cut of one at which it raises, all of any other.
  function Kept(g: F.Given): seq<Write> {
    L.CutOffBound(g.config, g.reading);
    if F.Validation(g.config, g.reading) != F.Passed || F.HasUnreadable(g.reading) then []
    else if L.StopsSplitting(g.config, g.reading)
    then L.WritesOf(g.reading)[..L.CutOff(g.config, g.reading)]
    else L.WritesOf(g.reading)
  }

  // The readings with this owner.
  function Of(c: Config, given: seq<F.Given>, t: Target): seq<F.Given> {
    if given == [] then []
    else Of(c, given[..|given| - 1], t) + if Owner(c, given[|given| - 1]) == t then [given[|given| - 1]] else []
  }

  function AllKept(given: seq<F.Given>): seq<Write> {
    if given == [] then [] else AllKept(given[..|given| - 1]) + Kept(given[|given| - 1])
  }

  lemma {:induction false} TextsHistory(c: Config, ts: seq<Text>, d: Name, s: Slot)
    requires !Halting(EventsOf(ts)) && forall t | t in ts :: t.device == d
    ensures HistoryAt(c, EventsOf(ts), s) == if TargetOf(c, d) == s.target then L.TextsAt(ts, s.item) else None
  {
    if ts != [] {
      hide PackAt, TargetOf;
      var n := |ts| - 1;
      var evs := EventsOf(ts);
      assert evs[..n] == EventsOf(ts[..n]);
      assert !Halting(evs[..n]) by { assert forall k | 0 <= k < n :: evs[..n][k] == evs[k]; }
      TextsHistory(c, ts[..n], d, s);
      assert !evs[n].Halts() && ts[n] in ts;
    }
  }

  lemma KeptExactlyAt(g: F.Given, i: Item)
    ensures L.TextsAt(F.TextsFor(g.config, g.reading), i) == WritesAt(Kept(g), i)
  {
    L.KeptExactly(g.config, g.reading, i);
  }

  lemma ReadingAtOwner(c: Config, g: F.Given, s: Slot)
    requires Agree(c) && !Halting(F.StoredFor(g.config, g.reading))
    ensures GivenAt(c, g, s) == if Owner(c, g) == s.target then WritesAt(Kept(g), s.item) else None
  {
    hide GivenAt, Kept, F.TextsFor, TargetOf, Owner, WritesAt, L.TextsAt, EventOf;
    StoredHistory(c, g, s);
    ReadingGoesToItsOwner(c, g);
    KeptExactlyAt(g, s.item);
    F.TextsUnderOneName(g.config, g.reading);
    TextsHistory(c, F.TextsFor(g.config, g.reading), F.Address(g.config, g.reading), s);
  }

  lemma {:induction false} OwnersGetTheirs(c: Config, given: seq<F.Given>, s: Slot)
    requires Agree(c) && !Halting(F.StoredForAll(given))
    ensures ReadingsAt(c, given, s) == WritesAt(AllKept(Of(c, given, s.target)), s.item)
  {
    if given != [] {
      hide F.StoredFor, GivenAt, Owner, Kept, Halting, WritesAt, AllKept, Agree;
      var n := |given| - 1;
      HaltingConcat(F.StoredForAll(given[..n]), F.StoredFor(given[n].config, given[n].reading));
      OwnersGetTheirs(c, given[..n], s);
      ReadingAtOwner(c, given[n], s);
      var before := Of(c, given[..n], s.target);
      OneMoreKept(before, given[n], s.item);
      assert before + [] == before;
    } else {
      NothingOwned(c, s);
    }
  }

  lemma NothingOwned(c: Config, s: Slot)
    ensures WritesAt(AllKept(Of(c, [], s.target)), s.item) == None
  {}

  lemma OneMoreKept(given: seq<F.Given>, g: F.Given, i: Item)
    ensures WritesAt(AllKept(given + [g]), i) == Over(WritesAt(AllKept(given), i), WritesAt(Kept(g), i))
  {
    assert (given + [g])[..|given|] == given;
    WritesAtConcat(AllKept(given), Kept(g), i);
  }

  // ---------- On the platform ----------

  // No event was cleared at which the grouping raises.
  lemma {:induction false} AckedDoNotHalt(c: Config, acts: seq<Action>)
    ensures !Halting(Run(c, acts).acked)
  {
    if acts != [] {
      hide Step, Halting, Acks;
      var n := |acts| - 1;
      AckedDoNotHalt(c, acts[..n]);
      if acts[n].TakeTurn? {
        var s := Run(c, acts[..n]);
        AckedGrows(c, s, acts[n].turn);
        if Acks(c, s, acts[n].turn) {
          AckedDoesNotHalt(c, s, acts[n].turn);
          HaltingConcat(s.acked, DeliveryRuns.PackOf(s, acts[n].turn));
        }
      }
    } else {
      assert Run(c, acts).acked == [];
    }
  }

  // Once the readings are acknowledged and no other pack is in hand, the platform has for the
  // gateway, and for each device, what their own readings leave there, in order, and nothing
  // of anybody else's.
  lemma OwnersHaveTheirReadings(c: Config, acts: seq<Action>, given: seq<F.Given>)
    requires Agree(c) && CarefulRun(c, acts)
    requires Run(c, acts).handed == 0 && Run(c, acts).acked == F.StoredForAll(given)
    ensures forall t, i :: PlatformAt(Run(c, acts).platform, Slot(t, i)) == WritesAt(AllKept(Of(c, given, t)), i)
  {
    hide Run, CarefulRun, ReadingsAt, AllKept, Of, WritesAt, Halting;
    AckedDoNotHalt(c, acts);
    ReadingsReachThePlatform(c, acts, given);
    forall t, i
      ensures PlatformAt(Run(c, acts).platform, Slot(t, i)) == WritesAt(AllKept(Of(c, given, t)), i)
    {
      OwnersGetTheirs(c, given, Slot(t, i));
    }
  }

  // So it is when the storage is drained.
  lemma DrainedOwnersHaveTheirReadings(c: Config, acts: seq<Action>, given: seq<F.Given>)
    requires Agree(c) && CarefulRun(c, acts)
    requires Stored(acts) == F.StoredForAll(given) && Run(c, acts).pending == []
    ensures forall t, i :: PlatformAt(Run(c, acts).platform, Slot(t, i)) == WritesAt(AllKept(Of(c, given, t)), i)
  {
    EventsAreConserved(c, acts);
    assert Run(c, acts).acked + [] == Run(c, acts).acked;
    OwnersHaveTheirReadings(c, acts, given);
  }
}
