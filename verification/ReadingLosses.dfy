// What of the readings handed over is missing in the storage.
module ReadingLosses {
  import opened Options
  import opened PyDict
  import opened Platform
  import opened StoredTexts
  import opened Writes
  import opened TelemetryNormaliser
  import opened PackSplitter
  import opened SplitterCuts
  import opened StorageFeed

  // The values of the readable parts of a reading, in order, as they are to be stored.
  function WritesOf(r: Reading): seq<Write> {
    AttributeWrites(Objects(r.attributes)) + TelemetryWrites(Entries(RawTelemetry(r)))
  }

  // They are all the values, or, if items with and without timestamp are mixed, those that
  // have one and the attributes.
  lemma WritesAreRead(r: Reading, i: Item)
    ensures WritesAt(WritesOf(r), i) == if Mixed(Items(r.telemetry)) then TimedAt(r, i) else ReadingAt(r, i)
  {
    var c := Config(true, 0, []);
    WholePackMeaning(c, r, i);
    PackWritesAt(WholePack(c, r), i);
  }

  // ---------- What is stored of one reading ----------

  // The values that the texts hold at a place.
  function TextsAt(ts: seq<Text>, i: Item): Option<Json> {
    if ts == [] then None else Over(TextsAt(ts[..|ts| - 1], i), PackAt(PackOf(ts[|ts| - 1]), i))
  }

  lemma TextsOfSnoc(ps: seq<Pack>, n: nat)
    requires |ps| == n + 1
    ensures TextsOf(ps)[..n] == TextsOf(ps[..n]) && PackOf(TextsOf(ps)[n]) == ps[n]
  {}

  lemma {:induction false} TextsAtPacks(ps: seq<Pack>, i: Item)
    ensures TextsAt(TextsOf(ps), i) == PacksAt(ps, i)
  {
    if ps != [] {
      hide PackAt, TextsOf;
      var n := |ps| - 1;
      TextsAtPacks(ps[..n], i);
      TextsOfSnoc(ps, n);
    }
  }

  // How many of its values the splitter has stored when it raises.
  function CutOff(c: Config, r: Reading): nat {
    LastCut(LimitsOf(c, r), Address(c, r), SplitObjects(r.attributes), SplitEntries(r))
  }

  predicate StopsSplitting(c: Config, r: Reading) { (HasHole(r) || HasNames(r)) && TooLong(c, r) }

  lemma {:induction false} AttributeWritesPrefix(os: seq<Object>, n: nat)
    requires n <= |os|
    ensures AttributeWrites(os[..n]) <= AttributeWrites(os)
  {
    if n == |os| {
      assert os[..n] == os;
    } else {
      AttributeWritesPrefix(os[..|os| - 1], n);
      assert os[..|os| - 1][..n] == os[..n];
    }
  }

  lemma {:induction false} TelemetryWritesPrefix(es: seq<Entry>, n: nat)
    requires n <= |es|
    ensures TelemetryWrites(es[..n]) <= TelemetryWrites(es)
  {
    if n == |es| {
      assert es[..n] == es;
    } else {
      TelemetryWritesPrefix(es[..|es| - 1], n);
      assert es[..|es| - 1][..n] == es[..n];
    }
  }

  lemma SplitObjectsAre(a: Attributes)
    requires a.Listed?
    ensures FirstBad(a.parts) <= |Objects(a)| && SplitObjects(a) == Objects(a)[..FirstBad(a.parts)]
    ensures !HasBad(a) ==> SplitObjects(a) == Objects(a)
  {
    if !HasBad(a) { assert a.parts[..|a.parts|] == a.parts; }
  }

  lemma NoMembersNoWrites()
    ensures AttributeWrites([[]]) == [] && AttributeWrites([]) == []
  {
    var empty: Object := [];
    assert [empty][..0] == [];
  }

  lemma SplitObjectsPrefix(a: Attributes)
    ensures AttributeWrites(SplitObjects(a)) <= AttributeWrites(Objects(a))
    ensures !HasBad(a) && (a.Whole? ==> a.members == []) ==>
      AttributeWrites(SplitObjects(a)) == AttributeWrites(Objects(a))
  {
    hide AttributeWrites, HasBad;
    NoMembersNoWrites();
    if a.Listed? {
      hide SplitObjects, Objects;
      SplitObjectsAre(a);
      AttributeWritesPrefix(Objects(a), FirstBad(a.parts));
    }
  }

  lemma SplitEntriesPrefix(r: Reading)
    ensures TelemetryWrites(SplitEntries(r)) <= TelemetryWrites(Entries(RawTelemetry(r)))
    ensures HasNames(r) || HasBad(r.attributes) ==> TelemetryWrites(SplitEntries(r)) == []
  {
    hide RawTelemetry;
    var raw := RawTelemetry(r);
    TelemetryWritesPrefix(Entries(raw), FirstNull(raw));
    if !HasNames(r) && !HasBad(r.attributes) { assert SplitEntries(r) == Entries(raw)[..FirstNull(raw)]; }
  }

  // What the splitter gets through is how the reading begins.
  lemma SplitWritesPrefix(r: Reading)
    ensures AttributeWrites(SplitObjects(r.attributes)) + TelemetryWrites(SplitEntries(r)) <= WritesOf(r)
  {
    hide AttributeWrites, TelemetryWrites, SplitObjects, SplitEntries, RawTelemetry, HasBad;
    SplitObjectsPrefix(r.attributes);
    SplitEntriesPrefix(r);
  }

  lemma StoppedIsKept(c: Config, r: Reading, i: Item)
    ensures CutOff(c, r) <= |WritesOf(r)|
    ensures TextsAt(TextsOf(PacksOf(CutBefore(c, r))), i) == WritesAt(WritesOf(r)[..CutOff(c, r)], i)
  {
    hide WritesOf, SplitObjects, SplitEntries, WritesAt, AttributeWrites, TelemetryWrites, LastCut, Adopt;
    var lim, os, es := LimitsOf(c, r), SplitObjects(r.attributes), SplitEntries(r);
    TextsAtPacks(PacksOf(CutBefore(c, r)), i);
    PacksOfAt(CutBefore(c, r), i);
    StoredBeforeLastCut(lim, Address(c, r), os, es, i);
    SplitWritesPrefix(r);
    var ws := AttributeWrites(os) + TelemetryWrites(es);
    PrefixOfPrefix(ws, WritesOf(r), CutOff(c, r));
  }

  lemma PrefixOfPrefix(a: seq<Write>, b: seq<Write>, m: nat)
    requires a <= b && m <= |a|
    ensures m <= |b| && a[..m] == b[..m]
  {}

  lemma WholeIsKept(c: Config, r: Reading, i: Item)
    requires Validation(c, r) == Passed && !HasUnreadable(r) && !StopsSplitting(c, r)
    ensures TextsAt(TextsFor(c, r), i) == WritesAt(WritesOf(r), i)
  {
    hide RawTelemetry, TooLong, HasUnreadable, Validation, TextsAt, WritesAt, HasBad;
    PackWritesAt(WholePack(c, r), i);
    if TooLong(c, r) {
      PiecesMeaning(c, r, i);
      NoHoleSplits(c, r);
      TextsAtPacks(Pieces(c, r), i);
    } else {
      OneText(WholeText(c, r), i);
    }
  }

  lemma NoHoleSplits(c: Config, r: Reading)
    requires !HasHole(r) && !HasNames(r)
    ensures SplitEntries(r) == Converted(r).Entries()
  {
    RawIsConverted(r);
    var raw := RawTelemetry(r);
    assert raw[..|raw|] == raw;
  }

  lemma OneText(t: Text, i: Item)
    ensures TextsAt([t], i) == PackAt(PackOf(t), i)
  {
    assert [t][..0] == [];
  }

  // Nothing, if the reading is refused or raises before it is split; the values up to the
  // last cut, if it raises while it is split; all of them otherwise.
  lemma KeptExactly(c: Config, r: Reading, i: Item)
    ensures CutOff(c, r) <= |WritesOf(r)|
    ensures TextsAt(TextsFor(c, r), i) ==
      if Validation(c, r) != Passed || HasUnreadable(r) then None
      else if StopsSplitting(c, r) then WritesAt(WritesOf(r)[..CutOff(c, r)], i)
      else WritesAt(WritesOf(r), i)
  {
    hide RawTelemetry, TooLong, HasUnreadable, Validation, WritesAt, CutBefore, CutOff, HasHole, HasNames, WritesOf;
    StoppedIsKept(c, r, i);
    if Validation(c, r) == Passed && !HasUnreadable(r) && !StopsSplitting(c, r) { WholeIsKept(c, r, i); }
  }

  // ---------- What is stored of a batch ----------

  // The texts of the k-th of the readings that were taken over.
  function KeptOf(given: seq<Given>, k: nat): seq<Text>
    requires k < |given|
  {
    if k < Reached(given) then TextsFor(given[k].config, given[k].reading) else []
  }

  function Joined(given: seq<Given>, n: nat): seq<Text>
    requires n <= |given|
  {
    if n == 0 then [] else Joined(given, n - 1) + KeptOf(given, n - 1)
  }

  lemma {:induction false} JoinedUpTo(given: seq<Given>, n: nat)
    requires n <= |given|
    ensures Joined(given, n) == TextsForAll(given[..if n < Reached(given) then n else Reached(given)])
  {
    hide Reached, TextsFor;
    if n > 0 {
      JoinedUpTo(given, n - 1);
      if n <= Reached(given) { TextsForAllSnoc(given, n - 1); }
    }
  }

  // The storage gets the texts of each reading, one after the other.
  lemma StoredByReading(given: seq<Given>)
    ensures TextsForAll(given[..Reached(given)]) == Joined(given, |given|)
  {
    JoinedUpTo(given, |given|);
  }

  // The values of the reading at a place are those that the texts hold.
  predicate SameIn(ts: seq<Text>, r: Reading, i: Item) { TextsAt(ts, i) == WritesAt(WritesOf(r), i) }

  // All values of the k-th reading are in the storage.
  ghost predicate IsComplete(given: seq<Given>, k: nat)
    requires k < |given|
  {
    forall i :: SameIn(KeptOf(given, k), given[k].reading, i)
  }

  // The reading passes, all its items are readable, and, if the splitter raises, every value
  // behind its last cut leaves its place as the values before left it.
  predicate Survives(c: Config, r: Reading)
    requires CutOff(c, r) <= |WritesOf(r)|
  {
    && Validation(c, r) == Passed && !HasUnreadable(r)
    && (StopsSplitting(c, r) ==> Settled(WritesOf(r), CutOff(c, r)))
  }

  lemma CutOffBound(c: Config, r: Reading)
    ensures CutOff(c, r) <= |WritesOf(r)|
  {
    StoppedIsKept(c, r, Attribute(""));
  }

  predicate Spared(given: seq<Given>, k: nat)
    requires k < |given|
  {
    CutOffBound(given[k].config, given[k].reading);
    WritesOf(given[k].reading) == []
    || (!SomeRaises(given[..k]) && Survives(given[k].config, given[k].reading))
  }

  lemma ReachedExactly(given: seq<Given>, k: nat)
    requires k < |given|
    ensures k < Reached(given) <==> !SomeRaises(given[..k])
  {
    hide Raises;
    var n := Reached(given);
    if k < n {
      assert forall j | 0 <= j < k :: given[..k][j] == given[j];
    } else {
      assert given[..k][n - 1] == given[n - 1];
    }
  }

  lemma SurvivingKeepsAll(c: Config, r: Reading)
    requires CutOff(c, r) <= |WritesOf(r)| && Survives(c, r)
    ensures forall i :: SameIn(TextsFor(c, r), r, i)
  {
    hide WritesOf, CutOff, TextsFor, TextsAt, WritesAt, StopsSplitting, HasUnreadable, Validation, Settled;
    SettledExactly(WritesOf(r), CutOff(c, r));
    forall i ensures SameIn(TextsFor(c, r), r, i) {
      KeptExactly(c, r, i);
      if StopsSplitting(c, r) { assert SameAt(WritesOf(r), CutOff(c, r), i); }
    }
  }

  lemma OthersLose(c: Config, r: Reading) returns (i: Item)
    requires CutOff(c, r) <= |WritesOf(r)| && !Survives(c, r) && WritesOf(r) != []
    ensures !SameIn(TextsFor(c, r), r, i)
  {
    hide WritesOf, CutOff, TextsFor, TextsAt, StopsSplitting, HasUnreadable, Validation;
    var ws, m := WritesOf(r), CutOff(c, r);
    i := ws[|ws| - 1].place;
    if Validation(c, r) == Passed && !HasUnreadable(r) {
      var k :| m <= k < |ws| && !SameAt(ws, m, ws[k].place);
      i := ws[k].place;
    }
    KeptExactly(c, r, i);
  }

  lemma CompleteExactly(given: seq<Given>, k: nat)
    requires k < |given|
    ensures IsComplete(given, k) <==> Spared(given, k)
  {
    hide WritesOf, CutOff, TextsFor, Reached, SomeRaises, Survives, SameIn;
    var c, r := given[k].config, given[k].reading;
    CutOffBound(c, r);
    ReachedExactly(given, k);
    if WritesOf(r) == [] {
      forall i ensures SameIn(KeptOf(given, k), r, i) { NothingKept(c, r, i); }
    } else if k >= Reached(given) {
      var i := NothingHolds(r);
      assert !SameIn(KeptOf(given, k), r, i);
    } else if Survives(c, r) {
      SurvivingKeepsAll(c, r);
    } else {
      var i := OthersLose(c, r);
      assert !SameIn(KeptOf(given, k), r, i);
    }
  }

  lemma NothingKept(c: Config, r: Reading, i: Item)
    requires WritesOf(r) == []
    ensures SameIn(TextsFor(c, r), r, i) && SameIn([], r, i)
  {
    KeptExactly(c, r, i);
  }

  lemma NothingHolds(r: Reading) returns (i: Item)
    requires WritesOf(r) != []
    ensures !SameIn([], r, i)
  {
    i := WritesOf(r)[|WritesOf(r)| - 1].place;
  }

  // Every value of the readings taken over is in the storage if and only if each reading
  // that has any is reached before one raises, passes the validation, has readable items
  // only, and, if the splitter raises at it, has no other value behind the last cut.
  lemma NothingIsMissingExactly(given: seq<Given>)
    ensures (forall k | 0 <= k < |given| :: IsComplete(given, k)) <==> (forall k | 0 <= k < |given| :: Spared(given, k))
  {
    hide IsComplete, Spared;
    forall k | 0 <= k < |given| ensures IsComplete(given, k) <==> Spared(given, k) { CompleteExactly(given, k); }
  }

  // A reading at which the splitter raises, and that writes no place twice, is stored in
  // full if and only if the last cut comes behind its last value.
  lemma StoppedKeepsAllExactly(c: Config, r: Reading)
    requires Validation(c, r) == Passed && !HasUnreadable(r) && StopsSplitting(c, r) && DistinctPlaces(WritesOf(r))
    ensures (forall i :: SameIn(TextsFor(c, r), r, i)) <==> CutOff(c, r) == |WritesOf(r)|
  {
    hide WritesOf, CutOff, TextsFor, StopsSplitting, HasUnreadable, Validation, Settled, SameIn;
    CutOffBound(c, r);
    DistinctSettledExactly(WritesOf(r), CutOff(c, r));
    if Survives(c, r) {
      SurvivingKeepsAll(c, r);
    } else {
      if WritesOf(r) != [] { var i := OthersLose(c, r); }
    }
  }
}
