// Renames that come while a pack is in hand, some of it sent under old maps.
module RenamesInHand {
  import opened Options
  import opened PyDict
  import opened Platform
  import opened Delivery
  import opened DeliverySafety
  import opened Regrouping
  import opened RegroupingLimits
  import opened DeliveryRuns
  import opened DeliveryRenames
  import opened SendOutcomes
  import opened AckSafety
  import opened AckProgress

  // What was sent of the pack before, under whatever names, stays where it is; the
  // acknowledging turn writes the pack once, under the new names, on top of it.
  lemma RenameInHand(after: Config, s: State, t: Turn, x: Slot)
    requires Shaped(s) && Acks(after, s, t) && Sound(after, s, t) && Contiguous(after, PackOf(s, t))
    ensures PlatformAt(Step(after, s, t).platform, x)
         == Over(PlatformAt(s.platform, x), HistoryAt(after, PackOf(s, t), x))
  {
    var r := ReadPack(s, t);
    ShapedIsInv(after, s);
    PackGrows(after, Fresh(s), Handed(s, t));
    var buf := Grouping(r).buffer;
    RefilledBufferMeaning(after, r.buffer, PackOf(s, t), x);
    SoundAckIsConfirmed(after, s, t);
    SentExactly(after, buf, t.calls, |buf|, x);
    assert buf[..|buf|] == buf;
    PlatformAtConcat(s.platform, Arrived(Attempt(after, s, t).sent), x);
  }

  // ---------- Attempts under several maps ----------

  // One turn of the loop, under the map of its time.
  datatype Try = Try(config: Config, turn: Turn)

  function RunTries(s: State, tries: seq<Try>): (r: State)
    requires Bounded(s)
    ensures Bounded(r)
  {
    if tries == [] then s
    else Step(tries[|tries| - 1].config, RunTries(s, tries[..|tries| - 1]), tries[|tries| - 1].turn)
  }

  // None of the attempts clears the pack, and each is under one of the given maps.
  predicate AllFail(maps: seq<Config>, s: State, tries: seq<Try>)
    requires Bounded(s)
  {
    tries == [] ||
    (AllFail(maps, s, tries[..|tries| - 1])
     && tries[|tries| - 1].config in maps
     && !Acks(tries[|tries| - 1].config, RunTries(s, tries[..|tries| - 1]), tries[|tries| - 1].turn))
  }

  function Waiting(evs: seq<StoredEvent>): State { INITIAL.(pending := evs) }

  // Any number of failing attempts, under old maps and under the new one, and a sound turn
  // under the new one that clears all of the pack.
  ghost predicate SentAcross(maps: seq<Config>, after: Config, evs: seq<StoredEvent>, tries: seq<Try>, last: Turn) {
    && AllFail(maps + [after], Waiting(evs), tries)
    && Acks(after, RunTries(Waiting(evs), tries), last) && Sound(after, RunTries(Waiting(evs), tries), last)
    && PackOf(RunTries(Waiting(evs), tries), last) == evs
  }

  // Whatever the attempts were, the platform ends up as the new names say.
  ghost predicate FollowsNewNames(maps: seq<Config>, after: Config, evs: seq<StoredEvent>) {
    forall tries, last | SentAcross(maps, after, evs, tries, last) ::
      forall x :: PlatformAt(Step(after, RunTries(Waiting(evs), tries), last).platform, x) == HistoryAt(after, evs, x)
  }

  ghost predicate Tidy(maps: seq<Config>, after: Config, evs: seq<StoredEvent>) {
    forall c | c in maps :: NoStrays(c, after, evs)
  }

  // What holds during the attempts: every value on the platform is one that the pack writes
  // under some map.
  ghost predicate Tried(maps: seq<Config>, s: State, evs: seq<StoredEvent>) {
    && Shaped(s) && s.pending == evs && s.acked == []
    && forall x :: PlatformAt(s.platform, x).Some? ==> exists c :: c in maps && HistoryAt(c, evs, x).Some?
  }

  lemma FailedTry(maps: seq<Config>, s: State, evs: seq<StoredEvent>, c: Config, t: Turn)
    requires Tried(maps, s, evs) && c in maps && !Acks(c, s, t)
    ensures Tried(maps, Step(c, s, t), evs)
  {
    hide Step, Acks, Shaped, Inv, HistoryAt, PlatformAt;
    assert Bounded(s) by { ShapedIsBounded(s); }
    var f := Fresh(s);
    OnFresh(s);
    StepOn(c, f, t, s.platform, s.acked);
    StepKeepsStorage(c, s, t);
    ShapedIsInv(c, s);
    OtherTurnKeepsInv(c, f, t);
    var r := Step(c, f, t);
    InvIsShaped(c, r, s.platform, s.acked);
    StepKeepsStorage(c, f, t);
    forall x | PlatformAt(s.platform + r.platform, x).Some?
      ensures exists d :: d in maps && HistoryAt(d, evs, x).Some?
    {
      PlatformAtConcat(s.platform, r.platform, x);
      if PlatformAt(r.platform, x).Some? { InHandIsWritten(c, r, x); }
    }
  }

  lemma ShapedIsBounded(s: State)
    requires Shaped(s)
    ensures Bounded(s)
  {}

  lemma InHandIsWritten(c: Config, r: State, x: Slot)
    requires Bounded(r) && r.acked == []
    requires PlatformAt(r.platform, x) == HistoryAt(c, r.acked, x) || HistoryAt(c, InHand(r), x).Some?
    requires PlatformAt(r.platform, x).Some?
    ensures HistoryAt(c, r.pending, x).Some?
  {
    assert r.pending == InHand(r) + r.pending[r.handed..];
    HistoryAtConcat(c, InHand(r), r.pending[r.handed..], x);
  }

  lemma WaitingIsTried(maps: seq<Config>, evs: seq<StoredEvent>)
    ensures Tried(maps, Waiting(evs), evs)
  {
    assert evs[..0] == [];
  }

  lemma {:induction false} TriesFail(maps: seq<Config>, evs: seq<StoredEvent>, tries: seq<Try>)
    requires AllFail(maps, Waiting(evs), tries)
    ensures Tried(maps, RunTries(Waiting(evs), tries), evs)
  {
    if tries == [] {
      WaitingIsTried(maps, evs);
    } else {
      hide Tried, Step, Acks;
      var n := |tries| - 1;
      TriesFail(maps, evs, tries[..n]);
      FailedTry(maps, RunTries(Waiting(evs), tries[..n]), evs, tries[n].config, tries[n].turn);
    }
  }

  lemma TidyFollows(maps: seq<Config>, after: Config, evs: seq<StoredEvent>, tries: seq<Try>, last: Turn, x: Slot)
    requires Tidy(maps, after, evs) && Contiguous(after, evs) && SentAcross(maps, after, evs, tries, last)
    ensures PlatformAt(Step(after, RunTries(Waiting(evs), tries), last).platform, x) == HistoryAt(after, evs, x)
  {
    hide Step, Acks, Sound, Contiguous, Shaped, RunTries, AllFail, HistoryAt, PlatformAt;
    var s := RunTries(Waiting(evs), tries);
    TriesFail(maps + [after], evs, tries);
    RenameInHand(after, s, last, x);
    if PlatformAt(s.platform, x).Some? {
      var c :| c in maps + [after] && HistoryAt(c, evs, x).Some?;
      if c in maps { assert NoStrays(c, after, evs); }
    }
  }

  // ---------- A stray value ----------

  lemma {:induction false} HistoryHasWriter(c: Config, evs: seq<StoredEvent>, x: Slot) returns (d: Name)
    requires HistoryAt(c, evs, x).Some?
    ensures TargetOf(c, d) == x.target && DeviceAt(evs, d, x.item).Some?
  {
    var n := |evs| - 1;
    if EventAt(c, evs[n], x).Some? { d := evs[n].pack.device; } else { d := HistoryHasWriter(c, evs[..n], x); }
  }

  lemma {:induction false} NamesAtWritten(c: Config, names: seq<Name>, evs: seq<StoredEvent>, x: Slot, d: Name)
    requires d in names && NameAt(c, d, evs, x).Some?
    ensures NamesAt(c, names, evs, x).Some?
  {
    var n := |names| - 1;
    assert names == names[..n] + [names[n]];
    if names[n] != d { NamesAtWritten(c, names[..n], evs, x, d); }
  }

  lemma GroupedIsWritten(c: Config, evs: seq<StoredEvent>, x: Slot)
    requires !Halting(evs) && HistoryAt(c, evs, x).Some?
    ensures BufferAt(c, Fill([], evs).buffer, x).Some?
  {
    hide Fill, FirstNames;
    GroupsExactly([], evs);
    FillKeepsUnique([], evs);
    RefilledHolds([], evs);
    HeldIsDevice(c, Fill([], evs).buffer, evs, x);
    var d := HistoryHasWriter(c, evs, x);
    WriterIsListed(evs, d, x.item);
    NamesAtWritten(c, FirstNames(evs), evs, x, d);
    assert FirstNames(evs) == Keys(Fill([], evs).buffer) by { FirstNamesAreKeys(evs); }
  }

  lemma FirstNamesAreKeys(evs: seq<StoredEvent>)
    ensures FirstNames(evs) == Keys(Fill([], evs).buffer)
  {}

  // All is sent and confirmed, but the connection is gone before that is looked at.
  function SentInVain(evs: seq<StoredEvent>): Turn {
    Ideal(|evs|, Sure(2 * |Fill([], evs).buffer|)).(connectedAtCheck := false)
  }

  lemma SentInVainArrives(c: Config, evs: seq<StoredEvent>, x: Slot)
    requires !Halting(evs) && HistoryAt(c, evs, x).Some?
    ensures !Acks(c, Waiting(evs), SentInVain(evs))
    ensures var r := Step(c, Waiting(evs), SentInVain(evs));
      && r.pending == evs && r.handed == |evs| && AllConfirmed(r.published) && r.published != []
      && PlatformAt(r.platform, x).Some?
  {
    var s, t, buf := Waiting(evs), SentInVain(evs), Fill([], evs).buffer;
    hide Fill, SendAll, FirstNames, BufferAt;
    assert evs[..|evs|] == evs;
    GroupsExactly([], evs);
    GoodAttempt(c, buf, t.calls);
    GroupedIsWritten(c, evs, x);
    AllArrives(c, buf, t.calls, x);
    var sent := SendAll(c, buf, t.calls).sent;
    assert [] + sent == sent && [] + Arrived(sent) == Arrived(sent);
    assert Step(c, s, t) == Transmit(c, Grouped(ReadPack(s, t)), t);
  }

  lemma AllArrives(c: Config, buf: Buffer, calls: seq<Outcome>, x: Slot)
    requires !SendAll(c, buf, calls).raised && AllConfirmed(SendAll(c, buf, calls).sent)
    ensures PlatformAt(Arrived(SendAll(c, buf, calls).sent), x) == BufferAt(c, buf, x)
  {
    SentExactly(c, buf, calls, |buf|, x);
    assert buf[..|buf|] == buf;
  }

  lemma StrayStays(maps: seq<Config>, before: Config, after: Config, evs: seq<StoredEvent>, x: Slot)
    requires !Halting(evs) && Contiguous(after, evs) && after.qos == 1 && before in maps
    requires HistoryAt(before, evs, x).Some? && HistoryAt(after, evs, x) == None
    ensures !FollowsNewNames(maps, after, evs)
  {
    hide Step, Fill, SendAll, Acks, Sound, Halting, Contiguous, Tried, Shaped;
    var first := SentInVain(evs);
    var tries := [Try(before, first)];
    SentInVainArrives(before, evs, x);
    assert tries[..0] == [] && RunTries(Waiting(evs), tries) == Step(before, Waiting(evs), first);
    assert AllFail(maps + [after], Waiting(evs), tries);
    var r := RunTries(Waiting(evs), tries);
    var last := Ideal(|evs|, Sure(2 * |Grouping(ReadPack(r, Ideal(|evs|, []))).buffer|));
    assert evs[..|evs|] == evs;
    GoodTurnClearsExactly(after, r, last);
    PeacefulAckIsSound(after, r, last);
    TriesFail(maps + [after], evs, tries);
    assert Shaped(r) by { TriedIsShaped(maps + [after], r, evs); }
    RenameInHand(after, r, last, x);
    assert SentAcross(maps, after, evs, tries, last);
  }

  lemma TriedIsShaped(maps: seq<Config>, s: State, evs: seq<StoredEvent>)
    requires Tried(maps, s, evs)
    ensures Shaped(s)
  {}

  // However a pack was sent before - in any number of attempts, under any of the old maps
  // and under the new one - the platform ends up as if it had been sent under the new names
  // alone, if and only if the pack writes under them wherever it wrote under old ones.
  lemma RenameInHandExactly(maps: seq<Config>, after: Config, evs: seq<StoredEvent>)
    requires !Halting(evs) && Contiguous(after, evs) && after.qos == 1
    ensures FollowsNewNames(maps, after, evs) <==> Tidy(maps, after, evs)
  {
    hide Halting, Contiguous, SentAcross, RunTries, Step;
    if Tidy(maps, after, evs) {
      forall tries, last, x | SentAcross(maps, after, evs, tries, last)
        ensures PlatformAt(Step(after, RunTries(Waiting(evs), tries), last).platform, x) == HistoryAt(after, evs, x)
      {
        TidyFollows(maps, after, evs, tries, last, x);
      }
    } else {
      var c :| c in maps && !NoStrays(c, after, evs);
      var x :| HistoryAt(c, evs, x).Some? && HistoryAt(after, evs, x) == None;
      StrayStays(maps, c, after, evs, x);
    }
  }

  // ---------- In terms of the names alone ----------

  // Empty records but for one.
  function Single(ds: seq<Name>, p: nat): seq<StoredEvent> { Two(ds, p, p) }

  lemma {:induction false} SingleHistoryAt(c: Config, ds: seq<Name>, p: nat, n: nat, target: Target)
    requires p < |ds| && n <= |ds|
    ensures HistoryAt(c, Single(ds, p)[..n], Slot(target, ITEM)) ==
      if p < n && TargetOf(c, ds[p]) == target then Some("1") else None
  {
    if n > 0 {
      SingleHistoryAt(c, ds, p, n - 1, target);
      TwoAt(ds, p, p, n - 1);
      assert Single(ds, p)[..n][..n - 1] == Single(ds, p)[..n - 1];
    }
  }

  lemma ShapeDoesNotHalt(c: Config, evs: seq<StoredEvent>, ds: seq<Name>)
    requires Shape(evs, ds) && ContiguousNames(c, ds)
    ensures !Halting(evs) && Contiguous(c, evs)
  {
    RecordsNeverAbort(evs, ds);
    GroupsExactly([], evs);
  }

  // For packs with given names, and all contents: if and only if none of the names had
  // another target under an old map.
  lemma RenameInHandIsHarmlessExactly(maps: seq<Config>, after: Config, ds: seq<Name>)
    requires ContiguousNames(after, ds) && after.qos == 1
    ensures (forall evs | Shape(evs, ds) :: FollowsNewNames(maps, after, evs)) <==>
              forall c | c in maps :: SameTargets(c, after, ds)
  {
    hide FollowsNewNames, ContiguousNames, SameTargets, Halting, Contiguous, Tidy;
    if forall c | c in maps :: SameTargets(c, after, ds) {
      forall evs | Shape(evs, ds) ensures FollowsNewNames(maps, after, evs) {
        ShapeDoesNotHalt(after, evs, ds);
        SameTargetsAreTidy(maps, after, evs, ds);
        RenameInHandExactly(maps, after, evs);
      }
    } else {
      var c :| c in maps && !SameTargets(c, after, ds);
      var evs := MovedIsUntidy(maps, c, after, ds);
      ShapeDoesNotHalt(after, evs, ds);
      RenameInHandExactly(maps, after, evs);
    }
  }

  predicate SameTargets(before: Config, after: Config, ds: seq<Name>) {
    forall k | 0 <= k < |ds| :: TargetOf(before, ds[k]) == TargetOf(after, ds[k])
  }

  lemma SameTargetsAreTidy(maps: seq<Config>, after: Config, evs: seq<StoredEvent>, ds: seq<Name>)
    requires Shape(evs, ds) && forall c | c in maps :: SameTargets(c, after, ds)
    ensures Tidy(maps, after, evs)
  {
    hide TargetOf, HistoryAt;
    assert forall e | e in evs :: exists k :: 0 <= k < |ds| && evs[k] == e;
    forall c, x | c in maps ensures HistoryAt(c, evs, x).Some? ==> HistoryAt(after, evs, x).Some? {
      assert SameTargets(c, after, ds);
      UnmovedWriteAlike(c, after, evs, x);
    }
  }

  lemma MovedIsUntidy(maps: seq<Config>, before: Config, after: Config, ds: seq<Name>) returns (evs: seq<StoredEvent>)
    requires before in maps && !SameTargets(before, after, ds)
    ensures Shape(evs, ds) && !Tidy(maps, after, evs)
  {
    hide TargetOf;
    var p :| 0 <= p < |ds| && TargetOf(before, ds[p]) != TargetOf(after, ds[p]);
    var old_ := TargetOf(before, ds[p]);
    evs := Single(ds, p);
    assert evs[..|ds|] == evs;
    SingleHistoryAt(before, ds, p, |ds|, old_);
    SingleHistoryAt(after, ds, p, |ds|, old_);
    assert !NoStrays(before, after, evs);
  }
}
