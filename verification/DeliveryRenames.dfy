// Renames in the course of delivery: what a change of the rename map does to what is
// stored, and that the platform follows it, between packs and, if it leaves nothing behind
// under an old name, with a pack in hand.
module DeliveryRenames {
  import opened Options
  import opened PyDict
  import opened Platform
  import opened Sequences
  import opened Delivery
  import opened DeliverySafety
  import opened Regrouping
  import opened DeliveryRuns
  import opened CarefulRuns
  import R = Registry
  import RR = RegistryRuns

  // ---------- Readings stored before a rename ----------

  // A reading that is stored, with its device's name translated, and sent after the
  // platform renamed the device once more, goes to the right name if and only if the
  // device had no other name yet when the reading was stored.
  lemma StoredBeforeRenameExactly(r: R.Registry, names: map<Name, Name>, d: Name, new_: Name)
    requires RR.Follows(r, names) && d in names && new_ !in names.Values
    ensures var q := r.(renamed := R.NoteRename(r, names[d], new_));
      R.UplinkName(q, R.UplinkName(r, d)) == R.UplinkName(q, d) <==> d !in Keys(r.renamed)
  {
    var q, e := r.(renamed := R.NoteRename(r, names[d], new_)), names[d];
    assert R.UplinkName(r, d) == e && e in names.Values;
    RR.RenameFollows(r, names, d, new_);
    assert RR.RenamedNames(names, e, new_)[d] == new_ == R.UplinkName(q, d);
    if d in Keys(r.renamed) {
      RR.NoteRenameGet(r, names, d, new_, e);
      assert R.UplinkName(q, e) == R.UplinkName(r, e);
      if e in Keys(r.renamed) { assert names[e] in names.Values; }
    }
  }

  // ---------- Runs with renames ----------

  // A stretch of a run under one rename map.
  datatype Epoch = Epoch(config: Config, acts: seq<Action>)

  function RunEpochs(es: seq<Epoch>): (s: State)
    ensures Bounded(s)
  {
    if es == [] then INITIAL
    else RunFrom(es[|es| - 1].config, RunEpochs(es[..|es| - 1]), es[|es| - 1].acts)
  }

  // The same state, with nothing on the platform and nothing acknowledged.
  function Fresh(s: State): State { s.(platform := [], acked := []) }

  function On(s: State, platform: seq<Message>, acked: seq<StoredEvent>): State {
    s.(platform := platform + s.platform, acked := acked + s.acked)
  }

  function InHand(s: State): seq<StoredEvent>
    requires Bounded(s)
  {
    s.pending[..s.handed]
  }

  // The events write everywhere they wrote under the old map under the new one too.
  ghost predicate NoStrays(before: Config, after: Config, evs: seq<StoredEvent>) {
    forall x :: HistoryAt(before, evs, x).Some? ==> HistoryAt(after, evs, x).Some?
  }

  // The rename leaves nothing of a pack in hand behind.
  ghost predicate TidyRename(es: seq<Epoch>)
    requires es != []
  {
    |es| > 1 ==> NoStrays(es[|es| - 2].config, es[|es| - 1].config, InHand(RunEpochs(es[..|es| - 1])))
  }

  // Every acknowledgement is sound, and every rename tidy.
  ghost predicate SoundEpochs(es: seq<Epoch>) {
    es == [] ||
    (SoundEpochs(es[..|es| - 1]) && TidyRename(es)
     && SoundFrom(es[|es| - 1].config, RunEpochs(es[..|es| - 1]), es[|es| - 1].acts))
  }

  // The events that the last stretch acknowledged.
  function AckedLast(es: seq<Epoch>): seq<StoredEvent>
    requires es != []
  {
    RunFrom(es[|es| - 1].config, Fresh(RunEpochs(es[..|es| - 1])), es[|es| - 1].acts).acked
  }

  // The acknowledged events applied in order, each under the rename map of its stretch.
  function EpochsAt(es: seq<Epoch>, x: Slot): Option<Json> {
    if es == [] then None
    else Over(EpochsAt(es[..|es| - 1], x), HistoryAt(es[|es| - 1].config, AckedLast(es), x))
  }

  function AckedBy(es: seq<Epoch>): seq<StoredEvent> {
    if es == [] then [] else AckedBy(es[..|es| - 1]) + AckedLast(es)
  }

  // Neither the platform nor what was acknowledged has any part in what a turn does.
  lemma StepOn(c: Config, s: State, t: Turn, p: seq<Message>, a: seq<StoredEvent>)
    requires Bounded(s)
    ensures Step(c, On(s, p, a), t) == On(Step(c, s, t), p, a)
    ensures Acks(c, On(s, p, a), t) <==> Acks(c, s, t)
    ensures Sound(c, On(s, p, a), t) <==> Sound(c, s, t)
    ensures PackOf(On(s, p, a), t) == PackOf(s, t)
  {
    hide Fill, SendAll, Arrived, Published, DrainCount;
    var r := Grouped(ReadPack(s, t));
    Associative(p, s.platform, Arrived(SendAll(c, r.buffer, t.calls).sent));
    Associative(a, s.acked, s.pending[..Handed(s, t)]);
  }

  lemma {:induction false} RunOn(c: Config, s: State, acts: seq<Action>, p: seq<Message>, a: seq<StoredEvent>)
    requires Bounded(s)
    ensures RunFrom(c, On(s, p, a), acts) == On(RunFrom(c, s, acts), p, a)
    ensures SoundFrom(c, On(s, p, a), acts) <==> SoundFrom(c, s, acts)
  {
    if acts != [] {
      hide Step, Acks, Sound, PackOf, Contiguous;
      var n := |acts| - 1;
      RunOn(c, s, acts[..n], p, a);
      if acts[n].TakeTurn? { StepOn(c, RunFrom(c, s, acts[..n]), acts[n].turn, p, a); }
    }
  }

  // The buffer holds nothing but leftovers of the pack in hand.
  ghost predicate Shaped(s: State) {
    && Bounded(s) && Unique(s.buffer) && Keys(s.buffer) <= FirstNames(InHand(s)) && Residue(s.buffer, InHand(s))
  }

  lemma ShapedIsInv(c: Config, s: State)
    requires Shaped(s)
    ensures Inv(c, Fresh(s))
  {}

  lemma InvIsShaped(c: Config, s: State, p: seq<Message>, a: seq<StoredEvent>)
    requires Inv(c, s)
    ensures Shaped(On(s, p, a)) && InHand(On(s, p, a)) == InHand(s)
    ensures forall x :: PlatformAt(s.platform, x) == HistoryAt(c, s.acked, x) || HistoryAt(c, InHand(s), x).Some?
  {}

  lemma OnFresh(s: State)
    ensures On(Fresh(s), s.platform, s.acked) == s
  {
    assert s.platform + [] == s.platform && s.acked + [] == s.acked;
  }

  // A pack in hand stays there until it is acknowledged as part of a pack.
  lemma {:induction false} HandedUntilAcked(c: Config, s: State, acts: seq<Action>)
    requires Bounded(s) && s.acked == []
    ensures var f := RunFrom(c, s, acts); (f.acked == [] && s.handed <= f.handed) || s.handed <= |f.acked|
  {
    if acts != [] {
      var n := |acts| - 1;
      HandedUntilAcked(c, s, acts[..n]);
      var r := RunFrom(c, s, acts[..n]);
      if acts[n].TakeTurn? { HandedStays(c, r, acts[n].turn); }
    }
  }

  lemma HandedStays(c: Config, r: State, t: Turn)
    requires Bounded(r)
    ensures !Acks(c, r, t) ==> Step(c, r, t).acked == r.acked && r.handed <= Step(c, r, t).handed
    ensures Acks(c, r, t) ==> |Step(c, r, t).acked| >= |r.acked| + r.handed
    ensures |Step(c, r, t).acked| >= |r.acked|
  {
    hide Fill, SendAll;
  }

  lemma InHandLasts(c: Config, s: State, acts: seq<Action>, x: Slot)
    requires Bounded(s) && s.acked == [] && HistoryAt(c, InHand(s), x).Some?
    ensures var f := RunFrom(c, s, acts); HistoryAt(c, f.acked, x).Some? || HistoryAt(c, InHand(f), x).Some?
  {
    hide RunFrom, HistoryAt;
    HandedUntilAcked(c, s, acts);
    EventsAreConservedFrom(c, s, acts);
    var f := RunFrom(c, s, acts);
    assert [] + s.pending == s.pending;
    if s.handed <= |f.acked| {
      BeginsWith(c, f.acked, f.pending, s.pending, Stored(acts), s.handed, x);
    } else {
      assert f.pending == s.pending + Stored(acts);
      BeginsWith(c, InHand(f), f.pending[f.handed..], s.pending, Stored(acts), s.handed, x);
    }
  }

  lemma BeginsWith(c: Config, a: seq<StoredEvent>, b: seq<StoredEvent>, u: seq<StoredEvent>, v: seq<StoredEvent>,
                   n: nat, x: Slot)
    requires a + b == u + v && n <= |u| && n <= |a| && HistoryAt(c, u[..n], x).Some?
    ensures HistoryAt(c, a, x).Some?
  {
    hide HistoryAt;
    assert a[..n] == (a + b)[..n] == u[..n];
    assert a == a[..n] + a[n..];
    HistoryAtConcat(c, a[..n], a[n..], x);
  }

  // What a stretch does to the platform, whatever of a pack is in hand at its beginning.
  lemma EpochDelivers(s: State, e: Epoch, base: Option<Json>, x: Slot)
    requires Shaped(s) && SoundFrom(e.config, s, e.acts)
    requires PlatformAt(s.platform, x) == base || HistoryAt(e.config, InHand(s), x).Some?
    ensures var r, f := RunFrom(e.config, s, e.acts), RunFrom(e.config, Fresh(s), e.acts);
      && Shaped(r) && r.acked == s.acked + f.acked
      && (PlatformAt(r.platform, x) == Over(base, HistoryAt(e.config, f.acked, x))
          || HistoryAt(e.config, InHand(r), x).Some?)
  {
    assert Bounded(s);
    hide Inv, Shaped, SoundFrom, RunFrom, PlatformAt, HistoryAt;
    var f := RunFrom(e.config, Fresh(s), e.acts);
    OnFresh(s);
    RunOn(e.config, Fresh(s), e.acts, s.platform, s.acked);
    ShapedIsInv(e.config, s);
    RunKeepsInv(e.config, Fresh(s), e.acts);
    InvIsShaped(e.config, f, s.platform, s.acked);
    PlatformAtConcat(s.platform, f.platform, x);
    if HistoryAt(e.config, InHand(s), x).Some? { InHandLasts(e.config, Fresh(s), e.acts, x); }
  }

  // However often devices are renamed, the platform holds what applying the acknowledged
  // events once, in order, each under the map of its time, leaves, but for places that the
  // pack in hand writes.
  lemma {:induction false} PlatformFollowsRenames(es: seq<Epoch>, x: Slot)
    requires SoundEpochs(es)
    ensures Shaped(RunEpochs(es)) && RunEpochs(es).acked == AckedBy(es)
    ensures PlatformAt(RunEpochs(es).platform, x) == EpochsAt(es, x)
         || (es != [] && HistoryAt(es[|es| - 1].config, InHand(RunEpochs(es)), x).Some?)
  {
    if es == [] {
      InitialIsShaped();
    } else {
      hide Shaped, SoundFrom, RunFrom, HistoryAt, PlatformAt;
      var n := |es| - 1;
      PlatformFollowsRenames(es[..n], x);
      var s := RunEpochs(es[..n]);
      if n > 0 && HistoryAt(es[n - 1].config, InHand(s), x).Some? {
        assert HistoryAt(es[n].config, InHand(s), x).Some?;
      }
      EpochDelivers(s, es[n], EpochsAt(es[..n], x), x);
    }
  }

  lemma InitialIsShaped()
    ensures Shaped(INITIAL)
  {
    assert INITIAL.pending[..0] == [];
  }

  // What the environment does: no turn could clear a pack without care, what is pending or
  // stored under one rename map has no name coming back after another name of the same
  // device, and renames are tidy.
  ghost predicate CarefulEpochs(es: seq<Epoch>) {
    es == [] ||
    (CarefulEpochs(es[..|es| - 1]) && TidyRename(es)
     && CarefulTurns(es[|es| - 1].config, es[|es| - 1].acts)
     && Contiguous(es[|es| - 1].config, RunEpochs(es[..|es| - 1]).pending + Stored(es[|es| - 1].acts)))
  }

  lemma CarefulEpochIsSound(s: State, e: Epoch)
    requires Bounded(s) && CarefulTurns(e.config, e.acts) && Contiguous(e.config, s.pending + Stored(e.acts))
    ensures SoundFrom(e.config, s, e.acts)
  {
    hide Contiguous, SoundFrom, CarefulTurns;
    OnFresh(s);
    assert Fresh(s).acked + Fresh(s).pending == s.pending;
    CarefulTurnsAreSound(e.config, Fresh(s), e.acts);
    RunOn(e.config, Fresh(s), e.acts, s.platform, s.acked);
  }

  lemma {:induction false} CarefulEpochsAreSound(es: seq<Epoch>)
    requires CarefulEpochs(es)
    ensures SoundEpochs(es)
  {
    if es != [] {
      hide Contiguous, SoundFrom, CarefulTurns, TidyRename;
      CarefulEpochsAreSound(es[..|es| - 1]);
      CarefulEpochIsSound(RunEpochs(es[..|es| - 1]), es[|es| - 1]);
    }
  }

  // Whenever no pack is in hand, the platform holds exactly that.
  lemma CarefulEpochsDeliver(es: seq<Epoch>)
    requires CarefulEpochs(es) && RunEpochs(es).handed == 0
    ensures RunEpochs(es).acked == AckedBy(es)
    ensures forall x :: PlatformAt(RunEpochs(es).platform, x) == EpochsAt(es, x)
  {
    hide RunEpochs, SoundEpochs, CarefulEpochs, AckedBy, EpochsAt;
    CarefulEpochsAreSound(es);
    assert InHand(RunEpochs(es)) == [];
    forall x ensures RunEpochs(es).acked == AckedBy(es) && PlatformAt(RunEpochs(es).platform, x) == EpochsAt(es, x) {
      PlatformFollowsRenames(es, x);
    }
    PlatformFollowsRenames(es, Slot(Gateway, Attribute("")));
  }

  // A rename of no device in the pack is tidy: its events write where they wrote before.
  lemma {:induction false} UnmovedWriteAlike(before: Config, after: Config, evs: seq<StoredEvent>, x: Slot)
    requires forall e | e in evs && e.Named() :: TargetOf(before, e.pack.device) == TargetOf(after, e.pack.device)
    ensures HistoryAt(before, evs, x) == HistoryAt(after, evs, x)
  {
    if evs != [] {
      hide PackAt, TargetOf;
      assert evs[|evs| - 1] in evs && forall e | e in evs[..|evs| - 1] :: e in evs;
      UnmovedWriteAlike(before, after, evs[..|evs| - 1], x);
    }
  }
}
