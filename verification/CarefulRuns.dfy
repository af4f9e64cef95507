// The guarantees of the send loop over runs, in terms of what its environment does.
module CarefulRuns {
  import opened Platform
  import opened Delivery
  import opened DeliverySafety
  import opened Regrouping
  import opened DeliveryRuns
  import opened AckExactness

  // No turn could clear a pack without care.
  predicate CarefulTurns(c: Config, acts: seq<Action>) {
    forall k | 0 <= k < |acts| && acts[k].TakeTurn? :: acts[k].turn.connectedAtAck ==> Careful(c, acts[k].turn)
  }

  // Nor does a stored name come back after another name of the same platform device.
  predicate CarefulRun(c: Config, acts: seq<Action>) { CarefulTurns(c, acts) && Contiguous(c, Stored(acts)) }

  lemma ContiguousSlice(c: Config, evs: seq<StoredEvent>, a: nat, b: nat)
    requires a <= b <= |evs| && Contiguous(c, evs)
    ensures Contiguous(c, evs[a..b])
  {
    forall k | 0 <= k < b - a ensures evs[a..b][k] == evs[a + k] {}
  }

  lemma StoredPrefixIsContiguous(c: Config, p: seq<StoredEvent>, acts: seq<Action>)
    requires acts != [] && Contiguous(c, p + Stored(acts))
    ensures Contiguous(c, p + Stored(acts[..|acts| - 1]))
  {
    hide Contiguous;
    var n := |Stored(acts[..|acts| - 1])|;
    ContiguousSlice(c, p + Stored(acts), 0, |p| + n);
    assert (p + Stored(acts))[0..|p| + n] == p + Stored(acts[..|acts| - 1]);
  }

  lemma PackIsContiguous(c: Config, s: State, t: Turn)
    requires Bounded(s) && Contiguous(c, s.acked + s.pending)
    ensures Contiguous(c, PackOf(s, t))
  {
    hide Contiguous;
    var n := |s.acked|;
    ContiguousSlice(c, s.acked + s.pending, n, n + Handed(s, t));
    assert (s.acked + s.pending)[n..n + Handed(s, t)] == PackOf(s, t);
  }

  lemma {:induction false} CarefulTurnsAreSound(c: Config, s: State, acts: seq<Action>)
    requires Bounded(s) && CarefulTurns(c, acts) && Contiguous(c, s.acked + s.pending + Stored(acts))
    ensures SoundFrom(c, s, acts)
  {
    if acts != [] {
      hide Contiguous, Sound, Acks;
      var n := |acts| - 1;
      StoredPrefixIsContiguous(c, s.acked + s.pending, acts);
      CarefulTurnsAreSound(c, s, acts[..n]);
      var r := RunFrom(c, s, acts[..n]);
      EventsAreConservedFrom(c, s, acts[..n]);
      if acts[n].TakeTurn? && Acks(c, r, acts[n].turn) {
        AcksWhileConnected(c, r, acts[n].turn);
        CarefulAckIsSound(c, r, acts[n].turn);
        PackIsContiguous(c, r, acts[n].turn);
      }
    }
  }

  lemma CarefulRunIsSound(c: Config, acts: seq<Action>)
    requires CarefulRun(c, acts)
    ensures SoundRun(c, acts)
  {
    assert INITIAL.acked + INITIAL.pending + Stored(acts) == Stored(acts);
    CarefulTurnsAreSound(c, INITIAL, acts);
  }

  lemma AcksWhileConnected(c: Config, s: State, t: Turn)
    requires Bounded(s) && Acks(c, s, t)
    ensures t.connectedAtAck
  {}

  // In a careful run the platform equals the acknowledged history whenever no pack is in
  // hand, however the connection came and went and however many attempts failed.
  lemma CarefulRunDelivers(c: Config, acts: seq<Action>)
    requires CarefulRun(c, acts)
    ensures var s := Run(c, acts);
      s.handed == 0 ==> forall x :: PlatformAt(s.platform, x) == HistoryAt(c, s.acked, x)
  {
    CarefulRunIsSound(c, acts);
    PlatformEqualsAcknowledgedHistory(c, acts);
  }
}
