// Runs of the send loop: events are stored and turns are taken in any order, under any
// behaviour of the environment.
module DeliveryRuns {
  import opened PyDict
  import opened Platform
  import opened Delivery
  import opened DeliverySafety
  import opened Regrouping

  datatype Action = StoreEvent(event: StoredEvent) | TakeTurn(turn: Turn)

  predicate Bounded(s: State) { s.handed <= |s.pending| }

  function Act(c: Config, s: State, a: Action): (r: State)
    requires Bounded(s)
    ensures Bounded(r)
  {
    match a
    case StoreEvent(e) => s.(pending := s.pending + [e])
    case TakeTurn(t) => Step(c, s, t)
  }

  function RunFrom(c: Config, s: State, acts: seq<Action>): (r: State)
    requires Bounded(s)
    ensures Bounded(r)
  {
    if acts == [] then s else Act(c, RunFrom(c, s, acts[..|acts| - 1]), acts[|acts| - 1])
  }

  function Run(c: Config, acts: seq<Action>): (s: State)
    ensures Bounded(s)
  {
    RunFrom(c, INITIAL, acts)
  }

  // ---------- The acknowledging turn ----------

  // The pack a turn works on, and what it publishes.
  function PackOf(s: State, t: Turn): seq<StoredEvent>
    requires Bounded(s)
  {
    s.pending[..Handed(s, t)]
  }

  function Attempt(c: Config, s: State, t: Turn): Sending
    requires Bounded(s)
  {
    SendAll(c, Grouping(ReadPack(s, t)).buffer, t.calls)
  }

  function Awaiting(c: Config, s: State, t: Turn): seq<Sent>
    requires Bounded(s)
  {
    s.published + Attempt(c, s, t).sent
  }

  predicate Acks(c: Config, s: State, t: Turn)
    requires Bounded(s)
  {
    && Reads(t) && Handed(s, t) > 0 && Proceeds(ReadPack(s, t), t)
    && Succeeds(c, Transmit(c, Grouped(ReadPack(s, t)), t), t)
  }

  // The turn made no raising call, it awaited its handles, and no stop cut the draining
  // short.
  predicate Sound(c: Config, s: State, t: Turn)
    requires Bounded(s)
  {
    && !Attempt(c, s, t).raised
    && Awaits(c, t)
    && DrainCount(Awaiting(c, s, t), t) == |Awaiting(c, s, t)|
  }

  lemma AckedGrows(c: Config, s: State, t: Turn)
    requires Bounded(s)
    ensures Step(c, s, t).acked == if Acks(c, s, t) then s.acked + PackOf(s, t) else s.acked
    ensures Step(c, s, t).acked + Step(c, s, t).pending == s.acked + s.pending
  {
    if Acks(c, s, t) {
      assert s.pending == PackOf(s, t) + s.pending[Handed(s, t)..];
    }
  }

  lemma SoundAckIsConfirmed(c: Config, s: State, t: Turn)
    requires Bounded(s) && Acks(c, s, t) && Sound(c, s, t)
    ensures AllConfirmed(Attempt(c, s, t).sent)
  {
    var all := Awaiting(c, s, t);
    assert all[..|all|] == all;
    assert forall m | m in all :: m.outcome == Confirmed;
    AllConfirmedConcat(s.published, Attempt(c, s, t).sent);
  }

  // Events are neither lost nor reordered: what was cleared followed by what is still
  // stored is the stored sequence.
  function Stored(acts: seq<Action>): seq<StoredEvent> {
    if acts == [] then []
    else
      Stored(acts[..|acts| - 1]) +
      (match acts[|acts| - 1] case StoreEvent(e) => [e] case TakeTurn(_) => [])
  }

  lemma {:induction false} EventsAreConservedFrom(c: Config, s: State, acts: seq<Action>)
    requires Bounded(s)
    ensures RunFrom(c, s, acts).acked + RunFrom(c, s, acts).pending == s.acked + s.pending + Stored(acts)
  {
    if acts != [] {
      var n := |acts| - 1;
      EventsAreConservedFrom(c, s, acts[..n]);
      var r := RunFrom(c, s, acts[..n]);
      match acts[n] {
        case StoreEvent(e) => assert r.acked + (r.pending + [e]) == r.acked + r.pending + [e];
        case TakeTurn(t) => AckedGrows(c, r, t);
      }
    }
  }

  lemma EventsAreConserved(c: Config, acts: seq<Action>)
    ensures Run(c, acts).acked + Run(c, acts).pending == Stored(acts)
  {
    EventsAreConservedFrom(c, INITIAL, acts);
  }

  // ---------- The platform follows the acknowledged history ----------

  // Outside the places the current pack writes, the platform is what the acknowledged
  // events make it; the buffer holds nothing but leftovers of the current pack.
  ghost predicate Inv(c: Config, s: State) {
    && Bounded(s)
    && Unique(s.buffer)
    && Keys(s.buffer) <= FirstNames(s.pending[..s.handed])
    && Residue(s.buffer, s.pending[..s.handed])
    && Tracks(c, s.platform, s.acked, s.pending[..s.handed])
  }

  ghost predicate Tracks(c: Config, log: seq<Message>, acked: seq<StoredEvent>, pack: seq<StoredEvent>) {
    forall x :: PlatformAt(log, x) == HistoryAt(c, acked, x) || HistoryAt(c, pack, x).Some?
  }

  lemma PackGrows(c: Config, s: State, n: nat)
    requires Inv(c, s) && s.handed <= n <= |s.pending|
    ensures Inv(c, s.(handed := n))
  {
    var old_, new_ := s.pending[..s.handed], s.pending[..n];
    var more := s.pending[s.handed..n];
    assert new_ == old_ + more && new_[..s.handed] == old_;
    FirstNamesGrow(new_, s.handed);
    forall d, i ensures HeldAt(s.buffer, d, i).Some? ==> DeviceAt(new_, d, i).Some? {
      DeviceAtConcat(old_, more, d, i);
    }
    forall x ensures PlatformAt(s.platform, x) == HistoryAt(c, s.acked, x) || HistoryAt(c, new_, x).Some? {
      HistoryAtConcat(c, old_, more, x);
    }
  }

  lemma GroupingKeepsInv(c: Config, s: State)
    requires Inv(c, s)
    ensures Inv(c, Grouped(s))
  {
    var pack := s.pending[..s.handed];
    FillKeepsUnique(s.buffer, pack);
    RefilledOrder(s.buffer, pack);
    forall d, i ensures HeldAt(Grouped(s).buffer, d, i).Some? ==> DeviceAt(pack, d, i).Some? {
      if HeldAt(Grouped(s).buffer, d, i).Some? { FillWithin(s.buffer, pack, d, i); }
    }
  }

  lemma {:induction false} EmptyingShrinks(before: Buffer, after: Buffer, d: Name, i: Item)
    requires |before| == |after|
    requires forall m | 0 <= m < |before| :: after[m] == before[m] || after[m] == (before[m].0, EMPTY_BUCKET)
    ensures Keys(before) == Keys(after)
    ensures HeldAt(after, d, i).Some? ==> HeldAt(before, d, i).Some?
  {
    if before != [] {
      var n := |before| - 1;
      EmptyingShrinks(before[..n], after[..n], d, i);
      assert before[n].0 != d ==> BucketOf(before, d) == BucketOf(before[..n], d);
      assert before[n].0 != d ==> BucketOf(after, d) == BucketOf(after[..n], d);
    }
  }

  lemma SentIsInPack(c: Config, s: State, t: Turn, x: Slot)
    requires Inv(c, s) && PlatformAt(Arrived(SendAll(c, s.buffer, t.calls).sent), x).Some?
    ensures HistoryAt(c, s.pending[..s.handed], x).Some?
  {
    var m := SentWithin(c, s.buffer, t.calls, |s.buffer|, x);
    UniqueGet(s.buffer, m);
    assert HeldAt(s.buffer, s.buffer[m].0, x.item).Some?;
    DeviceInHistory(c, s.pending[..s.handed], s.buffer[m].0, x);
  }

  lemma TransmitKeepsInv(c: Config, s: State, t: Turn)
    requires Inv(c, s)
    ensures Inv(c, Transmit(c, s, t))
  {
    var r := Transmit(c, s, t);
    var pack := s.pending[..s.handed];
    SendShape(c, s.buffer, t.calls, |s.buffer|);
    EmptyingShrinks(s.buffer, r.buffer, "", Attribute(""));
    UniqueByKeys(s.buffer, r.buffer);
    forall d, i ensures HeldAt(r.buffer, d, i).Some? ==> DeviceAt(pack, d, i).Some? {
      EmptyingShrinks(s.buffer, r.buffer, d, i);
    }
    forall x ensures PlatformAt(r.platform, x) == HistoryAt(c, s.acked, x) || HistoryAt(c, pack, x).Some? {
      PlatformAtConcat(s.platform, Arrived(SendAll(c, s.buffer, t.calls).sent), x);
      if PlatformAt(Arrived(SendAll(c, s.buffer, t.calls).sent), x).Some? { SentIsInPack(c, s, t, x); }
    }
  }

  // A sound acknowledging turn leaves the platform as the pack applied once on top of
  // the acknowledged events, whatever earlier turns did with the pack.
  lemma SoundAckDelivers(c: Config, s: State, t: Turn, x: Slot)
    requires Inv(c, s) && Acks(c, s, t) && Sound(c, s, t) && Contiguous(c, PackOf(s, t))
    ensures PlatformAt(Step(c, s, t).platform, x) == HistoryAt(c, s.acked + PackOf(s, t), x)
  {
    var r, pack := ReadPack(s, t), PackOf(s, t);
    PackGrows(c, s, Handed(s, t));
    var buf := Grouping(r).buffer;
    RefilledBufferMeaning(c, r.buffer, pack, x);
    SoundAckIsConfirmed(c, s, t);
    SentExactly(c, buf, t.calls, |buf|, x);
    assert buf[..|buf|] == buf;
    PlatformAtConcat(s.platform, Arrived(Attempt(c, s, t).sent), x);
    HistoryAtConcat(c, s.acked, pack, x);
    assert Tracks(c, s.platform, s.acked, pack);
  }

  lemma AckKeepsInv(c: Config, s: State, t: Turn)
    requires Inv(c, s) && Acks(c, s, t) && Sound(c, s, t) && Contiguous(c, PackOf(s, t))
    ensures Inv(c, Step(c, s, t))
  {
    var r := Step(c, s, t);
    AckedGrows(c, s, t);
    assert r.handed == 0 && r.buffer == [] && r.pending[..0] == [];
    forall x ensures PlatformAt(r.platform, x) == HistoryAt(c, r.acked, x) {
      SoundAckDelivers(c, s, t, x);
    }
  }

  lemma OtherTurnKeepsInv(c: Config, s: State, t: Turn)
    requires Inv(c, s) && !Acks(c, s, t)
    ensures Inv(c, Step(c, s, t))
  {
    if Reads(t) {
      PackGrows(c, s, Handed(s, t));
      var r := ReadPack(s, t);
      if r.handed > 0 {
        GroupingKeepsInv(c, r);
        if Proceeds(r, t) {
          TransmitKeepsInv(c, Grouped(r), t);
          DrainKeepsInv(c, Transmit(c, Grouped(r), t), t);
        }
      }
    }
  }

  lemma DrainKeepsInv(c: Config, s: State, t: Turn)
    requires Inv(c, s)
    ensures Inv(c, Drained(s, t))
  {}

  // Every acknowledging turn of the run is sound and its pack contiguous; nothing is
  // asked of the other turns.
  predicate SoundFrom(c: Config, s: State, acts: seq<Action>)
    requires Bounded(s)
  {
    acts == [] ||
    (SoundFrom(c, s, acts[..|acts| - 1]) && SoundAct(c, RunFrom(c, s, acts[..|acts| - 1]), acts[|acts| - 1]))
  }

  predicate SoundAct(c: Config, s: State, a: Action)
    requires Bounded(s)
  {
    a.TakeTurn? && Acks(c, s, a.turn) ==> Sound(c, s, a.turn) && Contiguous(c, PackOf(s, a.turn))
  }

  predicate SoundRun(c: Config, acts: seq<Action>) { SoundFrom(c, INITIAL, acts) }

  lemma StoreKeepsInv(c: Config, s: State, e: StoredEvent)
    requires Inv(c, s)
    ensures Inv(c, s.(pending := s.pending + [e]))
  {
    assert (s.pending + [e])[..s.handed] == s.pending[..s.handed];
  }

  lemma {:induction false} RunKeepsInv(c: Config, s: State, acts: seq<Action>)
    requires Inv(c, s) && SoundFrom(c, s, acts)
    ensures Inv(c, RunFrom(c, s, acts))
  {
    if acts != [] {
      var n := |acts| - 1;
      RunKeepsInv(c, s, acts[..n]);
      var r := RunFrom(c, s, acts[..n]);
      match acts[n] {
        case StoreEvent(e) => StoreKeepsInv(c, r, e);
        case TakeTurn(t) =>
          if Acks(c, r, t) { AckKeepsInv(c, r, t); } else { OtherTurnKeepsInv(c, r, t); }
      }
    }
  }

  // Whenever no pack is in hand, as right after an acknowledgement, the platform holds
  // exactly what applying every acknowledged event once, in storage order, leaves.
  lemma PlatformEqualsAcknowledgedHistory(c: Config, acts: seq<Action>)
    requires SoundRun(c, acts)
    ensures var s := Run(c, acts);
      s.handed == 0 ==> forall x :: PlatformAt(s.platform, x) == HistoryAt(c, s.acked, x)
  {
    RunKeepsInv(c, INITIAL, acts);
  }
}
