// When a pack is cleared: exactly which packs a turn clears on which all goes well, and
// exactly when a storage can be cleared at all.
module AckProgress {
  import opened Options
  import opened PyDict
  import opened Platform
  import opened Delivery
  import opened DeliverySafety
  import opened SendOutcomes
  import opened Regrouping
  import opened DeliveryRuns
  import opened AckSafety

  // ---------- Packs without data ----------

  predicate AllEmpty(os: seq<Object>) { forall k | 0 <= k < |os| :: os[k] == [] }

  predicate PackEmpty(p: Pack) { p.telemetry == [] && AllEmpty(p.attributes) }

  predicate Dataless(evs: seq<StoredEvent>) { forall k | 0 <= k < |evs| && evs[k].Named() :: PackEmpty(evs[k].pack) }

  // The grouping raises at some event: it has no device name, or a faulty part.
  predicate Halting(evs: seq<StoredEvent>) { exists k :: 0 <= k < |evs| && evs[k].Halts() }

  predicate EmptyBuckets(buf: Buffer) { forall m | 0 <= m < |buf| :: buf[m].1 == EMPTY_BUCKET }

  lemma {:induction false} MergesToNothing(o: Object, os: seq<Object>)
    ensures MergeAll(o, os) == [] <==> o == [] && AllEmpty(os)
  {
    if os != [] {
      var n := |os| - 1;
      MergesToNothing(o, os[..n]);
      assert os == os[..n] + [os[n]];
    }
  }

  lemma ExtendEmpty(b: Bucket, p: Pack)
    ensures Extend(b, p) == EMPTY_BUCKET <==> b == EMPTY_BUCKET && PackEmpty(p)
  {
    MergesToNothing(b.attributes, p.attributes);
  }

  lemma EmptySnoc(buf: Buffer, d: Name, b: Bucket)
    ensures EmptyBuckets(buf + [(d, b)]) <==> EmptyBuckets(buf) && b == EMPTY_BUCKET
  {
    assert forall m | 0 <= m < |buf| :: (buf + [(d, b)])[m] == buf[m];
    assert (buf + [(d, b)])[|buf|] == (d, b);
  }

  lemma {:induction false} ReplaceEmpty(buf: Buffer, d: Name, p: Pack)
    requires d in Keys(buf)
    ensures EmptyBuckets(Replace(buf, d, Extend(BucketOf(buf, d), p))) <==> EmptyBuckets(buf) && PackEmpty(p)
  {
    hide Extend, PackEmpty;
    var n := |buf| - 1;
    assert buf == buf[..n] + [(buf[n].0, buf[n].1)];
    EmptySnoc(buf[..n], buf[n].0, buf[n].1);
    if buf[n].0 == d {
      ExtendEmpty(buf[n].1, p);
      EmptySnoc(buf[..n], d, Extend(buf[n].1, p));
    } else {
      ReplaceEmpty(buf[..n], d, p);
      EmptySnoc(Replace(buf[..n], d, Extend(BucketOf(buf, d), p)), buf[n].0, buf[n].1);
    }
  }

  lemma AddPackEmpty(buf: Buffer, p: Pack)
    ensures EmptyBuckets(AddPack(buf, p)) <==> EmptyBuckets(buf) && PackEmpty(p)
  {
    hide Extend, PackEmpty, EmptyBuckets;
    if p.device in Keys(buf) {
      ReplaceEmpty(buf, p.device, p);
    } else {
      ExtendEmpty(EMPTY_BUCKET, p);
      EmptySnoc(buf, p.device, Extend(EMPTY_BUCKET, p));
    }
  }

  lemma DatalessSnoc(evs: seq<StoredEvent>, e: StoredEvent)
    ensures Dataless(evs + [e]) <==> Dataless(evs) && (e.Named() ==> PackEmpty(e.pack))
  {
    hide PackEmpty;
    assert forall k | 0 <= k < |evs| :: (evs + [e])[k] == evs[k];
    assert (evs + [e])[|evs|] == e;
  }

  lemma DatalessPrefix(evs: seq<StoredEvent>, n: nat)
    requires n <= |evs| && Dataless(evs)
    ensures Dataless(evs[..n])
  {}

  // The grouping stops exactly if it raises at an event, and otherwise leaves only empty
  // buckets exactly if neither the buffer nor the pack has data.
  lemma {:induction false} GroupsExactly(buf: Buffer, evs: seq<StoredEvent>)
    ensures Fill(buf, evs).aborted <==> Halting(evs)
    ensures !Fill(buf, evs).aborted ==> (EmptyBuckets(Fill(buf, evs).buffer) <==> EmptyBuckets(buf) && Dataless(evs))
    ensures EmptyBuckets(buf) && Dataless(evs) ==> EmptyBuckets(Fill(buf, evs).buffer)
  {
    hide AddPack, EmptyBuckets, PackEmpty, Dataless;
    if evs == [] {
      NothingIsDataless();
    } else {
      var n := |evs| - 1;
      GroupsExactly(buf, evs[..n]);
      assert evs == evs[..n] + [evs[n]];
      DatalessSnoc(evs[..n], evs[n]);
      if evs[n].Named() { AddPackEmpty(Fill(buf, evs[..n]).buffer, evs[n].pack); }
    }
  }

  lemma NothingIsDataless()
    ensures Dataless([])
  {}

  lemma EmptyBucketSendsNothing(c: Config, x: Sending, n: nat)
    requires !x.raised && EmptyBuckets(x.buffer)
    ensures SendStep(c, x, n).sent == x.sent && !SendStep(c, x, n).raised && EmptyBuckets(SendStep(c, x, n).buffer)
  {}

  lemma {:induction false} EmptyBucketsSendNothing(c: Config, buf: Buffer, calls: seq<Outcome>, n: nat)
    requires n <= |buf| && EmptyBuckets(buf)
    ensures SendUpTo(c, buf, calls, n).sent == [] && !SendUpTo(c, buf, calls, n).raised
    ensures EmptyBuckets(SendUpTo(c, buf, calls, n).buffer)
  {
    hide SendStep, EmptyBuckets;
    if n > 0 {
      EmptyBucketsSendNothing(c, buf, calls, n - 1);
      EmptyBucketSendsNothing(c, SendUpTo(c, buf, calls, n - 1), n - 1);
    }
  }

  // ---------- A turn on which all goes well ----------

  // The gateway is connected at every check, there is no stop, and every call that the
  // turn can make is confirmed.
  predicate GoodTurn(c: Config, s: State, t: Turn)
    requires Bounded(s)
  {
    && Reads(t) && t.connectedAtSend && Checks(t) && t.connectedAtDrain && !t.configuringAtDrain && t.connectedAtAck
    && t.stopAfter == None
    && AllConfirm(t.calls) && |t.calls| >= 2 * |Grouping(ReadPack(s, t)).buffer|
  }

  // All is published and confirmed; something is published exactly if a bucket has data.
  lemma GoodAttempt(c: Config, buf: Buffer, calls: seq<Outcome>)
    requires AllConfirm(calls) && |calls| >= 2 * |buf|
    ensures var x := SendAll(c, buf, calls);
      !x.raised && AllConfirmed(x.sent) && (x.sent == [] <==> EmptyBuckets(buf)) && EmptyBuckets(x.buffer)
  {
    var x := SendAll(c, buf, calls);
    NothingRaises(c, buf, calls, |buf|);
    SendingEmpties(c, buf, calls, |buf|);
    SendingFollows(c, buf, calls, |buf|);
    if EmptyBuckets(buf) {
      EmptyBucketsSendNothing(c, buf, calls, |buf|);
    } else {
      var m :| 0 <= m < |buf| && buf[m].1 != EMPTY_BUCKET;
      SendCovers(c, buf, calls, |buf|, m);
    }
  }

  // The earlier handles that are still to drain do not stand in the way.
  predicate LeftoversConfirmed(c: Config, s: State) { c.qos == 1 ==> AllConfirmed(s.published) }

  lemma GoodTurnPublished(c: Config, s: State, t: Turn)
    requires Bounded(s) && GoodTurn(c, s, t)
    ensures var all := Awaiting(c, s, t);
      && DrainCount(all, t) == |all|
      && (all == [] <==> s.published == [] && EmptyBuckets(Grouping(ReadPack(s, t)).buffer))
      && (Published(c, all, t) <==> all != [] && LeftoversConfirmed(c, s))
  {
    hide SendAll, EmptyBuckets;
    GoodAttempt(c, Grouping(ReadPack(s, t)).buffer, t.calls);
    var all := Awaiting(c, s, t);
    AllConfirmedConcat(s.published, Attempt(c, s, t).sent);
    assert AllConfirmed(all) <==> forall m | m in all :: m.outcome == Confirmed;
  }

  // Such a turn clears the pack in hand if and only if the grouping raises at no event, no
  // earlier handle fails, and there is anything to publish or to drain.
  lemma GoodTurnClearsExactly(c: Config, s: State, t: Turn)
    requires Bounded(s) && GoodTurn(c, s, t) && Handed(s, t) > 0
    ensures Acks(c, s, t) <==>
      !Halting(PackOf(s, t)) && LeftoversConfirmed(c, s)
      && !(s.published == [] && EmptyBuckets(s.buffer) && Dataless(PackOf(s, t)))
  {
    hide Fill, EmptyBuckets, Dataless, SendAll, Published;
    GroupsExactly(s.buffer, PackOf(s, t));
    GoodTurnPublished(c, s, t);
    var all := Awaiting(c, s, t);
    assert all[..|all|] == all;
  }

  // The first condition of that, read at the buffer.
  lemma FreshGoodTurnClearsExactly(c: Config, s: State, t: Turn)
    requires Bounded(s) && GoodTurn(c, s, t) && Handed(s, t) > 0 && s.published == []
    ensures Acks(c, s, t) <==>
      !Grouping(ReadPack(s, t)).aborted && !EmptyBuckets(Grouping(ReadPack(s, t)).buffer)
  {
    hide Fill, EmptyBuckets, Dataless;
    GroupsExactly(s.buffer, PackOf(s, t));
    GoodTurnClearsExactly(c, s, t);
  }

  // ---------- Two good turns settle it ----------

  // A good turn that does not clear leaves nothing to drain and nothing in the buffer.
  lemma FailedGoodTurn(c: Config, s: State, t: Turn)
    requires Bounded(s) && GoodTurn(c, s, t) && Handed(s, t) > 0 && !Acks(c, s, t)
    ensures var r := Step(c, s, t);
      && r.pending == s.pending && r.handed == Handed(s, t)
      && (!Halting(PackOf(s, t)) ==> r.published == [] && EmptyBuckets(r.buffer))
  {
    hide Fill, EmptyBuckets, Dataless, SendAll, Published;
    GroupsExactly(s.buffer, PackOf(s, t));
    GoodAttempt(c, Grouping(ReadPack(s, t)).buffer, t.calls);
    GoodTurnPublished(c, s, t);
    var all := Awaiting(c, s, t);
    assert all[..|all|] == all && all[|all|..] == [];
  }

  // Whatever went wrong before, and whatever is still in the buffer or to be drained: if a
  // good turn did not clear the pack, the next one does, if and only if the grouping raises
  // at no event of the pack and some event has data.
  lemma SecondGoodTurnClearsExactly(c: Config, s: State, first: Turn, second: Turn)
    requires Bounded(s) && GoodTurn(c, s, first) && Handed(s, first) > 0 && !Acks(c, s, first)
    requires GoodTurn(c, Step(c, s, first), second)
    ensures var r := Step(c, s, first);
      Acks(c, r, second) <==> !Halting(PackOf(r, second)) && !Dataless(PackOf(r, second))
  {
    hide Dataless, EmptyBuckets, Step, Acks, GoodTurn;
    var r := Step(c, s, first);
    FailedGoodTurn(c, s, first);
    PackLasts(s, first, r, second);
    GoodTurnClearsExactly(c, r, second);
  }

  // A pack is returned again, or an extension of it.
  lemma PackLasts(s: State, first: Turn, r: State, second: Turn)
    requires Bounded(s) && Bounded(r) && r.pending == s.pending && r.handed == Handed(s, first)
    ensures Handed(r, second) >= Handed(s, first)
    ensures Halting(PackOf(s, first)) ==> Halting(PackOf(r, second))
  {
    assert PackOf(s, first) == PackOf(r, second)[..Handed(s, first)];
  }

  // ---------- When a storage can be cleared at all ----------

  predicate OnlyTurns(acts: seq<Action>) { forall k | 0 <= k < |acts| :: acts[k].TakeTurn? }

  predicate Idle(s: State) { s.handed <= |s.pending| && EmptyBuckets(s.buffer) && s.published == [] }

  // The first n events can be the pack, the grouping raises at none of them, and some has
  // data, or something is left over from before.
  predicate Clearable(s: State, n: nat) {
    && s.handed <= n <= |s.pending| && n > 0
    && !Halting(s.pending[..n]) && !(Idle(s) && Dataless(s.pending[..n]))
  }

  // What holds while nothing can be cleared.
  ghost predicate Stuck(s: State, r: State) {
    && r.pending == s.pending && r.acked == s.acked && s.handed <= r.handed <= |s.pending|
    && (Idle(s) && Dataless(s.pending[..r.handed]) ==> Idle(r))
  }

  lemma DatalessTurn(c: Config, r: State, t: Turn)
    requires Idle(r) && Dataless(PackOf(r, t))
    ensures !Acks(c, r, t) && Idle(Step(c, r, t))
  {
    hide Fill, EmptyBuckets, Dataless;
    GroupsExactly(r.buffer, PackOf(r, t));
    var buf := Grouping(ReadPack(r, t)).buffer;
    EmptyBucketsSendNothing(c, buf, t.calls, |buf|);
    HandsOnly(c, r, t, buf);
  }

  lemma HandsOnly(c: Config, r: State, t: Turn, buf: Buffer)
    requires Idle(r) && buf == Grouping(ReadPack(r, t)).buffer && EmptyBuckets(buf)
    requires SendAll(c, buf, t.calls).sent == [] && EmptyBuckets(SendAll(c, buf, t.calls).buffer)
    ensures !Acks(c, r, t) && Idle(Step(c, r, t))
  {
    hide Fill, EmptyBuckets, SendAll;
    var q := Grouped(ReadPack(r, t));
    assert Transmit(c, q, t).published == [];
  }

  lemma StepKeepsStorage(c: Config, r: State, t: Turn)
    requires Bounded(r) && !Acks(c, r, t)
    ensures Step(c, r, t).pending == r.pending && Step(c, r, t).acked == r.acked
    ensures Step(c, r, t).handed == if Reads(t) then Handed(r, t) else r.handed
  {
    hide Fill, SendAll;
  }

  lemma StuckTurn(c: Config, s: State, r: State, t: Turn)
    requires Bounded(s) && Stuck(s, r) && !Clearable(s, Handed(r, t))
    ensures Stuck(s, Step(c, r, t))
  {
    hide Step, Acks, Dataless, Idle;
    var n := Handed(r, t);
    assert PackOf(r, t) == s.pending[..n] && s.pending[..n][..r.handed] == s.pending[..r.handed];
    if Idle(s) && Dataless(s.pending[..n]) {
      DatalessPrefix(s.pending[..n], r.handed);
      DatalessTurn(c, r, t);
    } else if n == 0 {
      NothingHanded(c, r, t);
    } else {
      HaltingTurn(c, r, t);
    }
    StepKeepsStorage(c, r, t);
    if !Reads(t) { NoRead(c, r, t); }
  }

  lemma NoRead(c: Config, r: State, t: Turn)
    requires Bounded(r) && !Reads(t)
    ensures Step(c, r, t) == r
  {}

  lemma NothingHanded(c: Config, r: State, t: Turn)
    requires Bounded(r) && Handed(r, t) == 0
    ensures !Acks(c, r, t)
  {}

  lemma HaltingTurn(c: Config, r: State, t: Turn)
    requires Bounded(r) && Halting(PackOf(r, t))
    ensures !Acks(c, r, t)
  {
    GroupsExactly(r.buffer, PackOf(r, t));
  }

  lemma {:induction false} StuckStays(c: Config, s: State, acts: seq<Action>)
    requires Bounded(s) && OnlyTurns(acts) && forall n :: !Clearable(s, n)
    ensures Stuck(s, RunFrom(c, s, acts))
  {
    if acts != [] {
      var n := |acts| - 1;
      StuckStays(c, s, acts[..n]);
      StuckTurn(c, s, RunFrom(c, s, acts[..n]), acts[n].turn);
    }
  }

  function Ideal(packSize: nat, calls: seq<Outcome>): Turn {
    Turn(true, false, packSize, true, calls, true, false, None, true, false, true)
  }

  // A turn on which everything is sent, but no handle is awaited.
  lemma ClearableIsCleared(c: Config, s: State, n: nat) returns (t: Turn)
    requires Clearable(s, n)
    ensures Handed(s, t) == n && Acks(c, s, t)
  {
    hide Fill, EmptyBuckets, Dataless, SendAll;
    var buf := Fill(s.buffer, s.pending[..n]).buffer;
    t := Ideal(n, Sure(2 * |buf|)).(connectedAtDrain := false);
    assert Handed(s, t) == n;
    GroupsExactly(s.buffer, s.pending[..n]);
    GoodAttempt(c, buf, t.calls);
    var all := Awaiting(c, s, t);
    assert all[..|all|] == all;
  }

  // Some turns clear something if and only if some pack the storage can return groups
  // without raising, and has data somewhere unless something is left over from before.
  lemma StorageMovesExactly(c: Config, s: State)
    requires Bounded(s)
    ensures (exists acts :: OnlyTurns(acts) && RunFrom(c, s, acts).acked != s.acked) <==> (exists n :: Clearable(s, n))
  {
    if n :| Clearable(s, n) {
      var t := ClearableIsCleared(c, s, n);
      AckedGrows(c, s, t);
      var acts := [TakeTurn(t)];
      assert acts[..0] == [] && RunFrom(c, s, acts) == Step(c, s, t);
      assert OnlyTurns(acts);
    } else {
      forall acts | OnlyTurns(acts) ensures RunFrom(c, s, acts).acked == s.acked { StuckStays(c, s, acts); }
    }
  }

  // In particular, a storage that holds only corrupt events, or events without telemetry
  // entries and attributes, is never cleared, however well all turns go.
  lemma DatalessPackIsNeverCleared(c: Config, s: State, acts: seq<Action>)
    requires Idle(s) && Dataless(s.pending) && OnlyTurns(acts)
    ensures var r := RunFrom(c, s, acts); r.pending == s.pending && r.acked == s.acked && Idle(r)
  {
    StuckStays(c, s, acts);
  }

  // Nor is a pack with an event at which the grouping raises, whatever is stored behind it.
  lemma {:induction false} HaltingPackIsNeverCleared(c: Config, s: State, acts: seq<Action>)
    requires Bounded(s) && Halting(s.pending[..s.handed])
    ensures var r := RunFrom(c, s, acts);
      r.acked == s.acked && s.handed <= r.handed && s.pending <= r.pending
  {
    if acts != [] {
      var n := |acts| - 1;
      HaltingPackIsNeverCleared(c, s, acts[..n]);
      var r := RunFrom(c, s, acts[..n]);
      if acts[n].TakeTurn? {
        assert s.pending[..s.handed] == PackOf(r, acts[n].turn)[..s.handed];
        HaltingTurn(c, r, acts[n].turn);
        StepKeepsStorage(c, r, acts[n].turn);
      }
    }
  }

  // ---------- When a storage can be drained ----------

  lemma AckedDoesNotHalt(c: Config, s: State, t: Turn)
    requires Bounded(s) && Acks(c, s, t)
    ensures !Halting(PackOf(s, t)) && Step(c, s, t).pending == s.pending[Handed(s, t)..]
  {
    hide Fill, SendAll, Halting;
    GroupsExactly(s.buffer, PackOf(s, t));
  }

  // The turns have cleared the first m events, and the grouping raised at none of them.
  lemma {:induction false} ClearedDoNotHalt(c: Config, s: State, acts: seq<Action>) returns (m: nat)
    requires Bounded(s) && OnlyTurns(acts)
    ensures m <= |s.pending| && RunFrom(c, s, acts).pending == s.pending[m..] && !Halting(s.pending[..m])
  {
    m := 0;
    if acts != [] {
      hide Step, Halting;
      var n := |acts| - 1;
      m := ClearedDoNotHalt(c, s, acts[..n]);
      m := NextAreCleared(c, s, RunFrom(c, s, acts[..n]), acts[n].turn, m);
    }
  }

  lemma NextAreCleared(c: Config, s: State, r: State, t: Turn, m: nat) returns (n: nat)
    requires Bounded(r) && m <= |s.pending| && r.pending == s.pending[m..] && !Halting(s.pending[..m])
    ensures n <= |s.pending| && Step(c, r, t).pending == s.pending[n..] && !Halting(s.pending[..n])
  {
    hide Step, Acks, Halting;
    n := m;
    if Acks(c, r, t) {
      AckedDoesNotHalt(c, r, t);
      NextDoNotHalt(s.pending, m, Handed(r, t));
      n := m + Handed(r, t);
    } else {
      StepKeepsStorage(c, r, t);
    }
  }

  lemma NextDoNotHalt(evs: seq<StoredEvent>, m: nat, n: nat)
    requires m + n <= |evs| && !Halting(evs[..m]) && !Halting(evs[m..][..n])
    ensures !Halting(evs[..m + n]) && evs[m..][n..] == evs[m + n..]
  {
    forall k | 0 <= k < m + n ensures !evs[k].Halts() {
      if k < m { assert !evs[..m][k].Halts(); } else { assert !evs[m..][..n][k - m].Halts(); }
    }
  }

  ghost predicate CanDrain(c: Config, s: State)
    requires Bounded(s)
  {
    exists acts :: OnlyTurns(acts) && RunFrom(c, s, acts).pending == []
  }

  lemma OneTurnRun(c: Config, s: State, t: Turn)
    requires Bounded(s)
    ensures RunFrom(c, s, [TakeTurn(t)]) == Step(c, s, t)
  {
    assert [TakeTurn(t)][..0] == [];
  }

  lemma DrainingTurn(c: Config, s: State) returns (t: Turn)
    requires Clearable(s, |s.pending|)
    ensures Acks(c, s, t) && RunFrom(c, s, [TakeTurn(t)]).pending == []
  {
    t := ClearableIsCleared(c, s, |s.pending|);
    AckedDoesNotHalt(c, s, t);
    OneTurnRun(c, s, t);
  }

  // Some turns clear the whole storage if and only if it is empty, or the grouping raises
  // at none of its events and some has data or something is left over from before.
  lemma DrainsExactly(c: Config, s: State)
    requires Bounded(s)
    ensures CanDrain(c, s) <==> s.pending == [] || (!Halting(s.pending) && !(Idle(s) && Dataless(s.pending)))
  {
    hide Halting, Dataless, RunFrom, Idle;
    assert s.pending[..|s.pending|] == s.pending;
    if s.pending == [] {
      assert OnlyTurns([]) && RunFrom(c, s, []).pending == [] by { NoActs(c, s); }
    } else if !Halting(s.pending) && !(Idle(s) && Dataless(s.pending)) {
      var t := DrainingTurn(c, s);
      assert OnlyTurns([TakeTurn(t)]);
    } else {
      forall acts | OnlyTurns(acts) ensures RunFrom(c, s, acts).pending != [] {
        if Idle(s) && Dataless(s.pending) {
          DatalessPackIsNeverCleared(c, s, acts);
        } else {
          var m := ClearedDoNotHalt(c, s, acts);
        }
      }
    }
  }

  // Two turns on which all goes well do, from whatever state, if the grouping raises at no
  // event and some has data; the first may have to clear away what is left over.
  lemma TwoGoodTurnsDrain(c: Config, s: State) returns (first: Turn, second: Turn)
    requires Bounded(s) && !Halting(s.pending) && !Dataless(s.pending)
    ensures GoodTurn(c, s, first)
    ensures Acks(c, s, first) ==> Step(c, s, first).pending == []
    ensures !Acks(c, s, first) ==> GoodTurn(c, Step(c, s, first), second)
    ensures !Acks(c, s, first) ==> Step(c, Step(c, s, first), second).pending == []
  {
    hide Fill, Dataless, Halting, Acks, Step, EmptyBuckets, Awaiting;
    var n := |s.pending|;
    assert s.pending[..n] == s.pending;
    SomeHasData(s.pending);
    first := Ideal(n, Sure(2 * |Fill(s.buffer, s.pending).buffer|));
    second := first;
    assert Handed(s, first) == n && GoodTurn(c, s, first);
    if Acks(c, s, first) {
      AckedDoesNotHalt(c, s, first);
    } else {
      FailedGoodTurn(c, s, first);
      var r := Step(c, s, first);
      second := Ideal(n, Sure(2 * |Fill(r.buffer, r.pending).buffer|));
      assert Handed(r, second) == n && GoodTurn(c, r, second);
      SecondGoodTurnClearsExactly(c, s, first, second);
      AckedDoesNotHalt(c, r, second);
    }
  }

  lemma SomeHasData(evs: seq<StoredEvent>)
    requires !Dataless(evs)
    ensures |evs| > 0
  {}

  lemma NoActs(c: Config, s: State)
    requires Bounded(s)
    ensures RunFrom(c, s, []) == s
  {}

  // ---------- What a halted pack does to the buffer ----------

  // The telemetry entries in all buckets.
  function EntriesIn(buf: Buffer): nat {
    if buf == [] then 0 else EntriesIn(buf[..|buf| - 1]) + |buf[|buf| - 1].1.telemetry|
  }

  // The telemetry entries that are merged before the grouping stops.
  function Taken(evs: seq<StoredEvent>): nat {
    if evs == [] then 0
    else if Fill([], evs[..|evs| - 1]).aborted || !evs[|evs| - 1].Named() then Taken(evs[..|evs| - 1])
    else Taken(evs[..|evs| - 1]) + |evs[|evs| - 1].pack.telemetry|
  }

  lemma {:induction false} ReplaceEntries(buf: Buffer, d: Name, p: Pack)
    requires d in Keys(buf)
    ensures EntriesIn(Replace(buf, d, Extend(BucketOf(buf, d), p))) == EntriesIn(buf) + |p.telemetry|
  {
    var n := |buf| - 1;
    assert buf == buf[..n] + [(buf[n].0, buf[n].1)];
    if buf[n].0 != d { ReplaceEntries(buf[..n], d, p); }
  }

  lemma AddPackEntries(buf: Buffer, p: Pack)
    ensures EntriesIn(AddPack(buf, p)) == EntriesIn(buf) + |p.telemetry|
  {
    if p.device in Keys(buf) { ReplaceEntries(buf, p.device, p); }
  }

  lemma {:induction false} FillEntries(buf: Buffer, evs: seq<StoredEvent>)
    ensures EntriesIn(Fill(buf, evs).buffer) == EntriesIn(buf) + Taken(evs)
  {
    hide AddPack, EntriesIn;
    if evs != [] {
      var n := |evs| - 1;
      FillEntries(buf, evs[..n]);
      AbortsAlike(buf, [], evs[..n]);
      if evs[n].Named() { AddPackEntries(Fill(buf, evs[..n]).buffer, evs[n].pack); }
    }
  }

  // Every turn reads the storage, which returns the same pack.
  predicate Retries(s: State, acts: seq<Action>) {
    forall k | 0 <= k < |acts| :: acts[k].TakeTurn? && Reads(acts[k].turn) && acts[k].turn.packSize <= s.handed
  }

  lemma HaltedTurn(c: Config, s: State, t: Turn)
    requires Bounded(s) && Reads(t) && t.packSize <= s.handed && Halting(s.pending[..s.handed])
    ensures Step(c, s, t) == Grouped(s)
  {
    GroupsExactly(s.buffer, PackOf(s, t));
  }

  // Each retry of a pack at which the grouping raises merges its first part once more:
  // the buffer grows by the same number of entries, and nothing is published.
  lemma {:induction false} HaltedPackPilesUp(c: Config, s: State, acts: seq<Action>)
    requires Bounded(s) && Halting(s.pending[..s.handed]) && Retries(s, acts)
    ensures var r := RunFrom(c, s, acts);
      && r == s.(buffer := r.buffer)
      && EntriesIn(r.buffer) == EntriesIn(s.buffer) + |acts| * Taken(s.pending[..s.handed])
  {
    hide Fill, EntriesIn, Taken, Halting, Step;
    if acts != [] {
      var n, more := |acts| - 1, Taken(s.pending[..s.handed]);
      HaltedPackPilesUp(c, s, acts[..n]);
      var r := RunFrom(c, s, acts[..n]);
      HaltedTurn(c, r, acts[n].turn);
      FillEntries(r.buffer, s.pending[..s.handed]);
      assert (n + 1) * more == n * more + more;
    }
  }
}
