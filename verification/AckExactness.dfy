// Exactly which turns are safe: a turn that clears a pack, after whatever run, has
// published all of it and got all of it confirmed.
module AckExactness {
  import opened Options
  import opened PyDict
  import opened Platform
  import opened Delivery
  import opened DeliverySafety
  import opened SendOutcomes
  import opened Regrouping
  import opened DeliveryRuns
  import opened AckSafety

  ghost predicate Safe(c: Config, t: Turn) {
    forall acts | Acks(c, Run(c, acts), t) :: Complete(c, Run(c, acts), t)
  }

  // A turn that can publish something and clear a pack.
  predicate CanClear(t: Turn) {
    Reads(t) && t.connectedAtSend && Checks(t) && t.connectedAtAck && t.stopAfter != Some(0)
  }

  // The first call that is not confirmed; calls that are not foreseen are lost.
  function FirstBad(calls: seq<Outcome>): (k: nat)
    ensures k <= |calls|
    ensures forall j | 0 <= j < k :: calls[j] == Confirmed
    ensures k < |calls| ==> calls[k] != Confirmed
  {
    if calls == [] || calls[0] != Confirmed then 0 else FirstBad(calls[1..]) + 1
  }

  // The handles are awaited, no stop is seen, and if a call fails the first to fail
  // returns a handle.
  predicate Careful(c: Config, t: Turn) {
    Awaits(c, t) && t.stopAfter == None && CallAt(t.calls, FirstBad(t.calls)) != Raises
  }

  // ---------- A careful turn is safe ----------

  lemma CarefulAckIsSound(c: Config, s: State, t: Turn)
    requires Bounded(s) && Acks(c, s, t) && Careful(c, t)
    ensures Sound(c, s, t)
  {
    var buf := Grouping(ReadPack(s, t)).buffer;
    var all, x := Awaiting(c, s, t), Attempt(c, s, t);
    SendingFollows(c, buf, t.calls, |buf|);
    assert all[..|all|] == all;
    assert forall m | m in all :: m.outcome == Confirmed;
    AllConfirmedConcat(s.published, x.sent);
    forall i | 0 <= i < |x.sent| ensures CallAt(t.calls, i) == Confirmed { assert x.sent[i].outcome == Confirmed; }
  }

  // Nothing to send: the pack has no record.
  lemma EmptyPackIsComplete(c: Config, s: State, t: Turn)
    requires Bounded(s) && Acks(c, s, t) && !t.connectedAtSend
    ensures Complete(c, s, t)
  {
    forall e | e in PackOf(s, t) ensures !e.Event? {
      var k :| 0 <= k < |PackOf(s, t)| && PackOf(s, t)[k] == e;
      if e.Event? { EventIsListed(s.buffer, PackOf(s, t), k); }
    }
  }

  lemma TakeKeepsNames(f: Filled, e: StoredEvent)
    ensures f.aborted ==> Take(f, e).aborted
    ensures forall d | d in Keys(f.buffer) :: d in Keys(Take(f, e).buffer)
    ensures !f.aborted && e.Named() ==> e.pack.device in Keys(Take(f, e).buffer)
  {
    hide AddPack;
    if e.Named() { AddPackKeys(f.buffer, e.pack); }
  }

  lemma {:induction false} EventIsListed(buf: Buffer, evs: seq<StoredEvent>, k: nat)
    requires k < |evs| && evs[k].Named() && !Fill(buf, evs).aborted
    ensures evs[k].pack.device in Keys(Fill(buf, evs).buffer)
  {
    hide Take;
    var n := |evs| - 1;
    TakeKeepsNames(Fill(buf, evs[..n]), evs[n]);
    if k < n { EventIsListed(buf, evs[..n], k); }
  }

  lemma CarefulTurnIsSafe(c: Config, t: Turn)
    requires CanClear(t) ==> Careful(c, t)
    ensures Safe(c, t)
  {
    forall acts | Acks(c, Run(c, acts), t) ensures Complete(c, Run(c, acts), t) {
      var s := Run(c, acts);
      if !t.connectedAtSend {
        EmptyPackIsComplete(c, s, t);
      } else {
        CarefulAckIsSound(c, s, t);
        SoundAckIsComplete(c, s, t);
      }
    }
  }

  // ---------- Any other turn loses a message somewhere ----------

  // Records of as many devices as needed, each with one entry of its own.
  function Dev(i: nat): Name { seq(i + 1, _ => 'd') }

  const VALUES: Object := [("k", "1")]

  function One(i: nat): Pack { Pack(Dev(i), [], [Entry(i, VALUES)]) }

  function Records(n: nat): seq<StoredEvent> { if n == 0 then [] else Records(n - 1) + [Event(One(n - 1))] }

  function Buckets(n: nat): (buf: Buffer)
    ensures |buf| == n && forall i | 0 <= i < n :: buf[i] == (Dev(i), Bucket([Entry(i, VALUES)], []))
  {
    if n == 0 then [] else Buckets(n - 1) + [(Dev(n - 1), Bucket([Entry(n - 1, VALUES)], []))]
  }

  lemma DevIsNew(n: nat)
    ensures Dev(n) !in Keys(Buckets(n))
  {
    forall i | 0 <= i < n ensures Keys(Buckets(n))[i] != Dev(n) { assert |Keys(Buckets(n))[i]| == i + 1; }
  }

  lemma NewDeviceIsAdded(buf: Buffer, i: nat)
    requires Dev(i) !in Keys(buf)
    ensures AddPack(buf, One(i)) == buf + [(Dev(i), Bucket([Entry(i, VALUES)], []))]
  {
    assert Extend(EMPTY_BUCKET, One(i)) == Bucket([Entry(i, VALUES)], []);
  }

  lemma FillSnoc(buf: Buffer, evs: seq<StoredEvent>, e: StoredEvent)
    ensures Fill(buf, evs + [e]) == Take(Fill(buf, evs), e)
  {
    assert (evs + [e])[..|evs|] == evs;
  }

  lemma {:induction false} RecordsGroup(n: nat)
    ensures Fill([], Records(n)) == Filled(Buckets(n), false) && |Records(n)| == n
  {
    if n > 0 {
      hide Fill, AddPack, Dev;
      RecordsGroup(n - 1);
      FillSnoc([], Records(n - 1), Event(One(n - 1)));
      DevIsNew(n - 1);
      NewDeviceIsAdded(Buckets(n - 1), n - 1);
    }
  }

  function Note(c: Config, i: nat, outcome: Outcome): Sent {
    Sent(TelemetryMessage(TargetOf(c, Dev(i)), [Entry(i, VALUES)]), outcome)
  }

  function Notes(c: Config, k: nat): (sent: seq<Sent>)
    ensures |sent| == k && forall i | 0 <= i < k :: sent[i] == Note(c, i, Confirmed)
  {
    seq(k, i requires 0 <= i < k => Note(c, i, Confirmed))
  }

  lemma OneIsSent(c: Config, x: Sending, n: nat)
    requires n < |x.buffer| && x.buffer[n] == (Dev(n), Bucket([Entry(n, VALUES)], [])) && !x.raised
    ensures var r := SendStep(c, x, n);
      if Call(x.rest) == Raises then r.raised && r.sent == x.sent
      else !r.raised && r.sent == x.sent + [Note(c, n, Call(x.rest))] && r.rest == Drop(x.rest, 1)
  {
    var r := SendBucket(c, Dev(n), x.buffer[n].1, x.rest);
    assert CallAttributes(c, Dev(n), x.buffer[n].1, x.rest) == Calls([], false);
    assert Drop(x.rest, 0) == x.rest;
  }

  lemma {:induction false} NotesAreSent(c: Config, calls: seq<Outcome>, n: nat, k: nat)
    requires k <= n && k <= |calls| && forall j | 0 <= j < k :: calls[j] == Confirmed
    ensures var x := SendUpTo(c, Buckets(n), calls, k);
      !x.raised && x.sent == Notes(c, k) && x.rest == Drop(calls, k)
  {
    hide SendStep, Buckets;
    if k > 0 {
      NotesAreSent(c, calls, n, k - 1);
      SendShape(c, Buckets(n), calls, k - 1);
      var x := SendUpTo(c, Buckets(n), calls, k - 1);
      OneIsSent(c, x, k - 1);
      DropTwice(calls, k - 1, 1);
      assert Notes(c, k) == Notes(c, k - 1) + [Note(c, k - 1, Confirmed)];
    }
  }

  // The attempt ends at the first call that is not confirmed.
  lemma AttemptOnRecords(c: Config, calls: seq<Outcome>)
    ensures var k := FirstBad(calls); var x := SendAll(c, Buckets(k + 1), calls);
      x.sent == if CallAt(calls, k) == Raises then Notes(c, k) else Notes(c, k) + [Note(c, k, CallAt(calls, k))]
  {
    hide SendStep, Buckets, FirstBad;
    var k := FirstBad(calls);
    NotesAreSent(c, calls, k + 1, k);
    SendShape(c, Buckets(k + 1), calls, k);
    var x := SendUpTo(c, Buckets(k + 1), calls, k);
    OneIsSent(c, x, k);
    DropTwice(calls, k, 1);
  }

  // ---------- A run that gets there ----------

  // The records are stored; then they are published some times over, each time with the
  // connection lost before the confirmations are awaited.
  function Stores(n: nat): seq<Action> { if n == 0 then [] else Stores(n - 1) + [StoreEvent(Event(One(n - 1)))] }

  function Unawaited(n: nat): Turn { Turn(true, false, n, true, Sure(n), false, false, None, true, false, true) }

  function Attempts(n: nat, m: nat): seq<Action> {
    if m == 0 then Stores(n) else Attempts(n, m - 1) + [TakeTurn(Unawaited(n))]
  }

  // The records are pending, grouping them gives a bucket each, and all the handles still
  // to be drained were confirmed.
  ghost predicate Ready(s: State, n: nat, m: nat) {
    && s.pending == Records(n) && s.handed == (if m == 0 then 0 else n)
    && Fill(s.buffer, Records(n)) == Filled(Buckets(n), false)
    && AllConfirmed(s.published) && |s.published| == m * n
  }

  lemma RunSnoc(c: Config, acts: seq<Action>, a: Action)
    ensures Run(c, acts + [a]) == Act(c, Run(c, acts), a)
  {
    assert (acts + [a])[..|acts|] == acts;
  }

  lemma {:induction false} StoresRun(c: Config, n: nat)
    ensures Run(c, Stores(n)) == INITIAL.(pending := Records(n))
  {
    if n > 0 {
      StoresRun(c, n - 1);
      RunSnoc(c, Stores(n - 1), StoreEvent(Event(One(n - 1))));
    }
  }

  // Buckets of which the first k are filled.
  function PartlyFilled(n: nat, k: nat): (buf: Buffer)
    requires k <= n
    ensures |buf| == n
    ensures forall i | 0 <= i < n :: buf[i] == (Dev(i), if i < k then Bucket([Entry(i, VALUES)], []) else EMPTY_BUCKET)
  {
    seq(n, i requires 0 <= i < n => (Dev(i), if i < k then Bucket([Entry(i, VALUES)], []) else EMPTY_BUCKET))
  }

  lemma DevsDiffer(i: nat, j: nat)
    requires i != j
    ensures Dev(i) != Dev(j)
  {
    assert |Dev(i)| != |Dev(j)|;
  }

  lemma RefillOne(n: nat, k: nat)
    requires k < n
    ensures AddPack(PartlyFilled(n, k), One(k)) == PartlyFilled(n, k + 1)
  {
    var buf, b := PartlyFilled(n, k), Bucket([Entry(k, VALUES)], []);
    forall m | k < m < n ensures buf[m].0 != Dev(k) { DevsDiffer(m, k); }
    GetAt(buf, Dev(k), k);
    ReplaceAt(buf, Dev(k), b, k);
    assert Extend(EMPTY_BUCKET, One(k)) == b;
    assert AddPack(buf, One(k)) == buf[k := (Dev(k), b)];
  }

  lemma RefillStep(n: nat, k: nat, f: Filled)
    requires k < n && f == Fill(PartlyFilled(n, 0), Records(k)) == Filled(PartlyFilled(n, k), false)
    ensures Fill(PartlyFilled(n, 0), Records(k + 1)) == Filled(PartlyFilled(n, k + 1), false)
  {
    hide Fill, AddPack, PartlyFilled, Dev, One;
    RefillOne(n, k);
    FillSnoc(PartlyFilled(n, 0), Records(k), Event(One(k)));
  }

  lemma {:induction false} Refills(n: nat, k: nat)
    requires k <= n
    ensures Fill(PartlyFilled(n, 0), Records(k)) == Filled(PartlyFilled(n, k), false)
  {
    hide AddPack, PartlyFilled, Dev, One;
    if k > 0 {
      Refills(n, k - 1);
      RefillStep(n, k - 1, Filled(PartlyFilled(n, k - 1), false));
    }
  }

  // An attempt whose confirmations are not awaited: all is published, the buffer emptied.
  lemma UnawaitedAttempt(c: Config, n: nat)
    ensures var x := SendAll(c, Buckets(n), Sure(n)); x.sent == Notes(c, n) && x.buffer == PartlyFilled(n, 0)
  {
    hide SendStep;
    NotesAreSent(c, Sure(n), n, n);
    SendingEmpties(c, Buckets(n), Sure(n), n);
  }

  lemma UnawaitedTurn(c: Config, s: State, n: nat, m: nat)
    requires n > 0 && Ready(s, n, m)
    ensures |Records(n)| == n && Ready(Step(c, s, Unawaited(n)), n, m + 1)
  {
    hide Fill, Records, SendAll, Buckets, PartlyFilled, Notes;
    RecordsGroup(n);
    UnawaitedAttempt(c, n);
    Refills(n, n);
    FullyFilled(n);
    AllConfirmedConcat(s.published, Notes(c, n));
    var t := Unawaited(n);
    assert s.pending[..n] == Records(n);
    assert Grouping(ReadPack(s, t)) == Filled(Buckets(n), false);
    assert Step(c, s, t) == Transmit(c, Grouped(ReadPack(s, t)), t);
    assert (m + 1) * n == m * n + n;
  }

  lemma FullyFilled(n: nat)
    ensures PartlyFilled(n, n) == Buckets(n)
  {}

  lemma StartIsReady(n: nat)
    ensures Ready(INITIAL.(pending := Records(n)), n, 0)
  {
    RecordsGroup(n);
  }

  lemma {:induction false} AttemptsRun(c: Config, n: nat, m: nat)
    requires n > 0
    ensures Ready(Run(c, Attempts(n, m)), n, m)
  {
    hide Ready, Step, Records, Unawaited, Run, Stores;
    if m == 0 {
      StoresRun(c, n);
      StartIsReady(n);
    } else {
      AttemptsRun(c, n, m - 1);
      RunSnoc(c, Attempts(n, m - 1), TakeTurn(Unawaited(n)));
      UnawaitedTurn(c, Run(c, Attempts(n, m - 1)), n, m - 1);
    }
  }

  // ---------- The turn after that run ----------

  function Leftover(t: Turn): nat { if t.stopAfter.Some? then t.stopAfter.value else 1 }

  function CaseRun(t: Turn): seq<Action> { Attempts(FirstBad(t.calls) + 1, Leftover(t)) }

  function CaseOf(c: Config, t: Turn): State { Run(c, CaseRun(t)) }

  lemma CaseAttempt(c: Config, t: Turn)
    requires Leftover(t) > 0
    ensures var s := CaseOf(c, t); var k := FirstBad(t.calls);
      && Handed(s, t) == k + 1 && ReadPack(s, t) == s && PackOf(s, t) == Records(k + 1)
      && Grouping(s) == Filled(Buckets(k + 1), false)
      && AllConfirmed(s.published) && |s.published| >= Leftover(t)
  {
    hide Fill, Records, Buckets, FirstBad, Run;
    var s, k, m := CaseOf(c, t), FirstBad(t.calls), Leftover(t);
    AttemptsRun(c, k + 1, m);
    RecordsGroup(k + 1);
    assert s.pending[..k + 1] == Records(k + 1);
    assert m * (k + 1) == m * k + m && m * k >= 0;
  }

  lemma CaseIsCleared(c: Config, t: Turn)
    requires CanClear(t) && !Careful(c, t)
    ensures Acks(c, CaseOf(c, t), t)
  {
    hide FirstBad, Buckets, Fill, Records, SendAll, Arrived, Run;
    var s, k := CaseOf(c, t), FirstBad(t.calls);
    CaseAttempt(c, t);
    AttemptOnRecords(c, t.calls);
    var sent := SendAll(c, Buckets(k + 1), t.calls).sent;
    var all := s.published + sent;
    var drained := all[..DrainCount(all, t)];
    if Awaits(c, t) {
      forall m | m in drained ensures m.outcome == Confirmed {
        if t.stopAfter == None {
          assert sent == Notes(c, k) && drained == all;
        } else {
          assert drained == s.published[..|drained|];
        }
      }
    }
    assert Published(c, drained, t);
    assert Transmit(c, Grouped(s), t).published == all;
  }

  lemma SegmentOfOne(a: Entry, b: Entry)
    requires Segment([a], [b])
    ensures a == b
  {
    var n :| SegmentAt([a], [b], n);
    assert [b][n..n + 1][0] == [a][0];
  }

  lemma OneIsNotCarried(c: Config, k: nat)
    ensures !Carries(c, Notes(c, k), One(k))
  {
    forall i | 0 <= i < k ensures !Segment(One(k).telemetry, [Entry(i, VALUES)]) {
      if Segment(One(k).telemetry, [Entry(i, VALUES)]) { SegmentOfOne(Entry(k, VALUES), Entry(i, VALUES)); }
    }
  }

  lemma CaseIsIncomplete(c: Config, t: Turn)
    requires Leftover(t) > 0
    ensures !Complete(c, CaseOf(c, t), t)
  {
    hide FirstBad, Buckets, Carries, Run;
    var s, k := CaseOf(c, t), FirstBad(t.calls);
    CaseAttempt(c, t);
    AttemptOnRecords(c, t.calls);
    BadCall(t.calls);
    var sent := Attempt(c, s, t).sent;
    if CallAt(t.calls, k) == Raises {
      OneIsNotCarried(c, k);
      assert Records(k + 1)[k] == Event(One(k)) by { RecordsGroup(k); }
      assert Event(One(k)) in PackOf(s, t);
    } else {
      assert sent[k].outcome != Confirmed;
    }
  }

  lemma BadCall(calls: seq<Outcome>)
    ensures CallAt(calls, FirstBad(calls)) != Confirmed
  {}

  // A turn is safe after every run if and only if it cannot clear what it publishes, or it
  // awaits its handles without a stop and its first failing call does not raise.
  lemma AckIsSafeExactly(c: Config, t: Turn)
    ensures Safe(c, t) <==> (CanClear(t) ==> Careful(c, t))
  {
    hide Run, Complete, Acks;
    if CanClear(t) && !Careful(c, t) {
      CaseIsCleared(c, t);
      CaseIsIncomplete(c, t);
      assert Acks(c, Run(c, CaseRun(t)), t);
    } else {
      CarefulTurnIsSafe(c, t);
    }
  }
}
