// What one turn of the send loop does, from the conditions it meets: which messages it
// publishes, and when it clears the pack.
module TurnEffects {
  import opened Platform
  import opened Delivery
  import opened DeliveryRuns
  import opened SendOutcomes
  import opened AckProgress

  // ---------- The messages ----------

  // For each device its attributes, then its telemetry, each if there is any.
  function MessagesOf(c: Config, buf: Buffer): seq<Message> {
    if buf == [] then []
    else MessagesOf(c, buf[..|buf| - 1]) + BucketMessages(c, buf[|buf| - 1].0, buf[|buf| - 1].1)
  }

  function BucketMessages(c: Config, d: Name, b: Bucket): seq<Message> {
    (if |b.attributes| > 0 then [AttributesMessage(TargetOf(c, d), b.attributes)] else [])
      + if |b.telemetry| > 0 then [TelemetryMessage(TargetOf(c, d), b.telemetry)] else []
  }

  function MessagesIn(sent: seq<Sent>): (ms: seq<Message>)
    ensures |ms| == |sent| && forall i | 0 <= i < |sent| :: ms[i] == sent[i].message
  {
    seq(|sent|, i requires 0 <= i < |sent| => sent[i].message)
  }

  // The messages handed over so far are the first of the buffer's; those of the first n
  // devices are all handed over unless a call raised.
  ghost predicate Carries(c: Config, buf: Buffer, n: nat, x: Sending)
    requires n <= |buf|
  {
    var ms := MessagesOf(c, buf[..n]);
    && MessagesIn(x.sent) <= ms && (x.raised <==> |x.sent| < |ms|)
  }

  // The messages of the m-th device and those before it are among the first k.
  predicate HandedOver(c: Config, buf: Buffer, m: nat, k: nat)
    requires m < |buf|
  {
    |MessagesOf(c, buf[..m + 1])| <= k
  }

  // A device's bucket is empty if all its messages and those before it were handed over, and
  // is as it was if not.
  ghost predicate Empties(c: Config, buf: Buffer, n: nat, x: Sending)
    requires n <= |buf|
  {
    && |x.buffer| == |buf|
    && forall m | 0 <= m < |buf| :: x.buffer[m] ==
         if m < n && HandedOver(c, buf, m, |x.sent|) then (buf[m].0, EMPTY_BUCKET) else buf[m]
  }

  lemma BucketCarries(c: Config, d: Name, b: Bucket, calls: seq<Outcome>)
    ensures var r := SendBucket(c, d, b, calls);
      && MessagesIn(r.sent) <= BucketMessages(c, d, b)
      && (r.raised <==> |r.sent| < |BucketMessages(c, d, b)|)
  {}

  lemma MessagesSnoc(c: Config, buf: Buffer, n: nat)
    requires n < |buf|
    ensures MessagesOf(c, buf[..n + 1]) == MessagesOf(c, buf[..n]) + BucketMessages(c, buf[n].0, buf[n].1)
  {
    assert buf[..n + 1][..n] == buf[..n];
  }

  lemma {:induction false} MessagesGrow(c: Config, buf: Buffer, m: nat, n: nat)
    requires m <= n <= |buf|
    ensures |MessagesOf(c, buf[..m])| <= |MessagesOf(c, buf[..n])|
  {
    if m < n {
      MessagesGrow(c, buf, m, n - 1);
      MessagesSnoc(c, buf, n - 1);
    }
  }

  lemma StepCarries(c: Config, buf: Buffer, n: nat, x: Sending)
    requires n < |buf| && Carries(c, buf, n, x) && Empties(c, buf, n, x)
    ensures Carries(c, buf, n + 1, SendStep(c, x, n)) && Empties(c, buf, n + 1, SendStep(c, x, n))
  {
    hide MessagesOf, BucketMessages, SendBucket;
    MessagesSnoc(c, buf, n);
    var r := SendStep(c, x, n);
    if x.raised {
      assert r == x;
    } else {
      assert x.buffer[n] == buf[n];
      var first := SendBucket(c, buf[n].0, buf[n].1, x.rest);
      BucketCarries(c, buf[n].0, buf[n].1, x.rest);
      assert MessagesIn(r.sent) == MessagesIn(x.sent) + MessagesIn(first.sent);
      forall m | 0 <= m < n ensures HandedOver(c, buf, m, |x.sent|) { MessagesGrow(c, buf, m + 1, n); }
    }
  }

  lemma {:induction false} SendingCarries(c: Config, buf: Buffer, calls: seq<Outcome>, n: nat)
    requires n <= |buf|
    ensures Carries(c, buf, n, SendUpTo(c, buf, calls, n)) && Empties(c, buf, n, SendUpTo(c, buf, calls, n))
  {
    hide Carries, Empties, SendStep;
    if n > 0 {
      SendingCarries(c, buf, calls, n - 1);
      StepCarries(c, buf, n - 1, SendUpTo(c, buf, calls, n - 1));
    } else {
      StartCarries(c, buf, calls);
    }
  }

  lemma StartCarries(c: Config, buf: Buffer, calls: seq<Outcome>)
    ensures Carries(c, buf, 0, Sending(buf, [], calls, false)) && Empties(c, buf, 0, Sending(buf, [], calls, false))
  {
    assert buf[..0] == [];
  }

  // A buffer is sent as its messages in order, each with the outcome of its call, up to the
  // first call that raises; devices whose messages are all handed over have their buckets
  // emptied.
  lemma BufferIsSentExactly(c: Config, buf: Buffer, calls: seq<Outcome>)
    ensures var x, ms := SendAll(c, buf, calls), MessagesOf(c, buf);
      && |x.sent| <= |ms|
      && (forall i | 0 <= i < |x.sent| ::
            x.sent[i].message == ms[i] && x.sent[i].outcome == if i < |calls| then calls[i] else Lost)
      && (x.raised <==> |x.sent| < |ms|)
      && (x.raised ==> |x.sent| < |calls| && calls[|x.sent|] == Raises)
      && Empties(c, buf, |buf|, x)
  {
    hide MessagesOf, Empties;
    SendingCarries(c, buf, calls, |buf|);
    SendingFollows(c, buf, calls, |buf|);
    assert buf[..|buf|] == buf;
    var x := SendAll(c, buf, calls);
    forall i | 0 <= i < |x.sent| ensures x.sent[i].message == MessagesOf(c, buf)[i] {
      assert MessagesIn(x.sent)[i] == MessagesOf(c, buf)[i];
    }
  }

  // Messages arrive unless they are lost.
  lemma {:induction false} ArrivedExactly(sent: seq<Sent>, m: Message)
    ensures m in Arrived(sent) <==>
      exists i :: 0 <= i < |sent| && sent[i].message == m && sent[i].outcome in {Unconfirmed, Confirmed}
  {
    if sent != [] {
      var n := |sent| - 1;
      ArrivedExactly(sent[..n], m);
      assert forall i | 0 <= i < n :: sent[..n][i] == sent[i];
    }
  }

  // ---------- The turn ----------

  // How many events the turn works on: those already handed over, or more.
  function Worked(s: State, t: Turn): nat
    requires Bounded(s)
  {
    var size := if t.packSize <= |s.pending| then t.packSize else |s.pending|;
    if size >= s.handed then size else s.handed
  }

  // It gets as far as publishing.
  predicate Publishes(s: State, t: Turn)
    requires Bounded(s)
  {
    && t.connectedAtRead && !t.configuringAtRead && Worked(s, t) > 0
    && (forall k | 0 <= k < Worked(s, t) :: !s.pending[k].Nameless? && !s.pending[k].Faulty?)
    && (t.connectedAtSend || (s.buffer == [] && forall k | 0 <= k < Worked(s, t) :: s.pending[k] == Corrupt))
  }

  // It sends what the buffer then holds.
  function Attempted(c: Config, s: State, t: Turn): Sending
    requires Bounded(s)
  {
    SendAll(c, Fill(s.buffer, s.pending[..Worked(s, t)]).buffer, t.calls)
  }

  // The handles it drains, of those left over and its own.
  function Handles(c: Config, s: State, t: Turn): seq<Sent>
    requires Bounded(s)
  {
    var all := s.published + Attempted(c, s, t).sent;
    if t.stopAfter.Some? && t.stopAfter.value < |all| then all[..t.stopAfter.value] else all
  }

  predicate Clears(c: Config, s: State, t: Turn)
    requires Bounded(s)
  {
    && Publishes(s, t) && t.connectedAtCheck && !t.configuringAtCheck && t.connectedAtAck
    && |Handles(c, s, t)| > 0
    && (t.connectedAtDrain && !t.configuringAtDrain && c.qos == 1 ==>
          forall m | m in Handles(c, s, t) :: m.outcome == Confirmed)
  }

  lemma {:induction false} FillIsEmpty(buf: Buffer, evs: seq<StoredEvent>)
    requires !Halting(evs)
    ensures Fill(buf, evs).buffer == [] <==> buf == [] && forall k | 0 <= k < |evs| :: evs[k] == Corrupt
  {
    if evs != [] {
      var n := |evs| - 1;
      assert forall k | 0 <= k < n :: evs[..n][k] == evs[k];
      FillIsEmpty(buf, evs[..n]);
      assert !evs[n].Halts();
      GroupsExactly(buf, evs[..n]);
    }
  }

  lemma PublishesExactly(s: State, t: Turn)
    requires Bounded(s)
    ensures Handed(s, t) == Worked(s, t)
    ensures Publishes(s, t) <==> Reads(t) && Handed(s, t) > 0 && Proceeds(ReadPack(s, t), t)
  {
    var evs := s.pending[..Worked(s, t)];
    GroupsExactly(s.buffer, evs);
    if !Halting(evs) { FillIsEmpty(s.buffer, evs); }
    assert forall k | 0 <= k < Worked(s, t) :: evs[k] == s.pending[k];
    assert Halting(evs) <==> exists k :: 0 <= k < Worked(s, t) && s.pending[k].Halts();
  }

  // The events are cleared, buffer and all, if and only if the turn found the client connected
  // at each of its tests and no configuration under way, the grouping raised at no event, and
  // there were handles to drain, all of them confirmed if they were awaited.
  lemma TurnClearsExactly(c: Config, s: State, t: Turn)
    requires Bounded(s)
    ensures var r, n := Step(c, s, t), Worked(s, t);
      && r.acked == (if Clears(c, s, t) then s.acked + s.pending[..n] else s.acked)
      && r.pending == (if Clears(c, s, t) then s.pending[n..] else s.pending)
      && (Clears(c, s, t) ==> r.buffer == [] && r.handed == 0)
  {
    hide Fill, SendAll, Worked, Handed;
    PublishesExactly(s, t);
    var all := s.published + Attempted(c, s, t).sent;
    assert DrainCount(all, t) == |all| ==> all[..DrainCount(all, t)] == all;
    assert all[..DrainCount(all, t)] == Handles(c, s, t);
  }

  // What is published reaches the platform as its calls say, and the handles stay that were
  // not drained: all of them if the client was found not connected, or being configured, before
  // the draining. A turn that does not get so far publishes nothing.
  lemma TurnPublishesExactly(c: Config, s: State, t: Turn)
    requires Bounded(s)
    ensures var r, all := Step(c, s, t), s.published + Attempted(c, s, t).sent;
      if Publishes(s, t)
      then && r.platform == s.platform + Arrived(Attempted(c, s, t).sent)
           && r.published ==
                (if t.connectedAtCheck && !t.configuringAtCheck then all[|Handles(c, s, t)|..] else all)
           && (!Clears(c, s, t) ==> r.buffer == Attempted(c, s, t).buffer && r.handed == Worked(s, t))
      else r.platform == s.platform && r.published == s.published
  {
    hide Fill, SendAll, Worked, Handed, Arrived;
    PublishesExactly(s, t);
    var all := s.published + Attempted(c, s, t).sent;
    assert DrainCount(all, t) == |all| ==> all[..DrainCount(all, t)] == all;
    assert all[..DrainCount(all, t)] == Handles(c, s, t);
  }

  // A turn that finds the client not connected, or being configured, before it reads changes
  // nothing; one that stops in the grouping leaves what was grouped so far.
  lemma OtherTurnsExactly(c: Config, s: State, t: Turn)
    requires Bounded(s) && !Publishes(s, t)
    ensures Step(c, s, t) ==
      if !t.connectedAtRead || t.configuringAtRead then s
      else s.(handed := Worked(s, t), buffer := Fill(s.buffer, s.pending[..Worked(s, t)]).buffer)
  {
    hide Worked, Handed;
    PublishesExactly(s, t);
    if Worked(s, t) == 0 { assert s.pending[..0] == []; }
  }
}
