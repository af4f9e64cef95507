// What an acknowledgement implies about the acknowledged events.
module AckSafety {
  import opened Options
  import opened PyDict
  import opened Platform
  import opened Delivery
  import opened DeliverySafety
  import opened DeliveryRuns

  // ---------- Which turns are sound ----------

  predicate NoRaise(calls: seq<Outcome>) { forall k | 0 <= k < |calls| :: calls[k] != Raises }

  // Quality of service 1, no raising call, no stop, and a connection that, if it is up
  // when the pack would be acknowledged, was up when the handles were awaited.
  predicate Peaceful(c: Config, t: Turn) {
    && c.qos == 1
    && NoRaise(t.calls)
    && t.stopAfter == None
    && (t.connectedAtAck ==> t.connectedAtDrain && !t.configuringAtDrain)
  }

  lemma BucketDoesNotRaise(c: Config, d: Name, b: Bucket, calls: seq<Outcome>)
    requires NoRaise(calls)
    ensures !SendBucket(c, d, b, calls).raised && NoRaise(Drop(calls, |SendBucket(c, d, b, calls).sent|))
  {}

  lemma {:induction false} NothingRaises(c: Config, buf: Buffer, calls: seq<Outcome>, n: nat)
    requires n <= |buf| && NoRaise(calls)
    ensures !SendUpTo(c, buf, calls, n).raised && NoRaise(SendUpTo(c, buf, calls, n).rest)
  {
    hide SendBucket;
    if n > 0 {
      NothingRaises(c, buf, calls, n - 1);
      SendShape(c, buf, calls, n - 1);
      BucketDoesNotRaise(c, buf[n - 1].0, buf[n - 1].1, SendUpTo(c, buf, calls, n - 1).rest);
    }
  }

  lemma PeacefulAckIsSound(c: Config, s: State, t: Turn)
    requires Bounded(s) && Acks(c, s, t) && Peaceful(c, t)
    ensures Sound(c, s, t)
  {
    var buf := Grouping(ReadPack(s, t)).buffer;
    NothingRaises(c, buf, t.calls, |buf|);
  }

  // ---------- The acknowledged events were sent and confirmed ----------

  predicate SegmentAt(a: seq<Entry>, b: seq<Entry>, n: int) {
    0 <= n <= |b| - |a| && b[n..n + |a|] == a
  }

  ghost predicate Segment(a: seq<Entry>, b: seq<Entry>) { exists n :: SegmentAt(a, b, n) }

  ghost predicate CarriesTelemetry(c: Config, sent: seq<Sent>, p: Pack) {
    exists k :: 0 <= k < |sent| && sent[k].message.TelemetryMessage?
      && sent[k].message.target == TargetOf(c, p.device) && Segment(p.telemetry, sent[k].message.telemetry)
  }

  predicate CarriesAttribute(c: Config, sent: seq<Sent>, p: Pack, key: Key) {
    exists k :: 0 <= k < |sent| && sent[k].message.AttributesMessage?
      && sent[k].message.target == TargetOf(c, p.device) && key in Keys(sent[k].message.attributes)
  }

  predicate Names(p: Pack, key: Key) { exists o | o in p.attributes :: key in Keys(o) }

  // All telemetry entries of the record, in order, in one message, and every attribute
  // it names in another, both to the device the record is for.
  ghost predicate Carries(c: Config, sent: seq<Sent>, p: Pack) {
    && (p.telemetry != [] ==> CarriesTelemetry(c, sent, p))
    && (forall key :: Names(p, key) ==> CarriesAttribute(c, sent, p, key))
  }

  lemma SegmentExtends(a: seq<Entry>, b: seq<Entry>, more: seq<Entry>)
    requires Segment(a, b)
    ensures Segment(a, b + more)
  {
    var n :| SegmentAt(a, b, n);
    assert (b + more)[n..n + |a|] == b[n..n + |a|];
    assert SegmentAt(a, b + more, n);
  }

  lemma {:induction false} NamedIsMerged(o: Object, os: seq<Object>, key: Key)
    requires key in Keys(o) || exists x | x in os :: key in Keys(x)
    ensures key in Keys(MergeAll(o, os))
  {
    if os != [] {
      var n := |os| - 1;
      if key in Keys(o) || exists x | x in os[..n] :: key in Keys(x) { NamedIsMerged(o, os[..n], key); }
      UpdateGet(MergeAll(o, os[..n]), os[n], key);
    }
  }

  ghost predicate InBucket(b: Bucket, p: Pack, key: Key) {
    Segment(p.telemetry, b.telemetry) && (Names(p, key) ==> key in Keys(b.attributes))
  }

  lemma {:induction false} FillContains(buf: Buffer, evs: seq<StoredEvent>, k: nat, key: Key)
    requires k < |evs| && evs[k].Event? && !Fill(buf, evs).aborted
    ensures InBucket(BucketOf(Fill(buf, evs).buffer, evs[k].pack.device), evs[k].pack, key)
  {
    var n := |evs| - 1;
    var before := Fill(buf, evs[..n]).buffer;
    if k < n { FillContains(buf, evs[..n], k, key); }
    if evs[n].Event? {
      PackIsHeld(before, evs[n].pack, evs[k].pack, key, k == n);
    }
  }

  lemma PackIsHeld(before: Buffer, p: Pack, q: Pack, key: Key, same: bool)
    requires if same then p == q else InBucket(BucketOf(before, q.device), q, key)
    ensures InBucket(BucketOf(AddPack(before, p), q.device), q, key)
  {
    PutGet(before, p.device, Extend(BucketOf(before, p.device), p), q.device);
    if same {
      NewPackIsHeld(BucketOf(before, p.device), p, key);
    } else if p.device == q.device {
      OldPackIsHeld(BucketOf(before, p.device), p, q, key);
    }
  }

  lemma NewPackIsHeld(b: Bucket, p: Pack, key: Key)
    ensures InBucket(Extend(b, p), p, key)
  {
    var all := b.telemetry + p.telemetry;
    assert all[|b.telemetry|..|b.telemetry| + |p.telemetry|] == p.telemetry;
    assert SegmentAt(p.telemetry, all, |b.telemetry|);
    if Names(p, key) { NamedIsMerged(b.attributes, p.attributes, key); }
  }

  lemma OldPackIsHeld(b: Bucket, p: Pack, q: Pack, key: Key)
    requires InBucket(b, q, key)
    ensures InBucket(Extend(b, p), q, key)
  {
    SegmentExtends(q.telemetry, b.telemetry, p.telemetry);
    if Names(q, key) { NamedIsMerged(b.attributes, p.attributes, key); }
  }

  predicate SendsTelemetry(c: Config, sent: seq<Sent>, d: Name, b: Bucket) {
    exists k :: 0 <= k < |sent| && sent[k].message == TelemetryMessage(TargetOf(c, d), b.telemetry)
  }

  predicate SendsAttributes(c: Config, sent: seq<Sent>, d: Name, b: Bucket) {
    exists k :: 0 <= k < |sent| && sent[k].message == AttributesMessage(TargetOf(c, d), b.attributes)
  }

  predicate SendsBoth(c: Config, sent: seq<Sent>, d: Name, b: Bucket) {
    (b.telemetry != [] ==> SendsTelemetry(c, sent, d, b)) && (b.attributes != [] ==> SendsAttributes(c, sent, d, b))
  }

  lemma SendBucketCovers(c: Config, d: Name, b: Bucket, calls: seq<Outcome>)
    requires !SendBucket(c, d, b, calls).raised
    ensures SendsBoth(c, SendBucket(c, d, b, calls).sent, d, b)
  {
    var a := CallAttributes(c, d, b, calls);
    var t := CallTelemetry(c, d, b, Drop(calls, |a.sent|));
    var all := a.sent + t.sent;
    if b.attributes != [] { assert all[0].message == AttributesMessage(TargetOf(c, d), b.attributes); }
    if b.telemetry != [] { assert all[|a.sent|].message == TelemetryMessage(TargetOf(c, d), b.telemetry); }
  }

  lemma SendsBothConcat(c: Config, a: seq<Sent>, b: seq<Sent>, d: Name, x: Bucket)
    requires SendsBoth(c, a, d, x) || SendsBoth(c, b, d, x)
    ensures SendsBoth(c, a + b, d, x)
  {
    if SendsBoth(c, a, d, x) {
      assert forall k | 0 <= k < |a| :: (a + b)[k] == a[k];
    } else {
      assert forall k | 0 <= k < |b| :: (a + b)[|a| + k] == b[k];
    }
  }

  lemma {:induction false} SendCovers(c: Config, buf: Buffer, calls: seq<Outcome>, n: nat, m: nat)
    requires m < n <= |buf| && !SendUpTo(c, buf, calls, n).raised
    ensures SendsBoth(c, SendUpTo(c, buf, calls, n).sent, buf[m].0, buf[m].1)
  {
    SentSnoc(c, buf, calls, n);
    var x := SendUpTo(c, buf, calls, n - 1);
    var first := SendBucket(c, buf[n - 1].0, buf[n - 1].1, x.rest);
    if m < n - 1 {
      SendCovers(c, buf, calls, n - 1, m);
    } else {
      SendBucketCovers(c, buf[m].0, buf[m].1, x.rest);
    }
    SendsBothConcat(c, x.sent, first.sent, buf[m].0, buf[m].1);
  }

  lemma {:induction false} HeldPlace(buf: Buffer, d: Name) returns (m: nat)
    requires d in Keys(buf)
    ensures m < |buf| && buf[m] == (d, BucketOf(buf, d))
  {
    m := |buf| - 1;
    if buf[m].0 != d {
      m := HeldPlace(buf[..m], d);
    }
  }

  lemma BucketReachesMessages(c: Config, buf: Buffer, calls: seq<Outcome>, p: Pack, key: Key)
    requires !SendAll(c, buf, calls).raised && InBucket(BucketOf(buf, p.device), p, key)
    ensures p.telemetry != [] ==> CarriesTelemetry(c, SendAll(c, buf, calls).sent, p)
    ensures Names(p, key) ==> CarriesAttribute(c, SendAll(c, buf, calls).sent, p, key)
  {
    var sent := SendAll(c, buf, calls).sent;
    var b := BucketOf(buf, p.device);
    if p.device in Keys(buf) {
      var m := HeldPlace(buf, p.device);
      SendCovers(c, buf, calls, |buf|, m);
      if p.telemetry != [] {
        var k :| 0 <= k < |sent| && sent[k].message == TelemetryMessage(TargetOf(c, p.device), b.telemetry);
      }
      if Names(p, key) {
        var k :| 0 <= k < |sent| && sent[k].message == AttributesMessage(TargetOf(c, p.device), b.attributes);
      }
    }
  }

  // The attempt carried every record of the pack, and all its messages were confirmed.
  ghost predicate Complete(c: Config, s: State, t: Turn)
    requires Bounded(s)
  {
    && AllConfirmed(Attempt(c, s, t).sent)
    && forall e | e in PackOf(s, t) && e.Event? :: Carries(c, Attempt(c, s, t).sent, e.pack)
  }

  lemma SoundAckIsComplete(c: Config, s: State, t: Turn)
    requires Bounded(s) && Acks(c, s, t) && Sound(c, s, t)
    ensures Complete(c, s, t)
  {
    SoundAckIsConfirmed(c, s, t);
    var pack, buf := PackOf(s, t), Grouping(ReadPack(s, t)).buffer;
    forall e | e in pack && e.Event? ensures Carries(c, Attempt(c, s, t).sent, e.pack) {
      var k :| 0 <= k < |pack| && pack[k] == e;
      forall key
        ensures e.pack.telemetry != [] ==> CarriesTelemetry(c, Attempt(c, s, t).sent, e.pack)
        ensures Names(e.pack, key) ==> CarriesAttribute(c, Attempt(c, s, t).sent, e.pack, key)
      {
        FillContains(s.buffer, pack, k, key);
        BucketReachesMessages(c, buf, t.calls, e.pack, key);
      }
      FillContains(s.buffer, pack, k, "");
      BucketReachesMessages(c, buf, t.calls, e.pack, "");
    }
  }

  // The turn that clears a pack published every record of it, and every message of
  // that attempt was confirmed - from any state, however the earlier turns failed.
  lemma AcknowledgedEventsWereConfirmed(c: Config, s: State, t: Turn)
    requires Bounded(s) && Step(c, s, t).acked != s.acked && Peaceful(c, t)
    ensures Step(c, s, t).acked == s.acked + PackOf(s, t)
    ensures AllConfirmed(Attempt(c, s, t).sent)
    ensures forall e | e in PackOf(s, t) && e.Event? :: Carries(c, Attempt(c, s, t).sent, e.pack)
  {
    AckedGrows(c, s, t);
    PeacefulAckIsSound(c, s, t);
    SoundAckIsComplete(c, s, t);
  }
}
