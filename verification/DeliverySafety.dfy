// Values by place, on the platform, in the buffer and in the stored events, and what the
// publish calls of one turn do to them.
module DeliverySafety {
  import opened Options
  import opened PyDict
  import opened Platform
  import opened Delivery

  datatype Slot = Slot(target: Target, item: Item)

  // ---------- Values by place ----------

  function MessageAt(m: Message, s: Slot): Option<Json> {
    if m.target != s.target then None
    else match m
      case AttributesMessage(_, o) => AttributeAt(o, s.item)
      case TelemetryMessage(_, es) => TelemetryAt(es, s.item)
  }

  // The platform's value after the delivered messages, in order.
  function PlatformAt(log: seq<Message>, s: Slot): Option<Json> {
    if log == [] then None else Over(PlatformAt(log[..|log| - 1], s), MessageAt(log[|log| - 1], s))
  }

  function EventAt(c: Config, e: StoredEvent, s: Slot): Option<Json> {
    if e.Named() && TargetOf(c, e.pack.device) == s.target then PackAt(e.pack, s.item) else None
  }

  // The value after applying each stored event once, in storage order.
  function HistoryAt(c: Config, evs: seq<StoredEvent>, s: Slot): Option<Json> {
    if evs == [] then None else Over(HistoryAt(c, evs[..|evs| - 1], s), EventAt(c, evs[|evs| - 1], s))
  }

  function BucketAt(b: Bucket, i: Item): Option<Json> {
    Over(AttributeAt(b.attributes, i), TelemetryAt(b.telemetry, i))
  }

  function DeviceBucketAt(c: Config, d: Name, b: Bucket, s: Slot): Option<Json> {
    if TargetOf(c, d) == s.target then BucketAt(b, s.item) else None
  }

  // The value left by sending the buckets in the order of the buffer.
  function BufferAt(c: Config, buf: Buffer, s: Slot): Option<Json> {
    if buf == [] then None
    else Over(BufferAt(c, buf[..|buf| - 1], s), DeviceBucketAt(c, buf[|buf| - 1].0, buf[|buf| - 1].1, s))
  }

  // What the events of one stored device name write at a place.
  function DeviceAt(evs: seq<StoredEvent>, d: Name, i: Item): Option<Json> {
    if evs == [] then None
    else
      var e := evs[|evs| - 1];
      Over(DeviceAt(evs[..|evs| - 1], d, i), if e.Named() && e.pack.device == d then PackAt(e.pack, i) else None)
  }

  lemma {:induction false} PlatformAtConcat(a: seq<Message>, b: seq<Message>, s: Slot)
    ensures PlatformAt(a + b, s) == Over(PlatformAt(a, s), PlatformAt(b, s))
  {
    if b == [] {
      assert a + b == a;
    } else {
      PlatformAtConcat(a, b[..|b| - 1], s);
      assert (a + b)[..|a + b| - 1] == a + b[..|b| - 1];
    }
  }

  lemma {:induction false} HistoryAtConcat(c: Config, a: seq<StoredEvent>, b: seq<StoredEvent>, s: Slot)
    ensures HistoryAt(c, a + b, s) == Over(HistoryAt(c, a, s), HistoryAt(c, b, s))
  {
    if b == [] {
      assert a + b == a;
    } else {
      HistoryAtConcat(c, a, b[..|b| - 1], s);
      assert (a + b)[..|a + b| - 1] == a + b[..|b| - 1];
    }
  }

  lemma {:induction false} DeviceAtConcat(a: seq<StoredEvent>, b: seq<StoredEvent>, d: Name, i: Item)
    ensures DeviceAt(a + b, d, i) == Over(DeviceAt(a, d, i), DeviceAt(b, d, i))
  {
    if b == [] {
      assert a + b == a;
    } else {
      DeviceAtConcat(a, b[..|b| - 1], d, i);
      assert (a + b)[..|a + b| - 1] == a + b[..|b| - 1];
    }
  }

  lemma {:induction false} DeviceInHistory(c: Config, evs: seq<StoredEvent>, d: Name, s: Slot)
    requires TargetOf(c, d) == s.target && DeviceAt(evs, d, s.item).Some?
    ensures HistoryAt(c, evs, s).Some?
  {
    var n := |evs| - 1;
    if DeviceAt(evs[..n], d, s.item).Some? {
      DeviceInHistory(c, evs[..n], d, s);
    }
  }

  // ---------- Sending ----------

  lemma ArrivedOne(m: Sent, s: Slot)
    ensures PlatformAt(Arrived([m]), s) ==
      if m.outcome == Unconfirmed || m.outcome == Confirmed then MessageAt(m.message, s) else None
  {
    assert [m][..0] == [];
    assert [m.message][..0] == [];
  }

  predicate AllConfirmed(sent: seq<Sent>) {
    forall k | 0 <= k < |sent| :: sent[k].outcome == Confirmed
  }

  lemma AllConfirmedConcat(a: seq<Sent>, b: seq<Sent>)
    ensures AllConfirmed(a + b) <==> AllConfirmed(a) && AllConfirmed(b)
  {
    if AllConfirmed(a + b) {
      assert forall k | 0 <= k < |a| :: a[k] == (a + b)[k];
      assert forall k | 0 <= k < |b| :: b[k] == (a + b)[|a| + k];
    }
  }

  // The calls deliver at a place nothing but a value that is wanted there, and that one
  // if none raised and all messages were confirmed.
  predicate Delivers(r: Calls, wanted: Option<Json>, s: Slot) {
    && (PlatformAt(Arrived(r.sent), s).Some? ==> wanted.Some?)
    && (!r.raised && AllConfirmed(r.sent) ==> PlatformAt(Arrived(r.sent), s) == wanted)
  }

  lemma CallIfDelivers(send: bool, m: Message, calls: seq<Outcome>, s: Slot)
    ensures Delivers(CallIf(send, m, calls), if send then MessageAt(m, s) else None, s)
  {
    if send && Call(calls) != Raises {
      ArrivedOne(Sent(m, Call(calls)), s);
    }
  }

  lemma JoinDelivers(a: Calls, b: Calls, x: Option<Json>, y: Option<Json>, s: Slot)
    requires Delivers(a, x, s) && Delivers(b, y, s) && !a.raised
    ensures Delivers(Join(a, b), Over(x, y), s)
  {
    ArrivedJoin(a.sent, b.sent, s);
  }

  lemma BucketWanted(c: Config, d: Name, b: Bucket, s: Slot)
    ensures DeviceBucketAt(c, d, b, s) ==
      Over(if b.attributes != [] then MessageAt(AttributesMessage(TargetOf(c, d), b.attributes), s) else None,
           if b.telemetry != [] then MessageAt(TelemetryMessage(TargetOf(c, d), b.telemetry), s) else None)
  {}

  // What the calls of one device deliver at a place: nothing but values of its bucket,
  // and all of them if no call raised and all messages were confirmed.
  lemma SendBucketAt(c: Config, d: Name, b: Bucket, calls: seq<Outcome>, s: Slot)
    ensures Delivers(SendBucket(c, d, b, calls), DeviceBucketAt(c, d, b, s), s)
  {
    BucketWanted(c, d, b, s);
    var m, k := AttributesMessage(TargetOf(c, d), b.attributes), TelemetryMessage(TargetOf(c, d), b.telemetry);
    var x := if b.attributes != [] then MessageAt(m, s) else None;
    var y := if b.telemetry != [] then MessageAt(k, s) else None;
    var a := CallAttributes(c, d, b, calls);
    CallIfDelivers(b.attributes != [], m, calls, s);
    if !a.raised {
      CallIfDelivers(b.telemetry != [], k, Drop(calls, |a.sent|), s);
      JoinDelivers(a, CallTelemetry(c, d, b, Drop(calls, |a.sent|)), x, y, s);
    }
  }

  lemma StepShape(c: Config, x: Sending, n: nat)
    ensures var r := SendStep(c, x, n);
      && |r.buffer| == |x.buffer|
      && (forall m | 0 <= m < |x.buffer| && m != n :: r.buffer[m] == x.buffer[m])
      && (n < |x.buffer| ==> r.buffer[n] == x.buffer[n] || r.buffer[n] == (x.buffer[n].0, EMPTY_BUCKET))
  {}

  lemma StepSent(c: Config, x: Sending, n: nat)
    requires n < |x.buffer|
    ensures x.raised ==> SendStep(c, x, n) == x
    ensures !x.raised ==>
      SendStep(c, x, n).sent == x.sent + SendBucket(c, x.buffer[n].0, x.buffer[n].1, x.rest).sent
      && SendStep(c, x, n).raised == SendBucket(c, x.buffer[n].0, x.buffer[n].1, x.rest).raised
  {}

  lemma {:induction false} SendShape(c: Config, buf: Buffer, calls: seq<Outcome>, n: nat)
    requires n <= |buf|
    ensures var r := SendUpTo(c, buf, calls, n).buffer;
      && |r| == |buf|
      && (forall m | n <= m < |buf| :: r[m] == buf[m])
      && (forall m | 0 <= m < n :: r[m] == buf[m] || r[m] == (buf[m].0, EMPTY_BUCKET))
  {
    hide SendStep, SendBucket;
    if n > 0 {
      SendShape(c, buf, calls, n - 1);
      StepShape(c, SendUpTo(c, buf, calls, n - 1), n - 1);
    }
  }

  lemma {:induction false} SentWithin(c: Config, buf: Buffer, calls: seq<Outcome>, n: nat, s: Slot) returns (m: nat)
    requires n <= |buf| && PlatformAt(Arrived(SendUpTo(c, buf, calls, n).sent), s).Some?
    ensures m < n && DeviceBucketAt(c, buf[m].0, buf[m].1, s).Some?
  {
    hide SendStep, SendBucket;
    SendShape(c, buf, calls, n - 1);
    var x := SendUpTo(c, buf, calls, n - 1);
    if PlatformAt(Arrived(x.sent), s).Some? {
      m := SentWithin(c, buf, calls, n - 1, s);
    } else {
      m := n - 1;
      StepSent(c, x, m);
      ArrivedJoin(x.sent, SendBucket(c, buf[m].0, buf[m].1, x.rest).sent, s);
      SendBucketAt(c, buf[m].0, buf[m].1, x.rest, s);
    }
  }

  lemma SentSnoc(c: Config, buf: Buffer, calls: seq<Outcome>, n: nat)
    requires 0 < n <= |buf| && !SendUpTo(c, buf, calls, n).raised
    ensures var x := SendUpTo(c, buf, calls, n - 1);
      var first := SendBucket(c, buf[n - 1].0, buf[n - 1].1, x.rest);
      !x.raised && !first.raised && SendUpTo(c, buf, calls, n).sent == x.sent + first.sent
  {
    hide SendStep, SendBucket;
    SendShape(c, buf, calls, n - 1);
    StepSent(c, SendUpTo(c, buf, calls, n - 1), n - 1);
  }

  lemma ArrivedJoin(a: seq<Sent>, b: seq<Sent>, s: Slot)
    ensures PlatformAt(Arrived(a + b), s) == Over(PlatformAt(Arrived(a), s), PlatformAt(Arrived(b), s))
    ensures AllConfirmed(a + b) <==> AllConfirmed(a) && AllConfirmed(b)
  {
    ArrivedConcat(a, b);
    PlatformAtConcat(Arrived(a), Arrived(b), s);
    AllConfirmedConcat(a, b);
  }

  lemma BufferAtTake(c: Config, buf: Buffer, n: nat, s: Slot)
    requires 0 < n <= |buf|
    ensures BufferAt(c, buf[..n], s)
         == Over(BufferAt(c, buf[..n - 1], s), DeviceBucketAt(c, buf[n - 1].0, buf[n - 1].1, s))
  {
    assert buf[..n][..n - 1] == buf[..n - 1];
  }

  lemma SentExactlySnoc(c: Config, buf: Buffer, calls: seq<Outcome>, n: nat, s: Slot)
    requires 0 < n <= |buf| && !SendUpTo(c, buf, calls, n).raised
    requires AllConfirmed(SendUpTo(c, buf, calls, n).sent)
    ensures !SendUpTo(c, buf, calls, n - 1).raised && AllConfirmed(SendUpTo(c, buf, calls, n - 1).sent)
    ensures PlatformAt(Arrived(SendUpTo(c, buf, calls, n).sent), s)
         == Over(PlatformAt(Arrived(SendUpTo(c, buf, calls, n - 1).sent), s),
                 DeviceBucketAt(c, buf[n - 1].0, buf[n - 1].1, s))
  {
    hide SendStep, SendBucket;
    SentSnoc(c, buf, calls, n);
    var x := SendUpTo(c, buf, calls, n - 1);
    ArrivedJoin(x.sent, SendBucket(c, buf[n - 1].0, buf[n - 1].1, x.rest).sent, s);
    SendBucketAt(c, buf[n - 1].0, buf[n - 1].1, x.rest, s);
  }

  lemma {:induction false} SentExactly(c: Config, buf: Buffer, calls: seq<Outcome>, n: nat, s: Slot)
    requires n <= |buf| && !SendUpTo(c, buf, calls, n).raised
    requires AllConfirmed(SendUpTo(c, buf, calls, n).sent)
    ensures PlatformAt(Arrived(SendUpTo(c, buf, calls, n).sent), s) == BufferAt(c, buf[..n], s)
  {
    hide SendStep, SendBucket;
    if n > 0 {
      SentExactlySnoc(c, buf, calls, n, s);
      SentExactly(c, buf, calls, n - 1, s);
      BufferAtTake(c, buf, n, s);
    }
  }
}
