// The send loop: read a pack of stored events, regroup it by device, publish one
// message per kind and device, and acknowledge the pack once the messages are
// confirmed. The environment of one turn of the loop is a record; everything that
// the network, the storage, the configurator or a shutdown may do is in it.
module Delivery {
  import opened Options
  import opened PyDict
  import opened Platform
  import opened Sequences

  datatype Bucket = Bucket(telemetry: seq<Entry>, attributes: Object)
  type Buffer = Dict<Name, Bucket>

  datatype Target = Gateway | Device(name: Name)
  datatype Message =
    | AttributesMessage(target: Target, attributes: Object)
    | TelemetryMessage(target: Target, telemetry: seq<Entry>)

  // What becomes of one publish call: it raises, or it returns a handle whose message
  // is lost, or delivered and not confirmed, or delivered and confirmed.
  datatype Outcome = Raises | Lost | Unconfirmed | Confirmed
  datatype Sent = Sent(message: Message, outcome: Outcome)

  // `name` and `alias` are the names under which the gateway's own data is stored.
  datatype Config = Config(name: Name, alias: Name, renamed: Dict<Name, Name>, qos: int)

  datatype Turn = Turn(
    connectedAtRead: bool, configuringAtRead: bool,   // before the storage is read
    packSize: nat,                                    // how much the storage hands over
    connectedAtSend: bool,                            // before the buffer is sent
    calls: seq<Outcome>,                              // the publish calls, in order
    connectedAtCheck: bool, configuringAtCheck: bool, // before confirmations are awaited
    stopAfter: Option<nat>,                           // a stop seen while handles are drained
    connectedAtDrain: bool, configuringAtDrain: bool, // before handles are awaited
    connectedAtAck: bool)                             // before the pack is acknowledged

  // `pending` is what the storage holds, its first `handed` events being the pack last
  // returned; `platform` is the log of delivered messages; `acked` is what the storage
  // was told to clear.
  datatype State = State(pending: seq<StoredEvent>, handed: nat, buffer: Buffer,
                         published: seq<Sent>, platform: seq<Message>, acked: seq<StoredEvent>)

  const INITIAL: State := State([], 0, [], [], [], [])

  // ---------- Regrouping a pack by device ----------

  const EMPTY_BUCKET: Bucket := Bucket([], [])

  function BucketOf(buf: Buffer, d: Name): Bucket {
    match Get(buf, d) case Some(b) => b case None => EMPTY_BUCKET
  }

  function Extend(b: Bucket, p: Pack): Bucket {
    Bucket(b.telemetry + p.telemetry, MergeAll(b.attributes, p.attributes))
  }

  function AddPack(buf: Buffer, p: Pack): Buffer {
    Put(buf, p.device, Extend(BucketOf(buf, p.device), p))
  }

  // `aborted`: an event raised, and the turn ends with what was grouped so far.
  datatype Filled = Filled(buffer: Buffer, aborted: bool)

  function Take(f: Filled, e: StoredEvent): Filled {
    if f.aborted then f
    else match e
      case Corrupt => f
      case Nameless => Filled(f.buffer, true)
      case Faulty(p) => Filled(AddPack(f.buffer, p), true)
      case Event(p) => Filled(AddPack(f.buffer, p), false)
  }

  function Fill(buf: Buffer, evs: seq<StoredEvent>): Filled {
    if evs == [] then Filled(buf, false) else Take(Fill(buf, evs[..|evs| - 1]), evs[|evs| - 1])
  }

  // ---------- Publishing the buffer ----------

  function TargetOf(c: Config, d: Name): Target {
    if d == c.name || d == c.alias then Gateway
    else match Get(c.renamed, d) case Some(name) => Device(name) case None => Device(d)
  }

  datatype Calls = Calls(sent: seq<Sent>, raised: bool)

  function Call(calls: seq<Outcome>): Outcome { if calls == [] then Lost else calls[0] }

  function Drop(calls: seq<Outcome>, n: nat): seq<Outcome> { if n <= |calls| then calls[n..] else [] }

  function CallIf(send: bool, m: Message, calls: seq<Outcome>): Calls {
    if !send then Calls([], false)
    else if Call(calls) == Raises then Calls([], true)
    else Calls([Sent(m, Call(calls))], false)
  }

  function CallAttributes(c: Config, d: Name, b: Bucket, calls: seq<Outcome>): Calls {
    CallIf(b.attributes != [], AttributesMessage(TargetOf(c, d), b.attributes), calls)
  }

  function CallTelemetry(c: Config, d: Name, b: Bucket, calls: seq<Outcome>): Calls {
    CallIf(b.telemetry != [], TelemetryMessage(TargetOf(c, d), b.telemetry), calls)
  }

  function Join(a: Calls, b: Calls): Calls { Calls(a.sent + b.sent, b.raised) }

  // Attributes first, then telemetry, each only if there is any.
  function SendBucket(c: Config, d: Name, b: Bucket, calls: seq<Outcome>): Calls {
    if CallAttributes(c, d, b, calls).raised then CallAttributes(c, d, b, calls)
    else Join(CallAttributes(c, d, b, calls),
              CallTelemetry(c, d, b, Drop(calls, |CallAttributes(c, d, b, calls).sent|)))
  }

  // How far the loop over the buffer has come: the calls not yet made, and whether one
  // raised.
  datatype Sending = Sending(buffer: Buffer, sent: seq<Sent>, rest: seq<Outcome>, raised: bool)

  function Emptied(buf: Buffer, n: nat): Buffer
    requires n < |buf|
  {
    buf[n := (buf[n].0, EMPTY_BUCKET)]
  }

  // A bucket is emptied once both its messages are handed over; a raising call ends
  // the loop and leaves this bucket and those behind it as they are.
  function SendStep(c: Config, x: Sending, n: nat): Sending {
    if x.raised || n >= |x.buffer| then x
    else Handled(x, n, SendBucket(c, x.buffer[n].0, x.buffer[n].1, x.rest))
  }

  function Handled(x: Sending, n: nat, first: Calls): Sending
    requires n < |x.buffer|
  {
    if first.raised then Sending(x.buffer, x.sent + first.sent, x.rest, true)
    else Sending(Emptied(x.buffer, n), x.sent + first.sent, Drop(x.rest, |first.sent|), false)
  }

  function SendUpTo(c: Config, buf: Buffer, calls: seq<Outcome>, n: nat): Sending {
    if n == 0 then Sending(buf, [], calls, false) else SendStep(c, SendUpTo(c, buf, calls, n - 1), n - 1)
  }

  function SendAll(c: Config, buf: Buffer, calls: seq<Outcome>): Sending {
    SendUpTo(c, buf, calls, |buf|)
  }

  function Arrived(sent: seq<Sent>): seq<Message> {
    if sent == [] then []
    else
      var init := Arrived(sent[..|sent| - 1]);
      var last := sent[|sent| - 1];
      if last.outcome == Unconfirmed || last.outcome == Confirmed then init + [last.message] else init
  }

  function Transmit(c: Config, s: State, t: Turn): State {
    s.(buffer := SendAll(c, s.buffer, t.calls).buffer,
       published := s.published + SendAll(c, s.buffer, t.calls).sent,
       platform := s.platform + Arrived(SendAll(c, s.buffer, t.calls).sent))
  }

  // ---------- Waiting for confirmations ----------

  function DrainCount(published: seq<Sent>, t: Turn): nat
    ensures DrainCount(published, t) <= |published|
  {
    if t.stopAfter.Some? && t.stopAfter.value < |published| then t.stopAfter.value else |published|
  }

  // Handles are only awaited at quality of service 1 and while connected; otherwise
  // there is nothing to fail.
  predicate Awaits(c: Config, t: Turn) {
    t.connectedAtDrain && !t.configuringAtDrain && c.qos == 1
  }

  predicate Published(c: Config, drained: seq<Sent>, t: Turn) {
    drained != [] && (Awaits(c, t) ==> forall m | m in drained :: m.outcome == Confirmed)
  }

  function Acknowledge(s: State): State
    requires s.handed <= |s.pending|
  {
    s.(pending := s.pending[s.handed..], handed := 0, buffer := [],
       acked := s.acked + s.pending[..s.handed])
  }

  predicate Checks(t: Turn) { t.connectedAtCheck && !t.configuringAtCheck }

  predicate Succeeds(c: Config, s: State, t: Turn) {
    Checks(t) && Published(c, s.published[..DrainCount(s.published, t)], t) && t.connectedAtAck
  }

  function Drained(s: State, t: Turn): State {
    s.(published := s.published[DrainCount(s.published, t)..])
  }

  function Settle(c: Config, s: State, t: Turn): State
    requires s.handed <= |s.pending|
  {
    if Succeeds(c, s, t) then Acknowledge(Drained(s, t))
    else if Checks(t) then Drained(s, t)
    else s
  }

  // ---------- One turn of the loop ----------

  predicate Reads(t: Turn) { t.connectedAtRead && !t.configuringAtRead }

  // The storage returns the same pack, or an extension of it, until told to clear it.
  function Handed(s: State, t: Turn): nat
    requires s.handed <= |s.pending|
    ensures s.handed <= Handed(s, t) <= |s.pending|
  {
    if t.packSize < s.handed then s.handed else if t.packSize > |s.pending| then |s.pending| else t.packSize
  }

  function ReadPack(s: State, t: Turn): State
    requires s.handed <= |s.pending|
  {
    s.(handed := Handed(s, t))
  }

  function Grouping(s: State): Filled
    requires s.handed <= |s.pending|
  {
    Fill(s.buffer, s.pending[..s.handed])
  }

  function Grouped(s: State): State
    requires s.handed <= |s.pending|
  {
    s.(buffer := Grouping(s).buffer)
  }

  // The turn gets past the grouping and past the connection test before sending.
  predicate Proceeds(s: State, t: Turn)
    requires s.handed <= |s.pending|
  {
    !Grouping(s).aborted && (Grouping(s).buffer == [] || t.connectedAtSend)
  }

  function Process(c: Config, s: State, t: Turn): State
    requires s.handed <= |s.pending|
  {
    if Proceeds(s, t) then Settle(c, Transmit(c, Grouped(s), t), t) else Grouped(s)
  }

  function Step(c: Config, s: State, t: Turn): (r: State)
    requires s.handed <= |s.pending|
    ensures r.handed <= |r.pending|
  {
    if !Reads(t) then s
    else if Handed(s, t) == 0 then ReadPack(s, t)
    else Process(c, ReadPack(s, t), t)
  }

  // ---------- The loop as the service runs it ----------

  class SendLoop {
    const c: Config
    var pending: seq<StoredEvent>
    var handed: nat
    var buffer: Buffer
    var published: seq<Sent>
    ghost var platform: seq<Message>
    ghost var acked: seq<StoredEvent>

    ghost predicate Valid()
      reads this
    {
      handed <= |pending|
    }

    ghost function Abs(): State
      reads this
    {
      State(pending, handed, buffer, published, platform, acked)
    }

    constructor (c: Config)
      ensures Valid() && this.c == c && Abs() == INITIAL
    {
      this.c := c;
      pending, handed, buffer, published, platform, acked := [], 0, [], [], [], [];
    }

    method Store(e: StoredEvent)
      requires Valid()
      modifies this
      ensures Valid() && Abs() == old(Abs()).(pending := old(pending) + [e])
    {
      pending := pending + [e];
    }

    method GroupPack() returns (aborted: bool)
      requires Valid()
      modifies this`buffer
      ensures Filled(buffer, aborted) == old(Grouping(Abs()))
    {
      aborted := false;
      var events := pending[..handed];
      for n := 0 to |events|
        invariant !aborted && Filled(buffer, false) == Fill(old(buffer), events[..n])
      {
        assert events[..n + 1][..n] == events[..n];
        match events[n] {
          case Corrupt =>
          case Nameless =>
            FillStops(old(buffer), events, n + 1);
            aborted := true;
            return;
          case Faulty(p) =>
            FillStops(old(buffer), events, n + 1);
            buffer := AddPack(buffer, p);
            aborted := true;
            return;
          case Event(p) =>
            buffer := AddPack(buffer, p);
        }
      }
      assert events[..|events|] == events;
    }

    method SendIf(send: bool, m: Message, calls: seq<Outcome>) returns (count: nat, raised: bool)
      modifies this`published
      ensures raised == CallIf(send, m, calls).raised && count == |CallIf(send, m, calls).sent|
      ensures published == old(published) + CallIf(send, m, calls).sent
    {
      if !send { return 0, false; }
      if Call(calls) == Raises { return 0, true; }
      published := published + [Sent(m, Call(calls))];
      return 1, false;
    }

    method SendOne(d: Name, b: Bucket, calls: seq<Outcome>) returns (count: nat, raised: bool)
      modifies this`published
      ensures raised == SendBucket(c, d, b, calls).raised
      ensures count == |SendBucket(c, d, b, calls).sent|
      ensures published == old(published) + SendBucket(c, d, b, calls).sent
    {
      count, raised := SendIf(b.attributes != [], AttributesMessage(TargetOf(c, d), b.attributes), calls);
      if raised { return; }
      var more: nat;
      more, raised := SendIf(b.telemetry != [], TelemetryMessage(TargetOf(c, d), b.telemetry), Drop(calls, count));
      count := count + more;
    }

    // One device of the buffer: its calls, and its bucket emptied unless one raised.
    method SendDevice(n: nat, calls: seq<Outcome>) returns (rest: seq<Outcome>, raised: bool)
      requires n < |buffer|
      modifies this`published, this`buffer
      ensures Sending(buffer, published, rest, raised)
           == SendStep(c, Sending(old(buffer), old(published), calls, false), n)
    {
      var count: nat;
      count, raised := SendOne(buffer[n].0, buffer[n].1, calls);
      if raised { return calls, true; }
      buffer := buffer[n := (buffer[n].0, EMPTY_BUCKET)];
      rest := Drop(calls, count);
    }

    // The buffer in order, until a call raises.
    method SendDevices(calls: seq<Outcome>)
      modifies this`published, this`buffer
      ensures buffer == SendAll(c, old(buffer), calls).buffer
      ensures published == old(published) + SendAll(c, old(buffer), calls).sent
    {
      hide SendStep;
      var rest, n, raised := calls, 0, false;
      while n < |buffer| && !raised
        invariant n <= |buffer| == |old(buffer)|
        invariant Sending(buffer, published, rest, raised) == Behind(old(published), SendUpTo(c, old(buffer), calls, n))
        decreases |buffer| - n, !raised
      {
        StepBehind(c, old(published), SendUpTo(c, old(buffer), calls, n), n);
        rest, raised := SendDevice(n, rest);
        n := n + 1;
      }
      if raised { SendStops(c, old(buffer), calls, n, |buffer|); }
    }

    method SendData(calls: seq<Outcome>)
      modifies this`published, this`platform, this`buffer
      ensures buffer == SendAll(c, old(buffer), calls).buffer
      ensures published == old(published) + SendAll(c, old(buffer), calls).sent
      ensures platform == old(platform) + Arrived(SendAll(c, old(buffer), calls).sent)
    {
      ghost var sent := SendAll(c, buffer, calls).sent;
      SendDevices(calls);
      platform := platform + Arrived(sent);
    }

    method HandlePublishedEvents(t: Turn) returns (success: bool)
      modifies this`published
      ensures success == Published(c, old(published)[..DrainCount(old(published), t)], t)
      ensures published == old(published)[DrainCount(old(published), t)..]
    {
      var drained: seq<Sent> := [];
      while published != [] && !(t.stopAfter.Some? && |drained| >= t.stopAfter.value)
        invariant old(published) == drained + published
        invariant |drained| <= DrainCount(old(published), t)
        decreases |published|
      {
        drained, published := drained + [published[0]], published[1..];
      }
      Halves(old(published), drained, published);
      if drained == [] { return false; }
      if Awaits(c, t) {
        for n := 0 to |drained|
          invariant forall k | 0 <= k < n :: drained[k].outcome == Confirmed
        {
          if drained[n].outcome != Confirmed { return false; }
        }
      }
      return true;
    }

    method AwaitConfirmations(t: Turn)
      requires Valid()
      modifies this
      ensures Valid() && Abs() == Settle(c, old(Abs()), t)
    {
      if !t.connectedAtCheck || t.configuringAtCheck { return; }
      var success := HandlePublishedEvents(t);
      if success && t.connectedAtAck {
        acked := acked + pending[..handed];
        pending, handed, buffer := pending[handed..], 0, [];
      }
    }

    method ProcessPack(t: Turn)
      requires Valid()
      modifies this
      ensures Valid() && Abs() == Process(c, old(Abs()), t)
    {
      var aborted := GroupPack();
      if aborted { return; }
      if buffer != [] {
        if !t.connectedAtSend { return; }
        SendData(t.calls);
      } else {
        NothingToTransmit(c, Abs(), t);
      }
      AwaitConfirmations(t);
    }

    method RunTurn(t: Turn)
      requires Valid()
      modifies this
      ensures Valid() && Abs() == Step(c, old(Abs()), t)
    {
      if !(t.connectedAtRead && !t.configuringAtRead) { return; }
      handed := if t.packSize < handed then handed else if t.packSize > |pending| then |pending| else t.packSize;
      if handed == 0 { return; }
      ProcessPack(t);
    }
  }

  lemma Halves(all: seq<Sent>, a: seq<Sent>, b: seq<Sent>)
    requires all == a + b
    ensures a == all[..|a|] && b == all[|a|..]
  {}

  lemma {:induction false} SendStops(c: Config, buf: Buffer, calls: seq<Outcome>, n: nat, m: nat)
    requires n <= m && SendUpTo(c, buf, calls, n).raised
    ensures SendUpTo(c, buf, calls, m) == SendUpTo(c, buf, calls, n)
  {
    hide SendStep;
    if n < m {
      SendStops(c, buf, calls, n, m - 1);
      RaisedStays(c, SendUpTo(c, buf, calls, m - 1), m - 1);
    }
  }

  lemma RaisedStays(c: Config, x: Sending, n: nat)
    requires x.raised
    ensures SendStep(c, x, n) == x
  {}

  // The same sending, with messages published before it.
  function Behind(before: seq<Sent>, x: Sending): Sending { x.(sent := before + x.sent) }

  lemma StepBehind(c: Config, before: seq<Sent>, x: Sending, n: nat)
    ensures SendStep(c, Behind(before, x), n) == Behind(before, SendStep(c, x, n))
    ensures |SendStep(c, x, n).buffer| == |x.buffer|
  {
    if !x.raised && n < |x.buffer| {
      Associative(before, x.sent, SendBucket(c, x.buffer[n].0, x.buffer[n].1, x.rest).sent);
    }
  }

  lemma NothingToTransmit(c: Config, s: State, t: Turn)
    requires s.buffer == []
    ensures Transmit(c, s, t) == s
  {}

  lemma {:induction false} ArrivedConcat(a: seq<Sent>, b: seq<Sent>)
    ensures Arrived(a + b) == Arrived(a) + Arrived(b)
  {
    if b == [] {
      assert a + b == a;
    } else {
      ArrivedConcat(a, b[..|b| - 1]);
      assert (a + b)[..|a + b| - 1] == a + b[..|b| - 1];
    }
  }

  lemma {:induction false} FillStops(buf: Buffer, evs: seq<StoredEvent>, n: nat)
    requires n <= |evs| && Fill(buf, evs[..n]).aborted
    ensures Fill(buf, evs) == Fill(buf, evs[..n])
  {
    if n == |evs| {
      assert evs[..n] == evs;
    } else {
      assert evs[..|evs| - 1][..n] == evs[..n];
      FillStops(buf, evs[..|evs| - 1], n);
    }
  }
}
