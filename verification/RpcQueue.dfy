// Requests of the platform to devices: a rotating queue in which a request waits until
// its device is connected or its time is up.
module RpcQueue {
  import opened Options
  import opened PyDict
  import opened Registry
  import opened RegistryRuns

  // `device` is the name in the request's content, which processing overwrites with the
  // local name; `addressed` is the name it arrived under, kept for the statements below.
  datatype Request = Request(id: nat, device: Name, received: int, timeout: int, addressed: Name)

  // `replyTo` and `errorTo` are the platform names under which a reply leaves.
  datatype Fate =
    | TimedOut(replyTo: Name)
    | Dispatched(device: Name, connector: Connector, errorTo: Option<Name>)
    | Unconnectable(device: Name)

  datatype Finish = Finish(request: Request, at: int, fate: Fate)

  datatype State = State(queue: seq<Request>, outcomes: seq<Finish>)

  const IDLE: State := State([], [])

  // What a pass sees: the clock, the registry, and whether the handler reports an error.
  datatype Turn = Turn(now: int, reg: Registry, handlerFails: bool)

  datatype Step = Receive(request: Request) | Process(turn: Turn)

  predicate Expired(q: Request, now: int) { now - q.received > q.timeout }

  function Localised(q: Request, r: Registry): Request { q.(device := LocalName(r, q.device)) }

  // What becomes of a request; None if it is queued again.
  function Judge(q: Request, t: Turn): Option<Fate> {
    if Expired(q, t.now) then Some(TimedOut(UplinkName(t.reg, q.device)))
    else if Localised(q, t.reg).device !in t.reg.connected then None
    else if !HasConnector(t.reg.connected[Localised(q, t.reg).device])
    then Some(Unconnectable(Localised(q, t.reg).device))
    else Some(Dispatched(Localised(q, t.reg).device, t.reg.connected[Localised(q, t.reg).device].connector.value,
                         if t.handlerFails then Some(UplinkName(t.reg, Localised(q, t.reg).device)) else None))
  }

  function Settle(s: State, q: Request, t: Turn): State {
    match Judge(q, t)
    case Some(fate) => s.(outcomes := s.outcomes + [Finish(q, t.now, fate)])
    case None => s.(queue := s.queue + [Localised(q, t.reg)])
  }

  function Next(s: State, step: Step): State {
    match step
    case Receive(q) => s.(queue := s.queue + [q])
    case Process(t) => if s.queue == [] then s else Settle(s.(queue := s.queue[1..]), s.queue[0], t)
  }

  function Run(s: State, steps: seq<Step>): State {
    if steps == [] then s else Next(Run(s, steps[..|steps| - 1]), steps[|steps| - 1])
  }

  class RpcService {
    var queue: seq<Request>
    var outcomes: seq<Finish>

    function Abs(): State
      reads this
    {
      State(queue, outcomes)
    }

    constructor ()
      ensures Abs() == IDLE
    {
      queue, outcomes := [], [];
    }

    method Enqueue(q: Request)
      modifies this
      ensures Abs() == Next(old(Abs()), Receive(q))
    {
      queue := queue + [q];
    }

    // One pass of the processing loop.
    method ProcessNext(t: Turn)
      modifies this
      ensures Abs() == Next(old(Abs()), Process(t))
    {
      if queue == [] { return; }
      var q := queue[0];
      queue := queue[1..];
      if t.now - q.received > q.timeout {
        outcomes := outcomes + [Finish(q, t.now, TimedOut(UplinkName(t.reg, q.device)))];
        return;
      }
      var device := q.device;
      var original := KeyByValue(t.reg.renamed, device);
      if original.Some? { device := original.value; }
      if device !in t.reg.connected {
        queue := queue + [q.(device := device)];
      } else if HasConnector(t.reg.connected[device]) {
        var reply := if t.handlerFails then Some(UplinkName(t.reg, device)) else None;
        outcomes := outcomes + [Finish(q, t.now, Dispatched(device, t.reg.connected[device].connector.value, reply))];
      } else {
        outcomes := outcomes + [Finish(q, t.now, Unconnectable(device))];
      }
    }
  }

  // ---------- No request is lost or answered twice ----------

  // What a request stays while its device name is overwritten.
  datatype Ticket = Ticket(id: nat, received: int, timeout: int, addressed: Name)

  function TicketOf(q: Request): Ticket { Ticket(q.id, q.received, q.timeout, q.addressed) }

  // How often a request waits, is finished, was received.
  function Waiting(queue: seq<Request>, k: Ticket): nat {
    if queue == [] then 0
    else Waiting(queue[..|queue| - 1], k) + (if TicketOf(queue[|queue| - 1]) == k then 1 else 0)
  }

  function Finished(outcomes: seq<Finish>, k: Ticket): nat {
    if outcomes == [] then 0
    else Finished(outcomes[..|outcomes| - 1], k) + (if TicketOf(outcomes[|outcomes| - 1].request) == k then 1 else 0)
  }

  function Received(steps: seq<Step>, k: Ticket): nat {
    if steps == [] then 0
    else Received(steps[..|steps| - 1], k) + (if Receives(steps[|steps| - 1], k) then 1 else 0)
  }

  predicate Receives(step: Step, k: Ticket) { step.Receive? && TicketOf(step.request) == k }

  lemma {:induction false} WaitingCons(q: Request, queue: seq<Request>, k: Ticket)
    ensures Waiting([q] + queue, k) == (if TicketOf(q) == k then 1 else 0) + Waiting(queue, k)
  {
    if queue == [] {
      assert [q] + queue == [q] && [q][..0] == [];
    } else {
      WaitingCons(q, queue[..|queue| - 1], k);
      assert ([q] + queue)[..|queue|] == [q] + queue[..|queue| - 1];
    }
  }

  lemma StepConserves(s: State, step: Step, k: Ticket)
    ensures Waiting(Next(s, step).queue, k) + Finished(Next(s, step).outcomes, k) ==
            Waiting(s.queue, k) + Finished(s.outcomes, k) + (if Receives(step, k) then 1 else 0)
  {
    match step
    case Receive(q) => assert (s.queue + [q])[..|s.queue|] == s.queue;
    case Process(t) =>
      if s.queue != [] {
        var q := s.queue[0];
        assert s.queue == [q] + s.queue[1..];
        WaitingCons(q, s.queue[1..], k);
        match Judge(q, t)
        case Some(fate) => assert (s.outcomes + [Finish(q, t.now, fate)])[..|s.outcomes|] == s.outcomes;
        case None => assert (s.queue[1..] + [Localised(q, t.reg)])[..|s.queue| - 1] == s.queue[1..];
      }
  }

  // In every run, every request waits or is finished exactly as often as it was received.
  lemma {:induction false} RequestsAreConserved(steps: seq<Step>, k: Ticket)
    ensures Waiting(Run(IDLE, steps).queue, k) + Finished(Run(IDLE, steps).outcomes, k) == Received(steps, k)
  {
    if steps != [] {
      RequestsAreConserved(steps[..|steps| - 1], k);
      StepConserves(Run(IDLE, steps[..|steps| - 1]), steps[|steps| - 1], k);
    }
  }

  // ---------- Deadlines ----------

  // It waited longer than its timeout if and only if it is answered so; what is dispatched
  // is dispatched in time.
  predicate OnTime(o: Finish) {
    && (o.fate.TimedOut? <==> o.at - o.request.received > o.request.timeout)
    && (o.fate.Dispatched? ==> o.at <= o.request.received + o.request.timeout)
  }

  // In every run.
  lemma {:induction false} DeadlinesAreKept(steps: seq<Step>)
    ensures forall i | 0 <= i < |Run(IDLE, steps).outcomes| :: OnTime(Run(IDLE, steps).outcomes[i])
  {
    if steps != [] {
      hide LocalName, UplinkName;
      DeadlinesAreKept(steps[..|steps| - 1]);
    }
  }

  // Once all waiting requests are late, as many passes as there are requests answer them
  // all, in order.
  function Passes(turns: seq<Turn>): seq<Step> {
    seq(|turns|, i requires 0 <= i < |turns| => Process(turns[i]))
  }

  lemma {:induction false} LateRequestsAreAnswered(s: State, turns: seq<Turn>)
    requires |turns| <= |s.queue|
    requires forall i, j | 0 <= i < |turns| && 0 <= j < |s.queue| ::
               turns[i].now - s.queue[j].received > s.queue[j].timeout
    ensures var n := Run(s, Passes(turns));
      && n.queue == s.queue[|turns|..]
      && |n.outcomes| == |s.outcomes| + |turns|
      && n.outcomes[..|s.outcomes|] == s.outcomes
      && (forall i | 0 <= i < |turns| ::
            && n.outcomes[|s.outcomes| + i].request == s.queue[i]
            && n.outcomes[|s.outcomes| + i].fate == TimedOut(UplinkName(turns[i].reg, s.queue[i].device)))
  {
    hide UplinkName, LocalName;
    if turns != [] {
      var k := |turns| - 1;
      LateRequestsAreAnswered(s, turns[..k]);
      assert Passes(turns)[..k] == Passes(turns[..k]);
      var m := Run(s, Passes(turns[..k]));
      assert m.queue[0] == s.queue[k] && m.queue[1..] == s.queue[|turns|..];
    }
  }

  // ---------- What a pass decides ----------

  // The first request is answered as late, or passed to the connector of its device, or
  // dropped for want of one, or, its device not being connected, put behind the others under
  // the local name.
  lemma PassDecidesExactly(s: State, t: Turn)
    requires s.queue != []
    ensures var q, rest, n := s.queue[0], s.queue[1..], Next(s, Process(t));
      var d := LocalName(t.reg, q.device);
      if t.now - q.received > q.timeout
      then n.queue == rest && exists name :: n.outcomes == s.outcomes + [Finish(q, t.now, TimedOut(name))]
      else if d !in t.reg.connected then n.queue == rest + [q.(device := d)] && n.outcomes == s.outcomes
      else if HasConnector(t.reg.connected[d])
      then n.queue == rest && |n.outcomes| == |s.outcomes| + 1 && n.outcomes[..|s.outcomes|] == s.outcomes
           && Passed(n.outcomes[|s.outcomes|], q, t, d, t.reg.connected[d].connector.value)
      else n.queue == rest && n.outcomes == s.outcomes + [Finish(q, t.now, Unconnectable(d))]
  {
    var q := s.queue[0];
    if t.now - q.received > q.timeout { assert Judge(q, t) == Some(TimedOut(UplinkName(t.reg, q.device))); }
  }

  // The pass gave the request to this connector for this device, and replies if the connector
  // reports an error.
  predicate Passed(o: Finish, q: Request, t: Turn, d: Name, k: Connector) {
    && o.request == q && o.at == t.now
    && o.fate.Dispatched? && o.fate.device == d && o.fate.connector == k
    && (o.fate.errorTo.Some? <==> t.handlerFails)
  }

  function PassCount(steps: seq<Step>): nat {
    if steps == [] then 0 else PassCount(steps[..|steps| - 1]) + (if steps[|steps| - 1].Process? then 1 else 0)
  }

  lemma OnePlaceForward(s: State, step: Step, waiting: seq<Request>)
    requires waiting <= s.queue && (step.Process? ==> waiting != [])
    ensures (if step.Process? then waiting[1..] else waiting) <= Next(s, step).queue
  {
    hide Judge;
    if step.Process? { assert waiting[1..] <= s.queue[1..]; }
  }

  // As long as a request has others before it, each pass brings it one place forward, whatever
  // arrives meanwhile.
  lemma {:induction false} QueueMovesOn(s: State, steps: seq<Step>)
    requires PassCount(steps) <= |s.queue|
    ensures s.queue[PassCount(steps)..] <= Run(s, steps).queue
  {
    if steps != [] {
      hide Next;
      var n := |steps| - 1;
      var k := PassCount(steps[..n]);
      QueueMovesOn(s, steps[..n]);
      OnePlaceForward(Run(s, steps[..n]), steps[n], s.queue[k..]);
      if steps[n].Process? { assert s.queue[k..][1..] == s.queue[k + 1..]; }
    }
  }

  // A waiting request is passed to its device's connector by the pass that comes to it, if
  // that pass is in time and the device connected through a connector; it was addressed by
  // the name the platform has for the device.
  lemma TimelyRequestIsDispatched(s: State, steps: seq<Step>, t: Turn, names: map<Name, Name>, d: Name, k: Connector)
    requires PassCount(steps) < |s.queue|
    requires var q := s.queue[PassCount(steps)];
      && t.now <= q.received + q.timeout
      && Follows(t.reg, names) && d in names && q.device == names[d]
      && d in t.reg.connected && t.reg.connected[d].Live? && t.reg.connected[d].connector == Some(k)
    ensures var o := Run(s, steps + [Process(t)]).outcomes;
      o != [] && Passed(o[|o| - 1], s.queue[PassCount(steps)], t, d, k)
  {
    hide LocalName, Follows, Next;
    QueueMovesOn(s, steps);
    assert (steps + [Process(t)])[..|steps|] == steps;
    var m := Run(s, steps);
    assert s.queue[PassCount(steps)..][0] == m.queue[0];
    PassDecidesExactly(m, t);
    LocalNameOf(t.reg, names, d);
  }

  lemma LocalNameOf(r: Registry, names: map<Name, Name>, d: Name)
    requires Follows(r, names) && d in names
    ensures LocalName(r, names[d]) == d
  {
    DownlinkInvertsUplink(r, names, d);
  }

  // ---------- The right device ----------

  // A run in which the rename map stays the same.
  ghost predicate Under(m: Dict<Name, Name>, steps: seq<Step>) {
    forall i | 0 <= i < |steps| ::
      match steps[i]
      case Receive(q) => q.device == q.addressed
      case Process(t) => t.reg.renamed == m
  }

  // Every dispatched request went to the device that its name stands for.
  ghost predicate WellDispatched(m: Dict<Name, Name>, outcomes: seq<Finish>) {
    forall i | 0 <= i < |outcomes| && outcomes[i].fate.Dispatched? ::
      outcomes[i].fate.device == LocalOf(m, outcomes[i].request.addressed)
  }

  ghost predicate Once(m: Dict<Name, Name>) { forall n :: LocalOf(m, LocalOf(m, n)) == LocalOf(m, n) }

  ghost predicate Located(m: Dict<Name, Name>, q: Request) {
    q.device == q.addressed || q.device == LocalOf(m, q.addressed)
  }

  lemma {:induction false} RunLocates(m: Dict<Name, Name>, steps: seq<Step>)
    requires Once(m) && Under(m, steps)
    ensures var s := Run(IDLE, steps);
      (forall q | q in s.queue :: Located(m, q)) && (forall o | o in s.outcomes :: Located(m, o.request))
      && WellDispatched(m, s.outcomes)
  {
    if steps != [] {
      var n := |steps| - 1;
      RunLocates(m, steps[..n]);
      var s := Run(IDLE, steps[..n]);
      if steps[n].Process? && s.queue != [] {
        var q := s.queue[0];
        assert Located(m, q);
        assert LocalName(steps[n].turn.reg, q.device) == LocalOf(m, q.device) == LocalOf(m, q.addressed);
      }
    }
  }

  // While the renames stay as they are, every request that is dispatched reaches the
  // device it was meant for, in every run, exactly if no device was renamed to the local
  // name of a renamed device.
  lemma DispatchIsRightExactly(r: Registry, names: map<Name, Name>)
    requires Follows(r, names)
    ensures (forall steps :: Under(r.renamed, steps) ==> WellDispatched(r.renamed, Run(IDLE, steps).outcomes))
       <==> Disjoint(r.renamed)
  {
    DownlinkTwiceIsOnceExactly(r, names);
    if Disjoint(r.renamed) {
      assert forall x :: LocalName(r, x) == LocalOf(r.renamed, x);
      forall steps | Under(r.renamed, steps) ensures WellDispatched(r.renamed, Run(IDLE, steps).outcomes) {
        RunLocates(r.renamed, steps);
      }
    } else {
      var d :| d in Keys(r.renamed) && Get(r.renamed, d).value in Keys(r.renamed);
      SecondTranslationMisdispatches(r, names, d);
    }
  }

  function Shown(r: Registry, d: Name): Registry {
    r.(connected := map[d := Live(Some(Connector("c", "c", "c")), "default")])
  }

  // A request for device e that waits once goes to device d, which has e as its new name.
  function Detour(r: Registry, d: Name, name: Name): seq<Step> {
    [Receive(Request(1, name, 0, 10, name)), Process(Turn(0, r.(connected := map[]), false)),
     Process(Turn(0, Shown(r, d), false))]
  }

  lemma DetourRuns(r: Registry, d: Name, e: Name, name: Name)
    requires LocalOf(r.renamed, name) == e && LocalOf(r.renamed, e) == d
    ensures var o := Run(IDLE, Detour(r, d, name)).outcomes;
      |o| == 1 && o[0].fate.Dispatched? && o[0].fate.device == d && o[0].request.addressed == name
  {
    var steps := Detour(r, d, name);
    var q := Request(1, name, 0, 10, name);
    assert steps[..2][..1][..0] == [] && steps[..2][..1] == [steps[0]] && steps[..2] == [steps[0], steps[1]];
    assert Run(IDLE, steps[..2][..1]) == State([q], []);
    assert Run(IDLE, steps[..2]) == State([q.(device := e)], []);
  }

  lemma SecondTranslationMisdispatches(r: Registry, names: map<Name, Name>, d: Name)
    requires Follows(r, names) && d in Keys(r.renamed) && Get(r.renamed, d).value in Keys(r.renamed)
    ensures var steps := Detour(r, d, names[names[d]]);
      names[d] in names && Under(r.renamed, steps) && !WellDispatched(r.renamed, Run(IDLE, steps).outcomes)
  {
    hide Run;
    var e := names[d];
    assert UplinkName(r, d) == e && UplinkName(r, e) == names[e];
    KnownByName(r, names, d);
    KnownByName(r, names, e);
    DetourRuns(r, d, e, names[e]);
  }

  // ---------- The right reply ----------

  ghost predicate WellReplied(outcomes: seq<Finish>) {
    forall i | 0 <= i < |outcomes| :: GoodReply(outcomes[i].fate, outcomes[i].request.addressed)
  }

  ghost predicate Addresses(names: map<Name, Name>, steps: seq<Step>) {
    forall i | 0 <= i < |steps| && steps[i].Receive? :: steps[i].request.addressed in names.Values
  }

  ghost predicate AddressedIn(names: map<Name, Name>, s: State) {
    && (forall q | q in s.queue :: q.addressed in names.Values)
    && (forall o | o in s.outcomes :: o.request.addressed in names.Values)
  }

  lemma RepliesOf(r: Registry, names: map<Name, Name>, name: Name)
    requires Follows(r, names) && Disjoint(r.renamed) && name in names.Values
    ensures UplinkOf(r.renamed, name) == name && UplinkOf(r.renamed, LocalOf(r.renamed, name)) == name
  {
    var d :| d in names && names[d] == name;
    DownlinkInvertsUplink(r, names, d);
    UplinkTwiceIsOnceExactly(r, names);
    assert UplinkName(r, d) == name && UplinkName(r, UplinkName(r, d)) == name;
    assert LocalName(r, name) == LocalOf(r.renamed, name);
  }

  predicate GoodReply(fate: Fate, addressed: Name) {
    match fate
    case TimedOut(name) => name == addressed
    case Dispatched(_, _, reply) => reply.Some? ==> reply.value == addressed
    case Unconnectable(_) => true
  }

  lemma JudgedReply(r: Registry, names: map<Name, Name>, q: Request, t: Turn)
    requires Follows(r, names) && Disjoint(r.renamed) && t.reg.renamed == r.renamed
    requires q.addressed in names.Values && Located(r.renamed, q)
    ensures Judge(q, t).Some? ==> GoodReply(Judge(q, t).value, q.addressed)
  {
    RepliesOf(r, names, q.addressed);
    assert UplinkName(t.reg, q.device) == UplinkOf(r.renamed, q.device);
    DownlinkTwiceIsOnceExactly(r, names);
    assert LocalName(r, LocalName(r, q.addressed)) == LocalName(r, q.addressed);
    assert Localised(q, t.reg).device == LocalOf(r.renamed, q.addressed);
    assert UplinkName(t.reg, Localised(q, t.reg).device) == UplinkOf(r.renamed, Localised(q, t.reg).device);
  }

  // Under the same condition, a timeout or error reply leaves under the name the request
  // was addressed to.
  lemma {:induction false} RepliesReachTheAsker(r: Registry, names: map<Name, Name>, steps: seq<Step>)
    requires Follows(r, names) && Disjoint(r.renamed) && Under(r.renamed, steps) && Addresses(names, steps)
    ensures WellReplied(Run(IDLE, steps).outcomes) && AddressedIn(names, Run(IDLE, steps))
  {
    if steps != [] {
      var n := |steps| - 1;
      RepliesReachTheAsker(r, names, steps[..n]);
      DownlinkTwiceIsOnceExactly(r, names);
      assert forall x :: LocalName(r, x) == LocalOf(r.renamed, x);
      RunLocates(r.renamed, steps[..n]);
      var s := Run(IDLE, steps[..n]);
      if steps[n].Process? && s.queue != [] {
        assert s.queue[0] in s.queue;
        JudgedReply(r, names, s.queue[0], steps[n].turn);
      }
    }
  }
}
