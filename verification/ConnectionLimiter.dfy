// How often a Modbus slave tries to connect: attempts keep a distance, and after a number
// of attempts in a row there is a longer pause.
module ConnectionLimiter {

  datatype Config = Config(attemptTime: real, wait: real, limit: int)

  const MIN_ATTEMPT_TIME := 500.0
  const MIN_WAIT := 30000.0
  const MIN_LIMIT := 2

  predicate Valid(c: Config) { c.attemptTime >= MIN_ATTEMPT_TIME && c.wait >= MIN_WAIT && c.limit >= MIN_LIMIT }

  // Values below the minimum are replaced by it.
  function Configure(attemptTime: real, wait: real, limit: int): (c: Config)
    ensures Valid(c)
    ensures if attemptTime >= 500.0 then c.attemptTime == attemptTime else c.attemptTime == 500.0
    ensures if wait >= 30000.0 then c.wait == wait else c.wait == 30000.0
    ensures if limit >= 2 then c.limit == limit else c.limit == 2
  {
    Config(if attemptTime > MIN_ATTEMPT_TIME then attemptTime else MIN_ATTEMPT_TIME,
           if wait > MIN_WAIT then wait else MIN_WAIT,
           if limit >= MIN_LIMIT then limit else MIN_LIMIT)
  }

  datatype Attempt = Connects | Fails | Throws

  datatype Return = Succeeded | Refused | Raised

  // One call: its time, whether the master is connected at that time, and, for the n-th
  // round of the loop, whether the slave was stopped and how the attempt goes.
  datatype Call = Call(time: real, connected: bool, stopped: nat -> bool, attempt: nat -> Attempt)

  datatype State = State(count: int, last: real)

  const NEW: State := State(0, 0.0)

  datatype Effect = Effect(state: State, made: nat, ret: Return)

  predicate Due(s: State, c: Config, time: real) {
    s.count < c.limit && (time - s.last >= c.attemptTime || s.last == 0.0)
  }

  function Forgive(s: State, c: Config, time: real): State {
    if s.count >= c.limit && time - s.last >= c.wait then State(0, s.last) else s
  }

  function Conclude(s: State, connected: bool, time: real, made: nat): Effect {
    if s.count >= 0 && connected then Effect(State(0, time), made, Succeeded) else Effect(s, made, Refused)
  }

  // The loop, with `made` attempts behind it.
  function Try(s: State, c: Config, call: Call, made: nat): Effect
    decreases c.limit - s.count
  {
    if !Due(s, c, call.time) then Conclude(s, false, call.time, made)
    else if call.stopped(made) then Effect(s, made, Refused)
    else if call.attempt(made).Throws? then Effect(State(s.count + 1, call.time), made + 1, Raised)
    else if s.count + 1 == c.limit then Effect(State(s.count + 1, call.time), made + 1, Refused)
    else if call.attempt(made).Connects? then Conclude(State(s.count + 1, call.time), true, call.time, made + 1)
    else Try(State(s.count + 1, call.time), c, call, made + 1)
  }

  function ConnectOnce(s: State, c: Config, call: Call): Effect {
    if call.connected then Conclude(s, true, call.time, 0)
    else Try(Forgive(s, c, call.time), c, call, 0)
  }

  class Slave {
    const config: Config
    var count: int
    var last: real

    function Abs(): State
      reads this
    {
      State(count, last)
    }

    constructor (attemptTime: real, wait: real, limit: int)
      ensures Abs() == NEW && config == Configure(attemptTime, wait, limit)
    {
      config := Configure(attemptTime, wait, limit);
      count, last := 0, 0.0;
    }

    method Connect(call: Call) returns (made: nat, ret: Return)
      modifies this
      ensures Effect(Abs(), made, ret) == ConnectOnce(old(Abs()), config, call)
    {
      var connected := call.connected;
      made := 0;
      if !connected {
        if count >= config.limit && call.time - last >= config.wait { count := 0; }
        ghost var start := Abs();
        while !connected && count < config.limit && (call.time - last >= config.attemptTime || last == 0.0)
          invariant !connected ==> Try(start, config, call, 0) == Try(Abs(), config, call, made)
          invariant connected ==> Try(start, config, call, 0) == Conclude(Abs(), true, call.time, made)
          decreases config.limit - count, !connected
        {
          if call.stopped(made) { return made, Refused; }
          count, last := count + 1, call.time;
          var outcome := call.attempt(made);
          made := made + 1;
          if outcome.Throws? { return made, Raised; }
          if count == config.limit { return made, Refused; }
          connected := outcome.Connects?;
        }
      }
      if count >= 0 && connected {
        count, last := 0, call.time;
        return made, Succeeded;
      }
      return made, Refused;
    }
  }

  // ---------- One call ----------

  // At a positive time a call makes at most one attempt.
  lemma OneAttemptPerCall(s: State, c: Config, call: Call)
    requires Valid(c) && call.time > 0.0
    ensures ConnectOnce(s, c, call).made <= 1
  {
    AttemptIsMadeExactly(s, c, call);
  }

  // At time zero a new slave makes all its attempts at once.
  lemma {:induction false} AllAttemptsAtZero(count: nat, c: Config, call: Call, made: nat)
    requires Valid(c) && count < c.limit && call.time == 0.0
    requires forall k :: !call.stopped(k) && call.attempt(k).Fails?
    ensures Try(State(count, 0.0), c, call, made).made == made + c.limit - count
    decreases c.limit - count
  {
    if count + 1 < c.limit { AllAttemptsAtZero(count + 1, c, call, made + 1); }
  }

  // Without a connection an attempt is made if and only if the slave runs on, the count is not
  // used up or the pause is over, and the last attempt is long enough ago or there was none.
  lemma AttemptIsMadeExactly(s: State, c: Config, call: Call)
    requires Valid(c) && call.time > 0.0
    ensures ConnectOnce(s, c, call).made ==
      if !call.connected && !call.stopped(0)
         && (s.count < c.limit || call.time - s.last >= c.wait)
         && (call.time - s.last >= c.attemptTime || s.last == 0.0)
      then 1 else 0
  {
    if !call.connected {
      var f := Forgive(s, c, call.time);
      var g := State(f.count + 1, call.time);
      if Due(f, c, call.time) {
        assert !Due(g, c, call.time);
        assert Try(g, c, call, 1) == Conclude(g, false, call.time, 1);
      }
    }
  }

  // The number of an attempt in its round.
  function Number(s: State, c: Config): int { if s.count >= c.limit then 1 else s.count + 1 }

  // What an attempt leaves, by how it goes: only one that connects and does not use up the
  // count is reported as a success, and the count starts anew.
  lemma AttemptCounts(s: State, c: Config, call: Call)
    requires Valid(c) && s.count >= 0 && call.time > 0.0 && ConnectOnce(s, c, call).made == 1
    ensures var e, n := ConnectOnce(s, c, call), Number(s, c);
      match call.attempt(0)
      case Throws => e == Effect(State(n, call.time), 1, Raised)
      case Fails => e == Effect(State(n, call.time), 1, Refused)
      case Connects =>
        e == if n == c.limit then Effect(State(n, call.time), 1, Refused) else Effect(State(0, call.time), 1, Succeeded)
  {
    var f := Forgive(s, c, call.time);
    var g := State(f.count + 1, call.time);
    assert Due(f, c, call.time) && !Due(g, c, call.time);
    assert Try(g, c, call, 1) == Conclude(g, false, call.time, 1);
  }

  // A call without an attempt reports whether the connection is there; it starts the count
  // anew if it is, or if the pause is over.
  lemma NoAttemptCounts(s: State, c: Config, call: Call)
    requires Valid(c) && s.count >= 0 && call.time > 0.0 && ConnectOnce(s, c, call).made == 0
    ensures ConnectOnce(s, c, call) ==
      if call.connected then Effect(State(0, call.time), 0, Succeeded)
      else Effect(State(if s.count >= c.limit && call.time - s.last >= c.wait then 0 else s.count, s.last), 0, Refused)
  {
    AttemptIsMadeExactly(s, c, call);
  }

  // A call succeeds if and only if the connection is there, or an attempt is made that
  // connects and does not use up the count: the slave runs on, the last attempt is far
  // enough back, and either another one is allowed after it or the pause is over.
  lemma CallSucceedsExactly(s: State, c: Config, call: Call)
    requires Valid(c) && s.count >= 0 && call.time > 0.0
    ensures ConnectOnce(s, c, call).ret.Succeeded? <==>
      call.connected
      || (!call.stopped(0) && call.attempt(0).Connects?
          && (call.time - s.last >= c.attemptTime || s.last == 0.0)
          && (s.count + 1 < c.limit || (s.count >= c.limit && call.time - s.last >= c.wait)))
  {
    AttemptIsMadeExactly(s, c, call);
    if ConnectOnce(s, c, call).made == 1 { AttemptCounts(s, c, call); } else { NoAttemptCounts(s, c, call); }
  }

  // An attempt that connects and uses up the count is refused, yet the connection is
  // there: the next call reports success.
  lemma LastAttemptIsDenied(s: State, c: Config, call: Call, next: Call)
    requires Valid(c) && s.count >= 0 && call.time > 0.0
    requires !call.connected && !call.stopped(0) && call.attempt(0).Connects? && next.connected
    requires s.count + 1 == c.limit && (call.time - s.last >= c.attemptTime || s.last == 0.0)
    ensures ConnectOnce(s, c, call) == Effect(State(c.limit, call.time), 1, Refused)
    ensures ConnectOnce(ConnectOnce(s, c, call).state, c, next) == Effect(State(0, next.time), 0, Succeeded)
  {
    AttemptIsMadeExactly(s, c, call);
    AttemptCounts(s, c, call);
  }

  // ---------- Runs without success ----------

  // An attempt with its number since the count was last forgiven.
  datatype Tried = Tried(time: real, number: int)

  function Run(s: State, c: Config, calls: seq<Call>): State {
    if calls == [] then s else ConnectOnce(Run(s, c, calls[..|calls| - 1]), c, calls[|calls| - 1]).state
  }

  function Attempts(s: State, c: Config, calls: seq<Call>): seq<Tried> {
    if calls == [] then []
    else
      Attempts(s, c, calls[..|calls| - 1]) +
      (if ConnectOnce(Run(s, c, calls[..|calls| - 1]), c, calls[|calls| - 1]).made > 0
       then [Tried(calls[|calls| - 1].time, Run(s, c, calls).count)] else [])
  }

  ghost predicate Orderly(calls: seq<Call>) {
    (forall i | 0 <= i < |calls| :: calls[i].time > 0.0)
    && forall i, j | 0 <= i < j < |calls| :: calls[i].time <= calls[j].time
  }

  ghost predicate Unsuccessful(s: State, c: Config, calls: seq<Call>) {
    calls == [] ||
    (Unsuccessful(s, c, calls[..|calls| - 1])
     && !ConnectOnce(Run(s, c, calls[..|calls| - 1]), c, calls[|calls| - 1]).ret.Succeeded?)
  }

  // The next attempt has the next number and keeps the distance; after the last number
  // comes number one, after the longer pause.
  ghost predicate Spaced(c: Config, a: Tried, b: Tried) {
    && b.time - a.time >= c.attemptTime
    && (if a.number == c.limit then b.number == 1 && b.time - a.time >= c.wait else b.number == a.number + 1)
  }

  ghost predicate AllSpaced(c: Config, tries: seq<Tried>) {
    && (forall i | 0 <= i < |tries| :: 1 <= tries[i].number <= c.limit)
    && (forall i | 0 <= i < |tries| - 1 :: Spaced(c, tries[i], tries[i + 1]))
  }

  // What holds between calls, `now` being the time of the last one.
  ghost predicate Inv(c: Config, s: State, tries: seq<Tried>, now: real) {
    && AllSpaced(c, tries) && 0 <= s.count <= c.limit
    && (tries == [] ==> s.count == 0)
    && (tries != [] ==>
          s.last == tries[|tries| - 1].time && 0.0 < s.last <= now
          && (s.count == tries[|tries| - 1].number
              || (s.count == 0 && tries[|tries| - 1].number == c.limit && now - s.last >= c.wait)))
  }

  function Time(calls: seq<Call>): real { if calls == [] then 0.0 else calls[|calls| - 1].time }

  lemma UnsuccessfulCall(s: State, c: Config, call: Call)
    requires Valid(c) && call.time > 0.0 && !ConnectOnce(s, c, call).ret.Succeeded? && s.count >= 0
    ensures !call.connected
    ensures var e := ConnectOnce(s, c, call);
      if e.made > 0 then e.state == State(Number(s, c), call.time) else e.state == Forgive(s, c, call.time)
  {
    OneAttemptPerCall(s, c, call);
    if ConnectOnce(s, c, call).made == 1 { AttemptCounts(s, c, call); } else { NoAttemptCounts(s, c, call); }
  }

  lemma SpacedSnoc(c: Config, tries: seq<Tried>, t: Tried)
    requires AllSpaced(c, tries) && 1 <= t.number <= c.limit
    requires tries != [] ==> Spaced(c, tries[|tries| - 1], t)
    ensures AllSpaced(c, tries + [t])
  {}

  lemma CallKeepsInv(c: Config, s: State, tries: seq<Tried>, now: real, call: Call)
    requires Valid(c) && Inv(c, s, tries, now) && call.time > 0.0 && now <= call.time
    requires !ConnectOnce(s, c, call).ret.Succeeded?
    ensures var e := ConnectOnce(s, c, call);
      Inv(c, e.state, tries + (if e.made > 0 then [Tried(call.time, e.state.count)] else []), call.time)
  {
    UnsuccessfulCall(s, c, call);
    AttemptIsMadeExactly(s, c, call);
    var e := ConnectOnce(s, c, call);
    if e.made > 0 {
      SpacedSnoc(c, tries, Tried(call.time, e.state.count));
    } else {
      assert tries + [] == tries;
    }
  }

  // Between attempts the count stays in its range and the distances are kept, in every
  // run of calls without success that starts with nothing counted.
  lemma {:induction false} AttemptsAreSpaced(s: State, c: Config, calls: seq<Call>)
    requires Valid(c) && s.count == 0 && Orderly(calls) && Unsuccessful(s, c, calls)
    ensures Inv(c, Run(s, c, calls), Attempts(s, c, calls), Time(calls))
  {
    if calls != [] {
      var n := |calls| - 1;
      AttemptsAreSpaced(s, c, calls[..n]);
      CallKeepsInv(c, Run(s, c, calls[..n]), Attempts(s, c, calls[..n]), Time(calls[..n]), calls[n]);
    }
  }

  lemma {:induction false} SomeAttemptsTake(c: Config, tries: seq<Tried>, i: nat, m: nat)
    requires Valid(c) && AllSpaced(c, tries) && i + m < |tries| && m <= c.limit
    ensures var a, b := tries[i], tries[i + m];
      if a.number + m <= c.limit then b.number == a.number + m && b.time - a.time >= m as real * c.attemptTime
      else b.number == a.number + m - c.limit && b.time - a.time >= (m - 1) as real * c.attemptTime + c.wait
  {
    if m > 0 {
      SomeAttemptsTake(c, tries, i, m - 1);
      assert Spaced(c, tries[i + m - 1], tries[i + m]);
    }
  }

  // The time that a full round of attempts takes at least.
  function Round(c: Config): real { (c.limit - 1) as real * c.attemptTime + c.wait }

  lemma OneRoundTakes(c: Config, tries: seq<Tried>, i: nat)
    requires Valid(c) && AllSpaced(c, tries) && i + c.limit < |tries|
    ensures tries[i + c.limit].time - tries[i].time >= Round(c)
  {
    SomeAttemptsTake(c, tries, i, c.limit);
  }

  lemma {:induction false} RoundsTake(c: Config, tries: seq<Tried>, i: nat, k: nat)
    requires Valid(c) && AllSpaced(c, tries) && i + k * c.limit < |tries|
    ensures i + k * c.limit >= 0 && tries[i + k * c.limit].time - tries[i].time >= k as real * Round(c)
  {
    if k > 0 {
      assert k * c.limit == (k - 1) * c.limit + c.limit;
      assert k as real * Round(c) == (k - 1) as real * Round(c) + Round(c);
      RoundsTake(c, tries, i, k - 1);
      OneRoundTakes(c, tries, i + (k - 1) * c.limit);
    }
  }

  // The rate bound: in every run without success, k times the limit of attempts, and one
  // more, take at least k rounds of time, and no two attempts are closer than they may be.
  lemma AttemptRateIsBounded(s: State, c: Config, calls: seq<Call>, i: nat, k: nat)
    requires Valid(c) && s.count == 0 && Orderly(calls) && Unsuccessful(s, c, calls)
    requires i + k * c.limit < |Attempts(s, c, calls)|
    ensures var tries := Attempts(s, c, calls);
      i + k * c.limit >= 0 && tries[i + k * c.limit].time - tries[i].time >= k as real * Round(c)
      && (forall j | 0 <= j < |tries| - 1 :: tries[j + 1].time - tries[j].time >= c.attemptTime)
      && 0 <= Run(s, c, calls).count <= c.limit
  {
    AttemptsAreSpaced(s, c, calls);
    RoundsTake(c, Attempts(s, c, calls), i, k);
    var tries := Attempts(s, c, calls);
    assert forall j | 0 <= j < |tries| - 1 :: Spaced(c, tries[j], tries[j + 1]);
  }
}
