// The platform client: the startup thread and the reconnection supervisor both call
// `connect`, while the client's own events and requests to stop or pause come at any time.
module ReconnectSupervisor {
  import opened Options

  datatype Thread = Startup | Supervisor

  datatype Reason = Connected | Stopped | TimedOut

  // Where a thread is. The supervisor's own loop, then `connect`; `seen` is the time at
  // which the thread saw the client connected.
  datatype Place =
    | Outside | RunTest | CheckInitial | CheckStopped | CheckPaused | CheckConnecting | CheckLoop | WaitEvent | Ended
    | Waiting | Marking | Unpausing | Unstopping
    | TestConnected | TestAlive(seen: nat) | TestStopped
    | ReadPaused | ReadStopped | ReadTimeout | Sending
    | Clearing(reason: Reason) | Releasing(reason: Reason)

  // What the threads share.
  datatype Flags = Flags(connected: bool, alive: bool, connecting: bool, paused: bool, stopped: bool, event: bool,
                         initialDone: bool, owner: Option<Thread>)

  datatype State = State(flags: Flags, startup: Place, supervisor: Place, clock: nat)

  const NEW := State(Flags(false, false, false, false, false, false, false, None), Outside, RunTest, 0)

  // A thread takes its next step (`late`: its timeout is over), the startup thread calls
  // `connect`, the client changes, the platform accepts the connection, someone stops,
  // pauses or unpauses the client.
  datatype Step =
    | Move(thread: Thread, late: bool) | Call | Client(connected: bool, alive: bool) | Accept
    | Stop | Pause | Unpause

  function PlaceOf(s: State, t: Thread): Place { if t.Startup? then s.startup else s.supervisor }

  // Where a thread in `connect` goes.
  function Goes(g: Flags, p: Place, t: Thread, late: bool, clock: nat): Place {
    match p
    case Waiting => if g.owner == None then Marking else Waiting
    case Marking => Unpausing
    case Unpausing => Unstopping
    case Unstopping => TestConnected
    case TestConnected => if g.connected then TestAlive(clock) else TestStopped
    case TestAlive(_) => if g.alive then Clearing(Connected) else TestStopped
    case TestStopped => if g.stopped then Clearing(Stopped) else ReadPaused
    case ReadPaused => if g.paused then TestConnected else ReadStopped
    case ReadStopped => if g.stopped then Clearing(Stopped) else ReadTimeout
    case ReadTimeout => if t.Startup? && late then Clearing(TimedOut) else Sending
    case Sending => TestConnected
    case Clearing(r) => Releasing(r)
    case Releasing(_) => if t.Startup? then Outside else WaitEvent
    case _ => p
  }

  // What it does to the shared flags.
  function Does(g: Flags, p: Place, t: Thread): Flags {
    match p
    case Waiting => if g.owner == None then g.(owner := Some(t)) else g
    case Marking => g.(connecting := true)
    case Unpausing => g.(paused := false)
    case Unstopping => g.(stopped := false)
    case Clearing(_) => g.(connecting := false)
    case Releasing(_) => g.(owner := None)
    case _ => g
  }

  // Where the supervisor goes, in its own loop and in `connect`.
  function Supervises(g: Flags, p: Place, clock: nat): Place {
    match p
    case RunTest => if g.stopped then Ended else CheckInitial
    case CheckInitial => if g.initialDone then CheckStopped else WaitEvent
    case CheckStopped => if g.stopped then WaitEvent else CheckPaused
    case CheckPaused => if g.paused then WaitEvent else CheckConnecting
    case CheckConnecting => if g.connecting then WaitEvent else CheckLoop
    case CheckLoop => if g.alive then WaitEvent else Waiting
    case WaitEvent => if g.event then Ended else RunTest
    case _ => Goes(g, p, Supervisor, false, clock)
  }

  function Next(s: State, step: Step): State {
    match step
    case Move(t, late) =>
      if t.Startup? then
        State(Does(s.flags, s.startup, t), Goes(s.flags, s.startup, t, late, s.clock), s.supervisor, s.clock + 1)
      else
        State(Does(s.flags, s.supervisor, t), s.startup, Supervises(s.flags, s.supervisor, s.clock), s.clock + 1)
    case Call => State(s.flags, if s.startup.Outside? then Waiting else s.startup, s.supervisor, s.clock + 1)
    case Client(connected, alive) =>
      State(s.flags.(connected := connected, alive := alive), s.startup, s.supervisor, s.clock + 1)
    case Accept => State(s.flags.(connected := true, initialDone := true), s.startup, s.supervisor, s.clock + 1)
    case Stop => State(s.flags.(stopped := true, event := true), s.startup, s.supervisor, s.clock + 1)
    case Pause => State(s.flags.(paused := true), s.startup, s.supervisor, s.clock + 1)
    case Unpause => State(s.flags.(paused := false), s.startup, s.supervisor, s.clock + 1)
  }

  function Run(s: State, steps: seq<Step>): State {
    if steps == [] then s else Next(Run(s, steps[..|steps| - 1]), steps[|steps| - 1])
  }

  // ---------- One retry loop at a time ----------

  // Between taking and giving back the lock.
  predicate Locked(p: Place) {
    p.Marking? || p.Releasing? || Trying(p)
  }

  // While `connecting` is set.
  predicate Trying(p: Place) {
    || p.Unpausing? || p.Unstopping? || p.TestConnected? || p.TestAlive? || p.TestStopped? || p.ReadPaused?
    || p.ReadStopped? || p.ReadTimeout? || p.Sending? || p.Clearing?
  }

  predicate OwnPlace(p: Place) {
    || p.RunTest? || p.CheckInitial? || p.CheckStopped? || p.CheckPaused? || p.CheckConnecting? || p.CheckLoop?
    || p.WaitEvent? || p.Ended?
  }

  predicate Unsupervised(p: Place) { p.RunTest? || p.CheckInitial? || p.WaitEvent? || p.Ended? }

  predicate Owned(g: Flags, p: Place, t: Thread) { Locked(p) <==> g.owner == Some(t) }

  predicate Inv(s: State) {
    && Owned(s.flags, s.startup, Startup) && Owned(s.flags, s.supervisor, Supervisor)
    && (s.flags.connecting <==> Trying(s.startup) || Trying(s.supervisor))
    && !OwnPlace(s.startup) && !s.supervisor.Outside?
    && (!Unsupervised(s.supervisor) ==> s.flags.initialDone)
  }

  lemma GoesOwned(g: Flags, p: Place, t: Thread, late: bool, clock: nat)
    requires Owned(g, p, t) && (Locked(p) || g.owner == None || p.Waiting? || Does(g, p, t) == g)
    ensures Owned(Does(g, p, t), Goes(g, p, t, late, clock), t)
    ensures Locked(p) && !p.Marking? && !p.Clearing? && !p.Releasing? ==>
              Trying(Goes(g, p, t, late, clock)) && Trying(p)
  {}

  lemma StartupKeepsInv(s: State, late: bool)
    requires Inv(s)
    ensures Inv(Next(s, Move(Startup, late)))
  {
    GoesOwned(s.flags, s.startup, Startup, late, s.clock);
  }

  lemma SupervisorKeepsInv(s: State, late: bool)
    requires Inv(s)
    ensures Inv(Next(s, Move(Supervisor, late)))
  {
    GoesOwned(s.flags, s.supervisor, Supervisor, false, s.clock);
  }

  lemma StepKeepsInv(s: State, step: Step)
    requires Inv(s)
    ensures Inv(Next(s, step))
  {
    if step.Move? {
      if step.thread.Startup? { StartupKeepsInv(s, step.late); } else { SupervisorKeepsInv(s, step.late); }
    }
  }

  // In every interleaving at most one thread is between the lock and its release, the
  // `connecting` flag says exactly that one is in its retry loop, and the supervisor is
  // in `connect` only after a first connection was accepted.
  lemma {:induction false} OneRetryLoopAtATime(steps: seq<Step>)
    ensures Inv(Run(NEW, steps))
    ensures !(Locked(Run(NEW, steps).startup) && Locked(Run(NEW, steps).supervisor))
    ensures Locked(Run(NEW, steps).supervisor) ==> exists i :: 0 <= i < |steps| && steps[i] == Accept
  {
    if steps != [] {
      var before := steps[..|steps| - 1];
      OneRetryLoopAtATime(before);
      StepKeepsInv(Run(NEW, before), steps[|steps| - 1]);
    }
    InitialNeedsAccept(steps);
  }

  lemma DoesNotAccept(g: Flags, p: Place, t: Thread)
    ensures Does(g, p, t).initialDone == g.initialDone
  {}

  lemma InitialStep(s: State, step: Step)
    ensures Next(s, step).flags.initialDone <==> s.flags.initialDone || step == Accept
  {
    hide Does, Goes, Supervises;
    if step.Move? { DoesNotAccept(s.flags, PlaceOf(s, step.thread), step.thread); }
  }

  lemma {:induction false} InitialNeedsAccept(steps: seq<Step>)
    ensures Run(NEW, steps).flags.initialDone ==> exists i :: 0 <= i < |steps| && steps[i] == Accept
  {
    if steps != [] {
      var n := |steps| - 1;
      InitialNeedsAccept(steps[..n]);
      InitialStep(Run(NEW, steps[..n]), steps[n]);
      if Run(NEW, steps[..n]).flags.initialDone {
        var i :| 0 <= i < n && steps[..n][i] == Accept;
        assert steps[i] == Accept;
      }
    }
  }

  // ---------- When `connect` returns ----------

  lemma {:induction false} ClockCounts(steps: seq<Step>)
    ensures Run(NEW, steps).clock == |steps|
  {
    if steps != [] { ClockCounts(steps[..|steps| - 1]); }
  }

  // How a thread comes to test the network loop.
  lemma TestingStep(s: State, step: Step, t: Thread)
    requires PlaceOf(Next(s, step), t).TestAlive?
    ensures PlaceOf(Next(s, step), t) == PlaceOf(s, t)
         || (PlaceOf(s, t).TestConnected? && s.flags.connected && PlaceOf(Next(s, step), t) == TestAlive(s.clock))
  {}

  // A thread that tests the network loop has seen the client connected, and has done
  // nothing else since.
  lemma {:induction false} SeenConnected(steps: seq<Step>, t: Thread)
    requires PlaceOf(Run(NEW, steps), t).TestAlive?
    ensures var k := PlaceOf(Run(NEW, steps), t).seen;
      k < |steps| && Run(NEW, steps[..k]).flags.connected
      && forall j | k < j <= |steps| :: PlaceOf(Run(NEW, steps[..j]), t) == TestAlive(k)
  {
    var n := |steps| - 1;
    var k := PlaceOf(Run(NEW, steps), t).seen;
    assert steps[..|steps|] == steps;
    ClockCounts(steps[..n]);
    TestingStep(Run(NEW, steps[..n]), steps[n], t);
    if PlaceOf(Run(NEW, steps[..n]), t).TestAlive? {
      SeenConnected(steps[..n], t);
      assert steps[..n][..k] == steps[..k];
      forall j | k < j <= |steps| ensures PlaceOf(Run(NEW, steps[..j]), t) == TestAlive(k) {
        if j <= n { assert steps[..n][..j] == steps[..j]; }
      }
    }
  }

  // The client was connected at an earlier moment, since when the thread only waited for
  // its test of the network loop.
  ghost predicate SawConnected(steps: seq<Step>, t: Thread) {
    exists k :: 0 <= k < |steps| && Run(NEW, steps[..k]).flags.connected
                && forall j | k < j <= |steps| :: PlaceOf(Run(NEW, steps[..j]), t) == TestAlive(k)
  }

  // `connect` ends its loop only when the network loop is alive after the client was seen
  // connected, when the client is stopped, or, at startup, when its timeout is over.
  lemma ConnectReturnsOnlyIf(steps: seq<Step>, step: Step, t: Thread)
    requires !PlaceOf(Run(NEW, steps), t).Clearing? && PlaceOf(Next(Run(NEW, steps), step), t).Clearing?
    ensures var s := Run(NEW, steps);
      match PlaceOf(Next(s, step), t).reason
      case Connected => s.flags.alive && SawConnected(steps, t)
      case Stopped => s.flags.stopped
      case TimedOut => t == Startup && step == Move(Startup, true)
  {
    if PlaceOf(Run(NEW, steps), t).TestAlive? { SeenConnected(steps, t); }
  }

  // ---------- When a stop is forgotten ----------

  // The thread will clear the `stopped` flag before it looks at it again.
  predicate Resets(p: Place) { p.Waiting? || p.Marking? || p.Unpausing? || p.Unstopping? }

  predicate Committed(s: State) {
    || Resets(s.startup) || Resets(s.supervisor)
    || s.supervisor.CheckPaused? || s.supervisor.CheckConnecting? || s.supervisor.CheckLoop?
  }

  ghost predicate NoCalls(steps: seq<Step>) { forall i | 0 <= i < |steps| :: !steps[i].Call? }

  // Some continuation without a further call of `connect` leaves the client not stopped.
  ghost predicate StopCanBeForgotten(s: State) { exists steps :: NoCalls(steps) && !Run(s, steps).flags.stopped }

  lemma {:induction false} StopStays(s: State, steps: seq<Step>)
    requires s.flags.stopped && !Committed(s) && NoCalls(steps)
    ensures Run(s, steps).flags.stopped && !Committed(Run(s, steps))
  {
    if steps != [] {
      var n := |steps| - 1;
      assert NoCalls(steps[..n]) by { assert forall i | 0 <= i < n :: steps[..n][i] == steps[i]; }
      StopStays(s, steps[..n]);
      StopStaysOnce(Run(s, steps[..n]), steps[n]);
    }
  }

  lemma StopStaysOnce(s: State, step: Step)
    requires s.flags.stopped && !Committed(s) && !step.Call?
    ensures Next(s, step).flags.stopped && !Committed(Next(s, step))
  {
    if step.Move? {
      if step.thread.Startup? { StartupStays(s, step.late); } else { SupervisorStays(s, step.late); }
    }
  }

  lemma StartupStays(s: State, late: bool)
    requires s.flags.stopped && !Committed(s)
    ensures Next(s, Move(Startup, late)).flags.stopped && !Committed(Next(s, Move(Startup, late)))
  {}

  lemma SupervisorStays(s: State, late: bool)
    requires s.flags.stopped && !Committed(s)
    ensures Next(s, Move(Supervisor, late)).flags.stopped && !Committed(Next(s, Move(Supervisor, late)))
  {}

  lemma {:induction false} RunConcat(s: State, a: seq<Step>, b: seq<Step>)
    ensures Run(s, a + b) == Run(Run(s, a), b)
  {
    if b == [] {
      assert a + b == a;
    } else {
      RunConcat(s, a, b[..|b| - 1]);
      assert (a + b)[..|a| + |b| - 1] == a + b[..|b| - 1];
    }
  }

  lemma RunOne(s: State, step: Step)
    ensures Run(s, [step]) == Next(s, step)
  {
    assert [step][..0] == [];
  }

  lemma RunCons(s: State, step: Step, rest: seq<Step>)
    ensures Run(s, [step] + rest) == Run(Next(s, step), rest)
  {
    RunOne(s, step);
    RunConcat(s, [step], rest);
  }

  // How far a thread in its retry loop is from giving back the lock, once stopped.
  function Distance(p: Place): nat {
    match p
    case Releasing(_) => 1
    case Clearing(_) => 2
    case TestStopped => 3
    case ReadStopped => 3
    case TestAlive(_) => 4
    case TestConnected => 5
    case ReadPaused => 6
    case Sending => 6
    case ReadTimeout => 7
    case _ => 0
  }

  // A stopped client's retry loop comes to its end, the other thread standing still.
  lemma Finish(s: State, t: Thread) returns (steps: seq<Step>)
    requires Inv(s) && s.flags.stopped && s.flags.owner == Some(t) && !Resets(PlaceOf(s, t))
    ensures NoCalls(steps)
    ensures var n := Run(s, steps);
      && Inv(n) && n.flags.stopped && n.flags.owner == None
      && (if t.Startup? then n.supervisor == s.supervisor else n.startup == s.startup)
    decreases Distance(PlaceOf(s, t))
  {
    var m := Move(t, false);
    var n := Next(s, m);
    StepKeepsInv(s, m);
    FinishStep(s, t);
    if n.flags.owner == None {
      RunOne(s, m);
      steps := [m];
    } else {
      var rest := Finish(n, t);
      RunCons(s, m, rest);
      steps := [m] + rest;
    }
  }

  lemma GoesCloser(g: Flags, p: Place, t: Thread, clock: nat)
    requires g.stopped && Locked(p) && !Resets(p)
    ensures var q := Goes(g, p, t, false, clock);
      if p.Releasing? then !Locked(q) else Locked(q) && !Resets(q) && Distance(q) < Distance(p)
  {}

  lemma DoesNoHarm(g: Flags, p: Place, t: Thread)
    requires g.stopped && Locked(p) && !Resets(p)
    ensures Does(g, p, t).stopped
    ensures Does(g, p, t).owner == if p.Releasing? then None else g.owner
  {}

  lemma FinishStep(s: State, t: Thread)
    requires s.flags.stopped && Locked(PlaceOf(s, t)) && !Resets(PlaceOf(s, t))
    ensures var n := Next(s, Move(t, false));
      && n.flags.stopped
      && (if t.Startup? then n.supervisor == s.supervisor else n.startup == s.startup)
      && (if PlaceOf(s, t).Releasing? then n.flags.owner == None
          else n.flags.owner == s.flags.owner && Locked(PlaceOf(n, t)) && !Resets(PlaceOf(n, t))
               && Distance(PlaceOf(n, t)) < Distance(PlaceOf(s, t)))
  {
    var p := PlaceOf(s, t);
    GoesCloser(s.flags, p, t, s.clock);
    DoesNoHarm(s.flags, p, t);
    assert PlaceOf(Next(s, Move(t, false)), t) == Goes(s.flags, p, t, false, s.clock);
  }

  // A thread that holds or gets the lock clears the flag within four steps.
  lemma ClearFlag(s: State, t: Thread) returns (steps: seq<Step>)
    requires Resets(PlaceOf(s, t)) && (PlaceOf(s, t).Waiting? ==> s.flags.owner == None)
    ensures NoCalls(steps) && !Run(s, steps).flags.stopped
    decreases match PlaceOf(s, t) case Waiting => 4 case Marking => 3 case Unpausing => 2 case _ => 1
  {
    var m := Move(t, false);
    if PlaceOf(s, t).Unstopping? {
      RunOne(s, m);
      steps := [m];
    } else {
      var rest := ClearFlag(Next(s, m), t);
      RunCons(s, m, rest);
      steps := [m] + rest;
    }
  }

  // The lock gets free, unless a thread on its way to clear the flag holds it.
  lemma FreeLock(s: State) returns (steps: seq<Step>)
    requires Inv(s) && s.flags.stopped && (s.flags.owner.Some? ==> !Resets(PlaceOf(s, s.flags.owner.value)))
    ensures NoCalls(steps)
    ensures var n := Run(s, steps);
      && Inv(n) && n.flags.stopped && n.flags.owner == None
      && (!Locked(s.supervisor) ==> n.supervisor == s.supervisor) && (!Locked(s.startup) ==> n.startup == s.startup)
  {
    if s.flags.owner.Some? { steps := Finish(s, s.flags.owner.value); } else { steps := []; }
  }

  // The supervisor, past its test of `stopped`, gets to wait for the lock.
  lemma GoOnToConnect(s: State) returns (steps: seq<Step>)
    requires Inv(s) && s.flags.owner == None
    requires s.supervisor.CheckPaused? || s.supervisor.CheckConnecting? || s.supervisor.CheckLoop?
    ensures NoCalls(steps) && Run(s, steps).supervisor == Waiting && Run(s, steps).flags.owner == None
    decreases match s.supervisor case CheckPaused => 3 case CheckConnecting => 2 case _ => 1
  {
    var m := Move(Supervisor, false);
    if s.supervisor.CheckPaused? {
      StepKeepsInv(s, Unpause);
      StepKeepsInv(Next(s, Unpause), m);
      var rest := GoOnToConnect(Next(Next(s, Unpause), m));
      RunCons(Next(s, Unpause), m, rest);
      RunCons(s, Unpause, [m] + rest);
      steps := [Unpause] + ([m] + rest);
    } else if s.supervisor.CheckLoop? {
      var dead := Client(s.flags.connected, false);
      RunOne(Next(s, dead), m);
      RunCons(s, dead, [m]);
      steps := [dead] + [m];
    } else {
      StepKeepsInv(s, m);
      var rest := GoOnToConnect(Next(s, m));
      RunCons(s, m, rest);
      steps := [m] + rest;
    }
  }

  // A thread that holds the lock, or else waits for it, on its way to clear the flag.
  lemma CommittedForgets(s: State)
    requires Inv(s) && s.flags.stopped && Committed(s)
    ensures StopCanBeForgotten(s)
  {
    hide Next;
    if s.flags.owner.Some? && Resets(PlaceOf(s, s.flags.owner.value)) {
      var steps := ClearFlag(s, s.flags.owner.value);
    } else {
      var free := FreeLock(s);
      var n := Run(s, free);
      var on := [];
      var t := if Resets(s.startup) then Startup else Supervisor;
      if !Resets(s.startup) && !Resets(s.supervisor) { on := GoOnToConnect(n); }
      RunConcat(s, free, on);
      var last := ClearFlag(Run(n, on), t);
      RunConcat(s, free + on, last);
      assert NoCalls(free + on + last);
    }
  }

  // A stop can be forgotten without a new call of `connect` exactly if, at that moment, a
  // thread has yet to clear the flag: it waits for the lock or has just taken it, or the
  // supervisor is between its test of the flag and its call.
  lemma StopIsForgottenExactly(s: State)
    requires Inv(s) && s.flags.stopped
    ensures StopCanBeForgotten(s) <==> Committed(s)
  {
    if Committed(s) {
      CommittedForgets(s);
    } else {
      forall steps | NoCalls(steps) ensures Run(s, steps).flags.stopped { StopStays(s, steps); }
    }
  }
}
