// What the client's threads have seen before they act: a connect message is sent, and the
// supervisor steps in, only after every flag was found as it should be.
module ReconnectGuards {
  import opened Options
  import opened ReconnectSupervisor

  function At(steps: seq<Step>, k: nat): State
    requires k <= |steps|
  {
    Run(NEW, steps[..k])
  }

  // The thread came to this place with the k-th step and has been there since.
  ghost predicate Since(steps: seq<Step>, t: Thread, p: Place, k: nat) {
    && k < |steps| && PlaceOf(At(steps, k), t) != p
    && forall x | k < x <= |steps| :: PlaceOf(At(steps, x), t) == p
  }

  lemma {:induction false} Entered(steps: seq<Step>, t: Thread, p: Place) returns (k: nat)
    requires PlaceOf(Run(NEW, steps), t) == p && PlaceOf(NEW, t) != p
    ensures Since(steps, t, p, k)
    ensures PlaceOf(Next(At(steps, k), steps[k]), t) == p
  {
    hide Next;
    var n := |steps| - 1;
    assert steps[..|steps|] == steps;
    if PlaceOf(Run(NEW, steps[..n]), t) == p {
      k := Entered(steps[..n], t, p);
      assert forall x | 0 <= x <= n :: steps[..n][..x] == steps[..x];
      forall x | k < x <= |steps| ensures PlaceOf(At(steps, x), t) == p {
        if x <= n { assert PlaceOf(At(steps[..n], x), t) == p; }
      }
    } else {
      k := n;
    }
  }

  // From which place, and under which flags, a step leads to this one.
  lemma StepToSending(s: State, step: Step, t: Thread)
    requires !PlaceOf(s, t).Sending? && PlaceOf(Next(s, step), t).Sending?
    ensures PlaceOf(s, t).ReadTimeout? && step.Move? && !(t.Startup? && step.late)
  {}

  lemma StepToTimeout(s: State, step: Step, t: Thread)
    requires !PlaceOf(s, t).ReadTimeout? && PlaceOf(Next(s, step), t).ReadTimeout?
    ensures PlaceOf(s, t).ReadStopped? && !s.flags.stopped
  {}

  lemma StepToReadStopped(s: State, step: Step, t: Thread)
    requires !PlaceOf(s, t).ReadStopped? && PlaceOf(Next(s, step), t).ReadStopped?
    ensures PlaceOf(s, t).ReadPaused? && !s.flags.paused
  {}

  lemma StepToReadPaused(s: State, step: Step, t: Thread)
    requires !PlaceOf(s, t).ReadPaused? && PlaceOf(Next(s, step), t).ReadPaused?
    ensures PlaceOf(s, t).TestStopped? && !s.flags.stopped
  {}

  lemma StepToTestStopped(s: State, step: Step, t: Thread)
    requires !PlaceOf(s, t).TestStopped? && PlaceOf(Next(s, step), t).TestStopped?
    ensures if PlaceOf(s, t).TestAlive? then !s.flags.alive else PlaceOf(s, t).TestConnected? && !s.flags.connected
  {}

  // A thread that sends a connect message has, in this order, found the client not connected
  // or its network loop not alive, not stopped, not paused, and not stopped once more.
  lemma SendsOnlyIf(steps: seq<Step>, t: Thread) returns (a: nat, b: nat, c: nat, d: nat)
    requires PlaceOf(Run(NEW, steps), t).Sending?
    ensures a < b < c < d < |steps|
    ensures if PlaceOf(At(steps, a), t).TestAlive? then !At(steps, a).flags.alive
            else PlaceOf(At(steps, a), t).TestConnected? && !At(steps, a).flags.connected
    ensures PlaceOf(At(steps, b), t).TestStopped? && !At(steps, b).flags.stopped
    ensures PlaceOf(At(steps, c), t).ReadPaused? && !At(steps, c).flags.paused
    ensures PlaceOf(At(steps, d), t).ReadStopped? && !At(steps, d).flags.stopped
  {
    hide Run, Next;
    var e := Entered(steps, t, Sending);
    StepToSending(At(steps, e), steps[e], t);
    d := Before(steps, e, t, ReadTimeout);
    StepToTimeout(At(steps, d), steps[d], t);
    c := Before(steps, d, t, ReadStopped);
    StepToReadStopped(At(steps, c), steps[c], t);
    b := Before(steps, c, t, ReadPaused);
    StepToReadPaused(At(steps, b), steps[b], t);
    a := Before(steps, b, t, TestStopped);
    StepToTestStopped(At(steps, a), steps[a], t);
  }

  // The step with which the thread came to where it is after n steps.
  lemma Before(steps: seq<Step>, n: nat, t: Thread, p: Place) returns (k: nat)
    requires n <= |steps| && PlaceOf(At(steps, n), t) == p && PlaceOf(NEW, t) != p
    ensures k < n && PlaceOf(At(steps, k), t) != p && PlaceOf(Next(At(steps, k), steps[k]), t) == p
  {
    hide Run, Next;
    k := Entered(steps[..n], t, p);
    assert steps[..n][..k] == steps[..k] && steps[..n][k] == steps[k];
  }

  lemma StepsOfSupervisor(s: State, step: Step)
    ensures !s.supervisor.Waiting? && Next(s, step).supervisor.Waiting? ==>
              s.supervisor.CheckLoop? && !s.flags.alive
    ensures !s.supervisor.CheckLoop? && Next(s, step).supervisor.CheckLoop? ==>
              s.supervisor.CheckConnecting? && !s.flags.connecting
    ensures !s.supervisor.CheckConnecting? && Next(s, step).supervisor.CheckConnecting? ==>
              s.supervisor.CheckPaused? && !s.flags.paused
    ensures !s.supervisor.CheckPaused? && Next(s, step).supervisor.CheckPaused? ==>
              s.supervisor.CheckStopped? && !s.flags.stopped
    ensures !s.supervisor.CheckStopped? && Next(s, step).supervisor.CheckStopped? ==>
              s.supervisor.CheckInitial? && s.flags.initialDone
  {}

  // The supervisor calls `connect` only after it has found, in this order, that a first
  // connection was accepted, and the client not stopped, not paused, not connecting, and
  // without a live network loop.
  lemma SupervisesOnlyIf(steps: seq<Step>) returns (a: nat, b: nat, c: nat, d: nat, e: nat)
    requires Run(NEW, steps).supervisor.Waiting?
    ensures a < b < c < d < e < |steps|
    ensures At(steps, a).supervisor.CheckInitial? && At(steps, a).flags.initialDone
    ensures At(steps, b).supervisor.CheckStopped? && !At(steps, b).flags.stopped
    ensures At(steps, c).supervisor.CheckPaused? && !At(steps, c).flags.paused
    ensures At(steps, d).supervisor.CheckConnecting? && !At(steps, d).flags.connecting
    ensures At(steps, e).supervisor.CheckLoop? && !At(steps, e).flags.alive
  {
    hide Run, Next;
    assert steps[..|steps|] == steps;
    e := Before(steps, |steps|, Supervisor, Waiting);
    StepsOfSupervisor(At(steps, e), steps[e]);
    d := Before(steps, e, Supervisor, CheckLoop);
    StepsOfSupervisor(At(steps, d), steps[d]);
    c := Before(steps, d, Supervisor, CheckConnecting);
    StepsOfSupervisor(At(steps, c), steps[c]);
    b := Before(steps, c, Supervisor, CheckPaused);
    StepsOfSupervisor(At(steps, b), steps[b]);
    a := Before(steps, b, Supervisor, CheckStopped);
    StepsOfSupervisor(At(steps, a), steps[a]);
  }

  // While it waits between its rounds, a stop event ends the supervisor, and nothing else
  // does but the stopped flag.
  lemma SupervisorEndsOnlyIf(s: State, step: Step)
    requires !s.supervisor.Ended? && Next(s, step).supervisor.Ended?
    ensures if s.supervisor.RunTest? then s.flags.stopped else s.supervisor.WaitEvent? && s.flags.event
  {}

  // On its way into the retry loop `connect` unpauses the client, then clears a stop.
  lemma ConnectClears(s: State, t: Thread, late: bool)
    ensures PlaceOf(s, t).Unpausing? ==>
      Next(s, Move(t, late)).flags == s.flags.(paused := false) && PlaceOf(Next(s, Move(t, late)), t).Unstopping?
    ensures PlaceOf(s, t).Unstopping? ==>
      Next(s, Move(t, late)).flags == s.flags.(stopped := false) && PlaceOf(Next(s, Move(t, late)), t).TestConnected?
  {}

  // ---------- Stopping and pausing ----------

  // A stop ends the supervisor's waiting and its loop, and takes a thread that tests for it out
  // of the retry loop.
  lemma StopTakesEffect(s: State, t: Thread, late: bool)
    ensures s.supervisor.WaitEvent? || s.supervisor.RunTest? ==>
      Next(Next(s, Stop), Move(Supervisor, late)).supervisor.Ended?
    ensures PlaceOf(s, t).TestStopped? || PlaceOf(s, t).ReadStopped? ==>
      PlaceOf(Next(Next(s, Stop), Move(t, late)), t) == Clearing(Stopped)
  {}

  // A pause keeps a thread that tests for it from sending, until the client is unpaused.
  lemma PauseTakesEffect(s: State, t: Thread, late: bool)
    requires PlaceOf(s, t).ReadPaused?
    ensures PlaceOf(Next(Next(s, Pause), Move(t, late)), t).TestConnected?
    ensures PlaceOf(Next(Next(Next(s, Pause), Unpause), Move(t, late)), t).ReadStopped?
  {}

  // An accepted connection lets the supervisor go on to its tests.
  lemma AcceptTakesEffect(s: State, late: bool)
    requires s.supervisor.CheckInitial?
    ensures Next(Next(s, Accept), Move(Supervisor, late)).supervisor.CheckStopped?
    ensures Next(s, Accept).flags.connected
  {}

  // A call by the startup thread waits for the lock, and takes it if it is free.
  lemma CallTakesEffect(s: State, late: bool)
    requires s.startup.Outside?
    ensures Next(s, Call).startup.Waiting?
    ensures var n := Next(Next(s, Call), Move(Startup, late));
      if s.flags.owner == None then n.startup.Marking? && n.flags.owner == Some(Startup) else n.startup.Waiting?
  {}

  // ---------- Going on ----------

  // A thread that is scheduled n times, while all else stands still.
  function Moved(s: State, t: Thread, n: nat): State
    decreases n
  {
    if n == 0 then s else Moved(Next(s, Move(t, false)), t, n - 1)
  }

  predicate InLoop(p: Place) {
    || p.TestConnected? || p.TestAlive? || p.TestStopped? || p.ReadPaused? || p.ReadStopped? || p.ReadTimeout?
    || p.Sending?
  }

  // How far a thread in the loop is from finding the client connected, or from sending.
  function ToReturn(p: Place): nat {
    match p
    case TestAlive(_) => 0
    case TestConnected => 1
    case Sending => 2
    case ReadTimeout => 3
    case ReadStopped => 4
    case ReadPaused => 5
    case _ => 6
  }

  function ToSend(p: Place): nat {
    match p
    case ReadTimeout => 0
    case ReadStopped => 1
    case ReadPaused => 2
    case TestStopped => 3
    case TestAlive(_) => 4
    case _ => 5
  }

  lemma LoopStep(s: State, t: Thread)
    requires InLoop(PlaceOf(s, t))
    ensures Next(s, Move(t, false)).flags == s.flags
    ensures PlaceOf(Next(s, Move(t, false)), t) == Goes(s.flags, PlaceOf(s, t), t, false, s.clock)
  {}

  // The loop is left at the latest after seven steps once the client is connected and its
  // network loop alive.
  lemma ConnectReturnsSoon(s: State, t: Thread) returns (n: nat)
    requires InLoop(PlaceOf(s, t)) && s.flags.connected && s.flags.alive
    ensures n <= 1 + ToReturn(PlaceOf(s, t)) && PlaceOf(Moved(s, t, n), t).Clearing?
    decreases ToReturn(PlaceOf(s, t))
  {
    hide Next;
    var m := Next(s, Move(t, false));
    LoopStep(s, t);
    if PlaceOf(m, t).Clearing? {
      assert Moved(m, t, 0) == m;
      n := 1;
    } else {
      n := ConnectReturnsSoon(m, t);
      n := n + 1;
    }
  }

  // A client that is not connected, or has no live network loop, is sent a connect message
  // after six steps at the latest if it is neither stopped nor paused.
  lemma ConnectIsSentSoon(s: State, t: Thread) returns (n: nat)
    requires InLoop(PlaceOf(s, t)) && !PlaceOf(s, t).Sending? && !s.flags.stopped && !s.flags.paused
    requires if PlaceOf(s, t).TestAlive? then !s.flags.alive else !(s.flags.connected && s.flags.alive)
    ensures n <= 1 + ToSend(PlaceOf(s, t)) && PlaceOf(Moved(s, t, n), t).Sending?
    decreases ToSend(PlaceOf(s, t))
  {
    hide Next;
    var m := Next(s, Move(t, false));
    LoopStep(s, t);
    if PlaceOf(m, t).Sending? {
      assert Moved(m, t, 0) == m;
      n := 1;
    } else {
      n := ConnectIsSentSoon(m, t);
      n := n + 1;
    }
  }

  // The supervisor calls `connect` in its next round if a first connection was accepted and
  // the client is neither stopped nor paused, nobody connects it, and its network loop is dead.
  lemma SupervisorStepsIn(s: State)
    requires s.supervisor.RunTest? && s.flags.initialDone
    requires !s.flags.stopped && !s.flags.paused && !s.flags.connecting && !s.flags.alive
    ensures Moved(s, Supervisor, 6).supervisor.Waiting? && Moved(s, Supervisor, 6).flags == s.flags
  {
    hide Next;
    SupervisorStep(s);
    var a := Next(s, Move(Supervisor, false));
    SupervisorStep(a);
    var b := Next(a, Move(Supervisor, false));
    SupervisorStep(b);
    var c := Next(b, Move(Supervisor, false));
    SupervisorStep(c);
    var d := Next(c, Move(Supervisor, false));
    SupervisorStep(d);
    var e := Next(d, Move(Supervisor, false));
    SupervisorStep(e);
    var f := Next(e, Move(Supervisor, false));
    assert Moved(s, Supervisor, 6) == Moved(b, Supervisor, 4) == Moved(d, Supervisor, 2) == f;
  }

  // How far the supervisor is from the beginning of its next round.
  function ToRound(p: Place): nat {
    match p
    case WaitEvent => 1
    case CheckLoop => 2
    case CheckConnecting => 3
    case CheckPaused => 4
    case CheckStopped => 5
    case CheckInitial => 6
    case _ => 7
  }

  // Round by round it goes on, as long as nobody stops the client, until it calls `connect`.
  lemma SupervisorGoesOn(s: State) returns (n: nat)
    requires OwnPlace(s.supervisor) && !s.supervisor.Ended? && !s.flags.stopped && !s.flags.event
    ensures 1 <= n <= ToRound(s.supervisor)
    ensures Moved(s, Supervisor, n).supervisor.RunTest? || Moved(s, Supervisor, n).supervisor.Waiting?
    decreases ToRound(s.supervisor)
  {
    hide Next;
    var m := Next(s, Move(Supervisor, false));
    SupervisorStep(s);
    if m.supervisor.RunTest? || m.supervisor.Waiting? {
      assert Moved(m, Supervisor, 0) == m;
      n := 1;
    } else {
      n := SupervisorGoesOn(m);
      n := n + 1;
    }
  }

  lemma SupervisorStep(s: State)
    ensures var n := Next(s, Move(Supervisor, false));
      && n.supervisor == Supervises(s.flags, s.supervisor, s.clock)
      && (OwnPlace(s.supervisor) ==> n.flags == s.flags)
  {}
}
