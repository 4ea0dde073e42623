/** Safety and progress of the watchdog over whole runs: the Failed latch, amortised last resorts,
    legal entries into Ready, progress to Failed and convergence to Ready. */
module WatchdogSafety {
  import opened Prelude
  import opened Text
  import opened ServiceState
  import opened Watchdog
  import opened CommandFrame
  import opened WatchdogRuns
  import T = RestartPolicy
  import H = Heartbeat
  import A = Anomaly
  import N = Nonce
  import U = UpdateSuppress
  import R = RecoveryPolicy
  import B = Backend
  import I = IpcDispatch

  /* ---- steps other than cycles ---- */

  /** An action that only a cycle or a resume can take. */
  predicate OfTheLimiter(a: Action) {
    a.FailureRecorded? || a.MarkedReady? || a.FailedCleared? || a.LastResort?
  }

  /** What a message leaves alone. */
  ghost predicate Unreached(s: State, s': State) {
    && s'.tracker == s.tracker && s'.desktop == s.desktop && s'.failCount == s.failCount
    && s'.paused == s.paused && s'.cfg == s.cfg && s'.gate == s.gate
    && s'.backend in {s.backend, Ready, Unresponsive}
    && forall a :: a in s'.out ==> !OfTheLimiter(a)
  }

  lemma CommandFrames(s: State, m: I.Envelope, r: I.CommandRequest, role: string, now: Time, e: CommandEnv)
    requires s.out == []
    ensures Unreached(s, I.HandleCommand(s, m, r, role, now, e).0)
    ensures I.HandleCommand(s, m, r, role, now, e).0.recovery == s.recovery
    ensures I.HandleCommand(s, m, r, role, now, e).0.anomalies == s.anomalies
  {
    hide TrimSpace, I.Turned, State.Run, State.RunOk, N.Nonces.Verdict, N.Nonces.Accept;
    I.TurnedOnlyWithoutCommand(r, role);
    if I.Turned(r, role).None? {
      var cmd := ParseCommand(TrimSpace(r.command)).value;
      var s1 := s.(nonces := s.nonces.Accept(m.nonce, now)).Emit(Executed(TrimSpace(m.nonce), now, cmd));
      RunFrame(s1, cmd, e);
    }
  }

  /** No message, whatever it carries and whoever sends it, reaches the limiter, the pause, the fail
      count or the Desktop state; at most it moves the backend state to Ready or Unresponsive. */
  lemma MessageFrame(s: State, m: I.Envelope, role: string, now: Time, e: CommandEnv)
    ensures Unreached(s, I.Handle(s, m, role, now, e).0)
  {
    hide TrimSpace, I.Envelope.Type, I.HandleCommand, H.Registry.Ingest, H.Registry.Verdict, A.Anomalies.Ingest,
         A.Anomalies.Gc, A.Anomalies.NewRecord, R.Recovery.Observe;
    if m.body.command.Some? {
      CommandFrames(s.(out := []), m, m.body.command.value, role, now, e);
    }
  }

  /** The same holds of every step but cycles and resumes. */
  lemma OtherStepFrame(s: State, step: Step)
    requires !step.RunCycle? && step != SetPaused(false)
    ensures var s' := Next(s, step);
            && s'.tracker == s.tracker && s'.desktop == s.desktop && s'.failCount == s.failCount && s'.cfg == s.cfg
            && (!step.SetPaused? ==> s'.paused == s.paused)
            && s'.backend in {s.backend, Ready, Unresponsive}
            && forall a :: a in s'.out ==> !OfTheLimiter(a)
  {
    hide State.Cycle, I.Handle, State.Healthy, B.Ensure, U.Gate.SetAPI, H.Registry.Ingest;
    if step.Message? {
      MessageFrame(s, step.m, step.role, step.now, step.env);
    }
  }

  lemma CycleKeepsPolicy(s: State, e: CycleEnv)
    requires Inv(s)
    ensures var s' := s.Cycle(e);
            Inv(s') && s'.cfg == s.cfg && s'.tracker.policy == s.tracker.policy
  {
    hide State.Cycle, T.Prune, T.Backoff, FailureTail, Inv;
    var shape, pre := CycleShape(s, e);
    assert Shaped(s, e, s.Cycle(e), shape, pre);
  }

  /** Every step keeps the invariant and the configuration. */
  lemma StepKeepsInv(s: State, step: Step)
    requires Inv(s)
    ensures var s' := Next(s, step);
            Inv(s') && s'.cfg == s.cfg && s'.tracker.policy == s.tracker.policy
  {
    if step.RunCycle? {
      hide State.Cycle;
      CycleKeepsPolicy(s, step.e);
    } else if step != SetPaused(false) {
      hide Next;
      OtherStepFrame(s, step);
    }
  }

  /** A new watchdog starts fresh, whatever it is configured with. */
  lemma NewStateIsFresh(cfg: Config, policy: T.Policy, heartbeatTimeout: Duration, mergeWindow: Duration,
                        manifest: Option<B.Manifest>)
    requires IsInt64(policy.window) && IsInt64(policy.initialBackoff)
    requires IsInt64(policy.maxBackoff) && IsInt64(policy.resetAfter)
    ensures var s := NewState(cfg, policy, heartbeatTimeout, mergeWindow, manifest);
            && Fresh(s) && Inv(s) && s.hb == H.NewRegistry(heartbeatTimeout) && s.nonces == N.NewNonces(10 * MINUTE)
  {
  }

  lemma FreshIsInv(s: State)
    requires Fresh(s)
    ensures Inv(s)
  {
  }

  /** In all reachable states Desktop is Unknown, Stopped, Starting or Ready, backend is never Stopping
      or Stopped, and a Failed backend means a latched limiter. */
  lemma {:induction false} ReachableStates(s: State, steps: seq<Step>, n: nat)
    requires Fresh(s) && n <= |steps|
    ensures Inv(At(s, steps, n))
    ensures At(s, steps, n).cfg == s.cfg && At(s, steps, n).tracker.policy == s.tracker.policy
  {
    hide Next;
    if n == 0 {
      FreshIsInv(s);
    } else {
      ReachableStates(s, steps, n - 1);
      StepKeepsInv(At(s, steps, n - 1), steps[n - 1]);
    }
  }

  /* ---- Failed is absorbing ---- */

  /** While latched, the limiter yields to one step only, the operator's resume, and a cycle neither
      issues a command nor calls EnsureHealthy. */
  lemma LatchedStep(s: State, step: Step)
    requires Inv(s) && s.tracker.failed
    ensures Next(s, step).tracker.failed <==> step != SetPaused(false)
    ensures step != SetPaused(false) ==> Next(s, step).tracker == s.tracker
    ensures step.RunCycle? ==> forall a :: a in Next(s, step).out ==> a.DesktopMoved? || a.BackendMoved?
  {
    if step.RunCycle? {
      hide State.Cycle;
      var shape, pre := CycleShape(s, step.e);
      assert Shaped(s, step.e, s.Cycle(step.e), shape, pre);
    } else if step != SetPaused(false) {
      hide Next;
      OtherStepFrame(s, step);
    }
  }

  /** Outside cycles the latch holds nothing back: an operator's start and a prewarm still call EnsureHealthy. */
  lemma LatchedStillEnsures(s: State, e: CommandEnv, p: B.Probes)
    requires s.tracker.failed
    ensures Ensured(e.probes) in s.Run(StartBackend, e).out && s.Run(StartBackend, e).tracker == s.tracker
    ensures s.cfg.prewarm ==> Ensured(p) in Next(s, Prewarm(p)).out && Next(s, Prewarm(p)).tracker == s.tracker
  {
    hide B.Ensure, H.Registry.Bump;
  }

  /** From a latched state on, until the operator resumes, no sequence of cycles, heartbeats, reports,
      commands, pauses, prewarms and update suppressions changes the limiter, and no cycle among them
      issues a command or calls EnsureHealthy. */
  lemma {:induction false} FailedIsAbsorbing(s: State, steps: seq<Step>, m: nat, n: nat)
    requires Fresh(s) && m <= n <= |steps|
    requires At(s, steps, m).tracker.failed
    requires forall i :: m <= i < n ==> steps[i] != SetPaused(false)
    ensures At(s, steps, n).tracker == At(s, steps, m).tracker
    ensures forall i :: m <= i < n && steps[i].RunCycle? ==>
              forall a :: a in At(s, steps, i + 1).out ==> a.DesktopMoved? || a.BackendMoved?
    decreases n
  {
    hide Next, Inv;
    if m < n {
      FailedIsAbsorbing(s, steps, m, n - 1);
      ReachableStates(s, steps, n - 1);
      LatchedStep(At(s, steps, n - 1), steps[n - 1]);
    }
  }

  /* ---- counting over a run ---- */

  function FailuresIn(out: seq<Action>): nat {
    if out == [] then 0 else FailuresIn(Front(out)) + if Last(out).FailureRecorded? then 1 else 0
  }

  function LastResortsIn(out: seq<Action>): nat {
    if out == [] then 0 else LastResortsIn(Front(out)) + if Last(out).LastResort? then 1 else 0
  }

  /** The failures recorded in the first n steps. */
  function Failures(s: State, steps: seq<Step>, n: nat): nat
    requires n <= |steps|
  {
    if n == 0 then 0 else Failures(s, steps, n - 1) + FailuresIn(At(s, steps, n).out)
  }

  /** The last-resort restarts of Desktop in the first n steps. */
  function LastResorts(s: State, steps: seq<Step>, n: nat): nat
    requires n <= |steps|
  {
    if n == 0 then 0 else LastResorts(s, steps, n - 1) + LastResortsIn(At(s, steps, n).out)
  }

  lemma {:induction false} CountsConcat(a: seq<Action>, b: seq<Action>)
    ensures FailuresIn(a + b) == FailuresIn(a) + FailuresIn(b)
    ensures LastResortsIn(a + b) == LastResortsIn(a) + LastResortsIn(b)
  {
    if b == [] {
      assert a + b == a;
    } else {
      assert Front(a + b) == a + Front(b);
      CountsConcat(a, Front(b));
    }
  }

  lemma {:induction false} CountsNone(out: seq<Action>)
    requires forall a :: a in out ==> !a.FailureRecorded? && !a.LastResort?
    ensures FailuresIn(out) == 0 && LastResortsIn(out) == 0
  {
    if out != [] {
      CountsNone(Front(out));
    }
  }

  lemma TailCounts(s: State, e: CycleEnv, from: ServiceState, shape: Shape)
    requires shape.Failure?
    ensures FailuresIn(FailureTail(s, e, from, shape)) == 1
    ensures LastResortsIn(FailureTail(s, e, from, shape)) == if shape.lastResort then 1 else 0
  {
    var recorded := [FailureRecorded(e.now)];
    var moved := [BackendMoved(from, if shape.latched then Failed else Backoff)];
    CountsConcat(recorded, moved);
    assert Front(recorded) == [] && Front(moved) == [];
    if shape.lastResort {
      var before, after := [DesktopMoved(Ready, Stopping)],
        [Issued(StopDesktop), Issued(StartBackend), Ensured(e.respawn.probes), Issued(StartDesktop),
         DesktopMoved(Stopping, Starting)];
      CountsNone(before);
      CountsNone(after);
      assert Front([LastResort]) == [];
      CountsConcat([LastResort], after);
      CountsConcat(before, [LastResort] + after);
      CountsConcat(recorded + moved, before + ([LastResort] + after));
      assert FailureTail(s, e, from, shape) == (recorded + moved) + (before + ([LastResort] + after));
    } else {
      assert FailureTail(s, e, from, shape) == recorded + moved;
    }
  }

  lemma CycleShapeCounts(s: State, e: CycleEnv, shape: Shape, pre: seq<Action>)
    requires Shaped(s, e, s.Cycle(e), shape, pre)
    ensures FailuresIn(s.Cycle(e).out) == if shape.Failure? then 1 else 0
    ensures LastResortsIn(s.Cycle(e).out) == if shape.Failure? && shape.lastResort then 1 else 0
    ensures !shape.Settled? ==> MarkedReady(e.now) !in s.Cycle(e).out
  {
    hide State.Cycle, T.Tracker.RecordFailure, T.Tracker.MarkReady, FailuresIn, LastResortsIn;
    var out := s.Cycle(e).out;
    CountsNone(pre);
    match shape
    case Quiet =>
    case Failure(_, _) =>
      var from :| out == pre + FailureTail(s, e, from, shape);
      CountsConcat(pre, FailureTail(s, e, from, shape));
      TailCounts(s, e, from, shape);
    case Settled =>
      var k := |pre| + 1;
      assert out == out[..k] + out[k..];
      CountsNone([MarkedReady(e.now)]);
      CountsConcat(pre, [MarkedReady(e.now)]);
      CountsNone(out[k..]);
      CountsConcat(out[..k], out[k..]);
  }

  lemma CycleCounts(s: State, e: CycleEnv) returns (shape: Shape, pre: seq<Action>)
    requires Inv(s)
    ensures Shaped(s, e, s.Cycle(e), shape, pre)
    ensures FailuresIn(s.Cycle(e).out) == if shape.Failure? then 1 else 0
    ensures LastResortsIn(s.Cycle(e).out) == if shape.Failure? && shape.lastResort then 1 else 0
  {
    hide Shaped, State.Cycle;
    shape, pre := CycleShape(s, e);
    CycleShapeCounts(s, e, shape, pre);
  }

  lemma OtherCounts(s: State, step: Step)
    requires !step.RunCycle?
    ensures FailuresIn(Next(s, step).out) == 0 && LastResortsIn(Next(s, step).out) == 0
    ensures Next(s, step).failCount == s.failCount && Next(s, step).cfg == s.cfg
  {
    hide State.Cycle, I.Handle, B.Ensure, U.Gate.SetAPI, H.Registry.Ingest, FailuresIn, LastResortsIn;
    CountsNone([]);
    if step.Message? {
      MessageFrame(s, step.m, step.role, step.now, step.env);
    }
    CountsNone(Next(s, step).out);
  }

  lemma StepAmortises(s: State, step: Step)
    requires Inv(s) && s.cfg.failThreshold >= 1
    ensures var s' := Next(s, step);
            s.cfg.failThreshold * LastResortsIn(s'.out) + s'.failCount <= s.failCount + FailuresIn(s'.out)
  {
    hide State.Cycle, I.Handle, FailuresIn, LastResortsIn, T.Tracker.RecordFailure, T.Tracker.MarkReady, FailureTail;
    if step.RunCycle? {
      var shape, pre := CycleCounts(s, step.e);
    } else {
      OtherCounts(s, step);
    }
  }

  /** Every last-resort restart of Desktop is paid for by FailThreshold recorded failures of its own,
      and the fail count by further ones. */
  lemma {:induction false} LastResortsAreAmortised(s: State, steps: seq<Step>, n: nat)
    requires Fresh(s) && n <= |steps| && s.cfg.failThreshold >= 1
    ensures s.cfg.failThreshold * LastResorts(s, steps, n) + At(s, steps, n).failCount <= Failures(s, steps, n)
  {
    hide Next, Inv;
    if n > 0 {
      LastResortsAreAmortised(s, steps, n - 1);
      ReachableStates(s, steps, n - 1);
      StepAmortises(At(s, steps, n - 1), steps[n - 1]);
      Distribute(s.cfg.failThreshold, LastResorts(s, steps, n - 1), LastResortsIn(At(s, steps, n).out));
    }
  }

  lemma Distribute(a: int, b: int, c: int)
    ensures a * (b + c) == a * b + a * c
  {
  }
}
