/** What the watchdog guarantees over whole runs of cycles, operator steps and control-plane messages. */
module WatchdogRuns {
  import opened Prelude
  import opened ServiceState
  import opened Watchdog
  import T = RestartPolicy
  import H = Heartbeat
  import A = Anomaly
  import B = Backend
  import I = IpcDispatch

  datatype Step =
    | RunCycle(e: CycleEnv)
    | SetPaused(v: bool)
    | Prewarm(probes: B.Probes)
    | Message(m: I.Envelope, role: string, now: Time, env: CommandEnv)
    | Suppress(on: bool, ttl: Duration, now: Time)
    | Heartbeat(hb: H.Envelope, at: Time)

  function Next(s: State, step: Step): State {
    match step
    case RunCycle(e) => s.Cycle(e)
    case SetPaused(v) => s.SetPaused(v)
    case Prewarm(p) => s.Prewarm(p)
    case Message(m, role, now, e) => I.Handle(s, m, role, now, e).0
    case Suppress(on, ttl, now) => s.(out := [], gate := s.gate.SetAPI(on, ttl, now))
    case Heartbeat(hb, at) => s.(out := [HeartbeatReceived(hb, at)], hb := s.hb.Ingest(hb, at))
  }

  /** The state after the first n steps of a run. */
  function At(s: State, steps: seq<Step>, n: nat): State
    requires n <= |steps|
  {
    if n == 0 then s else Next(At(s, steps, n - 1), steps[n - 1])
  }

  /** What holds between steps. */
  ghost predicate Inv(s: State) {
    && s.desktop in {Unknown, Stopped, Starting, Ready}
    && s.backend !in {Stopping, Stopped}
    && (s.backend == Failed ==> s.tracker.failed)
    && s.failCount >= 0
  }

  ghost predicate Fresh(s: State) {
    && s.desktop == Unknown && s.backend == Unknown && s.failCount == 0 && s.out == []
    && s.tracker == T.NewTracker(s.tracker.policy) && s.tracker.policy.Valid()
  }

  /* ---- one cycle ---- */

  /** Only state moves and EnsureHealthy calls so far. */
  predicate Preliminary(out: seq<Action>) {
    forall a :: a in out ==> a.DesktopMoved? || a.BackendMoved? || a.Ensured?
  }

  /** Looking at Desktop moves only its state: an unanswered probe makes it Unknown, absence Stopped,
      presence Ready. */
  lemma ObserveDesktopMoves(s: State, d: DesktopProbe)
    requires Inv(s) && Preliminary(s.out)
    ensures var s' := s.ObserveDesktop(d);
            && s' == s.(desktop := s'.desktop, out := s'.out)
            && s'.desktop == (if !d.Known() then Unknown else if !d.Up() then Stopped else Ready)
            && Preliminary(s'.out)
  {
  }

  lemma PrewarmMoves(s: State, e: CycleEnv)
    requires Preliminary(s.out)
    ensures var s' := s.PrewarmStage(e);
            && s' == s.(backend := s'.backend, back := s'.back, out := s'.out)
            && s'.backend == (if s.tracker.CanAttempt(e.now) then s.backend else Backoff)
            && Preliminary(s'.out)
  {
    hide B.Ensure, State.BackendReady;
  }

  lemma LastResortEffect(s: State, e: CycleEnv)
    ensures var s' := s.LastResortRestart(e);
            s' == s.(desktop := Starting, failCount := 0, hb := s'.hb, back := s'.back, out := s.out + [
                       DesktopMoved(s.desktop, Stopping), LastResort, Issued(StopDesktop), Issued(StartBackend),
                       Ensured(e.respawn.probes), Issued(StartDesktop), DesktopMoved(Stopping, Starting)])
  {
    hide B.Ensure, H.Registry.Bump;
  }

  /** What a failed recovery amounts to. */
  lemma RecoveryFailedEffect(s: State, e: CycleEnv)
    ensures var s' := s.RecoveryFailed(e);
            var latched := |s.tracker.RecordFailure(e.now).attempts| >= s.tracker.policy.maxRestarts;
            var lastResort := !latched && s.failCount + 1 >= s.cfg.failThreshold && !s.recovery.lastRendererOnly;
            && s'.tracker == s.tracker.RecordFailure(e.now)
            && s'.backend == (if latched then Failed else Backoff)
            && s'.desktop == (if lastResort then Starting else s.desktop)
            && s'.failCount == (if lastResort then 0 else s.failCount + 1)
            && s'.paused == s.paused && s'.cfg == s.cfg && s'.nonces == s.nonces
            && s'.out == s.out + [FailureRecorded(e.now), BackendMoved(s.backend, s'.backend)] +
                 if lastResort then
                   [DesktopMoved(s.desktop, Stopping), LastResort, Issued(StopDesktop), Issued(StartBackend),
                    Ensured(e.respawn.probes), Issued(StartDesktop), DesktopMoved(Stopping, Starting)]
                 else []
  {
    hide State.LastResortRestart, T.Prune, T.Backoff;
    LastResortEffect(s.RecordFailure(e.now).SetBackend(Backoff), e);
  }

  lemma SettleReadyMoves(s: State, now: Time) returns (moves: seq<Action>)
    ensures s.SettleReady(now) ==
              s.MarkReady(now).(backend := Ready, desktop := Ready, out := s.out + [MarkedReady(now)] + moves)
    ensures forall i :: 0 <= i < |moves| ==> moves[i].DesktopMoved? || moves[i].BackendMoved?
  {
    hide T.Tracker.MarkReady;
    moves :=
      if s.backend == Ready then []
      else if s.backend == Degraded || s.backend == Starting then [BackendMoved(s.backend, Ready)]
      else [BackendMoved(s.backend, Starting), BackendMoved(Starting, Ready)];
    if s.desktop != Ready {
      moves := moves + [DesktopMoved(s.desktop, Ready)];
    }
    assert s.SettleReady(now).out == s.out + [MarkedReady(now)] + moves;
  }

  lemma SettleReadyEffect(s: State, now: Time)
    ensures var s' := s.SettleReady(now);
            && s'.tracker == s.tracker.MarkReady(now)
            && s'.backend == Ready && s'.desktop == Ready && s'.failCount == 0
            && s'.paused == s.paused && s'.cfg == s.cfg && s'.nonces == s.nonces
            && |s'.out| > |s.out| && s'.out[..|s.out| + 1] == s.out + [MarkedReady(now)]
            && forall i :: |s.out| < i < |s'.out| ==> s'.out[i].DesktopMoved? || s'.out[i].BackendMoved?
  {
    hide T.Tracker.MarkReady, State.SettleReady;
    var moves := SettleReadyMoves(s, now);
  }

  /** Actions that touch neither the limiter nor a running Desktop. */
  predicate Plain(out: seq<Action>) {
    forall a :: a in out ==>
      a.DesktopMoved? || a.BackendMoved? || a.Ensured? || a == Issued(StartBackend) || a == Issued(StartDesktop)
  }

  /** The three ways a cycle can go. Quiet: the limiter is left alone. Failure: a gated failure was
      recorded at the cycle's time, after the plain actions `pre`. Settled: both services were Ready. */
  datatype Shape = Quiet | Failure(latched: bool, lastResort: bool) | Settled

  function FailureTail(s: State, e: CycleEnv, from: ServiceState, shape: Shape): seq<Action>
    requires shape.Failure?
  {
    [FailureRecorded(e.now), BackendMoved(from, if shape.latched then Failed else Backoff)] +
    if shape.lastResort then
      [DesktopMoved(Ready, Stopping), LastResort, Issued(StopDesktop), Issued(StartBackend),
       Ensured(e.respawn.probes), Issued(StartDesktop), DesktopMoved(Stopping, Starting)]
    else []
  }

  ghost predicate Shaped(s: State, e: CycleEnv, s': State, shape: Shape, pre: seq<Action>) {
    && Plain(pre) && s'.cfg == s.cfg && s'.nonces == s.nonces && s'.paused == s.paused
    && match shape
       case Quiet =>
         s'.out == pre && s'.tracker == s.tracker && (s'.failCount == s.failCount || s'.failCount == 0)
       case Failure(latched, lastResort) =>
         && s.tracker.CanAttempt(e.now)
         && s'.tracker == s.tracker.RecordFailure(e.now)
         && (latched <==> |s'.tracker.attempts| >= s.tracker.policy.maxRestarts)
         && (lastResort <==>
               !latched && s.failCount + 1 >= s.cfg.failThreshold && !s.recovery.lastRendererOnly)
         && s'.failCount == (if lastResort then 0 else s.failCount + 1)
         && s'.backend == (if latched then Failed else Backoff)
         && e.desktop.Up()
         && exists from :: s'.out == pre + FailureTail(s, e, from, shape)
       case Settled =>
         && s'.tracker == s.tracker.MarkReady(e.now) && s'.failCount == 0
         && s'.backend == Ready && s'.desktop == Ready
         && |pre| < |s'.out| && s'.out[..|pre| + 1] == pre + [MarkedReady(e.now)]
         && Plain(s'.out[|pre| + 1..])
  }

  lemma FailureShape(s: State, started: State, e: CycleEnv) returns (shape: Shape)
    requires started == s.(backend := started.backend, desktop := Ready, hb := started.hb, gate := started.gate,
                           anomalies := started.anomalies, back := started.back, out := started.out)
    requires Plain(started.out) && s.tracker.CanAttempt(e.now) && e.desktop.Up()
    ensures shape.Failure? && Shaped(s, e, started.RecoveryFailed(e), shape, started.out)
    ensures started.RecoveryFailed(e).desktop in {Ready, Starting}
  {
    hide State.RecoveryFailed, T.Tracker.RecordFailure;
    RecoveryFailedEffect(started, e);
    var latched := |s.tracker.RecordFailure(e.now).attempts| >= s.tracker.policy.maxRestarts;
    shape := Failure(latched, !latched && s.failCount + 1 >= s.cfg.failThreshold && !s.recovery.lastRendererOnly);
    assert started.RecoveryFailed(e).out == started.out + FailureTail(s, e, started.backend, shape);
  }

  lemma SettledShape(s: State, up: State, e: CycleEnv)
    requires up == s.(backend := up.backend, desktop := up.desktop, hb := up.hb, gate := up.gate,
                      anomalies := up.anomalies, back := up.back, out := up.out)
    requires Plain(up.out)
    ensures Shaped(s, e, up.SettleReady(e.now), Settled, up.out)
  {
    hide State.SettleReady, T.Tracker.MarkReady;
    SettleReadyEffect(up, e.now);
  }

  /** Recovery with Desktop up and no Ready backend. */
  lemma RecoverShape(s: State, mid: State, e: CycleEnv) returns (shape: Shape, pre: seq<Action>)
    requires mid == s.(backend := mid.backend, desktop := Ready, gate := mid.gate, back := mid.back, out := mid.out)
    requires Plain(mid.out) && e.desktop.Up() && !s.tracker.failed
    ensures Shaped(s, e, mid.Recover(e), shape, pre)
    ensures mid.Recover(e).desktop in {Ready, Starting}
    ensures mid.Recover(e).backend in {Ready, Backoff, Failed}
    ensures mid.Recover(e).backend == Failed ==> shape.Failure? && shape.latched
    ensures mid.Recover(e).failCount >= 0 || s.failCount < 0
    ensures !s.tracker.CanAttempt(e.now) ==> shape == Quiet
    ensures s.tracker.CanAttempt(e.now) ==> shape != Quiet
    ensures s.tracker.CanAttempt(e.now) && e.after.None? ==> shape.Failure?
  {
    hide State.RecoveryFailed, State.SettleReady, State.Healthy, State.BackendReady, B.Ensure, H.Registry.Bump,
         A.Anomalies.Gc, T.Tracker.RecordFailure, T.Tracker.MarkReady;
    var s1 := mid.SetBackend(Unresponsive).(anomalies := mid.anomalies.Gc(e.dualAt));
    if !s.tracker.CanAttempt(e.now) {
      shape, pre := Quiet, s1.SetBackend(Backoff).out;
    } else {
      var started := s1.SetBackend(Starting).Run(StartBackend, e.start);
      assert Plain(started.out);
      pre := started.out;
      var b := Reprobe(e.after, e.afterHealth);
      if !s1.SetBackend(Starting).RunOk(StartBackend, e.start) || b.None? || !started.BackendReady(b, e.afterAt) {
        shape := FailureShape(s, started, e);
      } else {
        SettledShape(s, started, e);
        shape := Settled;
      }
    }
  }

  lemma DesktopUpShape(s: State, mid: State, b: Option<Info>, e: CycleEnv) returns (shape: Shape, pre: seq<Action>)
    requires mid == s.(backend := mid.backend, desktop := Ready, gate := mid.gate, back := mid.back, out := mid.out)
    requires Plain(mid.out) && e.desktop.Up() && !s.tracker.failed && s.failCount >= 0
    ensures Shaped(s, e, mid.DesktopUp(b, e), shape, pre)
    ensures mid.DesktopUp(b, e).desktop in {Ready, Starting}
    ensures mid.DesktopUp(b, e).backend in {Ready, Backoff, Failed, Degraded}
    ensures mid.DesktopUp(b, e).backend == Failed ==> shape.Failure? && shape.latched
    ensures mid.DesktopUp(b, e).failCount >= 0
    ensures b.None? ==> (shape == Quiet <==> !s.tracker.CanAttempt(e.now))
    ensures b.None? && e.after.None? && s.tracker.CanAttempt(e.now) ==> shape.Failure?
  {
    hide State.Recover, State.SettleReady, State.BackendReady, State.BackendLive, Shaped;
    if b.Some? && mid.BackendLive(b, e.firstAt) && !mid.BackendReady(b, e.secondAt) {
      shape, pre := Quiet, mid.SetBackend(Degraded).out;
      QuietShape(s, e, mid.SetBackend(Degraded));
    } else if b.None? || !mid.BackendReady(b, e.thirdAt) {
      shape, pre := RecoverShape(s, mid, e);
    } else {
      shape, pre := Settled, mid.out;
      SettledShape(s, mid, e);
      SettleReadyEffect(mid, e.now);
    }
  }

  lemma QuietShape(s: State, e: CycleEnv, s': State)
    requires s' == s.(backend := s'.backend, desktop := s'.desktop, gate := s'.gate, hb := s'.hb, back := s'.back,
                      failCount := s'.failCount, out := s'.out)
    requires Plain(s'.out) && (s'.failCount == s.failCount || s'.failCount == 0)
    ensures Shaped(s, e, s', Quiet, s'.out)
  {
  }

  lemma UnknownMoves(s: State, b: Option<Info>, e: CycleEnv)
    requires Plain(s.out)
    ensures var s' := s.DesktopUnknown(b, e);
            && s' == s.(backend := s'.backend, out := s'.out) && Plain(s'.out)
            && s'.backend in {s.backend, Unresponsive, Ready, Degraded}
  {
    hide State.BackendReady, State.BackendLive;
  }

  lemma RelaunchMoves(s: State, e: CycleEnv)
    requires Plain(s.out)
    ensures var s' := s.RelaunchDesktop(e);
            && s' == s.(desktop := Starting, failCount := 0, hb := s'.hb, out := s'.out) && Plain(s'.out)
  {
    hide H.Registry.Bump;
  }

  /** What Supervise can do, from a state whose step has just begun. */
  lemma SuperviseShape(s: State, mid: State, e: CycleEnv) returns (shape: Shape, pre: seq<Action>)
    requires Inv(s) && mid == s.(gate := mid.gate, out := [])
    ensures Shaped(s, e, mid.Supervise(e), shape, pre) && Inv(mid.Supervise(e))
    ensures s.tracker.failed ==> shape == Quiet && forall a :: a in pre ==> a.DesktopMoved? || a.BackendMoved?
    ensures !e.desktop.Up() ==> shape == Quiet
    ensures e.desktop.Up() && e.seen.None? && e.after.None? ==>
              if s.tracker.CanAttempt(e.now) then shape.Failure? else shape == Quiet
  {
    hide State.DesktopUnknown, State.RelaunchDesktop,
         State.ObserveDesktop, State.PrewarmStage, State.DesktopUp, Shaped, State.BackendReady, State.BackendLive,
         H.Registry.Bump;
    var s1 := mid.ObserveDesktop(e.desktop);
    ObserveDesktopMoves(mid, e.desktop);
    if s.tracker.failed {
      shape, pre := Quiet, s1.SetBackend(Failed).out;
      ObserveMovesOnly(mid, e.desktop);
      QuietShape(s, e, s1.SetBackend(Failed));
    } else {
      var s2 := s1.PrewarmStage(e);
      PrewarmMoves(s1, e);
      var b := Refresh(e.seen, e.seenHealth);
      if !e.desktop.Known() {
        UnknownMoves(s2, b, e);
        shape, pre := Quiet, s2.DesktopUnknown(b, e).out;
        QuietShape(s, e, s2.DesktopUnknown(b, e));
      } else if !e.desktop.Up() {
        RelaunchMoves(s2, e);
        shape, pre := Quiet, s2.RelaunchDesktop(e).out;
        QuietShape(s, e, s2.RelaunchDesktop(e));
      } else {
        shape, pre := DesktopUpShape(s, s2, b, e);
        if shape.Failure? && shape.latched {
          LatchedShape(s, e, s2.DesktopUp(b, e), shape, pre);
        }
      }
    }
  }

  lemma ObserveMovesOnly(s: State, d: DesktopProbe)
    requires s.out == []
    ensures forall a :: a in s.ObserveDesktop(d).out ==> a.DesktopMoved?
  {
  }

  lemma LatchedShape(s: State, e: CycleEnv, s': State, shape: Shape, pre: seq<Action>)
    requires Shaped(s, e, s', shape, pre) && shape.Failure? && shape.latched
    ensures s'.tracker.failed
  {
    hide T.Prune, T.Backoff;
  }

  /** Every cycle is paused, suppressed, or has one of the three shapes, and keeps the invariant. */
  lemma CycleShape(s: State, e: CycleEnv) returns (shape: Shape, pre: seq<Action>)
    requires Inv(s)
    ensures Shaped(s, e, s.Cycle(e), shape, pre) && Inv(s.Cycle(e))
    ensures s.tracker.failed ==> shape == Quiet && forall a :: a in pre ==> a.DesktopMoved? || a.BackendMoved?
    ensures s.paused || s.Suppressed(e) ==> shape == Quiet && pre == []
    ensures !e.desktop.Up() ==> shape == Quiet
    ensures !s.paused && !s.Suppressed(e) && e.desktop.Up() && e.seen.None? && e.after.None? ==>
              if s.tracker.CanAttempt(e.now) then shape.Failure? else shape == Quiet
  {
    hide State.Supervise, Shaped;
    if s.paused || s.Suppressed(e) {
      shape, pre := Quiet, [];
      QuietShape(s, e, s.Cycle(e));
    } else {
      shape, pre := SuperviseShape(s, s.(out := [], gate := s.gate.Ask(e.gateAt)), e);
    }
  }
}
