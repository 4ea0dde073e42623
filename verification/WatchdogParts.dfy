/** The parts a watchdog run does not list actions for: the renderer-only policy, the anomaly registry and
    the update gate. Each is what the messages and requests of the run make it. */
module WatchdogParts {
  import opened Prelude
  import opened Text
  import opened ServiceState
  import opened Watchdog
  import opened CommandFrame
  import opened WatchdogRuns
  import opened WatchdogSafety
  import opened WatchdogStarts
  import T = RestartPolicy
  import Y = CycleTable
  import H = Heartbeat
  import A = Anomaly
  import D = AnomalyRuns
  import N = Nonce
  import U = UpdateSuppress
  import R = RecoveryPolicy
  import B = Backend
  import I = IpcDispatch

  /* ---- the recovery policy ---- */

  /** The step is an anomaly report that passes validation. */
  predicate Reports(step: Step): (yes: bool)
    ensures yes ==> step.Message? && step.m.body.anomaly.Some?
  {
    && step.Message?
    && step.m.protocolVersion == I.PROTOCOL_VERSION && step.m.Type() == "anomaly_report"
    && step.m.body.anomaly.Some?
    && TrimSpace(step.m.body.anomaly.value.code) != "" && TrimSpace(step.m.body.anomaly.value.service) != ""
  }

  /** The code of the last valid report among the first n steps. */
  function LastReported(steps: seq<Step>, n: nat): Option<string>
    requires n <= |steps|
  {
    if n == 0 then None
    else if Reports(steps[n - 1]) then Some(steps[n - 1].m.body.anomaly.value.code)
    else LastReported(steps, n - 1)
  }

  predicate RendererOnly(reported: Option<string>) {
    reported.Some? && R.RENDERER_PREFIX <= ToLower(TrimSpace(reported.value))
  }

  lemma MessageRecovery(s: State, m: I.Envelope, role: string, now: Time, e: CommandEnv)
    ensures I.Handle(s, m, role, now, e).0.recovery ==
              if Reports(Message(m, role, now, e)) then s.recovery.Observe(m.body.anomaly.value.Code()) else s.recovery
  {
    hide TrimSpace, I.Envelope.Type, I.HandleCommand, H.Registry.Ingest, H.Registry.Verdict, A.Anomalies.Ingest,
         A.Anomalies.Gc, R.Recovery.Observe;
    if m.body.command.Some? {
      CommandFrames(s.(out := []), m, m.body.command.value, role, now, e);
    }
  }

  /** What a stage of a cycle leaves alone. */
  ghost predicate Kept(s: State, s': State) {
    KeptParts(s, s') && s'.hb == s.hb && s'.paused == s.paused
  }

  lemma ObserveKeeps(s: State, d: DesktopProbe)
    ensures Kept(s, s.ObserveDesktop(d)) && s.ObserveDesktop(d).tracker == s.tracker
  {
  }

  lemma PrewarmKeeps(s: State, e: CycleEnv)
    ensures Kept(s, s.PrewarmStage(e)) && s.PrewarmStage(e).tracker == s.tracker
  {
    hide B.Ensure, State.BackendReady, T.Tracker.CanAttempt;
  }

  /** The same, but for the leases. */
  ghost predicate KeptParts(s: State, s': State) {
    s'.recovery == s.recovery && s'.gate == s.gate && s'.anomalies == s.anomalies
  }

  lemma UnknownKeeps(s: State, b: Option<Info>, e: CycleEnv)
    ensures KeptParts(s, s.DesktopUnknown(b, e))
  {
    hide State.BackendReady, State.BackendLive;
  }

  lemma RelaunchKeeps(s: State, e: CycleEnv)
    ensures KeptParts(s, s.RelaunchDesktop(e))
  {
    hide H.Registry.Bump;
  }

  lemma SettleKeeps(s: State, now: Time)
    ensures KeptParts(s, s.SettleReady(now))
  {
    hide T.Tracker.MarkReady, State.SettleReady;
    var moves := SettleReadyMoves(s, now);
  }

  lemma FailureKeeps(s: State, e: CycleEnv)
    ensures KeptParts(s, s.RecoveryFailed(e))
  {
    hide T.Tracker.RecordFailure, State.LastResortRestart;
    LastResortEffect(s.RecordFailure(e.now).SetBackend(Backoff), e);
  }

  lemma RecoverSweeps(s: State, e: CycleEnv)
    ensures var s' := s.Recover(e);
            s'.recovery == s.recovery && s'.gate == s.gate && s'.anomalies == s.anomalies.Gc(e.dualAt)
  {
    hide State.RecoveryFailed, State.SettleReady, State.Run, State.RunOk, State.BackendReady, A.Anomalies.Gc,
         T.Tracker.CanAttempt;
    var s1 := s.SetBackend(Unresponsive).(anomalies := s.anomalies.Gc(e.dualAt)).SetBackend(Starting);
    RunFrame(s1, StartBackend, e.start);
    FailureKeeps(s1.Run(StartBackend, e.start), e);
    SettleKeeps(s1.Run(StartBackend, e.start), e.now);
  }

  /** The cycle reaches the recovery branch, where it asks for dual anomalies. */
  predicate Recovers(s: State, e: CycleEnv) {
    var b := Refresh(e.seen, e.seenHealth);
    && !s.paused && !s.Suppressed(e) && !s.tracker.failed && e.desktop.Up() && !LiveOnly(s, e)
    && (b.None? || !s.BackendReady(b, e.thirdAt))
  }

  lemma SuperviseParts(s: State, now: State, e: CycleEnv)
    requires now == s.(out := [], gate := now.gate) && !s.paused && !s.Suppressed(e)
    ensures var s' := now.Supervise(e);
            && s'.recovery == s.recovery && s'.gate == now.gate
            && s'.anomalies == if Recovers(s, e) then s.anomalies.Gc(e.dualAt) else s.anomalies
  {
    hide State.ObserveDesktop, State.PrewarmStage, State.Recover, State.SettleReady, State.DesktopUnknown,
         State.RelaunchDesktop, H.Registry.FreshReady, H.Registry.FreshLive, A.Anomalies.Gc, State.Suppressed;
    var s1 := now.ObserveDesktop(e.desktop);
    ObserveKeeps(now, e.desktop);
    var s2, b := s1.PrewarmStage(e), Refresh(e.seen, e.seenHealth);
    PrewarmKeeps(s1, e);
    UnknownKeeps(s2, b, e);
    RelaunchKeeps(s2, e);
    RecoverSweeps(s2, e);
    SettleKeeps(s2, e.now);
  }

  lemma CycleParts(s: State, e: CycleEnv)
    ensures var s' := s.Cycle(e);
            && s'.recovery == s.recovery
            && s'.gate == (if s.paused then s.gate else s.gate.Ask(e.gateAt))
            && s'.anomalies == if Recovers(s, e) then s.anomalies.Gc(e.dualAt) else s.anomalies
  {
    hide State.Supervise, A.Anomalies.Gc;
    if !s.paused && !s.Suppressed(e) {
      SuperviseParts(s, s.(out := [], gate := s.gate.Ask(e.gateAt)), e);
    }
  }

  lemma StepRecovery(s: State, step: Step)
    ensures Next(s, step).recovery.lastRendererOnly <==>
              if Reports(step) then RendererOnly(Some(step.m.body.anomaly.value.code)) else s.recovery.lastRendererOnly
  {
    hide State.Cycle, I.Handle, State.Healthy, B.Ensure, U.Gate.SetAPI, H.Registry.Ingest, TrimSpace, ToLower,
         I.Envelope.Type;
    match step
    case RunCycle(e) => CycleParts(s, e);
    case Message(m, role, now, e) =>
      MessageRecovery(s, m, role, now, e);
      if Reports(step) {
        var code := m.body.anomaly.value.code;
        R.NamedCodesCarryThePrefix(TrimSpace(code));
        TrimSpaceTrims(code);
        TrimSpaceFixes(TrimSpace(code));
      }
    case _ =>
  }

  /** Over any run the renderer-only flag speaks of the last valid report, however long ago it was. */
  lemma {:induction false} PolicySeesReports(s: State, steps: seq<Step>, n: nat)
    requires s.recovery == R.NewRecovery() && n <= |steps|
    ensures At(s, steps, n).recovery.lastRendererOnly <==> RendererOnly(LastReported(steps, n))
  {
    hide Next, Reports;
    if n > 0 {
      PolicySeesReports(s, steps, n - 1);
      StepRecovery(At(s, steps, n - 1), steps[n - 1]);
    }
  }

  /** A cycle restarts Desktop as a last resort exactly when it records a failure that does not latch,
      brings the fail count to the threshold, and the last valid report was not renderer-only. */
  lemma LastResortIff(s: State, steps: seq<Step>, n: nat)
    requires Fresh(s) && s.recovery == R.NewRecovery() && n < |steps| && steps[n].RunCycle?
    ensures LastResort in At(s, steps, n + 1).out <==>
              && FailureRecorded(steps[n].e.now) in At(s, steps, n + 1).out
              && !At(s, steps, n + 1).tracker.failed
              && At(s, steps, n).failCount + 1 >= s.cfg.failThreshold
              && !RendererOnly(LastReported(steps, n))
  {
    hide State.Cycle, T.Prune, T.Backoff, FailureTail, T.Tracker.MarkReady, LastReported, Reports, Inv,
         RendererOnly, At;
    var before, e := At(s, steps, n), steps[n].e;
    assert At(s, steps, n + 1) == before.Cycle(e) by { NextOfCycle(s, steps, n); }
    ReachableStates(s, steps, n);
    PolicySeesReports(s, steps, n);
    var shape, pre := CycleShape(before, e);
    LastResortOfShape(before, e, before.Cycle(e), shape, pre);
  }

  lemma NextOfCycle(s: State, steps: seq<Step>, n: nat)
    requires n < |steps| && steps[n].RunCycle?
    ensures At(s, steps, n + 1) == At(s, steps, n).Cycle(steps[n].e)
  {
    hide State.Cycle;
  }

  lemma LastResortOfShape(s: State, e: CycleEnv, s': State, shape: Shape, pre: seq<Action>)
    requires Shaped(s, e, s', shape, pre)
    ensures LastResort in s'.out <==>
              && FailureRecorded(e.now) in s'.out && !s'.tracker.failed
              && s.failCount + 1 >= s.cfg.failThreshold && !s.recovery.lastRendererOnly
  {
    hide T.Prune, T.Backoff, T.Tracker.MarkReady;
    match shape
    case Quiet =>
    case Failure(_, lastResort) =>
      var from :| s'.out == pre + FailureTail(s, e, from, shape);
      var tail := FailureTail(s, e, from, shape);
      assert tail[0] == FailureRecorded(e.now) && s'.out[|pre|] == tail[0];
      if lastResort {
        assert tail[3] == LastResort && s'.out[|pre| + 3] == tail[3];
      }
    case Settled =>
      assert s'.out == pre + [MarkedReady(e.now)] + s'.out[|pre| + 1..];
  }

  /* ---- the anomaly registry ---- */

  /** What a step tells the anomaly registry. */
  function ReportsOf(s: State, step: Step): seq<D.Event> {
    if Reports(step) then [D.Reported(step.m.body.anomaly.value, step.now)]
    else if step.RunCycle? && Recovers(s, step.e) then [D.Swept(step.e.dualAt)]
    else []
  }

  /** The reports and sweeps of the first n steps. */
  function ReportLog(s: State, steps: seq<Step>, n: nat): seq<D.Event>
    requires n <= |steps|
  {
    if n == 0 then [] else ReportLog(s, steps, n - 1) + ReportsOf(At(s, steps, n - 1), steps[n - 1])
  }

  lemma MessageAnomalies(s: State, m: I.Envelope, role: string, now: Time, e: CommandEnv)
    ensures I.Handle(s, m, role, now, e).0.anomalies ==
              if Reports(Message(m, role, now, e)) then s.anomalies.Ingest(m.body.anomaly.value, now) else s.anomalies
  {
    hide TrimSpace, I.Envelope.Type, I.HandleCommand, H.Registry.Ingest, H.Registry.Verdict, A.Anomalies.Ingest,
         A.Anomalies.Gc, A.Anomalies.NewRecord, R.Recovery.Observe;
    if m.body.command.Some? {
      CommandFrames(s.(out := []), m, m.body.command.value, role, now, e);
    }
  }

  lemma StepAnomalies(s: State, step: Step)
    ensures var es := ReportsOf(s, step);
            && |es| <= 1
            && Next(s, step).anomalies == if es == [] then s.anomalies else D.Step(s.anomalies, es[0])
  {
    hide State.Cycle, I.Handle, State.Prewarm, U.Gate.SetAPI, H.Registry.Ingest, A.Anomalies.Ingest, A.Anomalies.Gc,
         Recovers, Reports;
    match step
    case RunCycle(e) => CycleParts(s, e);
    case Message(m, role, now, e) => MessageAnomalies(s, m, role, now, e);
    case Prewarm(p) => PrewarmParts(s, p);
    case _ =>
  }

  lemma PrewarmParts(s: State, p: B.Probes)
    ensures KeptParts(s, s.Prewarm(p))
  {
    hide B.Ensure;
  }

  lemma {:induction false} AnomalyAtPrefix(w: Duration, h: seq<D.Event>, more: seq<D.Event>, n: nat)
    requires n <= |h|
    ensures D.At(w, h + more, n) == D.At(w, h, n)
  {
    hide D.Step;
    if n > 0 {
      AnomalyAtPrefix(w, h, more, n - 1);
    }
  }

  /** Over any run the anomaly registry is that of the valid reports and the sweeps of the recoveries. */
  lemma {:induction false} RegistrySeesReports(w: Duration, s: State, steps: seq<Step>, n: nat)
    requires s.anomalies == A.NewAnomalies(w) && n <= |steps|
    ensures At(s, steps, n).anomalies == D.At(w, ReportLog(s, steps, n), |ReportLog(s, steps, n)|)
  {
    hide Next, ReportsOf, D.Step;
    if n > 0 {
      RegistrySeesReports(w, s, steps, n - 1);
      StepAnomalies(At(s, steps, n - 1), steps[n - 1]);
      var h, es := ReportLog(s, steps, n - 1), ReportsOf(At(s, steps, n - 1), steps[n - 1]);
      AnomalyAtPrefix(w, h, es, |h|);
      assert h + [] == h;
    }
  }

  /** Hence, at any point of any run whose reporting services are not mistakable for each other, a dual
      anomaly means that both services reported the same code, no further apart than a merge reaches. */
  lemma DualMeansTwoReports(w: Duration, s: State, steps: seq<Step>, n: nat, now: Time)
    requires s.anomalies == A.NewAnomalies(w) && n <= |steps| && At(s, steps, n).anomalies.HasMergedDual(now)
    requires var h := ReportLog(s, steps, n);
             h != [] && D.ClockForward(h) && D.Unambiguous(h) && Last(h).at <= now
    ensures var h := ReportLog(s, steps, n);
            exists c, i, j :: 0 <= i < |h| && 0 <= j < |h| && D.Is(h[i], c, H.BACKEND) && D.Is(h[j], c, H.DESKTOP)
              && -D.Reach(A.NewAnomalies(w)) <= h[i].at - h[j].at <= D.Reach(A.NewAnomalies(w))
  {
    hide At, ReportLog, D.At, D.Is, D.Unambiguous, D.ClockForward, A.Anomalies.HasMergedDual, D.Reach;
    RegistrySeesReports(w, s, steps, n);
    D.DualQueryMeansTwoReports(w, ReportLog(s, steps, n), |ReportLog(s, steps, n)|, now);
  }

  /* ---- the update gate ---- */

  /** What a step does with the gate. */
  function GateEvents(s: State, step: Step): seq<U.Event> {
    if step.Suppress? then [U.Set(step.on, step.ttl, step.now)]
    else if step.RunCycle? && !s.paused then [U.Asked(step.e.gateAt)]
    else []
  }

  function GateLog(s: State, steps: seq<Step>, n: nat): seq<U.Event>
    requires n <= |steps|
  {
    if n == 0 then [] else GateLog(s, steps, n - 1) + GateEvents(At(s, steps, n - 1), steps[n - 1])
  }

  lemma StepGate(s: State, step: Step)
    ensures Next(s, step).gate ==
              match step
              case Suppress(on, ttl, now) => s.gate.SetAPI(on, ttl, now)
              case RunCycle(e) => if s.paused then s.gate else s.gate.Ask(e.gateAt)
              case _ => s.gate
  {
    hide State.Cycle, I.Handle, State.Prewarm, U.Gate.SetAPI, U.Gate.Ask, H.Registry.Ingest;
    match step
    case RunCycle(e) => CycleParts(s, e);
    case Message(m, role, now, e) => MessageFrame(s, m, role, now, e);
    case Prewarm(p) => PrewarmParts(s, p);
    case _ =>
  }

  lemma {:induction false} GateAtPrefix(h: seq<U.Event>, more: seq<U.Event>, n: nat)
    requires n <= |h|
    ensures U.At(h + more, n) == U.At(h, n)
  {
    if n > 0 {
      GateAtPrefix(h, more, n - 1);
    }
  }

  /** Over any run the gate is that of the admin requests and of the looks of the unpaused cycles. */
  lemma {:induction false} GateSeesRequests(s: State, steps: seq<Step>, n: nat)
    requires s.gate == U.NewGate() && n <= |steps|
    ensures At(s, steps, n).gate == U.At(GateLog(s, steps, n), |GateLog(s, steps, n)|)
  {
    hide Next, U.Gate.SetAPI, U.Gate.Ask;
    if n > 0 {
      GateSeesRequests(s, steps, n - 1);
      StepGate(At(s, steps, n - 1), steps[n - 1]);
      var h, es := GateLog(s, steps, n - 1), GateEvents(At(s, steps, n - 1), steps[n - 1]);
      GateAtPrefix(h, es, |h|);
      assert h + [] == h;
    }
  }

  /** Over any run a cycle is suppressed exactly when the environment or the lock file says so, or the last
      admin request is on and within its time to live. */
  lemma CycleSuppressedIff(s: State, steps: seq<Step>, n: nat, e: CycleEnv)
    requires s.gate == U.NewGate() && n <= |steps|
    requires U.ClockForward(GateLog(s, steps, n))
    requires GateLog(s, steps, n) != [] ==> Last(GateLog(s, steps, n)).at <= e.gateAt
    ensures var h := GateLog(s, steps, n);
            At(s, steps, n).Suppressed(e) <==>
              e.envFlag || e.lockFile || exists i :: U.LastSet(h, |h|, i) && U.StillOn(h[i], e.gateAt)
  {
    hide At, GateLog, U.At, U.ClockForward, U.LastSet, U.StillOn;
    GateSeesRequests(s, steps, n);
    U.LazyExpiryIsInvisible(GateLog(s, steps, n), |GateLog(s, steps, n)|, e.gateAt);
  }

  /* ---- the pause ---- */

  /** What the last SetPaused among the first n steps asked for. */
  function LastPause(steps: seq<Step>, n: nat): Option<bool>
    requires n <= |steps|
  {
    if n == 0 then None
    else if steps[n - 1].SetPaused? then Some(steps[n - 1].v)
    else LastPause(steps, n - 1)
  }

  lemma StepPause(s: State, step: Step)
    requires Inv(s)
    ensures Next(s, step).paused == if step.SetPaused? then step.v else s.paused
  {
    if step.RunCycle? {
      hide State.Cycle, Y.AsTabled;
      Y.CycleIs(s, step.e);
      assert s.Cycle(step.e).paused == s.paused by { TabledPause(s, step.e, s.Cycle(step.e)); }
    } else if !step.SetPaused? {
      hide Next;
      OtherStepFrame(s, step);
    }
  }

  lemma TabledPause(s: State, e: CycleEnv, s': State)
    requires Y.AsTabled(s, e, s')
    ensures s'.paused == s.paused
  {
    hide Y.RowOf, Y.DeedsOf, Y.MovesOf, Y.DesktopOf, Y.BackendOf, Y.FailCountOf, Y.Deeds, Y.Moves;
  }

  /** Over any run the watchdog is paused exactly when the last SetPaused said so; before the first one, as it
      started. */
  lemma {:induction false} PausedIff(s: State, steps: seq<Step>, n: nat)
    requires Fresh(s) && n <= |steps|
    ensures At(s, steps, n).paused <==>
              if LastPause(steps, n) == None then s.paused else LastPause(steps, n) == Some(true)
  {
    hide Next, Inv;
    if n > 0 {
      PausedIff(s, steps, n - 1);
      ReachableStates(s, steps, n - 1);
      StepPause(At(s, steps, n - 1), steps[n - 1]);
    }
  }

  lemma {:induction false} PauseLasts(steps: seq<Step>, m: nat, n: nat)
    requires m < n <= |steps| && steps[m] == SetPaused(true)
    requires forall i :: m < i < n ==> steps[i] != SetPaused(false)
    ensures LastPause(steps, n) == Some(true)
  {
    if m < n - 1 {
      PauseLasts(steps, m, n - 1);
    }
  }

  /** From a pause until the resume no cycle does anything, whatever it would find. */
  lemma PausedCyclesDoNothing(s: State, steps: seq<Step>, m: nat, n: nat)
    requires Fresh(s) && m < n < |steps| && steps[m] == SetPaused(true) && steps[n].RunCycle?
    requires forall i :: m < i < n ==> steps[i] != SetPaused(false)
    ensures At(s, steps, n + 1) == At(s, steps, n).(out := [])
  {
    hide State.Cycle, LastPause;
    PauseLasts(steps, m, n);
    PausedIff(s, steps, n);
    ReachableStates(s, steps, n);
    Y.CycleIs(At(s, steps, n), steps[n].e);
  }

  /** What the operator's switch does: pausing only pauses; resuming also clears the limiter and takes both
      states out of Failed. */
  lemma SwitchIs(s: State, v: bool)
    ensures Next(s, SetPaused(true)) == s.(paused := true, out := [])
    ensures var t := s.tracker;
            Next(s, SetPaused(false)) ==
              s.(paused := false, out := [FailedCleared],
                 tracker := T.Tracker(t.policy, [], t.lastOK, None, false, 0),
                 backend := if s.backend == Failed then Starting else s.backend,
                 desktop := if s.desktop == Failed then Starting else s.desktop)
  {
  }

  /** What prewarming at startup does: nothing unless it is configured, else one EnsureHealthy and the state
      its result deserves. */
  lemma PrewarmIs(s: State, p: B.Probes)
    ensures var r := B.Ensure(s.cfg.backend, s.back, p);
            var to := if r.result.value.Healthy? then Ready else Unresponsive;
            Next(s, Prewarm(p)) ==
              if !s.cfg.prewarm then s.(out := [])
              else s.(backend := to, back := r.back,
                      out := [BackendMoved(s.backend, Starting), Ensured(p), BackendMoved(Starting, to)])
  {
    hide B.Ensure;
  }

  /** A new watchdog, in plain numbers. */
  lemma NewStateIs(cfg: Config, policy: T.Policy, heartbeatTimeout: Duration, mergeWindow: Duration,
                   manifest: Option<B.Manifest>)
    ensures var s := NewState(cfg, policy, heartbeatTimeout, mergeWindow, manifest);
            && s.cfg == cfg && !s.paused && s.failCount == 0 && s.desktop == Unknown && s.backend == Unknown
            && s.tracker.policy == T.WithDefaults(
                 if policy.maxRestarts == 0 then
                   T.Policy(5, 600_000_000_000, 1_000_000_000, 60_000_000_000, 600_000_000_000)
                 else policy)
            && s.tracker == T.Tracker(s.tracker.policy, [], None, None, false, 0)
            && s.hb.leases == map[]
            && s.hb.timeout == (if heartbeatTimeout > 0 then heartbeatTimeout else 45_000_000_000)
            && s.gate == U.Gate(false, None) && s.recovery == R.Recovery(false, "")
            && s.anomalies.byKey == map[] && s.anomalies.retain == 600_000_000_000
            && s.anomalies.mergeWindow == (if mergeWindow > 0 then mergeWindow else 5_000_000_000)
            && s.nonces == N.Nonces(map[], 600_000_000_000)
            && s.back == B.Back(false, 0, 0, "", false, manifest) && !s.warm && s.out == []
  {
  }
}
