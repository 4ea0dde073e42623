/** What single cycles promise about commands and state moves, and where runs of cycles lead: to Failed
    when no backend ever comes up, to Ready as soon as both services are seen. */
module WatchdogCycles {
  import opened Prelude
  import opened ServiceState
  import opened Watchdog
  import opened CommandFrame
  import opened WatchdogRuns
  import opened WatchdogSafety
  import opened CycleTable
  import T = RestartPolicy
  import H = Heartbeat
  import A = Anomaly
  import B = Backend
  import W = WarmStart

  /* ---- stopping Desktop ---- */

  /** out[i] stops Desktop as a last resort, and the same cycle then restarts both services. */
  predicate Restored(out: seq<Action>, i: nat) {
    && 0 < i && i + 3 < |out|
    && out[i - 1] == LastResort
    && out[i + 1] == Issued(StartBackend) && out[i + 2].Ensured? && out[i + 3] == Issued(StartDesktop)
  }

  /** Every StopDesktop that a cycle issues is a last resort and is followed, in the same cycle, by
      StartBackend and then StartDesktop. A cycle that latches the limiter never stops Desktop. */
  lemma StopDesktopIsRestored(s: State, e: CycleEnv)
    requires Inv(s)
    ensures forall i :: 0 <= i < |s.Cycle(e).out| && s.Cycle(e).out[i] == Issued(StopDesktop) ==>
              Restored(s.Cycle(e).out, i)
    ensures s.Cycle(e).tracker.failed ==> Issued(StopDesktop) !in s.Cycle(e).out && LastResort !in s.Cycle(e).out
  {
    hide State.Cycle, T.Prune, T.Backoff, T.Tracker.MarkReady, Shaped;
    var shape, pre := CycleShape(s, e);
    StopsOfShape(s, e, s.Cycle(e), shape, pre);
  }

  lemma StopsOfShape(s: State, e: CycleEnv, s': State, shape: Shape, pre: seq<Action>)
    requires Shaped(s, e, s', shape, pre)
    ensures forall i :: 0 <= i < |s'.out| && s'.out[i] == Issued(StopDesktop) ==> Restored(s'.out, i)
    ensures s'.tracker.failed ==> Issued(StopDesktop) !in s'.out && LastResort !in s'.out
  {
    hide T.Prune, T.Backoff, T.Tracker.MarkReady, FailureTail, Restored;
    PlainHasNoStops(pre);
    match shape
    case Quiet =>
    case Failure(_, _) =>
      var from :| s'.out == pre + FailureTail(s, e, from, shape);
      StopsOfTail(pre, s, e, from, shape);
    case Settled =>
      var rest := s'.out[|pre| + 1..];
      PlainHasNoStops(rest);
      assert s'.out == pre + [MarkedReady(e.now)] + rest;
  }

  lemma PlainHasNoStops(out: seq<Action>)
    requires Plain(out)
    ensures Issued(StopDesktop) !in out && LastResort !in out
  {
  }

  lemma StopsOfTail(pre: seq<Action>, s: State, e: CycleEnv, from: ServiceState, shape: Shape)
    requires Plain(pre) && shape.Failure?
    ensures var out := pre + FailureTail(s, e, from, shape);
            && (forall i :: 0 <= i < |out| && out[i] == Issued(StopDesktop) ==> Restored(out, i))
            && (!shape.lastResort ==> Issued(StopDesktop) !in out && LastResort !in out)
  {
    var tail := FailureTail(s, e, from, shape);
    PlainHasNoStops(pre);
    assert forall i :: 0 <= i < |pre| ==> (pre + tail)[i] in pre;
    forall i | |pre| <= i < |pre + tail| && (pre + tail)[i] == Issued(StopDesktop) ensures Restored(pre + tail, i) {
      assert (pre + tail)[i] == tail[i - |pre|];
    }
  }

  /* ---- starting Desktop ---- */

  /** Desktop is started exactly along with a last resort. */
  predicate Paired(out: seq<Action>) {
    Issued(StartDesktop) in out <==> LastResort in out
  }

  lemma ObservePairs(s: State, d: DesktopProbe)
    requires Paired(s.out)
    ensures Paired(s.ObserveDesktop(d).out)
  {
  }

  lemma PrewarmPairs(s: State, e: CycleEnv)
    requires Paired(s.out)
    ensures Paired(s.PrewarmStage(e).out)
  {
    hide B.Ensure, State.BackendReady, T.Tracker.CanAttempt;
  }

  lemma UnknownPairs(s: State, b: Option<Info>, e: CycleEnv)
    requires Paired(s.out)
    ensures Paired(s.DesktopUnknown(b, e).out)
  {
    hide State.BackendReady, State.BackendLive;
  }

  lemma SettlePairs(s: State, now: Time)
    requires Paired(s.out)
    ensures Paired(s.SettleReady(now).out)
  {
    hide State.SettleReady, State.MarkReady;
    var moves := SettleReadyMoves(s, now);
  }

  lemma FailurePairs(s: State, e: CycleEnv)
    requires Paired(s.out)
    ensures Paired(s.RecoveryFailed(e).out)
  {
    hide State.LastResortRestart, T.Tracker.RecordFailure;
    LastResortEffect(s.RecordFailure(e.now).SetBackend(Backoff), e);
    assert [DesktopMoved(s.desktop, Stopping), LastResort][1] == LastResort;
  }

  lemma RecoverPairs(s: State, e: CycleEnv)
    requires Paired(s.out)
    ensures Paired(s.Recover(e).out)
  {
    hide State.RecoveryFailed, State.SettleReady, State.RunOk, State.BackendReady, A.Anomalies.Gc,
         T.Tracker.CanAttempt, B.Ensure, H.Registry.Bump;
    var s1 := s.SetBackend(Unresponsive).(anomalies := s.anomalies.Gc(e.dualAt)).SetBackend(Starting);
    var started := s1.Run(StartBackend, e.start);
    assert Paired(started.out);
    FailurePairs(started, e);
    SettlePairs(started, e.now);
  }

  lemma UpPairs(s: State, b: Option<Info>, e: CycleEnv)
    requires Paired(s.out)
    ensures Paired(s.DesktopUp(b, e).out)
  {
    hide State.Recover, State.SettleReady, State.BackendReady, State.BackendLive;
    RecoverPairs(s, e);
    SettlePairs(s, e.now);
  }

  lemma RelaunchStarts(s: State, e: CycleEnv)
    ensures Issued(StartDesktop) in s.RelaunchDesktop(e).out
  {
    hide H.Registry.Bump;
  }

  lemma SuperviseStartsDesktopIff(s: State, e: CycleEnv)
    requires s.out == []
    ensures Issued(StartDesktop) in s.Supervise(e).out <==>
              !s.tracker.failed && ((e.desktop.Known() && !e.desktop.Up()) || LastResort in s.Supervise(e).out)
    ensures s.tracker.failed ==> LastResort !in s.Supervise(e).out
  {
    hide State.ObserveDesktop, State.PrewarmStage, State.DesktopUnknown, State.DesktopUp, State.RelaunchDesktop;
    var s1 := s.ObserveDesktop(e.desktop);
    ObservePairs(s, e.desktop);
    if s.tracker.failed {
      NoLaunchObserved(s, e.desktop);
    } else {
      var s2, b := s1.PrewarmStage(e), Refresh(e.seen, e.seenHealth);
      PrewarmPairs(s1, e);
      UnknownPairs(s2, b, e);
      UpPairs(s2, b, e);
      RelaunchStarts(s2, e);
    }
  }

  lemma NoLaunchObserved(s: State, d: DesktopProbe)
    requires s.out == []
    ensures Issued(StartDesktop) !in s.ObserveDesktop(d).out && LastResort !in s.ObserveDesktop(d).out
  {
  }

  /** Desktop is never relaunched merely because its processes could not be enumerated. A cycle starts it
      exactly when it is active, not latched, and either knows Desktop to be down or restarts it as a last
      resort; and when the probe fails it neither starts nor stops it. */
  lemma StartsDesktopIff(s: State, e: CycleEnv)
    requires Inv(s)
    ensures Issued(StartDesktop) in s.Cycle(e).out <==>
              && !s.paused && !s.Suppressed(e) && !s.tracker.failed
              && ((e.desktop.Known() && !e.desktop.Up()) || LastResort in s.Cycle(e).out)
    ensures e.desktop == ProbeFailed ==>
              Issued(StartDesktop) !in s.Cycle(e).out && Issued(StopDesktop) !in s.Cycle(e).out
  {
    hide State.Supervise;
    SuperviseStartsDesktopIff(s.(out := [], gate := s.gate.Ask(e.gateAt)), e);
    if e.desktop == ProbeFailed {
      NoLastResortWithoutDesktop(s, e);
      StopsOnlyAsLastResort(s, e);
    }
  }

  lemma StopsOnlyAsLastResort(s: State, e: CycleEnv)
    requires Inv(s)
    ensures Issued(StopDesktop) in s.Cycle(e).out ==> LastResort in s.Cycle(e).out
  {
    hide State.Cycle;
    StopDesktopIsRestored(s, e);
    var out := s.Cycle(e).out;
    if i :| 0 <= i < |out| && out[i] == Issued(StopDesktop) {
      assert Restored(out, i);
      assert out[i - 1] == LastResort;
    }
  }

  lemma NoLastResortWithoutDesktop(s: State, e: CycleEnv)
    requires Inv(s) && !e.desktop.Up()
    ensures LastResort !in s.Cycle(e).out
  {
    hide State.Cycle;
    var shape, pre := CycleShape(s, e);
    assert Shaped(s, e, s.Cycle(e), shape, pre);
  }

  /* ---- entries into Ready ---- */

  /** Every entry of either service into Ready is one the transition table allows. */
  predicate ReadyLegally(out: seq<Action>) {
    forall a :: a in out ==>
      (a.DesktopMoved? && a.to == Ready ==> CanTransition(a.from, Ready)) &&
      (a.BackendMoved? && a.to == Ready ==> CanTransition(a.from, Ready))
  }

  lemma ObserveLegally(s: State, d: DesktopProbe)
    requires ReadyLegally(s.out)
    ensures ReadyLegally(s.ObserveDesktop(d).out)
  {
  }

  lemma PrewarmLegally(s: State, e: CycleEnv)
    requires ReadyLegally(s.out)
    ensures ReadyLegally(s.PrewarmStage(e).out)
  {
    hide B.Ensure, State.BackendReady;
  }

  lemma SettleLegally(s: State, now: Time)
    requires ReadyLegally(s.out) && s.desktop == Ready
    ensures ReadyLegally(s.SettleReady(now).out)
  {
    hide T.Tracker.MarkReady;
  }

  lemma StartLegally(s: State, e: CommandEnv)
    requires ReadyLegally(s.out)
    ensures ReadyLegally(s.Run(StartBackend, e).out)
  {
    hide B.Ensure, H.Registry.Bump;
  }

  lemma RecoveryFailedLegally(s: State, e: CycleEnv)
    requires ReadyLegally(s.out)
    ensures ReadyLegally(s.RecoveryFailed(e).out)
  {
    hide State.RecoveryFailed, T.Tracker.RecordFailure;
    RecoveryFailedEffect(s, e);
  }

  lemma RecoverLegally(s: State, e: CycleEnv)
    requires ReadyLegally(s.out) && s.desktop == Ready
    ensures ReadyLegally(s.Recover(e).out)
  {
    hide State.RecoveryFailed, State.SettleReady, State.Run, State.RunOk, State.BackendReady, A.Anomalies.Gc;
    var s1 := s.SetBackend(Unresponsive).(anomalies := s.anomalies.Gc(e.dualAt));
    var started := s1.SetBackend(Starting).Run(StartBackend, e.start);
    RunFrame(s1.SetBackend(Starting), StartBackend, e.start);
    StartLegally(s1.SetBackend(Starting), e.start);
    RecoveryFailedLegally(started, e);
    SettleLegally(started, e.now);
  }

  lemma RelaunchLegally(s: State, e: CycleEnv)
    requires ReadyLegally(s.out)
    ensures ReadyLegally(s.RelaunchDesktop(e).out)
  {
    hide H.Registry.Bump;
  }

  lemma DesktopUpLegally(s: State, b: Option<Info>, e: CycleEnv)
    requires ReadyLegally(s.out) && s.desktop == Ready
    ensures ReadyLegally(s.DesktopUp(b, e).out)
  {
    hide State.Recover, State.SettleReady, State.BackendReady, State.BackendLive;
    RecoverLegally(s, e);
    SettleLegally(s, e.now);
  }

  /** Desktop's probe failed while a Ready backend is visible, and the backend state the cycle will meet,
      Backoff if the limiter holds back, does not lead to Ready. */
  predicate ForcesReady(s: State, e: CycleEnv) {
    && !s.tracker.failed && !e.desktop.Known()
    && Refresh(e.seen, e.seenHealth).Some? && s.BackendReady(Refresh(e.seen, e.seenHealth), e.firstAt)
    && !CanTransition(if s.tracker.CanAttempt(e.now) then s.backend else Backoff, Ready)
  }

  lemma DesktopUnknownLegallyIff(s: State, b: Option<Info>, e: CycleEnv)
    requires ReadyLegally(s.out)
    ensures ReadyLegally(s.DesktopUnknown(b, e).out) <==>
              !(b.Some? && s.BackendReady(b, e.firstAt) && !CanTransition(s.backend, Ready))
  {
    hide State.BackendReady, State.BackendLive;
    if b.Some? && s.BackendReady(b, e.firstAt) {
      assert BackendMoved(s.backend, Ready) in s.DesktopUnknown(b, e).out;
    }
  }

  lemma SuperviseLegallyIff(s: State, e: CycleEnv)
    requires Inv(s) && s.out == []
    ensures ReadyLegally(s.Supervise(e).out) <==> !ForcesReady(s, e)
  {
    hide State.ObserveDesktop, State.PrewarmStage, State.DesktopUp, State.DesktopUnknown, State.RelaunchDesktop,
         H.Registry.FreshReady;
    var s1 := s.ObserveDesktop(e.desktop);
    ObserveDesktopMoves(s, e.desktop);
    ObserveLegally(s, e.desktop);
    if !s.tracker.failed {
      var s2 := s1.PrewarmStage(e);
      PrewarmMoves(s1, e);
      PrewarmLegally(s1, e);
      var b := Refresh(e.seen, e.seenHealth);
      if !e.desktop.Known() {
        DesktopUnknownLegallyIff(s2, b, e);
      } else if !e.desktop.Up() {
        RelaunchLegally(s2, e);
      } else {
        DesktopUpLegally(s2, b, e);
      }
    }
  }

  /** Although the setters force any move they are asked for, an active cycle enters Ready illegally
      exactly when its Desktop probe failed while a Ready backend was visible and the backend state,
      Backoff if the limiter is holding back, does not lead to Ready. In particular a cycle whose
      Desktop probe succeeded never does. */
  lemma EntersReadyLegallyIff(s: State, e: CycleEnv)
    requires Inv(s) && !s.paused && !s.Suppressed(e)
    ensures ReadyLegally(s.Cycle(e).out) <==> !ForcesReady(s, e)
    ensures e.desktop.Known() ==> ReadyLegally(s.Cycle(e).out)
  {
    hide State.Supervise, H.Registry.FreshReady, ReadyLegally;
    var s0 := s.(out := [], gate := s.gate.Ask(e.gateAt));
    SuperviseLegallyIff(s0, e);
  }

  /** The very first cycle can do it: a backend seen Ready behind an unanswered Desktop probe moves the
      backend state from Unknown straight to Ready. */
  lemma FirstCycleCanForceReady(s: State, e: CycleEnv)
    requires Fresh(s) && !s.paused && !s.Suppressed(e) && e.desktop == ProbeFailed
    requires e.seen.Some? && e.seen.value.health == Health(true, true, true)
    ensures BackendMoved(Unknown, Ready) in s.Cycle(e).out && !CanTransition(Unknown, Ready)
  {
    hide H.Registry.FreshReady, H.Registry.FreshLive, B.Ensure, State.BackendReady;
    var s1 := s.(out := [], gate := s.gate.Ask(e.gateAt)).ObserveDesktop(e.desktop);
    var s2 := s1.PrewarmStage(e);
    PrewarmMoves(s1, e);
    ReadyWhenProbed(s2, e.seen, e.firstAt);
  }

  /** The end of every warm restart: one move out of Stopping. */
  lemma LeavesStopping(s: State, ok: bool)
    requires ReadyLegally(s.out) && s.backend == Stopping
    ensures var s' := s.SetBackend(if ok then Ready else Unresponsive);
            && (ReadyLegally(s'.out) <==> !ok)
            && (ok ==> BackendMoved(Stopping, Ready) in s'.out)
  {
    if ok {
      assert BackendMoved(Stopping, Ready) in s.SetBackend(Ready).out;
    }
  }

  lemma RefusedWarmStartReadies(s: State, e: CommandEnv)
    requires ReadyLegally(s.out) && s.warm
    ensures ReadyLegally(s.WarmStart(e).out) <==> !s.WarmStartOk(e)
    ensures s.WarmStartOk(e) ==> BackendMoved(Stopping, Ready) in s.WarmStart(e).out
  {
    hide State.WarmStartOk, State.GrantedWarmStart;
    LeavesStopping(s.SetBackend(Stopping).(warm := e.ended.None?), s.WarmStartOk(e));
  }

  lemma GrantedWarmStartReadies(s: State, e: CommandEnv)
    requires ReadyLegally(s.out) && !s.warm
    ensures ReadyLegally(s.WarmStart(e).out) <==> !s.WarmStartOk(e)
    ensures s.WarmStartOk(e) ==> BackendMoved(Stopping, Ready) in s.WarmStart(e).out
  {
    hide State.WarmOutcome, W.Deliver, W.OpenEpochs, State.WarmBackend;
    var s1 := s.SetBackend(Stopping).Emit(EpochsOpened(e.counted, e.later));
    var s2 := s1.(hb := W.Deliver(W.Deliver(W.OpenEpochs(s1.hb), e.counted), e.later));
    assert ReadyLegally(s2.out);
    WarmBackendMovesNothing(s2, e.processes);
    LeavesStopping(s2.WarmBackend(e.processes), !s.WarmOutcome(e).Failed?);
  }

  /** A warm restart enters Ready illegally whenever it works: it forces Stopping to Ready, which the
      table forbids. When it is refused by one still under way, or fails, it does not enter Ready at all. */
  lemma WarmRestartForcesReadyIff(s: State, e: CommandEnv)
    requires s.out == []
    ensures ReadyLegally(s.Run(WarmRestart, e).out) <==> !s.WarmStartOk(e)
    ensures s.WarmStartOk(e) ==> BackendMoved(Stopping, Ready) in s.Run(WarmRestart, e).out
  {
    hide State.WarmStart, W.OutcomeOf, W.Processes.Answered, W.Deliver, W.OpenEpochs;
    var s1 := s.Emit(Issued(WarmRestart));
    assert ReadyLegally(s1.out);
    if s.warm {
      RefusedWarmStartReadies(s1, e);
    } else {
      GrantedWarmStartReadies(s1, e);
    }
  }

  lemma WarmBackendMovesNothing(s: State, p: W.Processes)
    requires ReadyLegally(s.out)
    ensures ReadyLegally(s.WarmBackend(p).out) && s.WarmBackend(p).backend == s.backend
  {
    hide B.Ensure, B.Notify, W.Processes.After, W.Processes.Restart;
  }

  lemma ReadyWhenProbed(s: State, b: Option<Info>, at: Time)
    requires b.Some? && b.value.health.ready
    ensures s.BackendReady(b, at)
  {
  }

  /* ---- convergence ---- */

  /** What a settled cycle must not do. */
  predicate NoCommand(out: seq<Action>) {
    forall a :: a in out ==> !a.Issued? && !a.FailureRecorded? && !a.LastResort?
  }

  predicate NoEnsure(out: seq<Action>) {
    forall a :: a in out ==> !a.Ensured?
  }

  /** The prewarm stage finds no Ready backend and calls EnsureHealthy. */
  predicate PrewarmFires(s: State, e: CycleEnv) {
    && s.cfg.prewarm && s.tracker.CanAttempt(e.now)
    && (Refresh(e.early, e.earlyHealth).None? || !s.BackendReady(Refresh(e.early, e.earlyHealth), e.earlyAt))
  }

  lemma ObserveEnsuresNothing(s: State, d: DesktopProbe)
    requires NoCommand(s.out) && NoEnsure(s.out)
    ensures NoCommand(s.ObserveDesktop(d).out) && NoEnsure(s.ObserveDesktop(d).out)
  {
  }

  lemma PrewarmEnsuresIff(s: State, e: CycleEnv)
    requires NoCommand(s.out) && NoEnsure(s.out)
    ensures NoCommand(s.PrewarmStage(e).out)
    ensures NoEnsure(s.PrewarmStage(e).out) <==> !PrewarmFires(s, e)
  {
    hide B.Ensure, State.BackendReady;
    if PrewarmFires(s, e) {
      assert Ensured(e.prewarm) in s.PrewarmStage(e).out;
    }
  }

  lemma SettleEnsuresNothing(s: State, now: Time)
    requires NoCommand(s.out)
    ensures NoCommand(s.SettleReady(now).out)
    ensures NoEnsure(s.SettleReady(now).out) <==> NoEnsure(s.out)
  {
    hide State.SettleReady;
    SettleReadyEffect(s, now);
    var out := s.SettleReady(now).out;
    assert out == s.out + [MarkedReady(now)] + out[|s.out| + 1..];
    forall a | a in s.out ensures a in out {
    }
  }

  /** Both services are Ready and nothing is held against the backend any more. */
  predicate Converged(s: State) {
    && s.desktop == Ready && s.backend == Ready && s.failCount == 0
    && !s.tracker.failed && s.tracker.attempts == [] && s.tracker.attemptN == 0 && s.tracker.nextAt == None
  }

  lemma SuperviseConverges(s: State, e: CycleEnv)
    requires Inv(s) && s.out == [] && !s.tracker.failed && e.desktop.Up()
    requires Refresh(e.seen, e.seenHealth).Some?
    requires s.BackendReady(Refresh(e.seen, e.seenHealth), e.secondAt)
    requires s.BackendReady(Refresh(e.seen, e.seenHealth), e.thirdAt)
    ensures Converged(s.Supervise(e)) && NoCommand(s.Supervise(e).out)
    ensures NoEnsure(s.Supervise(e).out) <==> !PrewarmFires(s, e)
  {
    hide State.ObserveDesktop, State.PrewarmStage, State.SettleReady, State.Recover, H.Registry.FreshReady,
         H.Registry.FreshLive, NoCommand, NoEnsure;
    var s1 := s.ObserveDesktop(e.desktop);
    ObserveDesktopMoves(s, e.desktop);
    assert NoCommand(s.out) && NoEnsure(s.out) by { NothingDone(); }
    ObserveEnsuresNothing(s, e.desktop);
    var s2 := s1.PrewarmStage(e);
    PrewarmMoves(s1, e);
    PrewarmEnsuresIff(s1, e);
    SettleEnsuresNothing(s2, e.now);
    SettleReadyEffect(s2, e.now);
  }

  lemma NothingDone()
    ensures NoCommand([]) && NoEnsure([])
  {
  }

  /** From any reachable state that is not latched, paused or suppressed, however deep in back-off, one
      cycle that sees Desktop up and the backend Ready clears everything held against the backend and
      issues no command. It calls EnsureHealthy only if prewarming looked a moment earlier and did not
      yet find the backend Ready. */
  lemma ConvergesInOneCycle(s: State, e: CycleEnv)
    requires Inv(s) && !s.tracker.failed && !s.paused && !s.Suppressed(e) && e.desktop.Up()
    requires Refresh(e.seen, e.seenHealth).Some?
    requires s.BackendReady(Refresh(e.seen, e.seenHealth), e.secondAt)
    requires s.BackendReady(Refresh(e.seen, e.seenHealth), e.thirdAt)
    ensures Converged(s.Cycle(e)) && NoCommand(s.Cycle(e).out)
    ensures NoEnsure(s.Cycle(e).out) <==> !PrewarmFires(s, e)
    ensures !s.tracker.CanAttempt(e.now) ==> NoEnsure(s.Cycle(e).out)
  {
    hide State.Supervise, H.Registry.FreshReady, NoCommand, NoEnsure;
    SuperviseConverges(s.(out := [], gate := s.gate.Ask(e.gateAt)), e);
  }

  /* ---- progress to Failed ---- */

  /** Desktop is up, no ready backend and not merely a live one is found, and a start brings up nothing that
      is ready: none at all, or one that is found and not ready. */
  predicate Dead(s: State, e: CycleEnv) {
    DesktopUp(e) && Missing(s, e) && StartFails(s, e)
  }

  /** A cycle that is neither paused nor suppressed. */
  predicate Active(s: State, step: Step): (yes: bool)
    ensures yes ==> step.RunCycle?
  {
    step.RunCycle? && !s.paused && !s.Suppressed(step.e)
  }

  /** No resume, and no active cycle that finds or starts a ready backend or lies outside [lo, lo + Window). Heartbeats,
      reports, commands, pauses, prewarms and suppressions may come in between at will. */
  ghost predicate DeadRun(s: State, steps: seq<Step>, lo: Time) {
    forall i :: 0 <= i < |steps| ==>
      && steps[i] != SetPaused(false)
      && (Active(At(s, steps, i), steps[i]) ==>
            Dead(At(s, steps, i), steps[i].e) && lo <= steps[i].e.now < lo + s.tracker.policy.window)
  }

  /** The active cycles at which the limiter let an attempt through, among the first n steps. */
  function Attempts(s: State, steps: seq<Step>, n: nat): nat
    requires n <= |steps|
  {
    if n == 0 then 0
    else Attempts(s, steps, n - 1) +
         if Active(At(s, steps, n - 1), steps[n - 1]) && At(s, steps, n - 1).tracker.CanAttempt(steps[n - 1].e.now)
         then 1 else 0
  }

  /** In a dead run an active cycle records a failure exactly when the limiter lets it try; every other
      step leaves the limiter alone. */
  lemma DeadStep(s: State, step: Step)
    requires Inv(s) && step != SetPaused(false) && (Active(s, step) ==> Dead(s, step.e))
    ensures Next(s, step).tracker ==
              if Active(s, step) && s.tracker.CanAttempt(step.e.now) then s.tracker.RecordFailure(step.e.now)
              else s.tracker
    ensures Inv(Next(s, step))
  {
    StepKeepsInv(s, step);
    if step.RunCycle? {
      hide State.Cycle, T.Tracker.RecordFailure, T.Tracker.MarkReady, T.Tracker.CanAttempt, State.Suppressed,
           StartFails, OnlyLive, ShowsReady, UpdateRuns;
      CycleIs(s, step.e);
      GatesAre(s, step.e);
    } else {
      hide Next;
      OtherStepFrame(s, step);
    }
  }

  /** All attempts held are at least as late as lo. */
  predicate NoneBefore(attempts: seq<Time>, lo: Time) {
    forall i :: 0 <= i < |attempts| ==> attempts[i] >= lo
  }

  lemma {:induction false} PruneNone(attempts: seq<Time>, cut: Time)
    requires NoneBefore(attempts, cut + 1)
    ensures T.Prune(attempts, cut) == attempts
  {
    if attempts != [] {
      PruneNone(Front(attempts), cut);
    }
  }

  /** One more failure within the window of all the ones held. */
  lemma RecordWithin(t: T.Tracker, now: Time, lo: Time)
    requires t.policy.Valid() && !t.failed && |t.attempts| < t.policy.maxRestarts
    requires NoneBefore(t.attempts, lo) && lo <= now < lo + t.policy.window
    ensures var t' := t.RecordFailure(now);
            && |t'.attempts| == |t.attempts| + 1 && NoneBefore(t'.attempts, lo)
            && (t'.failed <==> |t'.attempts| >= t.policy.maxRestarts)
            && t'.policy == t.policy
  {
    hide T.Backoff;
    PruneNone(t.attempts, now - t.policy.window);
  }

  /** With no backend ever found or started that is ready, the limiter holds one attempt per cycle it let
      through, and it latches on exactly the MaxRestarts-th of them, as long as the cycles lie within one Window. This
      holds from any state whose limiter is empty, at startup or after a resume alike, and whatever other
      steps come in between. */
  lemma {:induction false} DeadCyclesLatchExactly(s: State, steps: seq<Step>, lo: Time, n: nat)
    requires Inv(s) && s.tracker.policy.Valid() && !s.tracker.failed && s.tracker.attempts == []
    requires DeadRun(s, steps, lo) && n <= |steps|
    ensures var t := At(s, steps, n).tracker;
            && Inv(At(s, steps, n)) && t.policy == s.tracker.policy
            && |t.attempts| == Attempts(s, steps, n) <= t.policy.maxRestarts
            && NoneBefore(t.attempts, lo)
            && (t.failed <==> Attempts(s, steps, n) == t.policy.maxRestarts)
  {
    hide Next, T.Tracker.RecordFailure, Active, Inv;
    if n > 0 {
      DeadCyclesLatchExactly(s, steps, lo, n - 1);
      var before := At(s, steps, n - 1);
      DeadStep(before, steps[n - 1]);
      if Active(before, steps[n - 1]) && before.tracker.CanAttempt(steps[n - 1].e.now) {
        RecordWithin(before.tracker, steps[n - 1].e.now, lo);
      }
    }
  }
}
