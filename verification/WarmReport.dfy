/** What a warm start reports and leaves behind, in plain terms: phase by phase, hook by hook, and for the
    watchdog's own states and actions. */
module WarmReport {
  import opened Prelude
  import opened ServiceState
  import opened Watchdog
  import H = Heartbeat
  import B = Backend
  import W = WarmStart

  /** The snapshot and the phases of a warm start that passed the gate, by what its hooks answered: it stops
      after the phase whose hook failed, or goes through all twelve. */
  lemma ReportIs(out: W.Snapshot, phases: seq<W.Phase>, a: W.Answers, r: H.Registry, counted: seq<W.Beat>)
    requires W.Conforms(out, phases, a, r, counted)
    ensures out.outcome ==
              if !a.stopOk || !a.startOk || !a.readyOk then W.Failed
              else if out.activeRunsAtEnd > 0 then W.Interrupted else W.Success
    ensures var first := [W.RestartIntent, W.Draining, W.StopAccepting, W.GraceActiveRuns, W.CheckpointRequest,
                          W.CloseChildren, W.StopBackend];
            phases ==
              if !a.stopOk then first
              else if !a.startOk then first + [W.Phase.StartBackend]
              else if !a.readyOk then first + [W.Phase.StartBackend, W.Readiness]
              else first + [W.Phase.StartBackend, W.Readiness, W.RestoreRouting, W.NotifyDesktop, W.ResumeTraffic]
    ensures !out.active && (out.interrupted <==> out.activeRunsAtEnd > 0)
    ensures out.resumeTraffic <==> a.stopOk && a.startOk && a.readyOk
    ensures out.draining <==> !(a.stopOk && a.startOk && a.readyOk)
    ensures 1 <= out.epochBefore < MAX_INT64 ==> out.epochAfter == out.epochBefore + 1
    ensures out.epochBefore == MAX_INT64 ==> out.epochAfter == 1
  {
    hide W.Deliver, W.OpenEpochs, H.NormalizeService, H.Registry.LastActiveRuns;
  }

  /** The hooks are called in order, up to the one that fails; a start succeeds exactly when EnsureHealthy
      does from the stopped state. */
  lemma HooksAre(p: W.Processes, cfg: B.Config, b: B.Back)
    ensures var a := p.Answered(cfg, b);
            && a.stopOk == p.stopOk && a.readyOk == p.readyOk
            && (a.startOk <==> B.Ensure(cfg, b.Stop(), p.probes).result.value.Healthy?)
            && a.Calls() ==
                 if !a.stopOk then [W.CalledStop]
                 else if !a.startOk then [W.CalledStop, W.CalledStart]
                 else if !a.readyOk then [W.CalledStop, W.CalledStart, W.CalledWaitReady]
                 else [W.CalledStop, W.CalledStart, W.CalledWaitReady, W.CalledNotify]
  {
    hide B.Ensure;
  }

  /** The supervisor afterwards: untouched if it could not be stopped, else stopped and restarted, and
      notified only once the restarted serve is ready. */
  lemma SupervisorIs(p: W.Processes, cfg: B.Config, b: B.Back)
    ensures var r := B.Ensure(cfg, b.Stop(), p.probes);
            p.After(cfg, b) ==
              if !p.stopOk then b
              else if r.result.value.Healthy? && p.readyOk then
                B.Notify(r.back, r.result.value.port, p.minted, p.written).0
              else r.back
  {
    hide B.Ensure, B.Notify;
  }

  /** Before the first warm start nothing is active, pending or draining, and traffic flows. */
  lemma IdleIs()
    ensures var i := W.IDLE;
            && !i.active && i.phase == None && i.outcome == W.Pending
            && !i.interrupted && i.resumeTraffic && !i.draining
            && i.activeRunsAtEnd == 0 && i.epochBefore == 0 && i.epochAfter == 0
  {
  }

  /** Non-positive timeouts mean fifteen and five seconds; the polls that fit are the rounded-up quotients. */
  lemma TimeoutsAre(c: W.WarmConfig)
    ensures c.Drain() == if c.drain > 0 then c.drain else 15_000_000_000
    ensures c.Checkpoint() == if c.checkpoint > 0 then c.checkpoint else 5_000_000_000
    ensures 50_000_000 * (W.DrainPolls(c.Drain()) - 1) < c.Drain() <= 50_000_000 * W.DrainPolls(c.Drain())
    ensures 20_000_000 * (W.AckPolls(c.Checkpoint()) - 1) < c.Checkpoint() <= 20_000_000 * W.AckPolls(c.Checkpoint())
  {
  }

  /** Both leases are dropped, both epochs advanced, before anything is read. */
  lemma OpeningIs(r: H.Registry)
    requires forall s :: s in r.epochs ==> 0 <= r.epochs[s] < MAX_INT64
    ensures var r' := W.OpenEpochs(r);
            var (b, d) := (if "hermes-backend" in r.epochs then r.epochs["hermes-backend"] else 0,
                           if "hermes-desktop" in r.epochs then r.epochs["hermes-desktop"] else 0);
            && r'.leases == r.leases - {"hermes-backend", "hermes-desktop"} && r'.timeout == r.timeout
            && r'.epochs == r.epochs["hermes-backend" := if b == 0 then 2 else b + 1]["hermes-desktop" := d + 1]
  {
    W.CanonicalServices();
    hide H.NormalizeService;
  }

  /* ---- the command ---- */

  /** The hooks of the command all succeed. */
  predicate HooksSucceed(s: State, e: CommandEnv) {
    && e.processes.stopOk && e.processes.readyOk
    && B.Ensure(s.cfg.backend, s.back.Stop(), e.processes.probes).result.value.Healthy?
  }

  /** The command as a whole: what it lists, how the backend state ends, whether it counts as success. When
      granted, it succeeds, interrupted or not, exactly when no hook fails. When refused, it takes over the
      outcome of the one that refused it, if that has ended by then. */
  lemma WarmRestartIs(s: State, e: CommandEnv)
    ensures var s' := s.Run(WarmRestart, e);
            var ok := if s.warm then e.ended == Some(W.Success) || e.ended == Some(W.Interrupted)
                      else HooksSucceed(s, e);
            && (s.RunOk(WarmRestart, e) <==> ok)
            && s'.backend == (if ok then Ready else Unresponsive)
            && s'.warm == (s.warm && e.ended == None)
            && s'.out == s.out + [Issued(WarmRestart), BackendMoved(s.backend, Stopping)]
                         + (if s.warm then [] else Work(s, e)) + [BackendMoved(Stopping, s'.backend)]
            && s' == s.(hb := s'.hb, back := s'.back, backend := s'.backend, warm := s'.warm, out := s'.out)
            && (s.warm ==> s'.hb == s.hb && s'.back == s.back)
  {
    hide W.Deliver, W.OpenEpochs, State.WarmStart, B.Ensure, State.WarmOutcome;
    var s1 := s.Emit(Issued(WarmRestart));
    if s.warm {
      RefusedIs(s1, e);
    } else {
      GrantedIs(s1, e);
    }
    OutcomeIs(s, e);
    OutcomeIs(s1, e);
  }

  /** What a granted one lists between its two state moves. */
  function Work(s: State, e: CommandEnv): seq<Action> {
    var r := B.Ensure(s.cfg.backend, s.back.Stop(), e.processes.probes);
    [EpochsOpened(e.counted, e.later)]
    + (if e.processes.stopOk then [BackendStopped, Ensured(e.processes.probes)] else [])
    + if HooksSucceed(s, e) then [DesktopNotified(r.result.value.port, e.processes.minted, e.processes.written)] else []
  }

  lemma OutcomeIs(s: State, e: CommandEnv)
    ensures s.WarmOutcome(e) == W.Failed <==> !HooksSucceed(s, e)
  {
    hide W.Deliver, W.OpenEpochs, B.Ensure, H.Registry.LastActiveRuns;
  }

  lemma RefusedIs(s: State, e: CommandEnv)
    requires s.warm
    ensures var s' := s.WarmStart(e);
            var to := if e.ended == Some(W.Success) || e.ended == Some(W.Interrupted) then Ready else Unresponsive;
            s' == s.(backend := to, warm := e.ended == None,
                     out := s.out + [BackendMoved(s.backend, Stopping)] + [BackendMoved(Stopping, to)])
  {
    hide State.GrantedWarmStart, State.WarmOutcome;
  }

  lemma GrantedIs(s: State, e: CommandEnv)
    requires !s.warm
    ensures var s' := s.WarmStart(e);
            var to := if HooksSucceed(s, e) then Ready else Unresponsive;
            s' == s.(backend := to, hb := s'.hb, back := s'.back,
                     out := s.out + [BackendMoved(s.backend, Stopping)] + Work(s, e) + [BackendMoved(Stopping, to)])
  {
    hide W.Deliver, W.OpenEpochs, State.WarmBackend, State.WarmOutcome, HooksSucceed, Work;
    OutcomeIs(s, e);
    var s1 := s.SetBackend(Stopping).Emit(EpochsOpened(e.counted, e.later));
    var s2 := s1.(hb := W.Deliver(W.Deliver(W.OpenEpochs(s1.hb), e.counted), e.later));
    WorkIs(s, s2, e);
    assert s.out + [BackendMoved(s.backend, Stopping)] + Work(s, e) ==
           s2.WarmBackend(e.processes).out;
  }

  lemma WorkIs(s: State, mid: State, e: CommandEnv)
    requires mid.cfg == s.cfg && mid.back == s.back
    requires mid.out == s.out + [BackendMoved(s.backend, Stopping)] + [EpochsOpened(e.counted, e.later)]
    ensures var s' := mid.WarmBackend(e.processes);
            && s' == mid.(back := s'.back, out := s'.out)
            && s'.out == s.out + [BackendMoved(s.backend, Stopping)] + Work(s, e)
  {
    hide B.Ensure, B.Notify;
  }
}
