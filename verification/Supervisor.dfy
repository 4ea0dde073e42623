/** The Watchdog object itself: its fields, the parts it owns, and the methods that update them in place
    (watchdog.go, commands.go, ipc_dispatch.go). Each method is proved to do what the value State does. */
module Supervisor {
  import opened Prelude
  import opened Text
  import opened ServiceState
  import opened Watchdog
  import T = RestartPolicy
  import H = Heartbeat
  import A = Anomaly
  import N = Nonce
  import U = UpdateSuppress
  import R = RecoveryPolicy
  import B = Backend
  import W = WarmStart
  import I = IpcDispatch

  /** What a warm start's calls to its process hooks amount to; r is what the restart came to. */
  function HookActions(calls: seq<W.HookCall>, r: B.Progress, p: W.Processes): seq<Action>
    requires r.result.Some?
  {
    (if p.stopOk then [BackendStopped] else [])
    + (if W.CalledStart in calls then [Ensured(p.probes)] else [])
    + (if W.CalledNotify in calls && r.result.value.Healthy? then
         [DesktopNotified(r.result.value.port, p.minted, p.written)] else [])
  }

  lemma HookActionsOfWarmStart(s: State, p: W.Processes)
    ensures s.WarmBackend(p) == s.(
              back := p.After(s.cfg.backend, s.back),
              out := s.out +
                HookActions(p.Answered(s.cfg.backend, s.back).Calls(), p.Restart(s.cfg.backend, s.back), p))
  {
    hide B.Ensure, B.Notify;
    var a, r := p.Answered(s.cfg.backend, s.back), p.Restart(s.cfg.backend, s.back);
    CallsMade(a);
    var made := HookActions(a.Calls(), r, p);
    if p.stopOk {
      if r.result.value.Healthy? && p.readyOk {
        assert made == [BackendStopped, Ensured(p.probes), DesktopNotified(r.result.value.port, p.minted, p.written)];
      } else {
        assert made == [BackendStopped, Ensured(p.probes)];
      }
    } else {
      assert made == [];
    }
  }

  lemma CallsMade(a: W.Answers)
    ensures W.CalledStart in a.Calls() <==> a.stopOk
    ensures W.CalledNotify in a.Calls() <==> !a.HookFailed()
  {
    var all := [W.CalledStop, W.CalledStart, W.CalledWaitReady, W.CalledNotify];
    assert all[1] == W.CalledStart && all[3] == W.CalledNotify;
    if a.stopOk {
      assert a.Calls()[1] == W.CalledStart;
    }
    if !a.HookFailed() {
      assert a.Calls()[3] == W.CalledNotify;
    }
  }

  class WatchdogProcess {
    const cfg: Config
    const restart: T.RestartTracker
    const heartbeats: H.HeartbeatRegistry
    const updateGate: U.UpdateSuppressGate
    const recovery: R.RecoveryPolicy
    const anomalies: A.AnomalyRegistry
    const nonces: N.NonceCache
    const back: B.BackendManager
    const warmStart: W.WarmStartSequencer
    var paused: bool
    var failCount: int
    var desktopState: ServiceState
    var backendState: ServiceState
    ghost var out: seq<Action>

    /** A warm start that is under way has no outcome yet. */
    ghost predicate Valid()
      reads this, restart, warmStart
    {
      restart.Valid() && back.cfg == cfg.backend && (warmStart.snap.active ==> warmStart.snap.outcome == W.Pending)
    }

    ghost function Parts(): set<object>
      reads this, restart
    {
      {this, restart, restart.buf, heartbeats, updateGate, recovery, anomalies, nonces, back, warmStart}
    }

    ghost function View(): State
      requires Valid()
      reads this, restart, restart.buf, heartbeats, updateGate, recovery, anomalies, nonces, back, warmStart
    {
      State(cfg, paused, failCount, desktopState, backendState, restart.View(), heartbeats.View(),
            updateGate.View(), recovery.View(), anomalies.View(), nonces.View(), back.View(),
            warmStart.snap.active, out)
    }

    constructor (c: Config, policy: T.Policy, heartbeatTimeout: Duration, mergeWindow: Duration,
                 warm: W.WarmConfig, manifest: Option<B.Manifest>)
      requires IsInt64(policy.window) && IsInt64(policy.initialBackoff)
      requires IsInt64(policy.maxBackoff) && IsInt64(policy.resetAfter)
      ensures Valid() && fresh(Parts())
      ensures View() == NewState(c, policy, heartbeatTimeout, mergeWindow, manifest)
    {
      hide H.NormalizeService, T.WithDefaults, T.NewTracker, H.NewRegistry, A.NewAnomalies, N.NewNonces,
           R.NewRecovery, U.NewGate;
      cfg := c;
      restart := new T.RestartTracker(if policy.maxRestarts == 0 then T.DEFAULT_POLICY else policy);
      heartbeats := new H.HeartbeatRegistry(heartbeatTimeout);
      updateGate := new U.UpdateSuppressGate();
      recovery := new R.RecoveryPolicy();
      anomalies := new A.AnomalyRegistry(mergeWindow);
      nonces := new N.NonceCache(10 * MINUTE);
      back := new B.BackendManager(c.backend, manifest);
      warmStart := new W.WarmStartSequencer(warm);
      paused, failCount, desktopState, backendState := false, 0, Unknown, Unknown;
      out := [];
    }

    /** Moves the table does not allow are logged, and made all the same. */
    method SetDesktopState(to: ServiceState)
      requires Valid()
      modifies this`desktopState, this`out
      ensures Valid() && View() == old(View()).SetDesktop(to)
    {
      out := out + [DesktopMoved(desktopState, to)];
      desktopState := to;
    }

    method SetBackendState(to: ServiceState)
      requires Valid()
      modifies this`backendState, this`out
      ensures Valid() && View() == old(View()).SetBackend(to)
    {
      out := out + [BackendMoved(backendState, to)];
      backendState := to;
    }

    method EnsureHealthy(p: B.Probes) returns (ok: bool)
      requires Valid()
      modifies back, this`out
      ensures Valid() && View() == old(View()).Ensure(p)
      ensures ok == old(View()).Healthy(p)
    {
      hide B.Ensure;
      out := out + [Ensured(p)];
      var r, _ := back.EnsureHealthy(p);
      ok := r.Healthy?;
    }

    method BackendReady(info: Option<Info>, at: Time) returns (ok: bool)
      requires Valid()
      ensures ok == View().BackendReady(info, at)
    {
      if info.Some? && info.value.health.ready {
        return true;
      }
      ok := heartbeats.FreshReady(H.BACKEND, at);
    }

    method BackendLive(info: Option<Info>, at: Time) returns (ok: bool)
      requires Valid()
      ensures ok == View().BackendLive(info, at)
    {
      if info.Some? && info.value.health.live {
        return true;
      }
      ok := heartbeats.FreshLive(H.BACKEND, at);
    }

    /** The commands a cycle may issue, and the operator's stop. */
    method RunCommand(cmd: Command, e: CommandEnv) returns (ok: bool)
      requires Valid() && cmd != WarmRestart
      modifies heartbeats, back, this`out
      ensures Valid() && View() == old(View()).Run(cmd, e)
      ensures ok == old(View()).RunOk(cmd, e)
    {
      hide B.Ensure, H.Registry.Bump;
      out := out + [Issued(cmd)];
      match cmd
      case StartDesktop =>
        var _ := heartbeats.BumpEpoch(H.DESKTOP);
        ok := e.launched;
      case StopDesktop =>
        var _ := heartbeats.BumpEpoch(H.DESKTOP);
        ok := true;
      case StartBackend =>
        var _ := heartbeats.BumpEpoch(H.BACKEND);
        ok := EnsureHealthy(e.probes);
      case StopBackend =>
        var _ := heartbeats.BumpEpoch(H.BACKEND);
        back.StopLocked();
        out := out + [BackendStopped];
        ok := true;
    }

    method RecordFailure(now: Time) returns (latched: bool)
      requires Valid()
      modifies this`failCount, this`out, restart, restart.buf
      ensures Valid() && (restart.buf == old(restart.buf) || fresh(restart.buf))
      ensures View() == old(View()).RecordFailure(now)
      ensures latched <==> |View().tracker.attempts| >= View().tracker.policy.maxRestarts
    {
      hide T.Tracker.RecordFailure;
      var backoff, reached := restart.RecordFailure(now);
      latched := reached;
      failCount := failCount + 1;
      out := out + [FailureRecorded(now)];
    }

    method MarkReady(now: Time)
      requires Valid()
      modifies this`failCount, this`out, restart
      ensures Valid() && restart.buf == old(restart.buf)
      ensures View() == old(View()).MarkReady(now)
    {
      hide T.Tracker.MarkReady;
      failCount := 0;
      restart.MarkReady(now);
      out := out + [MarkedReady(now)];
    }

    /* ---- one cycle ---- */

    method ObserveDesktop(d: DesktopProbe)
      requires Valid()
      modifies this`desktopState, this`out
      ensures Valid() && View() == old(View()).ObserveDesktop(d)
    {
      if !d.Known() {
        SetDesktopState(Unknown);
      } else if !d.Up() {
        SetDesktopState(Stopped);
      } else {
        if desktopState == Unknown || desktopState == Stopped {
          SetDesktopState(Starting);
        }
        if desktopState == Starting || desktopState == Degraded {
          SetDesktopState(Ready);
        }
      }
    }

    method PrewarmStage(e: CycleEnv)
      requires Valid()
      modifies back, this`backendState, this`out
      ensures Valid() && View() == old(View()).PrewarmStage(e)
    {
      hide T.Tracker.CanAttempt, State.Ensure, State.BackendReady, State.Healthy;
      var may := restart.CanAttempt(e.now);
      if cfg.prewarm && may {
        var probe := Refresh(e.early, e.earlyHealth);
        var ready := BackendReady(probe, e.earlyAt);
        if probe.None? || !ready {
          var _ := EnsureHealthy(e.prewarm);
        }
      } else if !may {
        SetBackendState(Backoff);
      }
    }

    method SettleUnknownDesktop(b: Option<Info>, e: CycleEnv)
      requires Valid()
      modifies this`backendState, this`out
      ensures Valid() && View() == old(View()).DesktopUnknown(b, e)
    {
      hide State.BackendReady, State.BackendLive;
      if b.None? {
        SetBackendState(Unresponsive);
      } else {
        var ready := BackendReady(b, e.firstAt);
        var live := BackendLive(b, e.secondAt);
        if ready {
          SetBackendState(Ready);
        } else if live {
          SetBackendState(Degraded);
        }
      }
    }

    method RelaunchDesktop(e: CycleEnv)
      requires Valid()
      modifies this`desktopState, this`failCount, this`out, heartbeats, back
      ensures Valid() && View() == old(View()).RelaunchDesktop(e)
    {
      hide State.Run, State.RunOk;
      SetDesktopState(Starting);
      var _ := RunCommand(StartDesktop, e.relaunch);
      failCount := 0;
    }

    method ReplaceDesktop(e: CycleEnv)
      requires Valid()
      modifies this`out, heartbeats, back
      ensures Valid()
      ensures View() ==
                old(View()).Run(StopDesktop, e.stop).Run(StartBackend, e.respawn).Run(StartDesktop, e.relaunch)
    {
      hide State.Run, State.RunOk;
      var _ := RunCommand(StopDesktop, e.stop);
      var _ := RunCommand(StartBackend, e.respawn);
      var _ := RunCommand(StartDesktop, e.relaunch);
    }

    method LastResortRestart(e: CycleEnv)
      requires Valid()
      modifies this`desktopState, this`failCount, this`out, heartbeats, back
      ensures Valid() && View() == old(View()).LastResortRestart(e)
    {
      hide State.Run, State.RunOk;
      SetDesktopState(Stopping);
      out := out + [LastResort];
      ReplaceDesktop(e);
      failCount := 0;
      SetDesktopState(Starting);
    }

    method FailRecovery(e: CycleEnv)
      requires Valid()
      modifies this, restart, restart.buf, heartbeats, back
      ensures Valid() && (restart.buf == old(restart.buf) || fresh(restart.buf))
      ensures View() == old(View()).RecoveryFailed(e)
    {
      hide State.RecordFailure, State.LastResortRestart, State.SetBackend;
      var latched := RecordFailure(e.now);
      if latched {
        SetBackendState(Failed);
        return;
      }
      SetBackendState(Backoff);
      if failCount >= cfg.failThreshold {
        var skip := recovery.ShouldSkipFullDesktopRestart();
        if skip {
          return;
        }
        LastResortRestart(e);
      }
    }

    method SettleReady(now: Time)
      requires Valid()
      modifies this, restart
      ensures Valid() && restart.buf == old(restart.buf)
      ensures View() == old(View()).SettleReady(now)
    {
      hide State.MarkReady;
      MarkReady(now);
      if backendState == Degraded {
        SetBackendState(Ready);
      } else {
        if backendState != Ready && backendState != Starting {
          SetBackendState(Starting);
        }
        if backendState == Starting {
          SetBackendState(Ready);
        }
      }
      if desktopState != Ready {
        SetDesktopState(Ready);
      }
    }

    method Recover(e: CycleEnv)
      requires Valid()
      modifies this, restart, restart.buf, heartbeats, anomalies, back
      ensures Valid() && (restart.buf == old(restart.buf) || fresh(restart.buf))
      ensures View() == old(View()).Recover(e)
    {
      hide State.SetBackend, T.Tracker.CanAttempt, State.Run, State.RunOk, State.RecoveryFailed,
           State.SettleReady, State.BackendReady, A.Anomalies.Gc;
      SetBackendState(Unresponsive);
      var _ := anomalies.HasMergedDual(e.dualAt);
      var may := restart.CanAttempt(e.now);
      if !may {
        SetBackendState(Backoff);
        return;
      }
      SetBackendState(Starting);
      var ok := RunCommand(StartBackend, e.start);
      var found := Reprobe(e.after, e.afterHealth);
      var ready := BackendReady(found, e.afterAt);
      if !ok || found.None? || !ready {
        FailRecovery(e);
      } else {
        SettleReady(e.now);
      }
    }

    method SuperviseUpDesktop(b: Option<Info>, e: CycleEnv)
      requires Valid()
      modifies this, restart, restart.buf, heartbeats, anomalies, back
      ensures Valid() && (restart.buf == old(restart.buf) || fresh(restart.buf))
      ensures View() == old(View()).DesktopUp(b, e)
    {
      hide State.SetBackend, State.SettleReady, State.BackendReady, State.BackendLive, State.Recover;
      var live := BackendLive(b, e.firstAt);
      var ready := BackendReady(b, e.secondAt);
      if b.Some? && live && !ready {
        SetBackendState(Degraded);
        return;
      }
      ready := BackendReady(b, e.thirdAt);
      if b.None? || !ready {
        Recover(e);
      } else {
        SettleReady(e.now);
      }
    }

    method Supervise(e: CycleEnv)
      requires Valid()
      modifies this, restart, restart.buf, heartbeats, anomalies, back
      ensures Valid() && (restart.buf == old(restart.buf) || fresh(restart.buf))
      ensures View() == old(View()).Supervise(e)
    {
      hide State.ObserveDesktop, State.SetBackend, State.PrewarmStage, State.DesktopUnknown, State.RelaunchDesktop,
           State.DesktopUp;
      ObserveDesktop(e.desktop);
      if restart.failed {
        SetBackendState(Failed);
        return;
      }
      PrewarmStage(e);
      var b := Refresh(e.seen, e.seenHealth);
      if !e.desktop.Known() {
        SettleUnknownDesktop(b, e);
      } else if !e.desktop.Up() {
        RelaunchDesktop(e);
      } else {
        SuperviseUpDesktop(b, e);
      }
    }

    method RunCycle(e: CycleEnv)
      requires Valid()
      modifies this, restart, restart.buf, heartbeats, updateGate, anomalies, back
      ensures Valid() && (restart.buf == old(restart.buf) || fresh(restart.buf))
      ensures View() == old(View()).Cycle(e)
    {
      hide U.Gate.Ask, U.Gate.Active, State.Supervise;
      out := [];
      if paused {
        return;
      }
      var source := updateGate.Active(e.gateAt, e.envFlag, e.lockFile);
      if source != U.NotSuppressed {
        return;
      }
      Supervise(e);
    }

    /* ---- the operator ---- */

    method SetPaused(v: bool)
      requires Valid()
      modifies this, restart
      ensures Valid() && restart.buf == old(restart.buf)
      ensures View() == old(View()).SetPaused(v)
    {
      hide T.Tracker.ClearFailed;
      out := [];
      paused := v;
      if !v {
        restart.ClearFailed();
        out := out + [FailedCleared];
        if backendState == Failed {
          backendState := Starting;
        }
        if desktopState == Failed {
          desktopState := Starting;
        }
      }
    }

    method PrewarmBackend(p: B.Probes)
      requires Valid()
      modifies this, back
      ensures Valid() && restart.buf == old(restart.buf)
      ensures View() == old(View()).Prewarm(p)
    {
      hide B.Ensure;
      out := [];
      if !cfg.prewarm {
        return;
      }
      SetBackendState(Starting);
      var ok := EnsureHealthy(p);
      if !ok {
        SetBackendState(Unresponsive);
        return;
      }
      SetBackendState(Ready);
    }

    /* ---- commands and messages ---- */

    /** Runs the sequencer with the default hooks. A closed gate refuses it. */
    method RunSequencer(e: CommandEnv, now: Time, arriving: seq<seq<H.Envelope>>)
      returns (snap: W.Snapshot, ghost met: CommandEnv)
      requires Valid()
      modifies this`out, heartbeats, back, warmStart
      ensures Valid() && met == e.(counted := met.counted, later := met.later)
      ensures old(warmStart.snap.active) ==>
                && View() == old(View()).(warm := e.ended.None?)
                && snap.outcome == if e.ended.Some? then e.ended.value else W.Pending
      ensures !old(warmStart.snap.active) ==>
                && View() == old(View()).Emit(EpochsOpened(met.counted, met.later))
                                 .(hb := W.Deliver(W.Deliver(W.OpenEpochs(old(View()).hb), met.counted), met.later))
                                 .WarmBackend(e.processes)
                && snap.outcome == old(View()).WarmOutcome(met)
    {
      hide W.Deliver, W.OpenEpochs, B.Ensure, B.Notify, W.Processes.After, W.DrainPolls, W.AckPolls, W.OutcomeOf,
           W.Processes.Answered, W.Processes.Restart, W.Answers.Calls, HookActions, State.WarmBackend,
           H.Registry.LastActiveRuns, H.NextEpoch, H.Registry.CurrentEpoch, W.Answers.PhasesReached,
           W.Answers.HookFailed;
      ghost var before := View();
      var hooks := new W.Hooks(heartbeats, back, e.processes, _ => false, now, arriving);
      ghost var counted, later;
      snap, counted, later := warmStart.Run(hooks, e.ended);
      met := e.(counted := counted, later := later);
      if !before.warm {
        ghost var restarted := e.processes.Restart(cfg.backend, before.back);
        out := out + [EpochsOpened(counted, later)] + HookActions(hooks.calls, restarted, e.processes);
        HookActionsOfWarmStart(before.Emit(EpochsOpened(counted, later)).(hb := heartbeats.View()), e.processes);
        ghost var made := e.processes.Answered(cfg.backend, before.back).Calls();
        assert [] + made == made;
      }
    }

    /** The warm-start command. `arriving` are the heartbeats that come in while it sleeps; `met` adds to
        e those that were delivered before and after the last reading of active runs. */
    method RunWarmStart(e: CommandEnv, now: Time, arriving: seq<seq<H.Envelope>>)
      returns (ok: bool, ghost met: CommandEnv)
      requires Valid()
      modifies this`backendState, this`out, heartbeats, back, warmStart
      ensures Valid() && met == e.(counted := met.counted, later := met.later)
      ensures View() == old(View()).WarmStart(met)
      ensures ok <==> old(View()).WarmStartOk(met)
    {
      hide W.Deliver, W.OpenEpochs, State.WarmBackend, W.Answers.HookFailed, W.Processes.Answered,
           H.Registry.LastActiveRuns;
      SetBackendState(Stopping);
      var snap: W.Snapshot;
      snap, met := RunSequencer(e, now, arriving);
      ok := snap.outcome == W.Success || snap.outcome == W.Interrupted;
      if ok {
        SetBackendState(Ready);
      } else {
        SetBackendState(Unresponsive);
      }
    }

    method RunAllowlistedCommand(cmd: Command, e: CommandEnv, now: Time, arriving: seq<seq<H.Envelope>>)
      returns (ok: bool, ghost met: CommandEnv)
      requires Valid()
      modifies this`backendState, this`out, heartbeats, back, warmStart
      ensures Valid() && met == e.(counted := met.counted, later := met.later)
      ensures View() == old(View()).Run(cmd, met)
      ensures ok == old(View()).RunOk(cmd, met)
    {
      hide State.WarmStart, W.Deliver, W.OpenEpochs, W.OutcomeOf, W.Processes.Answered, B.Ensure, H.Registry.Bump;
      if cmd == WarmRestart {
        out := out + [Issued(cmd)];
        ok, met := RunWarmStart(e, now, arriving);
      } else {
        met := e;
        ok := RunCommand(cmd, e);
      }
    }

    method IngestHeartbeat(hb: H.Envelope, at: Time) returns (err: Option<H.IngestError>)
      requires Valid()
      modifies this`out, heartbeats
      ensures Valid() && View() == old(View()).(out := [HeartbeatReceived(hb, at)], hb := old(View()).hb.Ingest(hb, at))
      ensures err == old(View()).hb.Verdict(hb)
    {
      hide H.Registry.Ingest, H.Registry.Verdict;
      out := [HeartbeatReceived(hb, at)];
      err := heartbeats.Ingest(hb, at);
    }

    method HandleCommandRequest(m: I.Envelope, r: I.CommandRequest, role: string, now: Time, e: CommandEnv,
                                arriving: seq<seq<H.Envelope>>)
      returns (reply: I.Reply, ghost met: CommandEnv)
      requires Valid()
      modifies this`backendState, this`out, nonces, heartbeats, back, warmStart
      ensures Valid() && met == e.(counted := met.counted, later := met.later)
      ensures (View(), reply) == I.HandleCommand(old(View()), m, r, role, now, met)
    {
      hide State.Run, State.RunOk, N.Nonces.Accept, N.Nonces.Verdict, TrimSpace, ToLower, ParseCommand,
           I.ReportOnlyRequester;
      met := e;
      var cmd := ParseCommand(TrimSpace(r.command));
      if cmd.None? {
        return I.NotAllowlisted, met;
      }
      if role == "service" || I.ReportOnlyRequester(r.requester) {
        return I.ReportOnly, met;
      }
      if role != "admin" && role != "operator" {
        return I.Unauthorized, met;
      }
      var refused := nonces.Accept(m.nonce, now);
      if refused.Some? {
        return I.NonceRefused(refused.value), met;
      }
      out := out + [Executed(TrimSpace(m.nonce), now, cmd.value)];
      var ok;
      ok, met := RunAllowlistedCommand(cmd.value, e, now, arriving);
      reply := if ok then I.Done(cmd.value) else I.CommandFailed(cmd.value);
    }

    method HandleAnomalyReport(p: A.Report, now: Time) returns (reply: I.Reply)
      requires Valid()
      modifies anomalies, recovery
      ensures Valid()
      ensures (View(), reply) == I.HandleAnomaly(old(View()), p, now)
    {
      hide TrimSpace, A.Anomalies.Ingest, A.Anomalies.Gc, A.Anomalies.NewRecord, R.Recovery.Observe,
           R.IsRendererOnlyAnomaly, ToLower;
      if TrimSpace(p.code) == "" {
        return I.Malformed;
      }
      if TrimSpace(p.service) == "" {
        return I.Malformed;
      }
      var rec := anomalies.Ingest(p, now);
      var _ := recovery.ObserveAnomaly(rec.code);
      reply := if rec.merged then I.Merged else I.Recorded;
    }

    /** The shared entry point of the HTTP and the pipe transport. */
    method HandleIPCMessage(m: I.Envelope, role: string, now: Time, e: CommandEnv, arriving: seq<seq<H.Envelope>>)
      returns (reply: I.Reply, ghost met: CommandEnv)
      requires Valid()
      modifies this`backendState, this`out, nonces, anomalies, recovery, heartbeats, back, warmStart
      ensures Valid() && met == e.(counted := met.counted, later := met.later)
      ensures (View(), reply) == I.Handle(old(View()), m, role, now, met)
    {
      hide TrimSpace, ToLower, I.HandleCommand, I.HandleAnomaly, H.Registry.Ingest, H.Registry.Verdict;
      met := e;
      out := [];
      if m.protocolVersion != I.PROTOCOL_VERSION {
        return I.Unsupported, met;
      }
      var kind := m.Type();
      if kind == "heartbeat" {
        if m.body.heartbeat.None? {
          return I.Malformed, met;
        }
        out := out + [HeartbeatReceived(I.HeartbeatOf(m), now)];
        var err := heartbeats.Ingest(I.HeartbeatOf(m), now);
        reply := if err.Some? then I.LeaseRefused(err.value) else I.Recorded;
      } else if kind == "anomaly_report" {
        if m.body.anomaly.None? {
          return I.Malformed, met;
        }
        reply := HandleAnomalyReport(m.body.anomaly.value, now);
      } else if kind == "command_request" {
        if m.body.command.None? {
          return I.Malformed, met;
        }
        reply, met := HandleCommandRequest(m, m.body.command.value, role, now, e, arriving);
      } else {
        reply := I.Unsupported;
      }
    }
  }
}
