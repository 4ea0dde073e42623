/** The watchdog as a value: its state, its control-plane commands (commands.go), one RunCycle
    (watchdog.go) and the operator's pause. Every step lists, in `out`, what it did, in order. */
module Watchdog {
  import opened Prelude
  import opened ServiceState
  import T = RestartPolicy
  import H = Heartbeat
  import A = Anomaly
  import N = Nonce
  import U = UpdateSuppress
  import R = RecoveryPolicy
  import B = Backend
  import W = WarmStart

  datatype Command = StartDesktop | StartBackend | StopBackend | WarmRestart | StopDesktop

  /** The allowlist: anything else is not a command. */
  function ParseCommand(s: string): Option<Command> {
    if s == "start_desktop" then Some(StartDesktop)
    else if s == "start_backend" then Some(StartBackend)
    else if s == "stop_backend" then Some(StopBackend)
    else if s == "warm_restart" then Some(WarmRestart)
    else if s == "stop_desktop" then Some(StopDesktop)
    else None
  }

  datatype Action =
    | Issued(cmd: Command)
    | Ensured(probes: B.Probes)
    | BackendStopped
    | DesktopNotified(port: int, minted: Option<string>, written: bool)
    | EpochsOpened(counted: seq<W.Beat>, later: seq<W.Beat>)
    | HeartbeatReceived(env: H.Envelope, at: Time)
    | DesktopMoved(from: ServiceState, to: ServiceState)
    | BackendMoved(from: ServiceState, to: ServiceState)
    | FailureRecorded(at: Time)
    | MarkedReady(at: Time)
    | FailedCleared
    | LastResort
    | Executed(nonce: string, at: Time, cmd: Command)

  datatype Config = Config(prewarm: bool, failThreshold: int, backend: B.Config)

  datatype Health = Health(live: bool, ready: bool, probed: bool)

  datatype Info = Info(pid: int, port: int, health: Health)

  datatype DesktopProbe = ProbeFailed | Count(n: int)
  {
    predicate Known() { Count? }

    predicate Up() { Count? && n > 0 }
  }

  /** What a command meets: EnsureHealthy's probes, whether Desktop launches, and a warm start's
      process answers and the heartbeats delivered before and after its last reading of active runs. ended:
      the outcome of the warm start that refuses this one, if it ends before the refused caller looks again. */
  datatype CommandEnv = CommandEnv(
    probes: B.Probes, launched: bool, processes: W.Processes, counted: seq<W.Beat>, later: seq<W.Beat>,
    ended: Option<W.Outcome>)

  /** What one cycle observes, in the order it looks. Freshness of the backend's lease is judged at the
      instant of each look. */
  datatype CycleEnv = CycleEnv(
    gateAt: Time, envFlag: bool, lockFile: bool,
    now: Time, desktop: DesktopProbe,
    early: Option<Info>, earlyHealth: Health, earlyAt: Time, prewarm: B.Probes,
    seen: Option<Info>, seenHealth: Health, firstAt: Time, secondAt: Time, thirdAt: Time,
    dualAt: Time, start: CommandEnv, after: Option<Info>, afterHealth: Health, afterAt: Time,
    stop: CommandEnv, respawn: CommandEnv, relaunch: CommandEnv)

  /** A backend found without a health verdict is probed again. */
  function Refresh(info: Option<Info>, h: Health): Option<Info> {
    if info.Some? && info.value.port > 0 && !info.value.health.probed then Some(info.value.(health := h)) else info
  }

  /** After a start the health is always probed again. */
  function Reprobe(info: Option<Info>, h: Health): Option<Info> {
    if info.Some? && info.value.port > 0 then Some(info.value.(health := h)) else info
  }

  datatype State = State(
    cfg: Config,
    paused: bool,
    failCount: int,
    desktop: ServiceState,
    backend: ServiceState,
    tracker: T.Tracker,
    hb: H.Registry,
    gate: U.Gate,
    recovery: R.Recovery,
    anomalies: A.Anomalies,
    nonces: N.Nonces,
    back: B.Back,
    warm: bool, // a warm start is under way already
    out: seq<Action>)
  {
    function Emit(a: Action): State {
      this.(out := out + [a])
    }

    /** Illegal moves are forced: observed reality wins over the table. */
    function SetDesktop(to: ServiceState): State {
      Emit(DesktopMoved(desktop, to)).(desktop := to)
    }

    function SetBackend(to: ServiceState): State {
      Emit(BackendMoved(backend, to)).(backend := to)
    }

    function Ensure(p: B.Probes): State {
      Emit(Ensured(p)).(back := B.Ensure(cfg.backend, back, p).back)
    }

    predicate Healthy(p: B.Probes) {
      B.Ensure(cfg.backend, back, p).result.value.Healthy?
    }

    function Bump(service: string): State {
      this.(hb := hb.Bump(service))
    }

    predicate BackendReady(info: Option<Info>, at: Time) {
      (info.Some? && info.value.health.ready) || hb.FreshReady(H.BACKEND, at)
    }

    predicate BackendLive(info: Option<Info>, at: Time) {
      (info.Some? && info.value.health.live) || hb.FreshLive(H.BACKEND, at)
    }

    function RecordFailure(now: Time): State {
      Emit(FailureRecorded(now)).(tracker := tracker.RecordFailure(now), failCount := failCount + 1)
    }

    function MarkReady(now: Time): State {
      Emit(MarkedReady(now)).(tracker := tracker.MarkReady(now), failCount := 0)
    }

    /* ---- commands ---- */

    function WarmBackend(e: W.Processes): State {
      if !e.stopOk then this
      else
        var r := e.Restart(cfg.backend, back);
        var s := Emit(BackendStopped).Emit(Ensured(e.probes));
        var s' := if r.result.value.Healthy? && e.readyOk
                  then s.Emit(DesktopNotified(r.result.value.port, e.minted, e.written)) else s;
        s'.(back := e.After(cfg.backend, back))
    }

    function WarmOutcome(e: CommandEnv): W.Outcome {
      W.OutcomeOf(
        e.processes.Answered(cfg.backend, back).HookFailed(),
        W.Deliver(W.OpenEpochs(hb), e.counted).LastActiveRuns(H.BACKEND))
    }

    /** The command while another warm start is under way: the sequencer refuses, and the backend state
        follows whatever outcome the snapshot shows by then. */
    function RefusedWarmStart(e: CommandEnv): State {
      SetBackend(Stopping).(warm := e.ended.None?).SetBackend(if WarmStartOk(e) then Ready else Unresponsive)
    }

    function GrantedWarmStart(e: CommandEnv): State {
      var s := SetBackend(Stopping)
               .Emit(EpochsOpened(e.counted, e.later))
               .(hb := W.Deliver(W.Deliver(W.OpenEpochs(hb), e.counted), e.later))
               .WarmBackend(e.processes);
      if WarmOutcome(e).Failed? then s.SetBackend(Unresponsive) else s.SetBackend(Ready)
    }

    function WarmStart(e: CommandEnv): State {
      if warm then RefusedWarmStart(e) else GrantedWarmStart(e)
    }

    predicate WarmStartOk(e: CommandEnv) {
      if warm then e.ended == Some(W.Success) || e.ended == Some(W.Interrupted) else !WarmOutcome(e).Failed?
    }

    function Run(cmd: Command, e: CommandEnv): State {
      match cmd
      case StartDesktop => Emit(Issued(cmd)).Bump(H.DESKTOP)
      case StopDesktop => Emit(Issued(cmd)).Bump(H.DESKTOP)
      case StartBackend => Emit(Issued(cmd)).Bump(H.BACKEND).Ensure(e.probes)
      case StopBackend =>
        Emit(Issued(cmd)).Bump(H.BACKEND).Emit(BackendStopped).(back := back.Stop())
      case WarmRestart => Emit(Issued(cmd)).WarmStart(e)
    }

    predicate RunOk(cmd: Command, e: CommandEnv) {
      match cmd
      case StartDesktop => e.launched
      case StopDesktop => true
      case StartBackend => Healthy(e.probes)
      case StopBackend => true
      case WarmRestart => WarmStartOk(e)
    }

    /* ---- one cycle ---- */

    function ObserveDesktop(d: DesktopProbe): State {
      if !d.Known() then SetDesktop(Unknown)
      else if !d.Up() then SetDesktop(Stopped)
      else
        var s := if desktop == Unknown || desktop == Stopped then SetDesktop(Starting) else this;
        if s.desktop == Starting || s.desktop == Degraded then s.SetDesktop(Ready) else s
    }

    /** With prewarming on, EnsureHealthy runs whenever no Ready backend is visible; inside the back-off
        only the state is adjusted. */
    function PrewarmStage(e: CycleEnv): State {
      if cfg.prewarm && tracker.CanAttempt(e.now) then
        var probe := Refresh(e.early, e.earlyHealth);
        if probe.None? || !BackendReady(probe, e.earlyAt) then Ensure(e.prewarm) else this
      else if !tracker.CanAttempt(e.now) then SetBackend(Backoff)
      else this
    }

    function DesktopUnknown(b: Option<Info>, e: CycleEnv): State {
      if b.None? then SetBackend(Unresponsive)
      else if BackendReady(b, e.firstAt) then SetBackend(Ready)
      else if BackendLive(b, e.secondAt) then SetBackend(Degraded)
      else this
    }

    function RelaunchDesktop(e: CycleEnv): State {
      SetDesktop(Starting).Run(StartDesktop, e.relaunch).(failCount := 0)
    }

    function LastResortRestart(e: CycleEnv): State {
      SetDesktop(Stopping).Emit(LastResort)
      .Run(StopDesktop, e.stop).Run(StartBackend, e.respawn).Run(StartDesktop, e.relaunch)
      .(failCount := 0)
      .SetDesktop(Starting)
    }

    /** A start that did not bring up a Ready backend. */
    function RecoveryFailed(e: CycleEnv): State {
      var s := RecordFailure(e.now);
      if |s.tracker.attempts| >= s.tracker.policy.maxRestarts then s.SetBackend(Failed)
      else
        var s' := s.SetBackend(Backoff);
        if s'.failCount >= cfg.failThreshold && !recovery.lastRendererOnly then s'.LastResortRestart(e) else s'
    }

    function Recover(e: CycleEnv): State {
      var s := SetBackend(Unresponsive).(anomalies := anomalies.Gc(e.dualAt));
      if !tracker.CanAttempt(e.now) then s.SetBackend(Backoff)
      else
        var started := s.SetBackend(Starting).Run(StartBackend, e.start);
        var b := Reprobe(e.after, e.afterHealth);
        if !s.SetBackend(Starting).RunOk(StartBackend, e.start) || b.None? || !started.BackendReady(b, e.afterAt)
        then started.RecoveryFailed(e)
        else started.SettleReady(e.now)
    }

    /** Both services are up: streaks are cleared and the states are walked to Ready. */
    function SettleReady(now: Time): State {
      var s := MarkReady(now);
      var b :=
        if s.backend == Ready then s
        else if s.backend == Degraded || s.backend == Starting then s.SetBackend(Ready)
        else s.SetBackend(Starting).SetBackend(Ready);
      if b.desktop != Ready then b.SetDesktop(Ready) else b
    }

    function DesktopUp(b: Option<Info>, e: CycleEnv): State {
      if b.Some? && BackendLive(b, e.firstAt) && !BackendReady(b, e.secondAt) then SetBackend(Degraded)
      else if b.None? || !BackendReady(b, e.thirdAt) then Recover(e)
      else SettleReady(e.now)
    }

    /** The part of a cycle that a pause or an update suppresses. */
    function Supervise(e: CycleEnv): State {
      var s := ObserveDesktop(e.desktop);
      if tracker.failed then s.SetBackend(Failed)
      else
        var s' := s.PrewarmStage(e);
        var b := Refresh(e.seen, e.seenHealth);
        if !e.desktop.Known() then s'.DesktopUnknown(b, e)
        else if !e.desktop.Up() then s'.RelaunchDesktop(e)
        else s'.DesktopUp(b, e)
    }

    predicate Suppressed(e: CycleEnv) {
      gate.Active(e.gateAt, e.envFlag, e.lockFile) != U.NotSuppressed
    }

    function Cycle(e: CycleEnv): State {
      var s := this.(out := []);
      if paused then s
      else if Suppressed(e) then s.(gate := gate.Ask(e.gateAt))
      else s.(gate := gate.Ask(e.gateAt)).Supervise(e)
    }

    /** Resuming is the operator's way out of Failed. */
    function SetPaused(v: bool): State {
      var s := this.(out := [], paused := v);
      if v then s
      else s.Emit(FailedCleared).(
             tracker := tracker.ClearFailed(),
             backend := if backend == Failed then Starting else backend,
             desktop := if desktop == Failed then Starting else desktop)
    }

    function Prewarm(p: B.Probes): State {
      var s := this.(out := []);
      if !cfg.prewarm then s
      else
        var s' := s.SetBackend(Starting).Ensure(p);
        s'.SetBackend(if Healthy(p) then Ready else Unresponsive)
    }
  }

  function NewState(cfg: Config, policy: T.Policy, heartbeatTimeout: Duration, mergeWindow: Duration,
                    manifest: Option<B.Manifest>): State
  {
    var p := if policy.maxRestarts == 0 then T.DEFAULT_POLICY else policy;
    State(cfg, false, 0, Unknown, Unknown, T.NewTracker(T.WithDefaults(p)), H.NewRegistry(heartbeatTimeout),
          U.NewGate(), R.NewRecovery(), A.NewAnomalies(mergeWindow), N.NewNonces(10 * MINUTE),
          B.Back(false, 0, 0, "", false, manifest), false, [])
  }
}
