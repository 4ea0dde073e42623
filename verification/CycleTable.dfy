/** RunCycle as one flat decision table over the state before the cycle and what the cycle observes, stated
    through none of its stages: what it lists besides state moves, and how both states, the limiter and the
    fail count end. */
module CycleTable {
  import opened Prelude
  import opened ServiceState
  import opened Watchdog
  import opened WatchdogRuns
  import T = RestartPolicy
  import H = Heartbeat
  import A = Anomaly
  import B = Backend

  /* ---- observations ---- */

  predicate DesktopUp(e: CycleEnv) {
    e.desktop.Count? && e.desktop.n > 0
  }

  predicate DesktopDown(e: CycleEnv) {
    e.desktop.Count? && e.desktop.n <= 0
  }

  /** The health a found backend shows: probed now, if nobody had and it has a port. */
  function Shown(info: Info, probe: Health): Health {
    if info.port > 0 && !info.health.probed then probe else info.health
  }

  predicate LeaseLive(s: State, at: Time) {
    "hermes-backend" in s.hb.leases && at - s.hb.leases["hermes-backend"].receivedAt <= s.hb.timeout
  }

  predicate LeaseReady(s: State, at: Time) {
    LeaseLive(s, at) && s.hb.leases["hermes-backend"].state == "ready"
  }

  predicate ShowsReady(s: State, info: Option<Info>, probe: Health, at: Time) {
    (info.Some? && Shown(info.value, probe).ready) || LeaseReady(s, at)
  }

  predicate ShowsLive(s: State, info: Option<Info>, probe: Health, at: Time) {
    (info.Some? && Shown(info.value, probe).live) || LeaseLive(s, at)
  }

  predicate MayTry(s: State, now: Time) {
    !s.tracker.failed && (s.tracker.nextAt == None || s.tracker.nextAt.value <= now)
  }

  predicate UpdateRuns(s: State, e: CycleEnv) {
    || (s.gate.apiOn && (s.gate.apiExpire == None || e.gateAt <= s.gate.apiExpire.value))
    || e.envFlag || e.lockFile
  }

  /** Prewarming looks first and finds no backend that is ready. */
  predicate Prewarms(s: State, e: CycleEnv) {
    s.cfg.prewarm && MayTry(s, e.now) && (e.early == None || !ShowsReady(s, e.early, e.earlyHealth, e.earlyAt))
  }

  function Prewarmed(s: State, e: CycleEnv): B.Back {
    if Prewarms(s, e) then B.Ensure(s.cfg.backend, s.back, e.prewarm).back else s.back
  }

  /** The backend is found, live and not ready. */
  predicate OnlyLive(s: State, e: CycleEnv) {
    && e.seen.Some? && ShowsLive(s, e.seen, e.seenHealth, e.firstAt)
    && !ShowsReady(s, e.seen, e.seenHealth, e.secondAt)
  }

  /** No ready backend is found, and not merely a live one. */
  predicate Missing(s: State, e: CycleEnv) {
    !OnlyLive(s, e) && (e.seen == None || !ShowsReady(s, e.seen, e.seenHealth, e.thirdAt))
  }

  /** The start brings up nothing that a fresh probe calls ready. No lease can vouch for it: the start has
      just dropped the backend's. */
  predicate StartFailsFrom(cfg: B.Config, back: B.Back, e: CycleEnv) {
    || B.Ensure(cfg, back, e.start.probes).result.value.Failed?
    || e.after == None
    || !(if e.after.value.port > 0 then e.afterHealth.ready else e.after.value.health.ready)
  }

  predicate StartFails(s: State, e: CycleEnv) {
    StartFailsFrom(s.cfg.backend, Prewarmed(s, e), e)
  }

  /** The failure brings the window to MaxRestarts. */
  predicate Latches(s: State, now: Time) {
    |T.Prune(s.tracker.attempts, now - s.tracker.policy.window)| + 1 >= s.tracker.policy.maxRestarts
  }

  predicate IsLastResort(s: State, now: Time) {
    !Latches(s, now) && s.failCount + 1 >= s.cfg.failThreshold && !s.recovery.lastRendererOnly
  }

  /* ---- the table ---- */

  datatype Row =
    | Paused | Suppressed | Latched | ProbeLost | Relaunched | LiveOnly | HeldBack | Failing | Recovered | AllWell

  function RowOf(s: State, e: CycleEnv): Row {
    if s.paused then Paused
    else if UpdateRuns(s, e) then Suppressed
    else if s.tracker.failed then Latched
    else if e.desktop.ProbeFailed? then ProbeLost
    else if DesktopDown(e) then Relaunched
    else if OnlyLive(s, e) then LiveOnly
    else if !Missing(s, e) then AllWell
    else if !MayTry(s, e.now) then HeldBack
    else if StartFails(s, e) then Failing
    else Recovered
  }

  /** Everything a cycle lists but the moves of the two states. */
  function Deeds(out: seq<Action>): seq<Action> {
    if out == [] then []
    else if Last(out).DesktopMoved? || Last(out).BackendMoved? then Deeds(Front(out))
    else Deeds(Front(out)) + [Last(out)]
  }

  /** A last resort: Desktop is stopped, the backend started, Desktop started again. */
  function Respawn(e: CycleEnv): seq<Action> {
    [LastResort, Issued(StopDesktop), Issued(StartBackend), Ensured(e.respawn.probes), Issued(StartDesktop)]
  }

  function DeedsOf(s: State, e: CycleEnv): seq<Action> {
    var early := if Prewarms(s, e) then [Ensured(e.prewarm)] else [];
    var started := early + [Issued(StartBackend), Ensured(e.start.probes)];
    match RowOf(s, e)
    case Paused => []
    case Suppressed => []
    case Latched => []
    case ProbeLost => early
    case Relaunched => early + [Issued(StartDesktop)]
    case LiveOnly => early
    case HeldBack => []
    case AllWell => early + [MarkedReady(e.now)]
    case Recovered => started + [MarkedReady(e.now)]
    case Failing =>
      started + [FailureRecorded(e.now)]
      + if IsLastResort(s, e.now) then
          Respawn(e)
        else []
  }

  /** The moves of the two states, in order. */
  function Moves(out: seq<Action>): seq<Action> {
    if out == [] then []
    else if Last(out).DesktopMoved? || Last(out).BackendMoved? then Moves(Front(out)) + [Last(out)]
    else Moves(Front(out))
  }

  /** Desktop follows its probe, by way of Starting where it appears. */
  function DesktopMoves(from: ServiceState, d: DesktopProbe): seq<Action> {
    if d.ProbeFailed? then [DesktopMoved(from, Unknown)]
    else if d.n <= 0 then [DesktopMoved(from, Stopped)]
    else if from == Unknown || from == Stopped then [DesktopMoved(from, Starting), DesktopMoved(Starting, Ready)]
    else if from == Starting || from == Degraded then [DesktopMoved(from, Ready)]
    else []
  }

  /** The backend reaches Ready directly from Starting and Degraded, else by way of Starting. */
  function ReadyMoves(from: ServiceState): seq<Action> {
    if from == Ready then []
    else if from == Starting || from == Degraded then [BackendMoved(from, Ready)]
    else [BackendMoved(from, Starting), BackendMoved(Starting, Ready)]
  }

  function MovesOf(s: State, e: CycleEnv): seq<Action> {
    var d := DesktopMoves(s.desktop, e.desktop);
    var held := if MayTry(s, e.now) then [] else [BackendMoved(s.backend, Backoff)];
    var b := if MayTry(s, e.now) then s.backend else Backoff;
    match RowOf(s, e)
    case Paused => []
    case Suppressed => []
    case Latched => d + [BackendMoved(s.backend, ServiceState.Failed)]
    case ProbeLost =>
      d + held +
      if e.seen == None then [BackendMoved(b, Unresponsive)]
      else if ShowsReady(s, e.seen, e.seenHealth, e.firstAt) then [BackendMoved(b, Ready)]
      else if ShowsLive(s, e.seen, e.seenHealth, e.secondAt) then [BackendMoved(b, Degraded)]
      else []
    case Relaunched => d + held + [DesktopMoved(Stopped, Starting)]
    case LiveOnly => d + held + [BackendMoved(b, Degraded)]
    case AllWell => d + held + ReadyMoves(b)
    case HeldBack => d + held + [BackendMoved(b, Unresponsive), BackendMoved(Unresponsive, Backoff)]
    case Recovered => d + Trying(b) + [BackendMoved(Starting, Ready)]
    case Failing => d + Trying(b) + FailingMoves(s, e.now)
  }

  function Trying(from: ServiceState): seq<Action> {
    [BackendMoved(from, Unresponsive), BackendMoved(Unresponsive, Starting)]
  }

  function FailingMoves(s: State, now: Time): seq<Action> {
    [BackendMoved(Starting, if Latches(s, now) then ServiceState.Failed else Backoff)]
    + if IsLastResort(s, now) then [DesktopMoved(Ready, Stopping), DesktopMoved(Stopping, Starting)] else []
  }

  function DesktopOf(s: State, e: CycleEnv): ServiceState {
    var observed := if e.desktop.ProbeFailed? then Unknown else if DesktopDown(e) then Stopped else Ready;
    match RowOf(s, e)
    case Paused => s.desktop
    case Suppressed => s.desktop
    case Relaunched => Starting
    case Failing => if IsLastResort(s, e.now) then Starting else Ready
    case _ => observed
  }

  function BackendOf(s: State, e: CycleEnv): ServiceState {
    var before := if MayTry(s, e.now) then s.backend else Backoff;
    match RowOf(s, e)
    case Paused => s.backend
    case Suppressed => s.backend
    case Latched => ServiceState.Failed
    case ProbeLost =>
      if e.seen == None then Unresponsive
      else if ShowsReady(s, e.seen, e.seenHealth, e.firstAt) then Ready
      else if ShowsLive(s, e.seen, e.seenHealth, e.secondAt) then Degraded
      else before
    case Relaunched => before
    case LiveOnly => Degraded
    case HeldBack => Backoff
    case Failing => if Latches(s, e.now) then ServiceState.Failed else Backoff
    case _ => Ready
  }

  function FailCountOf(s: State, e: CycleEnv): int {
    match RowOf(s, e)
    case Relaunched => 0
    case AllWell => 0
    case Recovered => 0
    case Failing => if IsLastResort(s, e.now) then 0 else s.failCount + 1
    case _ => s.failCount
  }

  /* ---- the helpers of the step against the observations ---- */

  lemma LeasesAre(s: State, at: Time)
    ensures s.hb.FreshReady(H.BACKEND, at) <==> LeaseReady(s, at)
    ensures s.hb.FreshLive(H.BACKEND, at) <==> LeaseLive(s, at)
  {
    H.NormalizeServiceIdempotent("");
    hide H.NormalizeService;
  }

  lemma SightsAre(s: State, info: Option<Info>, probe: Health, at: Time)
    ensures s.BackendReady(Refresh(info, probe), at) <==> ShowsReady(s, info, probe, at)
    ensures s.BackendLive(Refresh(info, probe), at) <==> ShowsLive(s, info, probe, at)
    ensures Refresh(info, probe).None? <==> info.None?
  {
    hide H.Registry.FreshReady, H.Registry.FreshLive, LeaseReady, LeaseLive;
    LeasesAre(s, at);
  }

  lemma GatesAre(s: State, e: CycleEnv)
    ensures s.tracker.CanAttempt(e.now) <==> MayTry(s, e.now)
    ensures s.Suppressed(e) <==> UpdateRuns(s, e)
    ensures e.desktop.Known() <==> e.desktop.Count?
    ensures e.desktop.Up() <==> DesktopUp(e)
  {
  }

  lemma DeedsAppend()
    ensures Deeds([]) == [] && Moves([]) == []
    ensures forall out: seq<Action>, a: Action {:trigger Moves(out + [a])} ::
              Moves(out + [a]) == if a.DesktopMoved? || a.BackendMoved? then Moves(out) + [a] else Moves(out)
    ensures forall out: seq<Action>, a: Action {:trigger Deeds(out + [a])} ::
              Deeds(out + [a]) == if a.DesktopMoved? || a.BackendMoved? then Deeds(out) else Deeds(out) + [a]
  {
    forall out: seq<Action>, a: Action
      ensures Deeds(out + [a]) == if a.DesktopMoved? || a.BackendMoved? then Deeds(out) else Deeds(out) + [a]
      ensures Moves(out + [a]) == if a.DesktopMoved? || a.BackendMoved? then Moves(out) + [a] else Moves(out)
    {
      assert Front(out + [a]) == out;
    }
  }

  /* ---- the stages ---- */

  lemma ObserveRow(s: State, d: DesktopProbe)
    requires Inv(s)
    ensures var s' := s.ObserveDesktop(d);
            && s' == s.(desktop := s'.desktop, out := s'.out)
            && s'.desktop == (if d.ProbeFailed? then Unknown else if d.n <= 0 then Stopped else Ready)
            && Deeds(s'.out) == Deeds(s.out) && Moves(s'.out) == Moves(s.out) + DesktopMoves(s.desktop, d)
  {
    hide Moves, Deeds;
    DeedsAppend();
    assert Moves(s.out) + [] == Moves(s.out);
  }

  lemma PrewarmRow(s: State, e: CycleEnv)
    ensures var s' := s.PrewarmStage(e);
            && s' == s.(backend := if MayTry(s, e.now) then s.backend else Backoff, back := Prewarmed(s, e),
                        out := s'.out)
            && Deeds(s'.out) == Deeds(s.out) + (if Prewarms(s, e) then [Ensured(e.prewarm)] else [])
            && Moves(s'.out) == Moves(s.out) + (if MayTry(s, e.now) then [] else [BackendMoved(s.backend, Backoff)])
  {
    hide Moves, Deeds, B.Ensure, State.BackendReady, ShowsReady, Refresh;
    DeedsAppend();
    SightsAre(s, e.early, e.earlyHealth, e.earlyAt);
    assert Deeds(s.out) + [] == Deeds(s.out) && Moves(s.out) + [] == Moves(s.out);
  }

  lemma ProbeLostRow(s: State, e: CycleEnv)
    ensures var s' := s.DesktopUnknown(Refresh(e.seen, e.seenHealth), e);
            && s' == s.(backend := s'.backend, out := s'.out) && Deeds(s'.out) == Deeds(s.out)
            && Moves(s'.out) == Moves(s.out) + (
                 if e.seen == None then [BackendMoved(s.backend, Unresponsive)]
                 else if ShowsReady(s, e.seen, e.seenHealth, e.firstAt) then [BackendMoved(s.backend, Ready)]
                 else if ShowsLive(s, e.seen, e.seenHealth, e.secondAt) then [BackendMoved(s.backend, Degraded)]
                 else [])
            && s'.backend ==
                 if e.seen == None then Unresponsive
                 else if ShowsReady(s, e.seen, e.seenHealth, e.firstAt) then Ready
                 else if ShowsLive(s, e.seen, e.seenHealth, e.secondAt) then Degraded
                 else s.backend
  {
    hide Moves, Deeds, State.BackendReady, State.BackendLive, ShowsReady, ShowsLive, Refresh;
    DeedsAppend();
    SightsAre(s, e.seen, e.seenHealth, e.firstAt);
    SightsAre(s, e.seen, e.seenHealth, e.secondAt);
    assert Moves(s.out) + [] == Moves(s.out);
  }

  lemma RelaunchRow(s: State, e: CycleEnv)
    ensures var s' := s.RelaunchDesktop(e);
            && s' == s.(desktop := Starting, failCount := 0, hb := s'.hb, out := s'.out)
            && Deeds(s'.out) == Deeds(s.out) + [Issued(StartDesktop)]
            && Moves(s'.out) == Moves(s.out) + [DesktopMoved(s.desktop, Starting)]
  {
    hide Moves, Deeds, H.Registry.Bump;
    DeedsAppend();
  }

  lemma SettleRow(s: State, now: Time)
    requires s.desktop == Ready
    ensures var s' := s.SettleReady(now);
            && s' == s.(backend := Ready, desktop := Ready, failCount := 0, tracker := s.tracker.MarkReady(now),
                        out := s'.out)
            && Deeds(s'.out) == Deeds(s.out) + [MarkedReady(now)]
            && Moves(s'.out) == Moves(s.out) + ReadyMoves(s.backend)
  {
    hide Moves, Deeds, T.Tracker.MarkReady;
    DeedsAppend();
    assert Moves(s.out) + [] == Moves(s.out);
  }

  lemma LastResortRow(s: State, e: CycleEnv)
    ensures var s' := s.LastResortRestart(e);
            && s' == s.(desktop := Starting, failCount := 0, hb := s'.hb, back := s'.back, out := s'.out)
            && Deeds(s'.out) == Deeds(s.out) + [LastResort, Issued(StopDesktop), Issued(StartBackend),
                                                Ensured(e.respawn.probes), Issued(StartDesktop)]
            && Moves(s'.out) == Moves(s.out) + [DesktopMoved(s.desktop, Stopping), DesktopMoved(Stopping, Starting)]
  {
    hide Moves, Deeds, State.LastResortRestart;
    DeedsAppend();
    LastResortEffect(s, e);
    var o0 := s.out + [DesktopMoved(s.desktop, Stopping)] + [LastResort] + [Issued(StopDesktop)];
    assert Deeds(o0) == Deeds(s.out) + [LastResort, Issued(StopDesktop)];
    assert Moves(o0) == Moves(s.out) + [DesktopMoved(s.desktop, Stopping)];
    ServicesRow(s, o0, e);
    assert s.LastResortRestart(e).out ==
        o0 + [Issued(StartBackend)] + [Ensured(e.respawn.probes)] + [Issued(StartDesktop)]
        + [DesktopMoved(Stopping, Starting)];
  }

  lemma ServicesRow(s: State, o0: seq<Action>, e: CycleEnv)
    requires Deeds(o0) == Deeds(s.out) + [LastResort, Issued(StopDesktop)]
    requires Moves(o0) == Moves(s.out) + [DesktopMoved(s.desktop, Stopping)]
    ensures var o := o0 + [Issued(StartBackend)] + [Ensured(e.respawn.probes)] + [Issued(StartDesktop)]
                     + [DesktopMoved(Stopping, Starting)];
            && Deeds(o) == Deeds(s.out) + [LastResort, Issued(StopDesktop), Issued(StartBackend),
                                           Ensured(e.respawn.probes), Issued(StartDesktop)]
            && Moves(o) == Moves(s.out) + [DesktopMoved(s.desktop, Stopping), DesktopMoved(Stopping, Starting)]
  {
    hide Moves, Deeds;
    DeedsAppend();
  }

  lemma FailureRow(s: State, e: CycleEnv)
    requires s.desktop == Ready && s.backend == Starting
    ensures var s' := s.RecoveryFailed(e);
            && s' == s.(backend := if Latches(s, e.now) then ServiceState.Failed else Backoff,
                        desktop := if IsLastResort(s, e.now) then Starting else s.desktop,
                        failCount := if IsLastResort(s, e.now) then 0 else s.failCount + 1,
                        tracker := s.tracker.RecordFailure(e.now), hb := s'.hb, back := s'.back, out := s'.out)
            && Deeds(s'.out) == Deeds(s.out) + [FailureRecorded(e.now)] +
                 if IsLastResort(s, e.now) then
                   Respawn(e)
                 else []
    ensures Moves(s.RecoveryFailed(e).out) == Moves(s.out) + FailingMoves(s, e.now)
  {
    hide Moves, Deeds, State.LastResortRestart, T.Prune, T.Backoff;
    DeedsAppend();
    LastResortRow(s.RecordFailure(e.now).SetBackend(Backoff), e);
    assert Deeds(s.out) + [FailureRecorded(e.now)] + [] == Deeds(s.out) + [FailureRecorded(e.now)];
    var to := if Latches(s, e.now) then ServiceState.Failed else Backoff;
    assert Moves(s.out) + [BackendMoved(Starting, to)] + [] == Moves(s.out) + [BackendMoved(Starting, to)];
  }

  /** No lease vouches for a backend that was just started. */
  lemma StartDropsLease(s: State, e: CommandEnv, at: Time)
    ensures var s' := s.Run(StartBackend, e);
            && s' == s.(hb := s'.hb, back := B.Ensure(s.cfg.backend, s.back, e.probes).back,
                        out := s.out + [Issued(StartBackend)] + [Ensured(e.probes)])
            && !s'.hb.FreshReady(H.BACKEND, at)
            && (s.RunOk(StartBackend, e) <==> B.Ensure(s.cfg.backend, s.back, e.probes).result.value.Healthy?)
  {
    hide H.NormalizeService, B.Ensure, H.NextEpoch;
  }

  lemma RecoverRow(s: State, e: CycleEnv)
    requires s.desktop == Ready
    ensures var s' := s.Recover(e);
            && s' == s.(backend := s'.backend, desktop := s'.desktop, failCount := s'.failCount, tracker := s'.tracker,
                        anomalies := s'.anomalies, hb := s'.hb, back := s'.back, out := s'.out)
            && (if !MayTry(s, e.now) then
                  && s'.backend == Backoff && s'.desktop == s.desktop && s'.failCount == s.failCount
                  && s'.tracker == s.tracker && Deeds(s'.out) == Deeds(s.out)
                  && Moves(s'.out) == Moves(s.out) +
                       [BackendMoved(s.backend, Unresponsive), BackendMoved(Unresponsive, Backoff)]
                else
                  var started := Deeds(s.out) + [Issued(StartBackend)] + [Ensured(e.start.probes)];
                  if StartFailsFrom(s.cfg.backend, s.back, e) then
                    && s'.backend == (if Latches(s, e.now) then ServiceState.Failed else Backoff)
                    && s'.desktop == (if IsLastResort(s, e.now) then Starting else s.desktop)
                    && s'.failCount == (if IsLastResort(s, e.now) then 0 else s.failCount + 1)
                    && s'.tracker == s.tracker.RecordFailure(e.now)
                    && Deeds(s'.out) == started + [FailureRecorded(e.now)] +
                         (if IsLastResort(s, e.now) then
                            Respawn(e)
                          else [])
                    && Moves(s'.out) == Moves(s.out) + Trying(s.backend) + FailingMoves(s, e.now)
                  else
                    && s'.backend == Ready && s'.desktop == Ready && s'.failCount == 0
                    && s'.tracker == s.tracker.MarkReady(e.now)
                    && Deeds(s'.out) == started + [MarkedReady(e.now)]
                    && Moves(s'.out) == Moves(s.out) + Trying(s.backend) + [BackendMoved(Starting, Ready)])
  {
    hide Moves, Deeds, State.RecoveryFailed, State.SettleReady, State.Run, State.RunOk, H.Registry.FreshReady,
         A.Anomalies.Gc, B.Ensure, T.Tracker.RecordFailure, T.Tracker.MarkReady, T.Prune;
    DeedsAppend();
    var s1 := s.SetBackend(Unresponsive).(anomalies := s.anomalies.Gc(e.dualAt)).SetBackend(Starting);
    var started := s1.Run(StartBackend, e.start);
    StartDropsLease(s1, e.start, e.afterAt);
    FailureRow(started, e);
    SettleRow(started, e.now);
    assert Moves(started.out) == Moves(s.out) + Trying(s.backend);
  }

  /* ---- the cycle ---- */

  /** The cycle ends as its row says. */
  ghost predicate AsTabled(s: State, e: CycleEnv, s': State) {
    && Deeds(s'.out) == DeedsOf(s, e) && Moves(s'.out) == MovesOf(s, e)
    && s'.desktop == DesktopOf(s, e) && s'.backend == BackendOf(s, e) && s'.failCount == FailCountOf(s, e)
    && s'.tracker == (match RowOf(s, e)
                      case Failing => s.tracker.RecordFailure(e.now)
                      case Recovered => s.tracker.MarkReady(e.now)
                      case AllWell => s.tracker.MarkReady(e.now)
                      case _ => s.tracker)
    && s'.paused == s.paused && s'.cfg == s.cfg && s'.nonces == s.nonces && s'.recovery == s.recovery
    && s'.warm == s.warm
  }

  /** Desktop was seen up and the early look is over. */
  ghost predicate Looking(s: State, mid: State, e: CycleEnv) {
    && mid == s.(backend := if MayTry(s, e.now) then s.backend else Backoff, desktop := Ready, gate := mid.gate,
                 back := Prewarmed(s, e), out := mid.out)
    && Deeds(mid.out) == (if Prewarms(s, e) then [Ensured(e.prewarm)] else [])
    && Moves(mid.out) == DesktopMoves(s.desktop, e.desktop) +
         (if MayTry(s, e.now) then [] else [BackendMoved(s.backend, Backoff)])
    && !s.paused && !UpdateRuns(s, e) && !s.tracker.failed && DesktopUp(e)
  }

  lemma MissingRow(s: State, mid: State, e: CycleEnv)
    requires Looking(s, mid, e) && Missing(s, e)
    ensures AsTabled(s, e, mid.Recover(e))
  {
    hide Moves, Deeds, State.Recover, ShowsReady, OnlyLive, B.Ensure, T.Tracker.RecordFailure, T.Tracker.MarkReady,
         T.Prune, UpdateRuns, StartFailsFrom, DesktopMoves;
    RecoverRow(mid, e);
    var early := if Prewarms(s, e) then [Ensured(e.prewarm)] else [];
    assert early + [Issued(StartBackend)] + [Ensured(e.start.probes)] ==
           early + [Issued(StartBackend), Ensured(e.start.probes)];
    assert DesktopMoves(s.desktop, e.desktop) + [] == DesktopMoves(s.desktop, e.desktop);
  }

  lemma FoundRow(s: State, mid: State, e: CycleEnv)
    requires Looking(s, mid, e) && !Missing(s, e)
    ensures if OnlyLive(s, e) then AsTabled(s, e, mid.SetBackend(Degraded))
            else AsTabled(s, e, mid.SettleReady(e.now))
  {
    hide Moves, Deeds, State.SettleReady, ShowsReady, ShowsLive, B.Ensure, T.Tracker.MarkReady, UpdateRuns,
         DesktopMoves;
    DeedsAppend();
    SettleRow(mid, e.now);
  }

  lemma UpRow(s: State, mid: State, e: CycleEnv)
    requires Looking(s, mid, e)
    ensures AsTabled(s, e, mid.DesktopUp(Refresh(e.seen, e.seenHealth), e))
  {
    hide AsTabled, Looking, State.Recover, State.SettleReady, State.BackendReady, State.BackendLive, ShowsReady,
         ShowsLive, Refresh, State.SetBackend;
    SightsAre(mid, e.seen, e.seenHealth, e.firstAt);
    SightsAre(mid, e.seen, e.seenHealth, e.secondAt);
    SightsAre(mid, e.seen, e.seenHealth, e.thirdAt);
    assert mid.hb == s.hb by { LookingKeepsLeases(s, mid, e); }
    SameSights(s, mid, e);
    if Missing(s, e) {
      MissingRow(s, mid, e);
    } else {
      FoundRow(s, mid, e);
    }
  }

  lemma LookingKeepsLeases(s: State, mid: State, e: CycleEnv)
    requires Looking(s, mid, e)
    ensures mid.hb == s.hb
  {
  }

  lemma SameSights(s: State, mid: State, e: CycleEnv)
    requires mid.hb == s.hb
    ensures forall at :: ShowsReady(mid, e.seen, e.seenHealth, at) == ShowsReady(s, e.seen, e.seenHealth, at)
    ensures forall at :: ShowsLive(mid, e.seen, e.seenHealth, at) == ShowsLive(s, e.seen, e.seenHealth, at)
  {
  }

  lemma SuperviseRow(s: State, now: State, e: CycleEnv)
    requires Inv(s) && now == s.(gate := now.gate, out := [])
    requires !s.paused && !UpdateRuns(s, e)
    ensures AsTabled(s, e, now.Supervise(e))
  {
    hide Moves, Deeds, State.ObserveDesktop, State.PrewarmStage, State.DesktopUnknown, State.RelaunchDesktop,
         State.DesktopUp, ShowsReady, ShowsLive, Refresh, B.Ensure, T.Tracker.RecordFailure, T.Tracker.MarkReady,
         T.Tracker.CanAttempt, T.Prune, UpdateRuns, Prewarmed;
    DeedsAppend();
    GatesAre(s, e);
    var s1 := now.ObserveDesktop(e.desktop);
    ObserveRow(now, e.desktop);
    if !s.tracker.failed {
      var s2 := s1.PrewarmStage(e);
      PrewarmRow(s1, e);
      SamePrewarming(s, s1, e);
      ProbeLostRow(s2, e);
      SameSights(s, s2, e);
      RelaunchRow(s2, e);
      assert [] + DesktopMoves(s.desktop, e.desktop) == DesktopMoves(s.desktop, e.desktop);
      var early := if Prewarms(s, e) then [Ensured(e.prewarm)] else [];
      assert [] + early == early;
      if DesktopUp(e) {
        UpRow(s, s2, e);
      }
    }
  }

  lemma SamePrewarming(s: State, s1: State, e: CycleEnv)
    requires s1.hb == s.hb && s1.tracker == s.tracker && s1.cfg == s.cfg && s1.back == s.back
    ensures Prewarms(s1, e) == Prewarms(s, e) && Prewarmed(s1, e) == Prewarmed(s, e)
  {
    hide B.Ensure;
  }

  /** Every cycle from every reachable state ends as the table says. */
  lemma CycleIs(s: State, e: CycleEnv)
    requires Inv(s)
    ensures AsTabled(s, e, s.Cycle(e))
    ensures s.paused ==> s.Cycle(e) == s.(out := [])
    ensures !s.paused && UpdateRuns(s, e) ==> s.Cycle(e) == s.(out := [], gate := s.Cycle(e).gate)
  {
    hide State.Supervise, T.Tracker.RecordFailure, T.Tracker.MarkReady, T.Tracker.CanAttempt, UpdateRuns;
    GatesAre(s, e);
    DeedsAppend();
    if !s.paused && !UpdateRuns(s, e) {
      SuperviseRow(s, s.(out := [], gate := s.gate.Ask(e.gateAt)), e);
    }
  }

  /* ---- what it says about recovery ---- */

  /** The cycle tries to recover the backend: it is active and not latched, Desktop is up, no ready backend and
      not merely a live one is found, and the delay is over. */
  predicate Tries(s: State, e: CycleEnv) {
    && !s.paused && !UpdateRuns(s, e) && DesktopUp(e) && Missing(s, e) && MayTry(s, e.now)
  }

  lemma {:induction false} DeedsAreDone(out: seq<Action>, a: Action)
    requires !a.DesktopMoved? && !a.BackendMoved?
    ensures a in Deeds(out) <==> a in out
  {
    if out != [] {
      DeedsAreDone(Front(out), a);
      assert a in out <==> a in Front(out) || a == Last(out);
    }
  }

  /** A cycle records a failure exactly when it tries, and the start fails, or nothing is found afterwards, or
      what is found is not ready when probed afresh. */
  lemma RecordsFailureIff(s: State, e: CycleEnv)
    requires Inv(s)
    ensures FailureRecorded(e.now) in s.Cycle(e).out <==> Tries(s, e) && StartFails(s, e)
    ensures s.Cycle(e).tracker == s.tracker.RecordFailure(e.now) || s.Cycle(e).tracker == s.tracker ||
            s.Cycle(e).tracker == s.tracker.MarkReady(e.now)
  {
    hide State.Cycle, StartFails, UpdateRuns, OnlyLive, ShowsReady, T.Tracker.RecordFailure, T.Tracker.MarkReady;
    CycleIs(s, e);
    DeedsAreDone(s.Cycle(e).out, FailureRecorded(e.now));
  }

  /** It observes Ready, and clears the limiter, exactly when it finds a ready backend with Desktop up, or tries
      and what it started is ready when probed afresh. */
  lemma MarksReadyIff(s: State, e: CycleEnv)
    requires Inv(s)
    ensures MarkedReady(e.now) in s.Cycle(e).out <==>
              || (Tries(s, e) && !StartFails(s, e))
              || (&& !s.paused && !UpdateRuns(s, e) && !s.tracker.failed && DesktopUp(e)
                  && e.seen.Some? && ShowsReady(s, e.seen, e.seenHealth, e.thirdAt) && !OnlyLive(s, e))
  {
    hide State.Cycle, StartFails, UpdateRuns, OnlyLive, ShowsReady, T.Tracker.RecordFailure, T.Tracker.MarkReady;
    CycleIs(s, e);
    DeedsAreDone(s.Cycle(e).out, MarkedReady(e.now));
  }

  /** Either way it starts the backend first, and only then. */
  lemma RecoversIff(s: State, e: CycleEnv)
    requires Inv(s)
    ensures Issued(StartBackend) in s.Cycle(e).out <==> Tries(s, e)
  {
    hide State.Cycle, StartFails, UpdateRuns, OnlyLive, ShowsReady, T.Tracker.RecordFailure, T.Tracker.MarkReady;
    CycleIs(s, e);
    DeedsAreDone(s.Cycle(e).out, Issued(StartBackend));
  }
}
