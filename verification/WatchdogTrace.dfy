/** What a step does to the backend supervisor and to the lease registry is among the actions it lists,
    and nothing else is. */
module WatchdogTrace {
  import opened Prelude
  import opened Text
  import opened ServiceState
  import opened Watchdog
  import opened CommandFrame
  import opened WatchdogRuns
  import T = RestartPolicy
  import H = Heartbeat
  import A = Anomaly
  import N = Nonce
  import U = UpdateSuppress
  import R = RecoveryPolicy
  import B = Backend
  import W = WarmStart
  import I = IpcDispatch

  /** What an action does to the supervisor. */
  function Supervised(cfg: B.Config, b: B.Back, a: Action): B.Back {
    match a
    case Ensured(p) => B.Ensure(cfg, b, p).back
    case BackendStopped => b.Stop()
    case DesktopNotified(port, minted, written) => B.Notify(b, port, minted, written).0
    case _ => b
  }

  /** What an action does to the lease registry. */
  function Leased(r: H.Registry, a: Action): H.Registry {
    match a
    case HeartbeatReceived(env, at) => r.Ingest(env, at)
    case EpochsOpened(counted, later) => W.Deliver(W.Deliver(W.OpenEpochs(r), counted), later)
    case Issued(StartDesktop) => r.Bump(H.DESKTOP)
    case Issued(StopDesktop) => r.Bump(H.DESKTOP)
    case Issued(StartBackend) => r.Bump(H.BACKEND)
    case Issued(StopBackend) => r.Bump(H.BACKEND)
    case _ => r
  }

  function BackAfter(cfg: B.Config, b: B.Back, out: seq<Action>): B.Back {
    if out == [] then b else Supervised(cfg, BackAfter(cfg, b, Front(out)), Last(out))
  }

  function LeasesAfter(r: H.Registry, out: seq<Action>): H.Registry {
    if out == [] then r else Leased(LeasesAfter(r, Front(out)), Last(out))
  }

  /** Both parts are where the actions listed so far have put them, from b and r. */
  ghost predicate Traced(b: B.Back, r: H.Registry, s: State) {
    && s.back == BackAfter(s.cfg.backend, b, s.out)
    && s.hb == LeasesAfter(r, s.out)
  }

  lemma TraceAppend(cfg: B.Config, b: B.Back, r: H.Registry)
    ensures BackAfter(cfg, b, []) == b && LeasesAfter(r, []) == r
    ensures forall out: seq<Action>, a: Action {:trigger BackAfter(cfg, b, out + [a])} ::
              BackAfter(cfg, b, out + [a]) == Supervised(cfg, BackAfter(cfg, b, out), a)
    ensures forall out: seq<Action>, a: Action {:trigger LeasesAfter(r, out + [a])} ::
              LeasesAfter(r, out + [a]) == Leased(LeasesAfter(r, out), a)
  {
    hide Supervised, Leased;
    forall out: seq<Action>, a: Action
      ensures BackAfter(cfg, b, out + [a]) == Supervised(cfg, BackAfter(cfg, b, out), a)
      ensures LeasesAfter(r, out + [a]) == Leased(LeasesAfter(r, out), a)
    {
      assert Front(out + [a]) == out;
    }
  }

  lemma WarmBackendTraced(b: B.Back, r: H.Registry, s: State, p: W.Processes)
    requires Traced(b, r, s)
    ensures Traced(b, r, s.WarmBackend(p)) && s.WarmBackend(p).cfg == s.cfg
  {
    hide BackAfter, LeasesAfter, B.Ensure, B.Notify;
    TraceAppend(s.cfg.backend, b, r);
  }

  lemma WarmTraced(b: B.Back, r: H.Registry, s: State, e: CommandEnv)
    requires Traced(b, r, s)
    ensures Traced(b, r, s.WarmStart(e))
  {
    hide BackAfter, LeasesAfter, W.Deliver, W.OpenEpochs, State.WarmOutcome, State.WarmBackend;
    TraceAppend(s.cfg.backend, b, r);
    var s1 := s.SetBackend(Stopping).Emit(EpochsOpened(e.counted, e.later));
    WarmBackendTraced(b, r, s1.(hb := W.Deliver(W.Deliver(W.OpenEpochs(s1.hb), e.counted), e.later)), e.processes);
  }

  lemma RunTraced(b: B.Back, r: H.Registry, s: State, cmd: Command, e: CommandEnv)
    requires Traced(b, r, s)
    ensures Traced(b, r, s.Run(cmd, e)) && s.Run(cmd, e).cfg == s.cfg
  {
    hide BackAfter, LeasesAfter, B.Ensure, H.Registry.Bump, State.WarmStart;
    TraceAppend(s.cfg.backend, b, r);
    if cmd == WarmRestart {
      WarmTraced(b, r, s.Emit(Issued(cmd)), e);
      WarmStartFrame(s.Emit(Issued(cmd)), e);
    }
  }

  lemma MessageTraced(s: State, m: I.Envelope, role: string, now: Time, e: CommandEnv)
    ensures Traced(s.back, s.hb, I.Handle(s, m, role, now, e).0)
  {
    hide TrimSpace, I.Envelope.Type, I.ReportOnlyRequester, I.Turned, State.Run, State.RunOk, N.Nonces.Verdict,
         N.Nonces.Accept, BackAfter, LeasesAfter, H.Registry.Ingest, H.Registry.Verdict, A.Anomalies.Ingest,
         A.Anomalies.Gc, A.Anomalies.NewRecord, R.Recovery.Observe;
    TraceAppend(s.cfg.backend, s.back, s.hb);
    if m.body.command.Some? {
      I.TurnedOnlyWithoutCommand(m.body.command.value, role);
      var cmd := ParseCommand(TrimSpace(m.body.command.value.command));
      if cmd.Some? {
        var s0 := s.(out := [], nonces := s.nonces.Accept(m.nonce, now));
        RunTraced(s.back, s.hb, s0.Emit(Executed(TrimSpace(m.nonce), now, cmd.value)), cmd.value, e);
      }
    }
  }

  lemma ObserveTraced(b: B.Back, r: H.Registry, s: State, d: DesktopProbe)
    requires Traced(b, r, s)
    ensures Traced(b, r, s.ObserveDesktop(d)) && s.ObserveDesktop(d).cfg == s.cfg
  {
    hide BackAfter, LeasesAfter;
    TraceAppend(s.cfg.backend, b, r);
  }

  lemma PrewarmTraced(b: B.Back, r: H.Registry, s: State, e: CycleEnv)
    requires Traced(b, r, s)
    ensures Traced(b, r, s.PrewarmStage(e)) && s.PrewarmStage(e).cfg == s.cfg
  {
    hide BackAfter, LeasesAfter, B.Ensure, State.BackendReady;
    TraceAppend(s.cfg.backend, b, r);
  }

  /** State moves and marks do nothing to the two parts. */
  lemma {:induction false} MovesTraced(cfg: B.Config, b: B.Back, r: H.Registry, out: seq<Action>, moves: seq<Action>)
    requires forall i :: 0 <= i < |moves| ==> moves[i].DesktopMoved? || moves[i].BackendMoved? || moves[i].MarkedReady?
    ensures BackAfter(cfg, b, out + moves) == BackAfter(cfg, b, out)
    ensures LeasesAfter(r, out + moves) == LeasesAfter(r, out)
  {
    if moves == [] {
      assert out + moves == out;
    } else {
      assert Front(out + moves) == out + Front(moves);
      MovesTraced(cfg, b, r, out, Front(moves));
    }
  }

  lemma MarkReadyKeeps(s: State, now: Time)
    ensures var s' := s.MarkReady(now); s'.back == s.back && s'.hb == s.hb && s'.cfg == s.cfg
  {
  }

  lemma SettleTraced(b: B.Back, r: H.Registry, s: State, now: Time)
    requires Traced(b, r, s)
    ensures Traced(b, r, s.SettleReady(now))
  {
    hide BackAfter, LeasesAfter, State.SettleReady, State.MarkReady, Supervised, Leased;
    var moves := SettleReadyMoves(s, now);
    MovesTraced(s.cfg.backend, b, r, s.out + [MarkedReady(now)], moves);
    MovesTraced(s.cfg.backend, b, r, s.out, [MarkedReady(now)]);
    MarkReadyKeeps(s, now);
  }

  lemma LastResortTraced(b: B.Back, r: H.Registry, s: State, e: CycleEnv)
    requires Traced(b, r, s)
    ensures Traced(b, r, s.LastResortRestart(e))
  {
    hide BackAfter, LeasesAfter, State.Run;
    TraceAppend(s.cfg.backend, b, r);
    var s1 := s.SetDesktop(Stopping).Emit(LastResort);
    RunTraced(b, r, s1, StopDesktop, e.stop);
    var s2 := s1.Run(StopDesktop, e.stop);
    RunTraced(b, r, s2, StartBackend, e.respawn);
    var s3 := s2.Run(StartBackend, e.respawn);
    RunTraced(b, r, s3, StartDesktop, e.relaunch);
  }

  lemma RecoveryFailedTraced(b: B.Back, r: H.Registry, s: State, e: CycleEnv)
    requires Traced(b, r, s)
    ensures Traced(b, r, s.RecoveryFailed(e))
  {
    hide BackAfter, LeasesAfter, State.LastResortRestart, T.Tracker.RecordFailure;
    TraceAppend(s.cfg.backend, b, r);
    LastResortTraced(b, r, s.RecordFailure(e.now).SetBackend(Backoff), e);
  }

  lemma RecoverTraced(b: B.Back, r: H.Registry, s: State, e: CycleEnv)
    requires Traced(b, r, s)
    ensures Traced(b, r, s.Recover(e))
  {
    hide BackAfter, LeasesAfter, State.RecoveryFailed, State.SettleReady, State.Run, State.RunOk, State.BackendReady,
         A.Anomalies.Gc;
    TraceAppend(s.cfg.backend, b, r);
    var s1 := s.SetBackend(Unresponsive).(anomalies := s.anomalies.Gc(e.dualAt)).SetBackend(Starting);
    RunTraced(b, r, s1, StartBackend, e.start);
    RecoveryFailedTraced(b, r, s1.Run(StartBackend, e.start), e);
    SettleTraced(b, r, s1.Run(StartBackend, e.start), e.now);
  }

  lemma SuperviseTraced(b: B.Back, r: H.Registry, s: State, e: CycleEnv)
    requires Traced(b, r, s)
    ensures Traced(b, r, s.Supervise(e))
  {
    hide Traced, State.ObserveDesktop, State.PrewarmStage, State.DesktopUnknown, State.RelaunchDesktop,
         State.DesktopUp, State.SetBackend;
    ObserveTraced(b, r, s, e.desktop);
    var s1 := s.ObserveDesktop(e.desktop);
    MoveTraced(b, r, s1, Failed);
    PrewarmTraced(b, r, s1, e);
    var s2, seen := s1.PrewarmStage(e), Refresh(e.seen, e.seenHealth);
    UnknownTraced(b, r, s2, seen, e);
    RelaunchTraced(b, r, s2, e);
    UpTraced(b, r, s2, seen, e);
  }

  lemma MoveTraced(b: B.Back, r: H.Registry, s: State, to: ServiceState)
    requires Traced(b, r, s)
    ensures Traced(b, r, s.SetBackend(to))
  {
    hide BackAfter, LeasesAfter;
    TraceAppend(s.cfg.backend, b, r);
  }

  lemma UnknownTraced(b: B.Back, r: H.Registry, s: State, seen: Option<Info>, e: CycleEnv)
    requires Traced(b, r, s)
    ensures Traced(b, r, s.DesktopUnknown(seen, e))
  {
    hide Traced, State.SetBackend, State.BackendReady, State.BackendLive;
    MoveTraced(b, r, s, Unresponsive);
    MoveTraced(b, r, s, Ready);
    MoveTraced(b, r, s, Degraded);
  }

  lemma RelaunchTraced(b: B.Back, r: H.Registry, s: State, e: CycleEnv)
    requires Traced(b, r, s)
    ensures Traced(b, r, s.RelaunchDesktop(e))
  {
    hide BackAfter, LeasesAfter, State.Run;
    TraceAppend(s.cfg.backend, b, r);
    RunTraced(b, r, s.SetDesktop(Starting), StartDesktop, e.relaunch);
  }

  lemma UpTraced(b: B.Back, r: H.Registry, s: State, seen: Option<Info>, e: CycleEnv)
    requires Traced(b, r, s)
    ensures Traced(b, r, s.DesktopUp(seen, e))
  {
    hide Traced, State.SetBackend, State.Recover, State.SettleReady, State.BackendReady, State.BackendLive;
    MoveTraced(b, r, s, Degraded);
    RecoverTraced(b, r, s, e);
    SettleTraced(b, r, s, e.now);
  }

  lemma StepTraced(s: State, step: Step)
    ensures Traced(s.back, s.hb, Next(s, step))
  {
    hide BackAfter, LeasesAfter, State.Supervise, I.Handle, B.Ensure, U.Gate.SetAPI, H.Registry.Ingest;
    TraceAppend(s.cfg.backend, s.back, s.hb);
    match step
    case RunCycle(e) => SuperviseTraced(s.back, s.hb, s.(out := [], gate := s.gate.Ask(e.gateAt)), e);
    case Message(m, role, now, e) => MessageTraced(s, m, role, now, e);
    case Heartbeat(hb, at) => assert [] + [HeartbeatReceived(hb, at)] == [HeartbeatReceived(hb, at)];
    case _ =>
  }
}
