/** What single commands can touch. */
module CommandFrame {
  import opened ServiceState
  import opened Watchdog
  import H = Heartbeat
  import B = Backend
  import W = WarmStart

  /** An action a command can take. */
  predicate OfACommand(a: Action) {
    a.Issued? || a.Ensured? || a.BackendStopped? || a.DesktopNotified? || a.EpochsOpened? || a.BackendMoved?
  }

  /** Everything but the leases, the supervisor, the backend state, the gate and the actions is as it was, and the
      actions only grew, by actions of commands. */
  ghost predicate Framed(s: State, s': State) {
    && s' == s.(hb := s'.hb, back := s'.back, backend := s'.backend, warm := s'.warm, out := s'.out)
    && (forall a :: a in s.out ==> a in s'.out)
    && (forall a :: a in s'.out && a !in s.out ==> OfACommand(a))
  }

  /** No command was issued on the way. */
  ghost predicate IssuesNothing(s: State, s': State) {
    forall a :: a in s'.out && a !in s.out ==> !a.Issued?
  }

  lemma WarmBackendFrame(s: State, p: W.Processes)
    ensures Framed(s, s.WarmBackend(p)) && IssuesNothing(s, s.WarmBackend(p))
    ensures s.WarmBackend(p).backend == s.backend
  {
    hide B.Ensure, B.Notify, W.Processes.After, W.Processes.Restart;
  }

  lemma WarmStartFrame(s: State, e: CommandEnv)
    ensures Framed(s, s.WarmStart(e)) && IssuesNothing(s, s.WarmStart(e))
    ensures s.WarmStart(e).backend == if s.WarmStartOk(e) then Ready else Unresponsive
  {
    hide W.Deliver, W.OpenEpochs, State.WarmOutcome, State.WarmBackend;
    var s1 := s.SetBackend(Stopping)
               .Emit(EpochsOpened(e.counted, e.later))
               .(hb := W.Deliver(W.Deliver(W.OpenEpochs(s.hb), e.counted), e.later));
    WarmBackendFrame(s1, e.processes);
  }

  /** Commands leave the crash-loop limiter, the Desktop state and the fail count alone, only a warm start
      moves the backend state, ending in Ready or Unresponsive, and a command issues itself only. */
  lemma RunFrame(s: State, cmd: Command, e: CommandEnv)
    ensures Framed(s, s.Run(cmd, e))
    ensures s.Run(cmd, e).backend ==
              if cmd == WarmRestart then (if s.WarmStartOk(e) then Ready else Unresponsive) else s.backend
    ensures Issued(cmd) in s.Run(cmd, e).out
    ensures forall a :: a in s.Run(cmd, e).out && a !in s.out && a.Issued? ==> a == Issued(cmd)
  {
    hide State.WarmStart, B.Ensure, H.Registry.Bump, W.Deliver, W.OpenEpochs, W.OutcomeOf, W.Processes.Answered;
    if cmd == WarmRestart {
      WarmStartFrame(s.Emit(Issued(cmd)), e);
    }
  }
}
