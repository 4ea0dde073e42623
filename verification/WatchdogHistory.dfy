/** A watchdog run seen through each of its parts: the limiter sees a gated run of failures, the nonce
    cache a sequence of calls, the backend supervisor a run of calls, stops and notifications. What is
    proved about those runs therefore holds of the watchdog. */
module WatchdogHistory {
  import opened Prelude
  import opened Text
  import opened ServiceState
  import opened Watchdog
  import opened CommandFrame
  import opened WatchdogRuns
  import opened WatchdogSafety
  import opened WatchdogTrace
  import T = RestartPolicy
  import L = RestartRuns
  import Y = CycleTable
  import H = Heartbeat
  import A = Anomaly
  import N = Nonce
  import U = UpdateSuppress
  import R = RecoveryPolicy
  import B = Backend
  import K = TokenRuns
  import C = BackendCalls
  import I = IpcDispatch

  /* ---- the limiter ---- */

  function EventOf(a: Action): seq<L.Event> {
    match a
    case FailureRecorded(at) => [L.Failed(at)]
    case MarkedReady(at) => [L.Readied(at)]
    case FailedCleared => [L.Resumed]
    case _ => []
  }

  function EventsOf(out: seq<Action>): seq<L.Event> {
    if out == [] then [] else EventsOf(Front(out)) + EventOf(Last(out))
  }

  /** What the limiter is told during the first n steps. */
  function Log(s: State, steps: seq<Step>, n: nat): seq<L.Event>
    requires n <= |steps|
  {
    if n == 0 then [] else Log(s, steps, n - 1) + EventsOf(At(s, steps, n).out)
  }

  lemma {:induction false} EventsConcat(a: seq<Action>, b: seq<Action>)
    ensures EventsOf(a + b) == EventsOf(a) + EventsOf(b)
  {
    hide EventOf;
    if b == [] {
      assert a + b == a;
    } else {
      assert Front(a + b) == a + Front(b) && Last(a + b) == Last(b);
      EventsConcat(a, Front(b));
      Associate(EventsOf(a), EventsOf(Front(b)), EventOf(Last(b)));
    }
  }

  lemma Associate<T>(a: seq<T>, b: seq<T>, c: seq<T>)
    ensures (a + b) + c == a + (b + c)
  {
  }

  lemma {:induction false} NoEvents(out: seq<Action>)
    requires forall a :: a in out ==> EventOf(a) == []
    ensures EventsOf(out) == []
  {
    if out != [] {
      NoEvents(Front(out));
    }
  }

  lemma TailEvents(s: State, e: CycleEnv, from: ServiceState, shape: Shape)
    requires shape.Failure?
    ensures EventsOf(FailureTail(s, e, from, shape)) == [L.Failed(e.now)]
  {
    var rest := FailureTail(s, e, from, shape)[1..];
    NoEvents(rest);
    EventsConcat([FailureRecorded(e.now)], rest);
    assert Front([FailureRecorded(e.now)]) == [];
    assert FailureTail(s, e, from, shape) == [FailureRecorded(e.now)] + rest;
  }

  function EventsOfShape(e: CycleEnv, shape: Shape): seq<L.Event> {
    match shape
    case Quiet => []
    case Failure(_, _) => [L.Failed(e.now)]
    case Settled => [L.Readied(e.now)]
  }

  lemma ShapeEvents(s: State, e: CycleEnv, s': State, shape: Shape, pre: seq<Action>)
    requires Shaped(s, e, s', shape, pre)
    ensures EventsOf(s'.out) == EventsOfShape(e, shape)
  {
    hide T.Tracker.RecordFailure, FailureTail, T.Tracker.MarkReady, EventsOf;
    NoEvents(pre);
    match shape
    case Quiet =>
    case Failure(_, _) =>
      var from :| s'.out == pre + FailureTail(s, e, from, shape);
      EventsConcat(pre, FailureTail(s, e, from, shape));
      TailEvents(s, e, from, shape);
    case Settled =>
      var rest := s'.out[|pre| + 1..];
      NoEvents(rest);
      OneEvent(MarkedReady(e.now));
      EventsConcat([MarkedReady(e.now)], rest);
      EventsConcat(pre, [MarkedReady(e.now)] + rest);
      assert s'.out == pre + ([MarkedReady(e.now)] + rest);
  }

  lemma CycleEvents(s: State, e: CycleEnv) returns (shape: Shape, pre: seq<Action>)
    requires Inv(s)
    ensures Shaped(s, e, s.Cycle(e), shape, pre)
    ensures EventsOf(s.Cycle(e).out) == EventsOfShape(e, shape)
  {
    hide State.Cycle, Shaped, EventsOf;
    shape, pre := CycleShape(s, e);
    ShapeEvents(s, e, s.Cycle(e), shape, pre);
  }

  lemma OneEvent(a: Action)
    ensures EventsOf([a]) == EventOf(a)
  {
    assert Front([a]) == [];
  }

  /** One step tells the limiter at most one thing, and a failure only when it allowed an attempt. */
  lemma StepEvents(s: State, step: Step)
    requires Inv(s)
    ensures var s' := Next(s, step); var es := EventsOf(s'.out);
            && |es| <= 1
            && s'.tracker == (if es == [] then s.tracker else L.Apply(s.tracker, es[0]))
            && (es != [] && es[0].Failed? ==> s.tracker.CanAttempt(es[0].at))
  {
    hide State.Cycle, I.Handle, B.Ensure, U.Gate.SetAPI, H.Registry.Ingest, EventsOf, FailureTail,
         T.Tracker.RecordFailure, T.Tracker.MarkReady, T.Tracker.CanAttempt;
    NoEvents([]);
    match step
    case RunCycle(e) =>
      var shape, pre := CycleEvents(s, e);
    case Message(m, role, now, e) =>
      MessageFrame(s, m, role, now, e);
      NoEvents(I.Handle(s, m, role, now, e).0.out);
    case SetPaused(v) =>
      OneEvent(FailedCleared);
      assert [] + [FailedCleared] == [FailedCleared];
    case Prewarm(p) =>
      NoEvents(s.Prewarm(p).out);
    case Heartbeat(hb, at) =>
      OneEvent(HeartbeatReceived(hb, at));
    case _ =>
  }

  /** Over any run the watchdog's limiter is the limiter of a gated run of the recorded failures, Ready
      observations and resumes. */
  lemma {:induction false} LimiterSeesGatedRun(s: State, steps: seq<Step>, n: nat)
    requires Fresh(s) && n <= |steps|
    ensures At(s, steps, n).tracker == L.Run(s.tracker.policy, Log(s, steps, n))
    ensures L.Gated(s.tracker.policy, Log(s, steps, n))
  {
    hide Next, EventsOf, L.Apply, T.Tracker.CanAttempt;
    if n > 0 {
      LimiterSeesGatedRun(s, steps, n - 1);
      ReachableStates(s, steps, n - 1);
      StepEvents(At(s, steps, n - 1), steps[n - 1]);
      var log, es := Log(s, steps, n - 1), EventsOf(At(s, steps, n).out);
      if es == [] {
        assert log + es == log;
      } else {
        assert es == [es[0]];
        assert Front(log + es) == log && Last(log + es) == es[0];
      }
    }
  }

  /** Hence the watchdog never records more than MaxRestarts failed recoveries in any window without a Ready
      observation or a resume in between, whatever else it is asked to do. What that means for the start
      commands it issues, and which EnsureHealthy calls the limiter never sees, is the subject of
      WatchdogStarts. */
  lemma WatchdogRateBound(s: State, steps: seq<Step>, n: nat, lo: Time)
    requires Fresh(s) && n <= |steps|
    ensures |L.Within(L.SinceReset(Log(s, steps, n)), lo, s.tracker.policy.window)| <= s.tracker.policy.maxRestarts
  {
    LimiterSeesGatedRun(s, steps, n);
    L.CrashLoopRateBound(s.tracker.policy, Log(s, steps, n), lo);
  }

  /** And its n recovery failures since the last Ready observation or resume span at least the first n - 1
      documented delays, as long as the last of them fits in 63 bits. */
  lemma WatchdogSpacing(s: State, steps: seq<Step>, n: nat)
    requires Fresh(s) && n <= |steps| && s.tracker.policy.initialBackoff <= s.tracker.policy.maxBackoff
    requires |L.SinceReset(Log(s, steps, n))| >= 2
    requires s.tracker.policy.initialBackoff * Pow2(|L.SinceReset(Log(s, steps, n))| - 2) <= MAX_INT64
    ensures var failures := L.SinceReset(Log(s, steps, n));
            Last(failures) - failures[0] >= L.IdealSpan(s.tracker.policy, |failures| - 1)
  {
    hide At, Log, L.SinceReset, L.Gated;
    LimiterSeesGatedRun(s, steps, n);
    L.GeometricSpacing(s.tracker.policy, Log(s, steps, n));
  }

  /** And a retry does come: over any run, a cycle that is active, not latched, sees Desktop up and finds no
      ready backend and not merely a live one, starts the backend exactly when the delay imposed by the
      latest failure since the last Ready observation or resume is over. */
  lemma RetriesIff(s: State, steps: seq<Step>, n: nat, e: CycleEnv)
    requires Fresh(s) && n <= |steps|
    ensures var t := At(s, steps, n);
            var failures := L.SinceReset(Log(s, steps, n));
            Issued(StartBackend) in t.Cycle(e).out <==>
              && !t.paused && !Y.UpdateRuns(t, e) && !t.tracker.failed && Y.DesktopUp(e) && Y.Missing(t, e)
              && (failures == [] || e.now >= Last(failures) + T.Backoff(s.tracker.policy, |failures|))
  {
    hide At, Log, State.Cycle, L.SinceReset, L.Gated, L.Run, T.Backoff, Y.UpdateRuns, Y.Missing, Inv,
         T.Tracker.CanAttempt;
    ReachableStates(s, steps, n);
    LimiterSeesGatedRun(s, steps, n);
    L.CanAttemptIff(s.tracker.policy, Log(s, steps, n), e.now);
    Y.RecoversIff(At(s, steps, n), e);
    Y.GatesAre(At(s, steps, n), e);
  }

  /* ---- the nonce cache ---- */

  /** The step is a command request that gets as far as its nonce. */
  predicate Requests(step: Step): (yes: bool)
    ensures yes ==> step.Message?
  {
    && step.Message?
    && step.m.protocolVersion == I.PROTOCOL_VERSION && step.m.Type() == "command_request"
    && step.m.body.command.Some? && I.Turned(step.m.body.command.value, step.role).None?
  }

  function CallOf(step: Step): seq<N.Call> {
    if Requests(step) then [N.Call(step.m.nonce, step.now)] else []
  }

  /** What the nonce cache is asked during the first n steps. */
  function Calls(steps: seq<Step>, n: nat): seq<N.Call>
    requires n <= |steps|
  {
    if n == 0 then [] else Calls(steps, n - 1) + CallOf(steps[n - 1])
  }

  /** Some command runs in this step, under this nonce. */
  ghost predicate Executes(s: State, step: Step) {
    exists nonce, at, cmd :: Executed(nonce, at, cmd) in Next(s, step).out
  }

  lemma MessageNonces(s: State, m: I.Envelope, role: string, now: Time, e: CommandEnv)
    ensures I.Handle(s, m, role, now, e).0.nonces ==
              if Requests(Message(m, role, now, e)) then s.nonces.Accept(m.nonce, now) else s.nonces
  {
    hide TrimSpace, ParseCommand, I.Envelope.Type, I.ReportOnlyRequester, I.Turned, State.Run, State.RunOk,
         N.Nonces.Verdict, N.Nonces.Accept, H.Registry.Ingest, H.Registry.Verdict, A.Anomalies.Ingest,
         A.Anomalies.Gc, A.Anomalies.NewRecord, R.Recovery.Observe;
    if Requests(Message(m, role, now, e)) {
      var r := m.body.command.value;
      I.TurnedOnlyWithoutCommand(r, role);
      var cmd := ParseCommand(TrimSpace(r.command)).value;
      var s1 := s.(out := [], nonces := s.nonces.Accept(m.nonce, now));
      RunFrame(s1.Emit(Executed(TrimSpace(m.nonce), now, cmd)), cmd, e);
    }
  }

  lemma CycleNonces(s: State, e: CycleEnv)
    requires Inv(s)
    ensures s.Cycle(e).nonces == s.nonces
  {
    hide State.Cycle;
    var shape, pre := CycleShape(s, e);
  }

  lemma OperatorNonces(s: State, step: Step)
    requires step.Prewarm? || step.SetPaused? || step.Suppress? || step.Heartbeat?
    ensures Next(s, step).nonces == s.nonces
  {
    hide B.Ensure, U.Gate.SetAPI, H.Registry.Ingest;
  }

  lemma StepNonces(s: State, step: Step)
    requires Inv(s)
    ensures Next(s, step).nonces ==
              if Requests(step) then s.nonces.Accept(step.m.nonce, step.now) else s.nonces
  {
    hide State.Cycle, State.Prewarm, State.SetPaused, I.Handle, Requests, N.Nonces.Accept, U.Gate.SetAPI,
         H.Registry.Ingest;
    match step
    case RunCycle(e) => CycleNonces(s, e);
    case Message(m, role, now, e) => MessageNonces(s, m, role, now, e);
    case _ => OperatorNonces(s, step);
  }

  lemma {:induction false} NonceAtPrefix(ttl: Duration, h: seq<N.Call>, more: seq<N.Call>, k: nat)
    requires k <= |h|
    ensures N.At(ttl, h + more, k) == N.At(ttl, h, k)
  {
    if k > 0 {
      NonceAtPrefix(ttl, h, more, k - 1);
    }
  }

  lemma {:induction false} CacheSeesCalls(s: State, steps: seq<Step>, n: nat)
    requires Fresh(s) && s.nonces == N.NewNonces(10 * MINUTE) && n <= |steps|
    ensures At(s, steps, n).nonces == N.At(10 * MINUTE, Calls(steps, n), |Calls(steps, n)|)
  {
    hide Next, Requests, N.Nonces.Accept, Inv, Fresh;
    if n > 0 {
      CacheSeesCalls(s, steps, n - 1);
      ReachableStates(s, steps, n - 1);
      StepNonces(At(s, steps, n - 1), steps[n - 1]);
      var h := Calls(steps, n - 1);
      NonceAtPrefix(10 * MINUTE, h, CallOf(steps[n - 1]), |h|);
      assert h + [] == h;
    }
  }

  /** A step runs a command exactly when it is a request that gets as far as its nonce and the cache
      accepts that nonce. */
  lemma StepExecutesIff(s: State, step: Step)
    requires Inv(s)
    ensures Executes(s, step) <==> Requests(step) && s.nonces.Verdict(step.m.nonce, step.now).None?
  {
    hide State.Cycle, I.Handle, B.Ensure, U.Gate.SetAPI, H.Registry.Ingest, N.Nonces.Accept, N.Nonces.Verdict,
         TrimSpace, ParseCommand, I.ReportOnlyRequester, I.Envelope.Type, I.Turned, FailureTail,
         T.Tracker.RecordFailure, T.Tracker.MarkReady;
    match step
    case RunCycle(e) =>
      CycleExecutesNothing(s, e);
    case Message(m, role, now, e) =>
      I.ExecutesIff(s, m, role, now, e);
      if m.body.command.Some? {
        I.TurnedOnlyWithoutCommand(m.body.command.value, role);
      }
    case _ =>
  }

  lemma CycleExecutesNothing(s: State, e: CycleEnv)
    requires Inv(s)
    ensures forall a :: a in s.Cycle(e).out ==> !a.Executed?
  {
    hide State.Cycle, T.Tracker.RecordFailure, T.Tracker.MarkReady;
    var shape, pre := CycleShape(s, e);
    var out := s.Cycle(e).out;
    if shape.Settled? {
      assert out == pre + [MarkedReady(e.now)] + out[|pre| + 1..];
    }
  }

  /** The clock by which command requests are judged never goes back. */
  ghost predicate RequestsForward(steps: seq<Step>) {
    forall i, j :: 0 <= i <= j < |steps| && Requests(steps[i]) && Requests(steps[j]) ==> steps[i].now <= steps[j].now
  }

  lemma {:induction false} CallsGrow(steps: seq<Step>, m: nat, n: nat)
    requires m <= n <= |steps|
    ensures |Calls(steps, m)| <= |Calls(steps, n)|
    ensures Calls(steps, n)[..|Calls(steps, m)|] == Calls(steps, m)
    ensures m < n && Requests(steps[m]) ==>
              |Calls(steps, m)| < |Calls(steps, n)| &&
              Calls(steps, n)[|Calls(steps, m)|] == N.Call(steps[m].m.nonce, steps[m].now)
  {
    hide Requests;
    if m < n {
      CallsGrow(steps, m, n - 1);
    }
  }

  /** Every call comes from a step. */
  lemma {:induction false} StepOfCall(steps: seq<Step>, n: nat, k: nat) returns (i: nat)
    requires n <= |steps| && k < |Calls(steps, n)|
    ensures i < n && Requests(steps[i]) && |Calls(steps, i)| == k
  {
    hide Requests;
    if k < |Calls(steps, n - 1)| {
      i := StepOfCall(steps, n - 1, k);
    } else {
      i := n - 1;
    }
  }

  lemma CallsForward(steps: seq<Step>)
    requires RequestsForward(steps)
    ensures N.ClockForward(Calls(steps, |steps|))
  {
    hide Requests, Calls;
    var h := Calls(steps, |steps|);
    forall a, b | 0 <= a <= b < |h| ensures h[a].at <= h[b].at {
      var i := StepOfCall(steps, |steps|, a);
      var j := StepOfCall(steps, |steps|, b);
      CallsGrow(steps, i, |steps|);
      CallsGrow(steps, j, |steps|);
      if j < i {
        CallsGrow(steps, j, i);
      }
    }
  }

  lemma ExecutesIsAccepted(s: State, steps: seq<Step>, i: nat)
    requires Fresh(s) && s.nonces == N.NewNonces(10 * MINUTE) && i < |steps| && Requests(steps[i])
    ensures Executes(At(s, steps, i), steps[i]) <==>
              N.Accepted(10 * MINUTE, Calls(steps, |steps|), |Calls(steps, i)|)
  {
    hide Next, Requests, Calls, N.At, N.Nonces.Verdict, Executes, At, Inv;
    var h, k := Calls(steps, |steps|), |Calls(steps, i)|;
    ReachableStates(s, steps, i);
    StepExecutesIff(At(s, steps, i), steps[i]);
    CacheSeesCalls(s, steps, i);
    CallsGrow(steps, i, |steps|);
    NonceAtPrefix(10 * MINUTE, h[..k], h[k..], k);
    assert h[..k] + h[k..] == h;
  }

  /** The step ran a command under this (trimmed) nonce. */
  ghost predicate ExecutesUnder(s: State, step: Step, nonce: string) {
    Requests(step) && Executes(s, step) && TrimSpace(step.m.nonce) == nonce
  }

  /** Over any run a request that gets as far as its nonce runs its command exactly when the trimmed
      nonce is non-empty and no command ran under it in the last ten minutes. */
  lemma RequestExecutesIff(s: State, steps: seq<Step>, j: nat)
    requires Fresh(s) && s.nonces == N.NewNonces(10 * MINUTE) && RequestsForward(steps)
    requires j < |steps| && Requests(steps[j])
    ensures Executes(At(s, steps, j), steps[j]) <==>
              && TrimSpace(steps[j].m.nonce) != ""
              && forall i :: 0 <= i < j && ExecutesUnder(At(s, steps, i), steps[i], TrimSpace(steps[j].m.nonce)) ==>
                   steps[j].now - steps[i].now > 10 * MINUTE
  {
    hide Next, Requests, Calls, N.At, Executes, At, N.ClockForward, RequestsForward, TrimSpace, Fresh, N.Accepted;
    var h, k := Calls(steps, |steps|), |Calls(steps, j)|;
    CallsForward(steps);
    CallsGrow(steps, j, |steps|);
    ExecutesIsAccepted(s, steps, j);
    N.AcceptedIffNotSeenWithinTtl(10 * MINUTE, h, k);
    forall i | 0 <= i < j && ExecutesUnder(At(s, steps, i), steps[i], TrimSpace(steps[j].m.nonce))
      ensures |Calls(steps, i)| < k && N.Accepted(10 * MINUTE, h, |Calls(steps, i)|)
      ensures h[|Calls(steps, i)|] == N.Call(steps[i].m.nonce, steps[i].now)
    {
      CallsGrow(steps, i, j);
      CallsGrow(steps, i, |steps|);
      ExecutesIsAccepted(s, steps, i);
    }
    forall a | 0 <= a < k && N.Accepted(10 * MINUTE, h, a)
      ensures exists i :: 0 <= i < j && Requests(steps[i]) && Executes(At(s, steps, i), steps[i]) &&
                h[a] == N.Call(steps[i].m.nonce, steps[i].now)
    {
      var i := StepOfCall(steps, j, a);
      CallsGrow(steps, i, |steps|);
      ExecutesIsAccepted(s, steps, i);
    }
  }

  /** At most one execution per nonce: two commands run under one nonce are more than ten minutes apart. */
  lemma NonceRunsOnce(s: State, steps: seq<Step>, i: nat, j: nat)
    requires Fresh(s) && s.nonces == N.NewNonces(10 * MINUTE) && RequestsForward(steps)
    requires i < j < |steps| && Executes(At(s, steps, i), steps[i]) && Executes(At(s, steps, j), steps[j])
    ensures Requests(steps[i]) && Requests(steps[j])
    ensures TrimSpace(steps[i].m.nonce) == TrimSpace(steps[j].m.nonce) ==> steps[j].now - steps[i].now > 10 * MINUTE
  {
    hide Next, Requests, Executes, At, RequestsForward, TrimSpace, Fresh, Inv, N.Nonces.Verdict;
    ReachableStates(s, steps, i);
    ReachableStates(s, steps, j);
    StepExecutesIff(At(s, steps, i), steps[i]);
    StepExecutesIff(At(s, steps, j), steps[j]);
    RequestExecutesIff(s, steps, j);
    assert ExecutesUnder(At(s, steps, i), steps[i], TrimSpace(steps[i].m.nonce));
  }

  /* ---- the backend supervisor ---- */

  /** What the supervisor can be asked to do. */
  datatype Act = Called(p: B.Probes) | StopAsked | Notified(port: int, minted: Option<string>, written: bool)

  function ActOf(a: Action): seq<Act> {
    match a
    case Ensured(p) => [Called(p)]
    case BackendStopped => [StopAsked]
    case DesktopNotified(port, minted, written) => [Notified(port, minted, written)]
    case _ => []
  }

  function ActsOf(out: seq<Action>): seq<Act> {
    if out == [] then [] else ActsOf(Front(out)) + ActOf(Last(out))
  }

  function Perform(cfg: B.Config, b: B.Back, act: Act): B.Back {
    match act
    case Called(p) => B.Ensure(cfg, b, p).back
    case StopAsked => b.Stop()
    case Notified(port, minted, written) => B.Notify(b, port, minted, written).0
  }

  /** The supervisor after a sequence of acts and nothing else. */
  function Replay(cfg: B.Config, b: B.Back, acts: seq<Act>): B.Back {
    if acts == [] then b else Perform(cfg, Replay(cfg, b, Front(acts)), Last(acts))
  }

  lemma SupervisedIsPerformed(cfg: B.Config, b: B.Back, a: Action)
    ensures |ActOf(a)| <= 1
    ensures Supervised(cfg, b, a) == if ActOf(a) == [] then b else Perform(cfg, b, ActOf(a)[0])
  {
    hide B.Ensure, B.Notify;
  }

  lemma {:induction false} BackAfterIsReplay(cfg: B.Config, b: B.Back, out: seq<Action>)
    ensures BackAfter(cfg, b, out) == Replay(cfg, b, ActsOf(out))
  {
    hide Supervised, Perform, ActOf;
    if out != [] {
      var before, act := ActsOf(Front(out)), ActOf(Last(out));
      BackAfterIsReplay(cfg, b, Front(out));
      SupervisedIsPerformed(cfg, BackAfter(cfg, b, Front(out)), Last(out));
      if act == [] {
        assert before + act == before;
      } else {
        assert Front(before + act) == before && Last(before + act) == act[0];
      }
    }
  }

  /** What the supervisor is asked to do in the first n steps. */
  function Acts(s: State, steps: seq<Step>, n: nat): seq<Act>
    requires n <= |steps|
  {
    if n == 0 then [] else Acts(s, steps, n - 1) + ActsOf(At(s, steps, n).out)
  }

  lemma {:induction false} ReplayConcat(cfg: B.Config, b: B.Back, first: seq<Act>, second: seq<Act>)
    ensures Replay(cfg, b, first + second) == Replay(cfg, Replay(cfg, b, first), second)
  {
    hide Perform;
    if second == [] {
      assert first + second == first;
    } else {
      assert Front(first + second) == first + Front(second);
      ReplayConcat(cfg, b, first, Front(second));
    }
  }

  /** The watchdog's supervisor is the supervisor of the acts it was asked for, and of nothing else. */
  lemma {:induction false} SupervisorSeesActs(s: State, steps: seq<Step>, n: nat)
    requires Fresh(s) && n <= |steps|
    ensures At(s, steps, n).back == Replay(s.cfg.backend, s.back, Acts(s, steps, n))
  {
    hide Next, Replay, ActsOf, Inv, BackAfter, LeasesAfter;
    if n == 0 {
      assert Replay(s.cfg.backend, s.back, []) == s.back by { ReplayNothing(s.cfg.backend, s.back); }
    } else {
      SupervisorSeesActs(s, steps, n - 1);
      ReachableStates(s, steps, n - 1);
      ReachableStates(s, steps, n);
      StepTraced(At(s, steps, n - 1), steps[n - 1]);
      BackAfterIsReplay(s.cfg.backend, At(s, steps, n - 1).back, At(s, steps, n).out);
      ReplayConcat(s.cfg.backend, s.back, Acts(s, steps, n - 1), ActsOf(At(s, steps, n).out));
    }
  }

  lemma ReplayNothing(cfg: B.Config, b: B.Back)
    ensures Replay(cfg, b, []) == b
  {
  }

  /* ---- session continuity of the watchdog ---- */

  function ActOfStep(k: K.Step): seq<Act> {
    match k
    case Call(p, _) => [Called(p)]
    case Crash => []
    case StopCommand(_) => [StopAsked]
    case NotifyCall(port, minted, written) => [Notified(port, minted, written)]
  }

  /** What a run of the occupied world asks of the supervisor; crashes ask nothing. */
  function Visible(world: seq<K.Step>, n: nat): seq<Act>
    requires n <= |world|
  {
    if n == 0 then [] else Visible(world, n - 1) + ActOfStep(world[n - 1])
  }

  lemma NextPerforms(cfg: B.Config, w: K.World, k: K.Step)
    ensures |ActOfStep(k)| <= 1
    ensures K.Next(cfg, w, k).back == if ActOfStep(k) == [] then w.back else Perform(cfg, w.back, ActOfStep(k)[0])
  {
    hide B.Ensure, B.Notify;
  }

  lemma {:induction false} WorldReplays(cfg: B.Config, w: K.World, world: seq<K.Step>, n: nat)
    requires n <= |world|
    ensures K.At(cfg, w, world, n).back == Replay(cfg, w.back, Visible(world, n))
  {
    hide Perform, K.Next, ActOfStep;
    if n > 0 {
      WorldReplays(cfg, w, world, n - 1);
      NextPerforms(cfg, K.At(cfg, w, world, n - 1), world[n - 1]);
      var acts := Visible(world, n - 1);
      var more := ActOfStep(world[n - 1]);
      if more == [] {
        assert acts + more == acts;
      } else {
        assert Front(acts + more) == acts && Last(acts + more) == more[0];
      }
    }
  }

  /** What an act asks of the environment and publishes. */
  function ActEffects(cfg: B.Config, b: B.Back, act: Act): seq<B.Effect> {
    match act
    case Called(p) => B.Ensure(cfg, b, p).log
    case StopAsked => []
    case Notified(port, minted, written) => B.Notify(b, port, minted, written).1
  }

  /** Everything the act publishes carries token t. */
  ghost predicate PublishesOnly(cfg: B.Config, b: B.Back, act: Act, t: string) {
    var es := ActEffects(cfg, b, act);
    forall i :: 0 <= i < |es| && es[i].Published? ==> es[i].manifest.token == t
  }

  lemma {:induction false} VisibleGrows(world: seq<K.Step>, m: nat, n: nat)
    requires m <= n <= |world|
    ensures |Visible(world, m)| <= |Visible(world, n)|
    ensures Visible(world, n)[..|Visible(world, m)|] == Visible(world, m)
  {
    hide ActOfStep;
    if m < n {
      VisibleGrows(world, m, n - 1);
    }
  }

  /** Every act was some step of the world. */
  lemma {:induction false} StepOfAct(world: seq<K.Step>, n: nat, k: nat) returns (j: nat)
    requires n <= |world| && k < |Visible(world, n)|
    ensures j < n && |Visible(world, j)| == k && ActOfStep(world[j]) == [Visible(world, n)[k]]
  {
    if k < |Visible(world, n - 1)| {
      j := StepOfAct(world, n - 1, k);
    } else {
      j := n - 1;
    }
  }

  lemma EffectsOfAct(cfg: B.Config, w: K.World, k: K.Step, act: Act)
    requires ActOfStep(k) == [act]
    ensures K.Effects(cfg, w, k) == ActEffects(cfg, w.back, act)
  {
    hide B.Ensure, B.Notify;
  }

  /** Session continuity of the whole watchdog. Let `world` be any consistent history of the managed port,
      crashes included, in which the watchdog's calls, stops and notifications are those it really made.
      From the first call that succeeds on, even in the middle of a warm start, the token the watchdog
      holds never changes again, whatever cycles, messages, warm starts and resumes follow, and the
      manifest never names another. */
  lemma WatchdogKeepsSessionToken(s: State, steps: seq<Step>, n: nat, occ: Option<string>,
                                  world: seq<K.Step>, first: nat, last: nat)
    requires Fresh(s) && n <= |steps| && first < last <= |world|
    requires K.GoodRun(s.cfg.backend, K.World(s.back, occ), world)
    requires K.Succeeds(s.cfg.backend, K.At(s.cfg.backend, K.World(s.back, occ), world, first), world[first])
    requires Visible(world, last) == Acts(s, steps, n)
    ensures var t := K.At(s.cfg.backend, K.World(s.back, occ), world, first + 1).back.token;
            t != "" && C.Holds(t, At(s, steps, n).back)
  {
    hide K.Next, K.Effects, TrimSpace, K.Allowed, K.TokenTrimmed, K.Succeeds, Next, Visible, Acts, K.Settled, C.Holds,
         Replay, K.GoodRun, K.At, At;
    var cfg, w := s.cfg.backend, K.World(s.back, occ);
    SupervisorSeesActs(s, steps, n);
    WorldReplays(cfg, w, world, last);
    SettledAfter(cfg, w, world, first, last);
  }

  /** And every manifest it publishes, from that call on, carries that token: k is the position of any
      EnsureHealthy call or notification among the acts of the run, at or after the first success. */
  lemma WatchdogPublishesSessionToken(s: State, steps: seq<Step>, n: nat, occ: Option<string>,
                                      world: seq<K.Step>, first: nat, k: nat)
    requires Fresh(s) && n <= |steps| && first < |world|
    requires K.GoodRun(s.cfg.backend, K.World(s.back, occ), world)
    requires K.Succeeds(s.cfg.backend, K.At(s.cfg.backend, K.World(s.back, occ), world, first), world[first])
    requires Visible(world, |world|) == Acts(s, steps, n) && |Visible(world, first)| <= k < |Acts(s, steps, n)|
    ensures var t := K.At(s.cfg.backend, K.World(s.back, occ), world, first + 1).back.token;
            var acts := Acts(s, steps, n);
            PublishesOnly(s.cfg.backend, Replay(s.cfg.backend, s.back, acts[..k]), acts[k], t)
  {
    hide K.Next, K.Effects, ActEffects, TrimSpace, K.Allowed, K.TokenTrimmed, K.Succeeds, Next, Visible, Acts, Replay,
         K.GoodRun, K.At, At, ActOfStep, Fresh;
    var cfg, w := s.cfg.backend, K.World(s.back, occ);
    var j := StepOfAct(world, |world|, k);
    VisibleGrows(world, j, |world|);
    if j < first {
      VisibleGrows(world, j + 1, first);
      OneMoreVisible(world, j);
    }
    WorldReplays(cfg, w, world, j);
    EffectsOfAct(cfg, K.At(cfg, w, world, j), world[j], Acts(s, steps, n)[k]);
    K.SessionContinuity(cfg, w, world, first, j);
  }

  lemma OneMoreVisible(world: seq<K.Step>, j: nat)
    requires j < |world| && |ActOfStep(world[j])| == 1
    ensures |Visible(world, j + 1)| == |Visible(world, j)| + 1
  {
  }

  lemma SettledAfter(cfg: B.Config, w: K.World, world: seq<K.Step>, first: nat, last: nat)
    requires first < last <= |world| && K.GoodRun(cfg, w, world)
    requires K.Succeeds(cfg, K.At(cfg, w, world, first), world[first])
    ensures var t := K.At(cfg, w, world, first + 1).back.token;
            t != "" && C.Holds(t, K.At(cfg, w, world, last).back)
  {
    hide K.Next, K.Effects, TrimSpace, K.Allowed, K.TokenTrimmed, K.Succeeds, C.Holds;
    var t := K.At(cfg, w, world, first + 1).back.token;
    K.RunKeepsTrimmed(cfg, w, world, first);
    K.SuccessStep(cfg, K.At(cfg, w, world, first), world[first]);
    K.SettledToken(t, K.At(cfg, w, world, first + 1));
    K.RunKeepsSettled(cfg, t, w, world, first + 1, last);
  }
}
