/** How often the watchdog starts the backend: the commands its cycles issue are bounded by the limiter,
    the EnsureHealthy calls of the prewarm stage are not. */
module WatchdogStarts {
  import opened Prelude
  import opened ServiceState
  import opened Watchdog
  import opened WatchdogRuns
  import opened WatchdogSafety
  import opened WatchdogCycles
  import opened WatchdogHistory
  import T = RestartPolicy
  import L = RestartRuns
  import H = Heartbeat
  import A = Anomaly
  import B = Backend

  /* ---- the start commands of one cycle ---- */

  function StartsIn(out: seq<Action>): nat {
    if out == [] then 0 else StartsIn(Front(out)) + if Last(out) == Issued(StartBackend) then 1 else 0
  }

  /** Starts that neither a recorded failure nor a last resort accounts for. */
  function Surplus(out: seq<Action>): int {
    StartsIn(out) - FailuresIn(out) - LastResortsIn(out)
  }

  lemma SurplusAppend()
    ensures Surplus([]) == 0
    ensures forall out: seq<Action>, a: Action {:trigger Surplus(out + [a])} ::
              Surplus(out + [a]) ==
                if a == Issued(StartBackend) then Surplus(out) + 1
                else if a.FailureRecorded? || a.LastResort? then Surplus(out) - 1 else Surplus(out)
  {
    forall out: seq<Action>, a: Action
      ensures Surplus(out + [a]) ==
                if a == Issued(StartBackend) then Surplus(out) + 1
                else if a.FailureRecorded? || a.LastResort? then Surplus(out) - 1 else Surplus(out)
    {
      assert Front(out + [a]) == out;
    }
  }

  lemma ObserveSurplus(s: State, d: DesktopProbe)
    ensures Surplus(s.ObserveDesktop(d).out) == Surplus(s.out)
  {
    hide Surplus;
    SurplusAppend();
  }

  lemma PrewarmSurplus(s: State, e: CycleEnv)
    ensures Surplus(s.PrewarmStage(e).out) == Surplus(s.out)
  {
    hide Surplus, B.Ensure, State.BackendReady;
    SurplusAppend();
  }

  lemma RunSurplus(s: State, cmd: Command, e: CommandEnv)
    requires cmd != WarmRestart
    ensures Surplus(s.Run(cmd, e).out) == Surplus(s.out) + if cmd == StartBackend then 1 else 0
  {
    hide Surplus, B.Ensure, H.Registry.Bump;
    SurplusAppend();
  }

  lemma SettleSurplus(s: State, now: Time)
    ensures Surplus(s.SettleReady(now).out) == Surplus(s.out) && MarkedReady(now) in s.SettleReady(now).out
  {
    hide Surplus, State.SettleReady;
    var moves := SettleReadyMoves(s, now);
    SurplusAppend();
    MovesSurplus(s.out + [MarkedReady(now)], moves);
    assert (s.out + [MarkedReady(now)] + moves)[|s.out|] == MarkedReady(now);
  }

  lemma {:induction false} MovesSurplus(out: seq<Action>, moves: seq<Action>)
    requires forall i :: 0 <= i < |moves| ==> moves[i].DesktopMoved? || moves[i].BackendMoved?
    ensures Surplus(out + moves) == Surplus(out)
  {
    hide Surplus;
    SurplusAppend();
    if moves == [] {
      assert out + moves == out;
    } else {
      assert out + moves == out + Front(moves) + [Last(moves)];
      MovesSurplus(out, Front(moves));
    }
  }

  lemma LastResortSurplus(s: State, e: CycleEnv)
    ensures Surplus(s.LastResortRestart(e).out) == Surplus(s.out)
  {
    hide Surplus, State.Run;
    SurplusAppend();
    var s1 := s.SetDesktop(Stopping).Emit(LastResort);
    RunSurplus(s1, StopDesktop, e.stop);
    var s2 := s1.Run(StopDesktop, e.stop);
    RunSurplus(s2, StartBackend, e.respawn);
    RunSurplus(s2.Run(StartBackend, e.respawn), StartDesktop, e.relaunch);
  }

  lemma RecoveryFailedSurplus(s: State, e: CycleEnv)
    ensures Surplus(s.RecoveryFailed(e).out) == Surplus(s.out) - 1
  {
    hide Surplus, State.LastResortRestart, T.Tracker.RecordFailure;
    SurplusAppend();
    LastResortSurplus(s.RecordFailure(e.now).SetBackend(Backoff), e);
  }

  lemma RecoverSurplus(s: State, e: CycleEnv)
    ensures var d := Surplus(s.Recover(e).out) - Surplus(s.out);
            && 0 <= d <= 1 && (d == 1 ==> MarkedReady(e.now) in s.Recover(e).out && s.tracker.CanAttempt(e.now))
  {
    hide Surplus, State.RecoveryFailed, State.SettleReady, State.Run, State.RunOk, State.BackendReady,
         A.Anomalies.Gc, T.Tracker.CanAttempt;
    SurplusAppend();
    var s1 := s.SetBackend(Unresponsive).(anomalies := s.anomalies.Gc(e.dualAt)).SetBackend(Starting);
    var started := s1.Run(StartBackend, e.start);
    RunSurplus(s1, StartBackend, e.start);
    RecoveryFailedSurplus(started, e);
    SettleSurplus(started, e.now);
  }

  lemma SuperviseSurplus(s: State, e: CycleEnv)
    requires s.out == []
    ensures var d := Surplus(s.Supervise(e).out);
            && 0 <= d <= 1 && (d == 1 ==> MarkedReady(e.now) in s.Supervise(e).out && s.tracker.CanAttempt(e.now))
  {
    hide Surplus, State.ObserveDesktop, State.PrewarmStage, State.Recover, State.SettleReady, State.BackendReady,
         State.BackendLive, State.Run, T.Tracker.CanAttempt;
    SurplusAppend();
    var s1 := s.ObserveDesktop(e.desktop);
    ObserveSurplus(s, e.desktop);
    TrackerObserved(s, e.desktop);
    var s2 := s1.PrewarmStage(e);
    PrewarmSurplus(s1, e);
    TrackerPrewarmed(s1, e);
    RunSurplus(s2.SetDesktop(Starting), StartDesktop, e.relaunch);
    RecoverSurplus(s2, e);
    SettleSurplus(s2, e.now);
  }

  lemma TrackerObserved(s: State, d: DesktopProbe)
    ensures s.ObserveDesktop(d).tracker == s.tracker
  {
  }

  lemma TrackerPrewarmed(s: State, e: CycleEnv)
    ensures s.PrewarmStage(e).tracker == s.tracker
  {
    hide B.Ensure, State.BackendReady, T.Tracker.CanAttempt;
  }

  /** A cycle issues StartBackend once per failure it records, once per last resort, and at most once more,
      in which case the limiter let it try and it ends in Ready. */
  lemma CycleStarts(s: State, e: CycleEnv)
    ensures var out := s.Cycle(e).out;
            var d := StartsIn(out) - FailuresIn(out) - LastResortsIn(out);
            && 0 <= d <= 1 && (d == 1 ==> MarkedReady(e.now) in out && s.tracker.CanAttempt(e.now))
  {
    hide State.Supervise, T.Tracker.CanAttempt;
    SuperviseSurplus(s.(out := [], gate := s.gate.Ask(e.gateAt)), e);
    assert Surplus([]) == 0;
  }

  /* ---- over a run ---- */

  /** The step ended in a Ready observation or was the operator's resume. */
  predicate Resets(out: seq<Action>) {
    EventsOf(out) != [] && !EventsOf(out)[0].Failed?
  }

  function Copies(k: nat, t: Time): seq<Time> {
    if k == 0 then [] else Copies(k - 1, t) + [t]
  }

  /** When the cycle, if it is one, started the backend: once per StartBackend it issued. */
  function StartsOf(step: Step, out: seq<Action>): seq<Time> {
    if step.RunCycle? then Copies(StartsIn(out), step.e.now) else []
  }

  /** Every start of the backend by a cycle since the last reset, last-resort respawns included. The start
      that ends the stretch by bringing the backend up still belongs to it. */
  function Starts(s: State, steps: seq<Step>, n: nat): seq<Time>
    requires n <= |steps|
  {
    if n == 0 then []
    else (if Resets(At(s, steps, n - 1).out) then [] else Starts(s, steps, n - 1))
         + StartsOf(steps[n - 1], At(s, steps, n).out)
  }

  /** The last resorts among them. */
  function Respawns(s: State, steps: seq<Step>, n: nat): seq<Time>
    requires n <= |steps|
  {
    if n == 0 || Resets(At(s, steps, n).out) then []
    else Respawns(s, steps, n - 1)
         + if steps[n - 1].RunCycle? then Copies(LastResortsIn(At(s, steps, n).out), steps[n - 1].e.now) else []
  }

  function FailuresSince(s: State, steps: seq<Step>, n: nat): seq<Time>
    requires n <= |steps|
  {
    L.SinceReset(Log(s, steps, n))
  }

  /** What one step adds to the three logs. */
  datatype Added =
    | Nothing
    | OneFailure(at: Time, lastResort: bool)
    | OneReset(at: Time, started: bool)

  ghost predicate Adds(s: State, step: Step, a: Added) {
    var s' := Next(s, step);
    match a
    case Nothing => EventsOf(s'.out) == [] && StartsOf(step, s'.out) == [] && LastResortsIn(s'.out) == 0
    case OneFailure(at, lastResort) =>
      && step.RunCycle? && at == step.e.now && s.tracker.CanAttempt(at)
      && EventsOf(s'.out) == [L.Failed(at)]
      && StartsOf(step, s'.out) == (if lastResort then [at, at] else [at])
      && LastResortsIn(s'.out) == (if lastResort then 1 else 0)
      && (lastResort ==> s.failCount + 1 >= s.cfg.failThreshold)
      && s'.failCount == (if lastResort then 0 else s.failCount + 1)
    case OneReset(at, started) =>
      && Resets(s'.out) && |EventsOf(s'.out)| == 1
      && StartsOf(step, s'.out) == (if started then [at] else [])
      && (started ==> s.tracker.CanAttempt(at))
  }

  lemma CopiesOne(t: Time)
    ensures Copies(0, t) == [] && Copies(1, t) == [t] && Copies(2, t) == [t, t]
  {
  }

  lemma CycleAdds(s: State, e: CycleEnv) returns (a: Added)
    requires Inv(s)
    ensures Adds(s, RunCycle(e), a)
    ensures a.Nothing? ==> s.Cycle(e).failCount in {s.failCount, 0}
  {
    hide State.Cycle, T.Tracker.CanAttempt, T.Tracker.RecordFailure, T.Tracker.MarkReady, FailureTail, StartsIn,
         FailuresIn, LastResortsIn, EventsOf, Copies;
    CycleStarts(s, e);
    CopiesOne(e.now);
    var shape, pre := CycleEvents(s, e);
    CycleShapeCounts(s, e, shape, pre);
    var out := s.Cycle(e).out;
    match shape
    case Quiet =>
      a := Nothing;
    case Failure(_, lastResort) =>
      a := OneFailure(e.now, lastResort);
    case Settled =>
      a := OneReset(e.now, StartsIn(out) == 1);
  }

  lemma StepAdds(s: State, step: Step) returns (a: Added)
    requires Inv(s)
    ensures Adds(s, step, a)
    ensures a.Nothing? ==> Next(s, step).failCount in {s.failCount, 0}
  {
    if step.RunCycle? {
      hide Adds, State.Cycle;
      a := CycleAdds(s, step.e);
    } else if step == SetPaused(false) {
      hide LastResortsIn;
      OneEvent(FailedCleared);
      assert [] + [FailedCleared] == [FailedCleared];
      a := OneReset(0, false);
    } else {
      hide Next, LastResortsIn, EventsOf;
      OtherStepFrame(s, step);
      NoEvents(Next(s, step).out);
      CountsNone(Next(s, step).out);
      a := Nothing;
    }
  }

  /** How the logs of failures and respawns grow. */
  lemma LogsGrow(s: State, steps: seq<Step>, n: nat) returns (a: Added)
    requires Fresh(s) && 0 < n <= |steps|
    ensures Adds(At(s, steps, n - 1), steps[n - 1], a)
    ensures var (f, r) := (FailuresSince(s, steps, n - 1), Respawns(s, steps, n - 1));
            match a
            case Nothing =>
              && FailuresSince(s, steps, n) == f && Respawns(s, steps, n) == r && !Resets(At(s, steps, n).out)
              && At(s, steps, n).failCount in {At(s, steps, n - 1).failCount, 0}
            case OneFailure(at, lastResort) =>
              && FailuresSince(s, steps, n) == f + [at]
              && Respawns(s, steps, n) == (if lastResort then r + [at] else r)
              && !Resets(At(s, steps, n).out)
            case OneReset(_, _) =>
              && FailuresSince(s, steps, n) == [] && Respawns(s, steps, n) == [] && Resets(At(s, steps, n).out)
  {
    hide Next, LastResortsIn, EventsOf, StartsIn, T.Tracker.CanAttempt, Inv, L.SinceReset, At, Copies;
    ReachableStates(s, steps, n - 1);
    assert Next(At(s, steps, n - 1), steps[n - 1]) == At(s, steps, n) by { AtNext(s, steps, n); }
    a := StepAdds(At(s, steps, n - 1), steps[n - 1]);
    SinceResetGrows(Log(s, steps, n - 1), EventsOf(At(s, steps, n).out));
    CopiesOne(if steps[n - 1].RunCycle? then steps[n - 1].e.now else 0);
    assert Respawns(s, steps, n - 1) + [] == Respawns(s, steps, n - 1);
  }

  lemma SinceResetGrows(log: seq<L.Event>, es: seq<L.Event>)
    requires |es| <= 1
    ensures L.SinceReset(log + es) ==
              if es == [] then L.SinceReset(log)
              else if es[0].Failed? then L.SinceReset(log) + [es[0].at] else []
  {
    if es == [] {
      assert log + es == log;
    } else {
      assert Front(log + es) == log && Last(log + es) == es[0];
    }
  }

  lemma WithinAppend(log: seq<Time>, at: Time, lo: Time, width: Duration)
    ensures |L.Within(log + [at], lo, width)| ==
              |L.Within(log, lo, width)| + if lo < at <= lo + width then 1 else 0
    ensures |T.Prune(log + [at], lo)| == |T.Prune(log, lo)| + if at > lo then 1 else 0
  {
    assert Front(log + [at]) == log;
  }

  lemma FailureIsCounted(before: seq<Time>, f: seq<Time>, r: seq<Time>, at: Time, lastResort: bool, lo: Time,
                         width: Duration)
    requires |L.Within(before, lo, width)| == |L.Within(f, lo, width)| + |L.Within(r, lo, width)|
    ensures |L.Within(before + if lastResort then [at, at] else [at], lo, width)| ==
              |L.Within(f + [at], lo, width)| + |L.Within(if lastResort then r + [at] else r, lo, width)|
  {
    hide L.Within;
    WithinAppend(f, at, lo, width);
    WithinAppend(r, at, lo, width);
    WithinAppend(before, at, lo, width);
    WithinAppend(before + [at], at, lo, width);
    assert before + [at, at] == before + [at] + [at];
  }

  /** Between resets the starts are the failures and the respawns. */
  lemma {:induction false} StartsAreCounted(s: State, steps: seq<Step>, n: nat, lo: Time, width: Duration)
    requires Fresh(s) && n <= |steps| && !Resets(At(s, steps, n).out)
    ensures |L.Within(Starts(s, steps, n), lo, width)| ==
              |L.Within(FailuresSince(s, steps, n), lo, width)| + |L.Within(Respawns(s, steps, n), lo, width)|
    decreases n, 1
  {
    hide Next, EventsOf, StartsIn, T.Tracker.CanAttempt, Resets, FailuresSince, Respawns, StartsOf, L.Within, At;
    if n == 0 {
      NoLogs(s, steps);
      NothingWithin(lo, width);
    } else {
      var a := LogsGrow(s, steps, n);
      var before := if Resets(At(s, steps, n - 1).out) then [] else Starts(s, steps, n - 1);
      assert Next(At(s, steps, n - 1), steps[n - 1]) == At(s, steps, n) by { AtNext(s, steps, n); }
      EarlierStarts(s, steps, n, lo, width);
      match a
      case Nothing =>
        assert before + [] == before;
      case OneFailure(at, lastResort) =>
        FailureIsCounted(before, FailuresSince(s, steps, n - 1), Respawns(s, steps, n - 1), at, lastResort, lo, width);
    }
  }

  lemma NothingWithin(lo: Time, width: Duration)
    ensures L.Within([], lo, width) == []
  {
  }

  lemma NoLogs(s: State, steps: seq<Step>)
    ensures FailuresSince(s, steps, 0) == [] && Respawns(s, steps, 0) == []
  {
  }

  lemma {:induction false} EarlierStarts(s: State, steps: seq<Step>, n: nat, lo: Time, width: Duration)
    requires Fresh(s) && 0 < n <= |steps|
    ensures |L.Within(if Resets(At(s, steps, n - 1).out) then [] else Starts(s, steps, n - 1), lo, width)| ==
              |L.Within(FailuresSince(s, steps, n - 1), lo, width)| + |L.Within(Respawns(s, steps, n - 1), lo, width)|
    decreases n, 0
  {
    hide Next, EventsOf, StartsIn, T.Tracker.CanAttempt, Resets, FailuresSince, Respawns, Starts;
    if Resets(At(s, steps, n - 1).out) {
      if n == 1 {
        NoLogs(s, steps);
      } else {
        var a := LogsGrow(s, steps, n - 1);
      }
    } else {
      StartsAreCounted(s, steps, n - 1, lo, width);
    }
  }

  /* ---- respawns are rare ---- */

  function Threshold(s: State): int {
    Max(1, s.cfg.failThreshold)
  }

  /** Later than lo there was either no respawn, or t failures for each respawn but the first, and one for
      each failure counted since. f: the failures; r: the respawns; c: the fail count. */
  ghost predicate Paid(t: int, c: int, f: seq<Time>, r: seq<Time>, lo: Time) {
    && L.Sorted(f) && L.Sorted(r) && (r != [] ==> f != [] && Last(r) <= Last(f))
    && (|T.Prune(r, lo)| == 0 || t * (|T.Prune(r, lo)| - 1) + c + 1 <= |T.Prune(f, lo)|)
  }

  ghost predicate PaidAt(s: State, steps: seq<Step>, n: nat, lo: Time)
    requires n <= |steps|
  {
    Paid(Threshold(s), At(s, steps, n).failCount, FailuresSince(s, steps, n), Respawns(s, steps, n), lo)
  }

  lemma {:induction false} RespawnsArePaid(s: State, steps: seq<Step>, n: nat, lo: Time)
    requires Fresh(s) && n <= |steps|
    ensures PaidAt(s, steps, n, lo)
  {
    hide Next, EventsOf, StartsIn, T.Tracker.CanAttempt, Resets, FailuresSince, Respawns, StartsOf, LastResortsIn, At;
    if n == 0 {
      NoLogs(s, steps);
    } else {
      RespawnsArePaid(s, steps, n - 1, lo);
      ReachableStates(s, steps, n - 1);
      assert Next(At(s, steps, n - 1), steps[n - 1]) == At(s, steps, n) by { AtNext(s, steps, n); }
      FailuresSorted(s, steps, n);
      var a := LogsGrow(s, steps, n);
      if a.OneFailure? {
        PaidFailure(Threshold(s), At(s, steps, n - 1).failCount, FailuresSince(s, steps, n - 1),
                    Respawns(s, steps, n - 1), lo, a.at);
      }
    }
  }

  lemma AtNext(s: State, steps: seq<Step>, n: nat)
    requires 0 < n <= |steps|
    ensures Next(At(s, steps, n - 1), steps[n - 1]) == At(s, steps, n)
  {
    hide Next;
  }

  lemma FailuresSorted(s: State, steps: seq<Step>, n: nat)
    requires Fresh(s) && n <= |steps|
    ensures L.Sorted(FailuresSince(s, steps, n))
  {
    hide At, Log, L.SinceReset, L.Gated;
    LimiterSeesGatedRun(s, steps, n);
    L.GatedRunShape(s.tracker.policy, Log(s, steps, n));
  }

  /** With t to pay for each but the first of b respawns and c counted so far, one more failure pays. */
  lemma OnePayment(t: int, a: int, b: int, c: int)
    requires t >= 1 && a >= 0 && b >= 0 && c >= 0 && (b == 0 || t * (b - 1) + c + 1 <= a)
    ensures c + 1 >= t ==> t * b + 1 <= a + 1
  {
    Distribute(t, b - 1, 1);
  }

  lemma PaidFailure(t: int, c: int, f: seq<Time>, r: seq<Time>, lo: Time, at: Time)
    requires t >= 1 && c >= 0 && Paid(t, c, f, r, lo) && L.Sorted(f + [at])
    ensures Paid(t, c + 1, f + [at], r, lo)
    ensures c + 1 >= t ==> Paid(t, 0, f + [at], r + [at], lo)
  {
    hide T.Prune;
    assert Front(f + [at]) == f && Last(f + [at]) == at;
    WithinAppend(f, at, lo, 0);
    WithinAppend(r, at, lo, 0);
    L.SortedAppend(r, at);
    if at <= lo {
      L.PruneOld(r, lo);
    } else {
      OnePayment(t, |T.Prune(f, lo)|, |T.Prune(r, lo)|, c);
    }
  }

  function CeilDiv(a: int, b: int): int
    requires b > 0
  {
    (a + b - 1) / b
  }

  lemma CeilDivAtLeast(k: int, a: int, b: int)
    requires b > 0 && b * (k - 1) + 1 <= a
    ensures k <= CeilDiv(a, b)
  {
    var q := CeilDiv(a, b);
    assert a + b - 1 < b * q + b;
    Distribute(b, k - 1, 1);
    Distribute(b, q, 1);
    if k > q {
      MulMonotone(b, q + 1, k);
    }
  }

  lemma MulMonotone(b: int, x: int, y: int)
    requires b > 0 && x <= y
    ensures b * x <= b * y
  {
  }

  lemma CeilDivMonotone(a: int, a': int, b: int)
    requires b > 0 && a <= a'
    ensures CeilDiv(a, b) <= CeilDiv(a', b)
  {
    var q, q' := CeilDiv(a, b), CeilDiv(a', b);
    Distribute(b, q', 1);
    if q > q' {
      MulMonotone(b, q' + 1, q);
    }
  }

  /** In any window between two resets, at most one respawn per fail threshold's worth of failures. */
  lemma {:induction false} RespawnsAreRare(s: State, steps: seq<Step>, n: nat, lo: Time, width: Duration)
    requires Fresh(s) && n <= |steps|
    ensures |L.Within(Respawns(s, steps, n), lo, width)| <=
              CeilDiv(|L.Within(FailuresSince(s, steps, n), lo, width)|, Threshold(s))
  {
    hide Next, EventsOf, StartsIn, T.Tracker.CanAttempt, Resets, FailuresSince, Respawns, StartsOf, LastResortsIn, At;
    if n == 0 {
      NoLogs(s, steps);
    } else {
      var a := LogsGrow(s, steps, n);
      match a
      case Nothing =>
        RespawnsAreRare(s, steps, n - 1, lo, width);
      case OneReset(_, _) =>
      case OneFailure(at, _) =>
        if at > lo + width {
          RespawnsAreRare(s, steps, n - 1, lo, width);
          WithinAppend(FailuresSince(s, steps, n - 1), at, lo, width);
          WithinAppend(Respawns(s, steps, n - 1), at, lo, width);
        } else {
          PaidWindow(s, steps, n, lo, width);
        }
    }
  }

  lemma PaidWindow(s: State, steps: seq<Step>, n: nat, lo: Time, width: Duration)
    requires Fresh(s) && n <= |steps|
    requires FailuresSince(s, steps, n) != [] && Last(FailuresSince(s, steps, n)) <= lo + width
    ensures |L.Within(Respawns(s, steps, n), lo, width)| <=
              CeilDiv(|L.Within(FailuresSince(s, steps, n), lo, width)|, Threshold(s))
  {
    hide FailuresSince, Respawns, At, L.Within, T.Prune, CeilDiv, Fresh;
    var f, r := FailuresSince(s, steps, n), Respawns(s, steps, n);
    RespawnsArePaid(s, steps, n, lo);
    ReachableStates(s, steps, n);
    L.WithinIsPrune(f, lo, width);
    L.WithinIsPrune(r, lo, width);
    if |T.Prune(r, lo)| > 0 {
      CeilDivAtLeast(|T.Prune(r, lo)|, |T.Prune(f, lo)|, Threshold(s));
    } else {
      CeilDivMonotone(0, |T.Prune(f, lo)|, Threshold(s));
      NoneOf(Threshold(s));
    }
  }

  lemma NoneOf(b: int)
    requires b > 0
    ensures CeilDiv(0, b) == 0
  {
  }

  /* ---- the bound ---- */

  /** The start that ends a stretch had room: it was not yet latched. */
  lemma FinalStartFits(s: State, steps: seq<Step>, n: nat, at: Time, lo: Time)
    requires Fresh(s) && n <= |steps| && At(s, steps, n).tracker.CanAttempt(at)
    requires lo < at <= lo + s.tracker.policy.window
    ensures |L.Within(FailuresSince(s, steps, n), lo, s.tracker.policy.window)| < s.tracker.policy.maxRestarts
  {
    hide At, Log, T.Tracker.CanAttempt, L.Run, L.Within, T.Backoff;
    var p, log := s.tracker.policy, Log(s, steps, n);
    LimiterSeesGatedRun(s, steps, n);
    var es := log + [L.Failed(at)];
    assert Front(es) == log && Last(es) == L.Failed(at);
    L.CrashLoopRateBound(p, es, lo);
    WithinAppend(L.SinceReset(log), at, lo, p.window);
  }

  /** Over any run, and in any half-open interval of length Window, the cycles issue StartBackend between
      two resets at most MaxRestarts times, plus once more, as the respawn of a last resort, for each
      FailThreshold of them, or part of it. Nothing that operators, adapters or warm starts do in between
      changes that. */
  lemma StartsAreBounded(s: State, steps: seq<Step>, n: nat, lo: Time)
    requires Fresh(s) && n <= |steps|
    ensures var p := s.tracker.policy;
            |L.Within(Starts(s, steps, n), lo, p.window)| <= p.maxRestarts + CeilDiv(p.maxRestarts, Threshold(s))
  {
    hide At, FailuresSince, Respawns, Resets, CeilDiv, StartsOf, Threshold, EventsOf, StartsIn, LastResortsIn,
         T.Tracker.CanAttempt, Next, Starts, L.Within;
    var p := s.tracker.policy;
    if !Resets(At(s, steps, n).out) {
      StartsAreCounted(s, steps, n, lo, p.window);
      FailuresAndRespawnsFit(s, steps, n, lo);
    } else {
      NothingResetYet(s, steps);
      ResettingStarts(s, steps, n, lo);
    }
  }

  lemma NothingResetYet(s: State, steps: seq<Step>)
    requires Fresh(s)
    ensures !Resets(At(s, steps, 0).out)
  {
  }

  lemma FailuresAndRespawnsFit(s: State, steps: seq<Step>, n: nat, lo: Time)
    requires Fresh(s) && n <= |steps|
    ensures var p := s.tracker.policy;
            |L.Within(FailuresSince(s, steps, n), lo, p.window)| + |L.Within(Respawns(s, steps, n), lo, p.window)|
              <= p.maxRestarts + CeilDiv(p.maxRestarts, Threshold(s))
  {
    hide At, Respawns, Log, L.SinceReset, L.Within, CeilDiv;
    WatchdogRateBound(s, steps, n, lo);
    RespawnsAreRare(s, steps, n, lo, s.tracker.policy.window);
    CeilDivMonotone(|L.Within(FailuresSince(s, steps, n), lo, s.tracker.policy.window)|,
                    s.tracker.policy.maxRestarts, Threshold(s));
  }

  lemma ResettingStarts(s: State, steps: seq<Step>, n: nat, lo: Time)
    requires Fresh(s) && 0 < n <= |steps| && Resets(At(s, steps, n).out)
    ensures var p := s.tracker.policy;
            |L.Within(Starts(s, steps, n), lo, p.window)| <= p.maxRestarts + CeilDiv(p.maxRestarts, Threshold(s))
  {
    hide At, FailuresSince, Respawns, Resets, CeilDiv, StartsOf, Threshold, EventsOf, StartsIn, LastResortsIn,
         T.Tracker.CanAttempt, Next, L.Within;
    var p := s.tracker.policy;
    assert Next(At(s, steps, n - 1), steps[n - 1]) == At(s, steps, n) by { AtNext(s, steps, n); }
    var a := LogsGrow(s, steps, n);
    var before := if Resets(At(s, steps, n - 1).out) then [] else Starts(s, steps, n - 1);
    EarlierStarts(s, steps, n, lo, p.window);
    FailuresAndRespawnsFit(s, steps, n - 1, lo);
    if a.started {
      WithinAppend(before, a.at, lo, p.window);
      if lo < a.at <= lo + p.window {
        FinalStartFits(s, steps, n - 1, a.at, lo);
        RespawnsAreRare(s, steps, n - 1, lo, p.window);
        FitsWithOneMore(s, |L.Within(FailuresSince(s, steps, n - 1), lo, p.window)|,
                        |L.Within(Respawns(s, steps, n - 1), lo, p.window)|);
      }
    } else {
      assert before + [] == before;
    }
  }

  lemma FitsWithOneMore(s: State, f: int, r: int)
    requires f < s.tracker.policy.maxRestarts && r <= CeilDiv(f, Threshold(s))
    ensures f + r + 1 <= s.tracker.policy.maxRestarts + CeilDiv(s.tracker.policy.maxRestarts, Threshold(s))
  {
    hide CeilDiv;
    CeilDivMonotone(f, s.tracker.policy.maxRestarts, Threshold(s));
  }

  /* ---- what the limiter does not see ---- */

  /** Desktop is up and the backend live but not ready: the branch that skips a restart. */
  predicate LiveOnly(s: State, e: CycleEnv) {
    var b := Refresh(e.seen, e.seenHealth);
    e.desktop.Up() && b.Some? && s.BackendLive(b, e.firstAt) && !s.BackendReady(b, e.secondAt)
  }

  /** The cycle called EnsureHealthy, and the limiter was told nothing. */
  ghost predicate Escapes(s: State, e: CycleEnv) {
    !NoEnsure(s.Cycle(e).out) && EventsOf(s.Cycle(e).out) == []
  }

  lemma QuietMoves(s: State, to: ServiceState)
    requires Preliminary(s.out)
    ensures EventsOf(s.SetBackend(to).out) == []
    ensures NoEnsure(s.SetBackend(to).out) <==> NoEnsure(s.out)
  {
    hide EventsOf;
    NoEvents(s.SetBackend(to).out);
    assert forall a :: a in s.out ==> a in s.SetBackend(to).out;
  }

  lemma UnknownEscapes(s: State, b: Option<Info>, e: CycleEnv)
    requires Preliminary(s.out)
    ensures EventsOf(s.DesktopUnknown(b, e).out) == []
    ensures NoEnsure(s.DesktopUnknown(b, e).out) <==> NoEnsure(s.out)
  {
    hide EventsOf, State.BackendReady, State.BackendLive, State.SetBackend, NoEnsure;
    QuietMoves(s, Unresponsive);
    QuietMoves(s, Ready);
    QuietMoves(s, Degraded);
    NoEvents(s.out);
  }

  lemma RelaunchEscapes(s: State, e: CycleEnv)
    requires Preliminary(s.out)
    ensures EventsOf(s.RelaunchDesktop(e).out) == []
    ensures NoEnsure(s.RelaunchDesktop(e).out) <==> NoEnsure(s.out)
  {
    hide EventsOf, H.Registry.Bump;
    NoEvents(s.RelaunchDesktop(e).out);
    assert forall a :: a in s.out ==> a in s.RelaunchDesktop(e).out;
  }

  lemma HeldBackEnsuresNothing(s: State, e: CycleEnv)
    requires !s.tracker.CanAttempt(e.now) && NoEnsure(s.out)
    ensures NoEnsure(s.Recover(e).out)
  {
    hide A.Anomalies.Gc;
  }

  lemma DesktopUpEnsures(s: State, mid: State, b: Option<Info>, e: CycleEnv)
    requires mid == s.(backend := mid.backend, desktop := Ready, gate := mid.gate, back := mid.back, out := mid.out)
    requires Plain(mid.out) && e.desktop.Up() && !s.tracker.failed && s.failCount >= 0
    requires !(b.Some? && mid.BackendLive(b, e.firstAt) && !mid.BackendReady(b, e.secondAt))
    ensures EventsOf(mid.DesktopUp(b, e).out) == [] ==>
              !s.tracker.CanAttempt(e.now) && (NoEnsure(mid.out) ==> NoEnsure(mid.DesktopUp(b, e).out))
  {
    hide State.SettleReady, State.BackendReady, State.BackendLive, State.Recover, T.Tracker.CanAttempt, EventsOf,
         Shaped, NoEnsure;
    if b.None? || !mid.BackendReady(b, e.thirdAt) {
      var shape, pre := RecoverShape(s, mid, e);
      ShapeEvents(s, e, mid.Recover(e), shape, pre);
      if !s.tracker.CanAttempt(e.now) && NoEnsure(mid.out) {
        HeldBackEnsuresNothing(mid, e);
      }
    } else {
      SettledShape(s, mid, e);
      ShapeEvents(s, e, mid.SettleReady(e.now), Settled, mid.out);
    }
  }

  /** An active cycle calls EnsureHealthy behind the limiter's back exactly when prewarming finds no Ready
      backend and the cycle then neither tries to recover it nor sees it Ready: because Desktop is not
      known to be up, or because the backend is live but not ready. */
  lemma EscapesIff(s: State, e: CycleEnv)
    requires Inv(s) && !s.paused && !s.Suppressed(e)
    ensures Escapes(s, e) <==> PrewarmFires(s, e) && (!e.desktop.Up() || LiveOnly(s, e))
  {
    hide State.Supervise, H.Registry.FreshReady, H.Registry.FreshLive, NoEnsure, EventsOf, T.Tracker.CanAttempt;
    SuperviseEscapesIff(s, s.(out := [], gate := s.gate.Ask(e.gateAt)), e);
  }

  lemma SuperviseEscapesIff(s: State, now: State, e: CycleEnv)
    requires Inv(s) && now == s.(out := [], gate := now.gate)
    ensures !NoEnsure(now.Supervise(e).out) && EventsOf(now.Supervise(e).out) == [] <==>
              PrewarmFires(s, e) && (!e.desktop.Up() || LiveOnly(s, e))
  {
    hide State.ObserveDesktop, State.PrewarmStage, State.Recover, State.SettleReady, State.DesktopUnknown,
         State.RelaunchDesktop, H.Registry.FreshReady, H.Registry.FreshLive, NoCommand, NoEnsure, EventsOf;
    NothingDone();
    var s1 := now.ObserveDesktop(e.desktop);
    ObserveDesktopMoves(now, e.desktop);
    ObserveEnsuresNothing(now, e.desktop);
    if s.tracker.failed {
      QuietMoves(s1, Failed);
    } else {
      var s2, b := s1.PrewarmStage(e), Refresh(e.seen, e.seenHealth);
      PrewarmMoves(s1, e);
      PrewarmEnsuresIff(s1, e);
      if !e.desktop.Known() {
        UnknownEscapes(s2, b, e);
      } else if !e.desktop.Up() {
        RelaunchEscapes(s2, e);
      } else if LiveOnly(s, e) {
        QuietMoves(s2, Degraded);
      } else {
        DesktopUpEnsures(s, s2, b, e);
      }
    }
  }

  function Repeated(e: CycleEnv, n: nat): seq<Step> {
    if n == 0 then [] else Repeated(e, n - 1) + [RunCycle(e)]
  }

  lemma {:induction false} RepeatedSteps(e: CycleEnv, n: nat)
    ensures |Repeated(e, n)| == n && forall i :: 0 <= i < n ==> Repeated(e, n)[i] == RunCycle(e)
  {
    if n > 0 {
      RepeatedSteps(e, n - 1);
    }
  }

  /** With prewarming on, nothing suppressed, a Desktop probe that fails and no backend visible, every
      cycle of this kind calls EnsureHealthy: nothing limits how many do so, at whatever rate. */
  predicate Unlimited(s: State, e: CycleEnv) {
    && s.cfg.prewarm && !s.paused && !s.gate.apiOn && s.tracker.CanAttempt(e.now)
    && !e.envFlag && !e.lockFile && e.desktop == ProbeFailed && e.early.None?
  }

  lemma UnlimitedCycle(s: State, e: CycleEnv)
    requires Inv(s) && Unlimited(s, e)
    ensures var s' := s.Cycle(e);
            && Inv(s') && Unlimited(s', e) && Escapes(s, e) && s'.tracker == s.tracker
  {
    hide State.Supervise, T.Tracker.CanAttempt;
    EscapesIff(s, e);
    UnlimitedSupervise(s.(out := [], gate := s.gate.Ask(e.gateAt)), e);
    var shape, pre := CycleShape(s, e);
  }

  lemma UnlimitedSupervise(s: State, e: CycleEnv)
    requires Inv(s) && s.out == [] && e.desktop == ProbeFailed
    ensures var s' := s.Supervise(e);
            s'.cfg == s.cfg && s'.paused == s.paused && s'.gate == s.gate && s'.tracker == s.tracker
  {
    hide State.ObserveDesktop, State.PrewarmStage, State.DesktopUnknown, T.Tracker.CanAttempt;
    var s1 := s.ObserveDesktop(e.desktop);
    ObserveDesktopMoves(s, e.desktop);
    var s2 := s1.PrewarmStage(e);
    PrewarmMoves(s1, e);
    UnknownMoves(s2, Refresh(e.seen, e.seenHealth), e);
  }

  lemma {:induction false} PrewarmIsUnlimited(s: State, e: CycleEnv, n: nat)
    requires Fresh(s) && Unlimited(s, e)
    ensures |Repeated(e, n)| == n
    ensures forall i :: 0 < i <= n ==> !NoEnsure(At(s, Repeated(e, n), i).out)
    ensures Log(s, Repeated(e, n), n) == [] && At(s, Repeated(e, n), n).tracker == s.tracker
  {
    hide State.Cycle, Unlimited, NoEnsure, EventsOf, Inv, Next;
    RepeatedSteps(e, n);
    FreshIsInv(s);
    UnlimitedRun(s, e, Repeated(e, n), n);
  }

  lemma {:induction false} UnlimitedRun(s: State, e: CycleEnv, steps: seq<Step>, n: nat)
    requires Inv(s) && Unlimited(s, e) && n <= |steps| && forall i :: 0 <= i < n ==> steps[i] == RunCycle(e)
    ensures forall i :: 0 < i <= n ==> !NoEnsure(At(s, steps, i).out)
    ensures var t := At(s, steps, n);
            Inv(t) && Unlimited(t, e) && Log(s, steps, n) == [] && t.tracker == s.tracker
  {
    hide State.Cycle, Unlimited, NoEnsure, EventsOf, Inv;
    if n > 0 {
      UnlimitedRun(s, e, steps, n - 1);
      UnlimitedCycle(At(s, steps, n - 1), e);
    }
  }
}
