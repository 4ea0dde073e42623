/** A watchdog run seen through its lease registry: every heartbeat it receives and every epoch its
    commands bump, in order. Heartbeats from before a command that replaces a service never vouch for
    what came after. */
module WatchdogLeases {
  import opened Prelude
  import opened Watchdog
  import opened WatchdogRuns
  import opened WatchdogTrace
  import H = Heartbeat
  import L = HeartbeatRuns
  import V = WarmRuns
  import W = WarmStart

  /** What an action means to the lease registry. */
  function LeaseEvents(a: Action): seq<L.Event> {
    match a
    case HeartbeatReceived(env, at) => [L.Received(env, at)]
    case EpochsOpened(counted, later) =>
      V.Opened([]) + V.BeatEvents(counted) + V.BeatEvents(later)
    case Issued(StartDesktop) => [L.Bumped(H.DESKTOP)]
    case Issued(StopDesktop) => [L.Bumped(H.DESKTOP)]
    case Issued(StartBackend) => [L.Bumped(H.BACKEND)]
    case Issued(StopBackend) => [L.Bumped(H.BACKEND)]
    case _ => []
  }

  function LeaseLog(out: seq<Action>): seq<L.Event> {
    if out == [] then [] else LeaseLog(Front(out)) + LeaseEvents(Last(out))
  }

  /** The registry after the whole history h. */
  function After(timeout: Duration, h: seq<L.Event>): H.Registry {
    L.At(timeout, h, |h|)
  }

  lemma AfterAppend(timeout: Duration, h: seq<L.Event>, e: L.Event)
    ensures After(timeout, h + [e]) == L.Step(After(timeout, h), e)
  {
    V.AtAppend(timeout, h, e);
  }

  lemma AfterOpening(timeout: Duration, h: seq<L.Event>, counted: seq<W.Beat>, later: seq<W.Beat>)
    ensures After(timeout, h + (V.Opened([]) + V.BeatEvents(counted) + V.BeatEvents(later)))
              == W.Deliver(W.Deliver(W.OpenEpochs(After(timeout, h)), counted), later)
  {
    hide L.At, W.Deliver, W.OpenEpochs;
    var opened' := V.Opened(h);
    V.OpenedRegistry(timeout, h);
    V.DeliveredRegistry(timeout, opened', counted);
    V.DeliveredRegistry(timeout, opened' + V.BeatEvents(counted), later);
    assert h + (V.Opened([]) + V.BeatEvents(counted) + V.BeatEvents(later))
        == opened' + V.BeatEvents(counted) + V.BeatEvents(later);
  }

  lemma AfterAction(timeout: Duration, h: seq<L.Event>, a: Action)
    ensures After(timeout, h + LeaseEvents(a)) == Leased(After(timeout, h), a)
  {
    hide After, W.Deliver, W.OpenEpochs, H.Registry.Bump, H.Registry.Ingest, V.BeatEvents, V.Opened;
    match a
    case HeartbeatReceived(env, at) => AfterAppend(timeout, h, L.Received(env, at));
    case EpochsOpened(counted, later) => AfterOpening(timeout, h, counted, later);
    case Issued(StartDesktop) => AfterAppend(timeout, h, L.Bumped(H.DESKTOP));
    case Issued(StopDesktop) => AfterAppend(timeout, h, L.Bumped(H.DESKTOP));
    case Issued(StartBackend) => AfterAppend(timeout, h, L.Bumped(H.BACKEND));
    case Issued(StopBackend) => AfterAppend(timeout, h, L.Bumped(H.BACKEND));
    case _ => assert h + [] == h;
  }

  lemma {:induction false} LeasesAfterExtend(timeout: Duration, h: seq<L.Event>, out: seq<Action>)
    ensures LeasesAfter(After(timeout, h), out) == After(timeout, h + LeaseLog(out))
  {
    hide After, Leased, LeaseEvents;
    if out == [] {
      assert h + [] == h;
    } else {
      var before := LeaseLog(Front(out));
      LeasesAfterExtend(timeout, h, Front(out));
      AfterAction(timeout, h + before, Last(out));
      assert h + (before + LeaseEvents(Last(out))) == (h + before) + LeaseEvents(Last(out));
    }
  }

  /** The heartbeats received and epochs bumped in the first n steps. */
  function History(s: State, steps: seq<Step>, n: nat): seq<L.Event>
    requires n <= |steps|
  {
    if n == 0 then [] else History(s, steps, n - 1) + LeaseLog(At(s, steps, n).out)
  }

  /** The watchdog's registry is the registry of that history, and of nothing else. */
  lemma {:induction false} RegistrySeesHistory(timeout: Duration, s: State, steps: seq<Step>, n: nat)
    requires s.hb == H.NewRegistry(timeout) && n <= |steps|
    ensures At(s, steps, n).hb == After(timeout, History(s, steps, n))
  {
    hide Next, LeaseLog, LeasesAfter, BackAfter;
    if n > 0 {
      RegistrySeesHistory(timeout, s, steps, n - 1);
      StepTraced(At(s, steps, n - 1), steps[n - 1]);
      LeasesAfterExtend(timeout, History(s, steps, n - 1), At(s, steps, n).out);
    }
  }

  lemma {:induction false} TimeoutIsFixed(timeout: Duration, h: seq<L.Event>, n: nat)
    requires n <= |h|
    ensures L.At(timeout, h, n).timeout == H.NewRegistry(timeout).timeout
  {
    hide H.NormalizeService, H.NextEpoch;
    if n > 0 {
      TimeoutIsFixed(timeout, h, n - 1);
    }
  }

  /** At any point of any run, a backend that no probe reports ready counts as ready exactly when the last
      heartbeat accepted from it since the last command that bumped its epoch is still fresh and claimed
      ready. */
  lemma UnprobedReadinessMeansHistory(timeout: Duration, s: State, steps: seq<Step>, n: nat,
                                      info: Option<Info>, now: Time)
    requires s.hb == H.NewRegistry(timeout) && n <= |steps|
    requires info.None? || !info.value.health.ready
    ensures var h := History(s, steps, n);
            At(s, steps, n).BackendReady(info, now) <==>
              exists i :: L.Current(timeout, h, |h|, i, H.BACKEND)
                && now - h[i].at <= H.NewRegistry(timeout).timeout && h[i].env.State() == "ready"
  {
    hide At, History, H.NormalizeService, L.At, H.Registry.FreshReady;
    RegistrySeesHistory(timeout, s, steps, n);
    TimeoutIsFixed(timeout, History(s, steps, n), |History(s, steps, n)|);
    W.CanonicalServices();
    L.FreshnessIsAboutHistory(timeout, History(s, steps, n), |History(s, steps, n)|, H.BACKEND, now);
  }

  /* ---- fencing ---- */

  /** The action gives the backend a new epoch. */
  predicate Fences(a: Action) {
    a == Issued(StartBackend) || a == Issued(StopBackend) || a.EpochsOpened?
  }

  lemma {:induction false} FenceIsLogged(out: seq<Action>, a: Action) returns (k: nat)
    requires a in out && Fences(a)
    ensures k < |LeaseLog(out)| && LeaseLog(out)[k] == L.Bumped(H.BACKEND)
  {
    hide V.BeatEvents;
    if a in Front(out) {
      k := FenceIsLogged(Front(out), a);
    } else {
      k := |LeaseLog(Front(out))| + if a.EpochsOpened? then 1 else 0;
    }
  }

  lemma {:induction false} HistoryGrows(s: State, steps: seq<Step>, m: nat, n: nat)
    requires m <= n <= |steps|
    ensures |History(s, steps, m)| <= |History(s, steps, n)|
    ensures History(s, steps, n)[..|History(s, steps, m)|] == History(s, steps, m)
  {
    hide LeaseLog, Next;
    if m < n {
      HistoryGrows(s, steps, m, n - 1);
    }
  }

  lemma FenceInHistory(s: State, steps: seq<Step>, k: nat, a: Action, n: nat) returns (at: nat)
    requires k < n <= |steps| && a in At(s, steps, k + 1).out && Fences(a)
    ensures |History(s, steps, k)| <= at < |History(s, steps, n)|
    ensures L.BumpedAt(History(s, steps, n), at, H.BACKEND)
  {
    hide LeaseLog, At, Fences, H.NormalizeService;
    var j := FenceIsLogged(At(s, steps, k + 1).out, a);
    HistoryGrows(s, steps, k + 1, n);
    W.CanonicalServices();
    at := |History(s, steps, k)| + j;
    assert History(s, steps, n)[at] == History(s, steps, k + 1)[at] == L.Bumped(H.BACKEND);
  }

  /** Over any run a heartbeat once accepted is stale, whenever it is replayed, if and only if the commands
      of the run bumped its service since a number of times that is not a multiple of the largest int64. */
  lemma OldHeartbeatsAreRefusedIff(timeout: Duration, s: State, steps: seq<Step>, i: nat, service: string, n: nat)
    requires s.hb == H.NewRegistry(timeout) && n <= |steps|
    requires i < |History(s, steps, n)| && L.Accepted(timeout, History(s, steps, n), i, service)
    ensures var h := History(s, steps, n);
            At(s, steps, n).hb.Verdict(h[i].env) == Some(H.StaleEpoch) <==>
              L.Bumps(h, service, i + 1, |h|) % MAX_INT64 != 0
  {
    hide LeaseLog, L.At, L.Accepted, H.Registry.Verdict, H.NormalizeService, At, L.Bumps;
    RegistrySeesHistory(timeout, s, steps, n);
    L.ReplayIsStaleIff(timeout, History(s, steps, n), i, |History(s, steps, n)|, service);
  }

  /** In particular a backend heartbeat accepted before step k, in which a recovery, an operator or a warm
      start gave the backend a new epoch, is refused as stale whenever it is replayed later, unless the
      epochs have run round since. */
  lemma OldHeartbeatsAreRefused(timeout: Duration, s: State, steps: seq<Step>, i: nat, k: nat, a: Action, n: nat)
    requires s.hb == H.NewRegistry(timeout) && k < n <= |steps|
    requires i < |History(s, steps, k)| && L.Accepted(timeout, History(s, steps, n), i, H.BACKEND)
    requires L.Bumps(History(s, steps, n), H.BACKEND, i + 1, |History(s, steps, n)|) < MAX_INT64
    requires a in At(s, steps, k + 1).out && Fences(a)
    ensures At(s, steps, n).hb.Verdict(History(s, steps, n)[i].env) == Some(H.StaleEpoch)
  {
    hide LeaseLog, L.At, L.Accepted, L.BumpedAt, H.Registry.Verdict, H.NormalizeService, At, Fences, L.Bumps, History;
    var h := History(s, steps, n);
    var at := FenceInHistory(s, steps, k, a, n);
    OldHeartbeatsAreRefusedIff(timeout, s, steps, i, H.BACKEND, n);
    L.BumpsCount(h, H.BACKEND, i + 1, at, |h|);
  }

  /* ---- warm restarts ---- */

  /** Over any run a warm restart that is not refused fails exactly when a stop, start or readiness hook
      does, and is otherwise interrupted exactly when the last backend heartbeat accepted between the bump
      that opened it and its last reading of active runs reported some. No heartbeat of the run from before
      it ever counts. */
  lemma WarmRestartInterruptedIff(timeout: Duration, s: State, steps: seq<Step>, n: nat, e: CommandEnv)
    requires s.hb == H.NewRegistry(timeout) && n <= |steps|
    ensures var before := At(s, steps, n);
            var h := History(s, steps, n);
            var full := V.Opened(h) + V.BeatEvents(e.counted);
            var hookFailed := e.processes.Answered(before.cfg.backend, before.back).HookFailed();
            && |full| == |h| + 3 + |e.counted|
            && (before.WarmOutcome(e) == W.Failed <==> hookFailed)
            && (before.WarmOutcome(e) == W.Interrupted <==>
                  !hookFailed
                  && exists i :: |h| + 3 <= i < |full| && L.Current(timeout, full, |full|, i, H.BACKEND)
                                 && full[i].env.payload.activeRuns > 0)
  {
    hide At, History, L.At, L.Current, V.Opened, V.BeatEvents, W.Deliver, W.OpenEpochs, W.Processes.Answered,
         W.Answers.HookFailed, H.Registry.LastActiveRuns, H.NormalizeService;
    RegistrySeesHistory(timeout, s, steps, n);
    V.DrainReadingCountsOnlyThisEpoch(timeout, History(s, steps, n), e.counted);
  }
}
