/** The warm-start sequencer of warm_start.go with the watchdog's default hooks: twelve phases, two
    timed polling loops, three failing exits. */
module WarmStart {
  import opened Prelude
  import opened Heartbeat
  import B = Backend

  datatype Phase =
    | RestartIntent | Draining | StopAccepting | GraceActiveRuns | CheckpointRequest
    | CloseChildren | StopBackend | StartBackend | Readiness | RestoreRouting
    | NotifyDesktop | ResumeTraffic

  const PHASES: seq<Phase> := [
    RestartIntent, Draining, StopAccepting, GraceActiveRuns, CheckpointRequest,
    CloseChildren, StopBackend, StartBackend, Readiness, RestoreRouting,
    NotifyDesktop, ResumeTraffic]

  datatype Outcome = Pending | Success | Interrupted | Failed

  datatype Snapshot = Snapshot(
    active: bool, phase: Option<Phase>, outcome: Outcome, interrupted: bool,
    resumeTraffic: bool, draining: bool, activeRunsAtEnd: int, epochBefore: int, epochAfter: int)

  const IDLE := Snapshot(false, None, Pending, false, true, false, 0, 0, 0)

  /** Timeouts; the non-positive ones fall back to their defaults. */
  datatype WarmConfig = WarmConfig(drain: Duration, checkpoint: Duration)
  {
    function Drain(): (d: Duration) ensures d > 0 {
      if drain <= 0 then 15 * SECOND else drain
    }

    function Checkpoint(): (d: Duration) ensures d > 0 {
      if checkpoint <= 0 then 5 * SECOND else checkpoint
    }
  }

  datatype HookCall = CalledStop | CalledStart | CalledWaitReady | CalledNotify

  /** What the process hooks answered. */
  datatype Answers = Answers(stopOk: bool, startOk: bool, readyOk: bool)
  {
    predicate HookFailed() {
      !(stopOk && startOk && readyOk)
    }

    /** How many of the twelve phases a sequence with these answers goes through. */
    function PhasesReached(): (n: nat) ensures n <= 12 {
      if !stopOk then 7 else if !startOk then 8 else if !readyOk then 9 else 12
    }

    function Calls(): seq<HookCall> {
      [CalledStop, CalledStart, CalledWaitReady, CalledNotify]
        [..if !stopOk then 1 else if !startOk then 2 else if !readyOk then 3 else 4]
    }
  }

  /** The terminal outcome, from whether a hook failed and the last reading of active runs. */
  function OutcomeOf(hookFailed: bool, activeRuns: int): Outcome {
    if hookFailed then Failed else if activeRuns > 0 then Interrupted else Success
  }

  /** What the process hooks will meet: whether stopping succeeds, the probes of the start's
      EnsureHealthy, whether readiness comes in time, and the notification's fresh token and write. */
  datatype Processes = Processes(
    stopOk: bool, probes: B.Probes, readyOk: bool, minted: Option<string>, written: bool)
  {
    function Restart(cfg: B.Config, b: B.Back): (r: B.Progress)
      ensures r.result.Some?
    {
      B.Ensure(cfg, b.Stop(), probes)
    }

    function Answered(cfg: B.Config, b: B.Back): Answers {
      Answers(stopOk, Restart(cfg, b).result.value.Healthy?, readyOk)
    }

    /** The supervisor after the process steps: stopped, restarted, and, once ready, republished. */
    function After(cfg: B.Config, b: B.Back): B.Back {
      if !stopOk then b
      else
        var r := Restart(cfg, b);
        if r.result.value.Healthy? && readyOk then
          B.Notify(r.back, r.result.value.port, minted, written).0
        else r.back
    }
  }

  /** What a warm start that passed the gate reports. The outcome is failed exactly when a stop, start or
      readiness hook failed, else interrupted exactly when the last reading of active runs was positive,
      else success; the reading is that of the lease registry r after both epochs were bumped and the
      counted heartbeats then delivered; the phases are those up to the failing hook, or all twelve. */
  ghost predicate Conforms(out: Snapshot, phases: seq<Phase>, a: Answers, r: Registry, counted: seq<Beat>) {
    && !out.active
    && out.activeRunsAtEnd == Deliver(OpenEpochs(r), counted).LastActiveRuns(BACKEND)
    && out.outcome == OutcomeOf(a.HookFailed(), out.activeRunsAtEnd)
    && out.interrupted == (out.activeRunsAtEnd > 0)
    && out.resumeTraffic == !a.HookFailed()
    && out.draining == a.HookFailed()
    && phases == PHASES[..a.PhasesReached()]
    && out.epochBefore == r.CurrentEpoch(BACKEND)
    && out.epochAfter == NextEpoch(out.epochBefore)
  }

  datatype Beat = Beat(env: Envelope, at: Time)

  function Deliver(r: Registry, beats: seq<Beat>): Registry {
    if beats == [] then r
    else Deliver(r, Front(beats)).Ingest(Last(beats).env, Last(beats).at)
  }

  /** The epochs of both services are bumped before anything is read. */
  function OpenEpochs(r: Registry): Registry {
    r.Touch(BACKEND).Bump(BACKEND).Bump(DESKTOP)
  }

  /** ceil(drain / 50ms) */
  function DrainPolls(drain: Duration): int {
    (drain + 49_999_999) / 50_000_000
  }

  /** ceil(wait / 20ms) */
  function AckPolls(wait: Duration): int {
    (wait + 19_999_999) / 20_000_000
  }

  /** The world the sequencer runs in: a clock, the lease registry, heartbeats that arrive while it
      sleeps, and the answers of the process hooks. */
  class Hooks {
    const registry: HeartbeatRegistry
    const back: B.BackendManager
    const processes: Processes
    const acks: nat -> bool
    var clock: Time
    var inbox: seq<seq<Envelope>>
    var delivered: seq<Beat>
    var runReads: nat
    ghost var readings: seq<int>
    var ackPolls: nat
    var calls: seq<HookCall>

    constructor (r: HeartbeatRegistry, b: B.BackendManager, p: Processes, k: nat -> bool, now: Time,
                 arriving: seq<seq<Envelope>>)
      ensures registry == r && back == b && processes == p && acks == k && clock == now && inbox == arriving
      ensures delivered == [] && runReads == 0 && ackPolls == 0 && calls == []
    {
      registry, back, processes, acks, clock, inbox := r, b, p, k, now, arriving;
      delivered, runReads, ackPolls, calls, readings := [], 0, 0, [], [];
    }

    /** The clock never goes back; any amount of time may pass between two readings. */
    method Now() returns (t: Time)
      modifies this`clock
      ensures t == clock >= old(clock)
    {
      var passed: int := *;
      clock := clock + Max(passed, 0);
      t := clock;
    }

    /** Sleeps at least d; the next batch of heartbeats arrives meanwhile. */
    method Sleep(d: Duration) returns (ghost arrived: seq<Beat>)
      requires d >= 0
      modifies this`clock, this`inbox, this`delivered, registry
      ensures clock >= old(clock) + d
      ensures delivered == old(delivered) + arrived
      ensures registry.View() == Deliver(old(registry.View()), arrived)
    {
      var passed: int := *;
      clock := clock + d + Max(passed, 0);
      ghost var r0 := registry.View();
      arrived := [];
      if inbox != [] {
        var batch := inbox[0];
        inbox := inbox[1..];
        var i := 0;
        while i < |batch|
          invariant 0 <= i <= |batch|
          invariant delivered == old(delivered) + arrived
          invariant registry.View() == Deliver(r0, arrived)
          modifies this`delivered, registry
        {
          var _ := registry.Ingest(batch[i], clock);
          delivered := delivered + [Beat(batch[i], clock)];
          assert Front(arrived + [Beat(batch[i], clock)]) == arrived;
          arrived := arrived + [Beat(batch[i], clock)];
          i := i + 1;
        }
      }
    }

    method ActiveRuns() returns (n: int)
      modifies this`runReads, this`readings
      ensures n == registry.View().LastActiveRuns(BACKEND)
      ensures runReads == old(runReads) + 1 && readings == old(readings) + [n]
    {
      runReads := runReads + 1;
      n := registry.LastActiveRuns(BACKEND);
      readings := readings + [n];
    }

    ghost function Answered(): Answers
      reads back
    {
      processes.Answered(back.cfg, back.View())
    }

    method StopBackend() returns (ok: bool)
      modifies this`calls, back
      ensures ok == processes.stopOk && calls == old(calls) + [CalledStop]
      ensures back.View() == if ok then old(back.View()).Stop() else old(back.View())
    {
      calls := calls + [CalledStop];
      if processes.stopOk {
        back.StopLocked();
      }
      ok := processes.stopOk;
    }

    method StartBackend() returns (ok: bool, port: int)
      modifies this`calls, back
      ensures calls == old(calls) + [CalledStart]
      ensures var r := B.Ensure(back.cfg, old(back.View()), processes.probes);
              && back.View() == r.back
              && ok == r.result.value.Healthy?
              && port == (if ok then r.result.value.port else 0)
    {
      hide B.Ensure;
      calls := calls + [CalledStart];
      var r, _ := back.EnsureHealthy(processes.probes);
      match r
      case Healthy(_, p) => ok, port := true, p;
      case Failed(_) => ok, port := false, 0;
    }

    method NotifyDesktop(port: int)
      modifies this`calls, back
      ensures calls == old(calls) + [CalledNotify]
      ensures back.View() == B.Notify(old(back.View()), port, processes.minted, processes.written).0
    {
      calls := calls + [CalledNotify];
      var _, _ := back.NotifyDesktop(port, processes.minted, processes.written);
    }

    method CheckpointAcked() returns (ok: bool)
      modifies this`ackPolls
      ensures ok == acks(old(ackPolls)) && ackPolls == old(ackPolls) + 1
    {
      ok := acks(ackPolls);
      ackPolls := ackPolls + 1;
    }
  }

  lemma {:induction false} DeliverConcat(r: Registry, first: seq<Beat>, second: seq<Beat>)
    ensures Deliver(r, first + second) == Deliver(Deliver(r, first), second)
  {
    if second == [] {
      assert first + second == first;
    } else {
      assert Front(first + second) == first + Front(second);
      DeliverConcat(r, first, Front(second));
    }
  }

  class WarmStartSequencer {
    const cfg: WarmConfig
    var snap: Snapshot
    var phases: seq<Phase>

    constructor (c: WarmConfig)
      ensures cfg == c && snap == IDLE && phases == []
    {
      cfg, snap, phases := c, IDLE, [];
    }

    /** Emits a phase event and shows the phase in the snapshot. */
    method SetPhase(p: Phase)
      modifies this
      ensures snap == old(snap).(phase := Some(p)) && phases == old(phases) + [p]
    {
      snap := snap.(phase := Some(p));
      phases := phases + [p];
    }

    /** Polls the active runs until none is left or the drain time is over, then reads them once more. Every
        poll but the last found some, and it gives up on them only after the whole drain time. */
    method DrainRuns(hooks: Hooks)
      returns (activeAtEnd: int, ghost counted: seq<Beat>, ghost polled: seq<int>)
      modifies hooks, hooks.registry
      ensures hooks.delivered == old(hooks.delivered) + counted
      ensures hooks.registry.View() == Deliver(old(hooks.registry.View()), counted)
      ensures activeAtEnd == hooks.registry.View().LastActiveRuns(BACKEND)
      ensures hooks.runReads - old(hooks.runReads) <= DrainPolls(cfg.Drain()) + 1
      ensures hooks.ackPolls == old(hooks.ackPolls) && hooks.calls == old(hooks.calls)
      ensures hooks.clock >= old(hooks.clock)
      ensures hooks.readings == old(hooks.readings) + polled + [activeAtEnd]
      ensures forall i :: 0 <= i < |polled| - 1 ==> polled[i] > 0
      ensures (polled != [] && Last(polled) <= 0) || hooks.clock >= old(hooks.clock) + cfg.Drain()
      ensures activeAtEnd > 0 ==> hooks.clock >= old(hooks.clock) + cfg.Drain()
    {
      hide Registry.LastActiveRuns, Registry.Ingest, NormalizeService;
      counted, polled := [], [];
      ghost var r0 := hooks.registry.View();
      var t := hooks.Now();
      ghost var t0 := t;
      var deadline := t + cfg.Drain();
      t := hooks.Now();
      ghost var k := 0;
      while t < deadline
        invariant hooks.delivered == old(hooks.delivered) + counted
        invariant hooks.registry.View() == Deliver(r0, counted)
        invariant hooks.runReads == old(hooks.runReads) + k
        invariant k >= 0 && (k > 0 ==> 50_000_000 * (k - 1) < cfg.Drain())
        invariant t0 + 50_000_000 * k <= t == hooks.clock
        invariant hooks.ackPolls == old(hooks.ackPolls) && hooks.calls == old(hooks.calls)
        invariant hooks.readings == old(hooks.readings) + polled
        invariant forall i :: 0 <= i < |polled| ==> polled[i] > 0
        decreases deadline - t
      {
        k := k + 1;
        var n := hooks.ActiveRuns();
        polled := polled + [n];
        if n <= 0 {
          break;
        }
        ghost var arrived := hooks.Sleep(50_000_000);
        DeliverConcat(r0, counted, arrived);
        counted := counted + arrived;
        t := hooks.Now();
      }
      activeAtEnd := hooks.ActiveRuns();
    }

    /** Waits for the checkpoint acknowledgement until its own deadline. */
    method AwaitCheckpoint(hooks: Hooks) returns (acked: bool, ghost arrived: seq<Beat>)
      modifies hooks, hooks.registry
      ensures hooks.delivered == old(hooks.delivered) + arrived
      ensures hooks.registry.View() == Deliver(old(hooks.registry.View()), arrived)
      ensures hooks.ackPolls - old(hooks.ackPolls) <= AckPolls(cfg.Checkpoint())
      ensures acked <==> exists i :: old(hooks.ackPolls) <= i < hooks.ackPolls && hooks.acks(i)
      ensures forall i :: old(hooks.ackPolls) <= i < hooks.ackPolls - 1 ==> !hooks.acks(i)
      ensures !acked ==> hooks.clock >= old(hooks.clock) + cfg.Checkpoint()
      ensures hooks.clock >= old(hooks.clock)
      ensures hooks.runReads == old(hooks.runReads) && hooks.calls == old(hooks.calls)
    {
      arrived := [];
      ghost var r0 := hooks.registry.View();
      var t := hooks.Now();
      ghost var t0 := t;
      var deadline := t + cfg.Checkpoint();
      acked := false;
      t := hooks.Now();
      ghost var k := 0;
      while t < deadline
        invariant hooks.delivered == old(hooks.delivered) + arrived
        invariant hooks.registry.View() == Deliver(r0, arrived)
        invariant hooks.ackPolls == old(hooks.ackPolls) + k
        invariant k >= 0 && (k > 0 ==> 20_000_000 * (k - 1) < cfg.Checkpoint())
        invariant t0 + 20_000_000 * k <= t
        invariant !acked && t == hooks.clock
        invariant forall i :: old(hooks.ackPolls) <= i < hooks.ackPolls ==> !hooks.acks(i)
        invariant hooks.runReads == old(hooks.runReads) && hooks.calls == old(hooks.calls)
        decreases deadline - t
      {
        k := k + 1;
        var ok := hooks.CheckpointAcked();
        if ok {
          acked := true;
          break;
        }
        ghost var more := hooks.Sleep(20_000_000);
        DeliverConcat(r0, arrived, more);
        arrived := arrived + more;
        t := hooks.Now();
      }
    }

    method Finish(outcome: Outcome, interrupted: bool, activeAtEnd: int) returns (out: Snapshot)
      requires outcome in {Success, Interrupted, Failed} && (outcome == Interrupted ==> interrupted)
      modifies this`snap
      ensures out == snap && !snap.active
      ensures snap.outcome == (if outcome == Success && interrupted then Interrupted else outcome)
      ensures snap.interrupted == interrupted && snap.activeRunsAtEnd == activeAtEnd
      ensures snap.phase == old(snap.phase)
      ensures snap.epochBefore == old(snap.epochBefore) && snap.epochAfter == old(snap.epochAfter)
      ensures if outcome == Failed then
                snap.resumeTraffic == old(snap.resumeTraffic) && snap.draining == old(snap.draining)
              else snap.resumeTraffic && !snap.draining
    {
      snap := snap.(active := false, outcome := outcome, interrupted := interrupted || outcome == Interrupted);
      if snap.interrupted && snap.outcome == Success {
        snap := snap.(outcome := Interrupted);
      }
      snap := snap.(activeRunsAtEnd := activeAtEnd);
      if outcome != Failed {
        snap := snap.(draining := false, resumeTraffic := true);
      }
      out := snap;
    }

    /** One warm start. It is refused, and has no effect at all, while another one is active: the snapshot is
        then read again after leaving the lock. ended: the other one's outcome, if it ends in between. */
    method Run(hooks: Hooks, ended: Option<Outcome>)
      returns (out: Snapshot, ghost counted: seq<Beat>, ghost later: seq<Beat>)
      modifies this, hooks, hooks.registry, hooks.back
      ensures snap == out
      ensures old(snap.active) ==>
                && out == (if ended.Some? then old(snap).(active := false, outcome := ended.value) else old(snap))
                && phases == old(phases)
                && hooks.calls == old(hooks.calls) && hooks.delivered == old(hooks.delivered)
                && hooks.registry.View() == old(hooks.registry.View())
                && hooks.back.View() == old(hooks.back.View())
      ensures !old(snap.active) ==>
                && Conforms(out, phases, old(hooks.Answered()), old(hooks.registry.View()), counted)
                && hooks.calls == old(hooks.calls) + old(hooks.Answered()).Calls()
                && hooks.delivered == old(hooks.delivered) + counted + later
                && hooks.registry.View() ==
                     Deliver(Deliver(OpenEpochs(old(hooks.registry.View())), counted), later)
                && hooks.back.View() == hooks.processes.After(hooks.back.cfg, old(hooks.back.View()))
                && (out.activeRunsAtEnd > 0 ==> hooks.clock >= old(hooks.clock) + cfg.Drain())
      ensures hooks.runReads - old(hooks.runReads) <= DrainPolls(cfg.Drain()) + 1
      ensures hooks.ackPolls - old(hooks.ackPolls) <= AckPolls(cfg.Checkpoint())
    {
      if snap.active {
        if ended.Some? {
          snap := snap.(active := false, outcome := ended.value);
        }
        return snap, [], [];
      }
      hide Conforms, Deliver, OpenEpochs, DrainPolls, AckPolls, Answers.Calls, Processes.Answered, Processes.After;
      out, counted, later := RunSequence(hooks);
    }

    /** What passing the gate starts. */
    method RunSequence(hooks: Hooks) returns (out: Snapshot, ghost counted: seq<Beat>, ghost later: seq<Beat>)
      modifies this, hooks, hooks.registry, hooks.back
      ensures out == snap
      ensures Conforms(out, phases, old(hooks.Answered()), old(hooks.registry.View()), counted)
      ensures hooks.calls == old(hooks.calls) + old(hooks.Answered()).Calls()
      ensures hooks.delivered == old(hooks.delivered) + counted + later
      ensures hooks.registry.View() == Deliver(Deliver(OpenEpochs(old(hooks.registry.View())), counted), later)
      ensures hooks.back.View() == hooks.processes.After(hooks.back.cfg, old(hooks.back.View()))
      ensures out.activeRunsAtEnd > 0 ==> hooks.clock >= old(hooks.clock) + cfg.Drain()
      ensures hooks.runReads - old(hooks.runReads) <= DrainPolls(cfg.Drain()) + 1
      ensures hooks.ackPolls - old(hooks.ackPolls) <= AckPolls(cfg.Checkpoint())
    {
      hide NormalizeService, NextEpoch, Registry.CurrentEpoch, Registry.LastActiveRuns, Deliver, OpenEpochs,
           OutcomeOf, DrainPolls, AckPolls, Answers.HookFailed, Answers.PhasesReached, Answers.Calls,
           Processes.Answered, Processes.After;
      var activeAtEnd, interrupted;
      activeAtEnd, interrupted, counted, later := QuiesceBackend(hooks);
      out := ReplaceBackend(hooks, interrupted, activeAtEnd);
    }

    /** Phases one to five: new epochs, drain, checkpoint. */
    method QuiesceBackend(hooks: Hooks)
      returns (activeAtEnd: int, interrupted: bool, ghost counted: seq<Beat>, ghost later: seq<Beat>)
      modifies this, hooks, hooks.registry
      ensures phases == PHASES[..5] && !snap.resumeTraffic && snap.draining && snap.active
      ensures interrupted == (activeAtEnd > 0)
      ensures snap.epochBefore == old(hooks.registry.View()).CurrentEpoch(BACKEND)
      ensures snap.epochAfter == NextEpoch(snap.epochBefore)
      ensures hooks.delivered == old(hooks.delivered) + counted + later
      ensures hooks.registry.View() == Deliver(Deliver(OpenEpochs(old(hooks.registry.View())), counted), later)
      ensures activeAtEnd == Deliver(OpenEpochs(old(hooks.registry.View())), counted).LastActiveRuns(BACKEND)
      ensures hooks.runReads - old(hooks.runReads) <= DrainPolls(cfg.Drain()) + 1
      ensures hooks.ackPolls - old(hooks.ackPolls) <= AckPolls(cfg.Checkpoint())
      ensures hooks.calls == old(hooks.calls) && hooks.back.View() == old(hooks.back.View())
      ensures activeAtEnd > 0 ==> hooks.clock >= old(hooks.clock) + cfg.Drain()
    {
      hide NormalizeService, NextEpoch, Registry.CurrentEpoch, Registry.LastActiveRuns, Deliver, OpenEpochs,
           DrainPolls, AckPolls;
      var _ := hooks.Now();
      snap := IDLE.(active := true, resumeTraffic := false, draining := true);
      phases := [];
      BumpEpochs(hooks);
      ghost var polled;
      activeAtEnd, counted, polled := DrainRuns(hooks);
      interrupted := activeAtEnd > 0;
      SetPhase(CheckpointRequest);
      var acked: bool;
      acked, later := AwaitCheckpoint(hooks);
      if !acked {
        if activeAtEnd > 0 {
          interrupted := true;
        }
      }
    }

    /** Phases one to four: both services get a new epoch, traffic is draining. */
    method BumpEpochs(hooks: Hooks)
      modifies this, hooks.registry
      ensures phases == old(phases) + PHASES[..4]
      ensures hooks.registry.View() == OpenEpochs(old(hooks.registry.View()))
      ensures snap == old(snap).(
                phase := Some(GraceActiveRuns),
                epochBefore := old(hooks.registry.View()).CurrentEpoch(BACKEND),
                epochAfter := NextEpoch(old(hooks.registry.View()).CurrentEpoch(BACKEND)))
    {
      hide NormalizeService, NextEpoch, Registry.Touch, Registry.Bump, Registry.CurrentEpoch, Registry.RawEpoch;
      CanonicalServices();
      OpenedEpoch(hooks.registry.View());
      SetPhase(RestartIntent);
      var before := hooks.registry.Epoch(BACKEND);
      var after := hooks.registry.BumpEpoch(BACKEND);
      var _ := hooks.registry.BumpEpoch(DESKTOP);
      snap := snap.(epochBefore := before, epochAfter := after);
      SetPhase(Draining);
      SetPhase(StopAccepting);
      SetPhase(GraceActiveRuns);
    }

    /** Phases six to nine: children are told to close, the backend is stopped and started, and its
        readiness awaited; the first hook that fails ends it. */
    method RestartServe(hooks: Hooks) returns (ok: bool, port: int)
      requires phases == PHASES[..5]
      modifies this, hooks`calls, hooks.back
      ensures snap == old(snap).(phase := snap.phase)
      ensures ok == !old(hooks.Answered()).HookFailed()
      ensures phases == if ok then PHASES[..9] else PHASES[..old(hooks.Answered()).PhasesReached()]
      ensures hooks.calls == old(hooks.calls) +
                if ok then [CalledStop, CalledStart, CalledWaitReady] else old(hooks.Answered()).Calls()
      ensures var r := hooks.processes.Restart(hooks.back.cfg, old(hooks.back.View()));
              && hooks.back.View() == (if hooks.processes.stopOk then r.back else old(hooks.back.View()))
              && (ok ==> port == r.result.value.port)
    {
      hide B.Ensure;
      SetPhase(CloseChildren);
      SetPhase(StopBackend);
      port := 0;
      ok := hooks.StopBackend();
      if !ok {
        return;
      }
      SetPhase(StartBackend);
      ok, port := hooks.StartBackend();
      if !ok {
        return;
      }
      SetPhase(Readiness);
      hooks.calls := hooks.calls + [CalledWaitReady];
      ok := hooks.processes.readyOk;
    }

    /** Phases six to twelve: the serve is restarted and, once it is ready, Desktop is notified and traffic
        resumes. */
    method ReplaceBackend(hooks: Hooks, interrupted: bool, activeAtEnd: int) returns (out: Snapshot)
      requires phases == PHASES[..5] && !snap.resumeTraffic && snap.draining && interrupted == (activeAtEnd > 0)
      modifies this, hooks`calls, hooks.back
      ensures hooks.back.View() == hooks.processes.After(hooks.back.cfg, old(hooks.back.View()))
      ensures out == snap && !out.active && out.activeRunsAtEnd == activeAtEnd
      ensures out.outcome == OutcomeOf(old(hooks.Answered()).HookFailed(), activeAtEnd)
      ensures phases == PHASES[..old(hooks.Answered()).PhasesReached()]
      ensures hooks.calls == old(hooks.calls) + old(hooks.Answered()).Calls()
      ensures out.interrupted == interrupted
      ensures out.resumeTraffic == !old(hooks.Answered()).HookFailed()
      ensures out.draining == old(hooks.Answered()).HookFailed()
      ensures out.epochBefore == old(snap.epochBefore) && out.epochAfter == old(snap.epochAfter)
    {
      hide B.Ensure, B.Notify, Processes.Restart;
      var ok, port := RestartServe(hooks);
      if !ok {
        out := Finish(Failed, interrupted, activeAtEnd);
        return;
      }
      out := RestoreService(hooks, port, interrupted, activeAtEnd);
    }

    /** Phases ten to twelve. */
    method RestoreService(hooks: Hooks, port: int, interrupted: bool, activeAtEnd: int) returns (out: Snapshot)
      requires interrupted == (activeAtEnd > 0)
      modifies this, hooks`calls, hooks.back
      ensures phases == old(phases) + [RestoreRouting, NotifyDesktop, ResumeTraffic]
      ensures hooks.calls == old(hooks.calls) + [CalledNotify]
      ensures hooks.back.View() ==
                B.Notify(old(hooks.back.View()), port, hooks.processes.minted, hooks.processes.written).0
      ensures out == snap && !out.active && out.outcome == OutcomeOf(false, activeAtEnd)
      ensures out.interrupted == interrupted && out.activeRunsAtEnd == activeAtEnd
      ensures out.resumeTraffic && !out.draining
      ensures out.epochBefore == old(snap.epochBefore) && out.epochAfter == old(snap.epochAfter)
    {
      hide B.Notify;
      SetPhase(RestoreRouting);
      SetPhase(NotifyDesktop);
      hooks.NotifyDesktop(port);
      SetPhase(ResumeTraffic);
      snap := snap.(draining := false, resumeTraffic := true);
      out := Finish(if interrupted then Interrupted else Success, interrupted, activeAtEnd);
    }
  }

  lemma OpenedEpoch(r: Registry)
    ensures r.Touch(BACKEND).Bump(BACKEND).RawEpoch(BACKEND) == NextEpoch(r.CurrentEpoch(BACKEND))
  {
    hide NormalizeService, NextEpoch;
    CanonicalServices();
  }

  lemma CanonicalServices()
    ensures NormalizeService(BACKEND) == BACKEND && NormalizeService(DESKTOP) == DESKTOP
  {
    NormalizeServiceIdempotent("");
  }
}
