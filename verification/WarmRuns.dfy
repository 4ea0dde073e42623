/** Warm starts over whole runs: what the drain reading means in terms of leases, and that interleaved
    callers never run two sequences at once. */
module WarmRuns {
  import opened Prelude
  import opened Heartbeat
  import opened HeartbeatRuns
  import opened WarmStart

  function BeatEvents(beats: seq<Beat>): seq<Event> {
    if beats == [] then [] else BeatEvents(Front(beats)) + [Received(Last(beats).env, Last(beats).at)]
  }

  /** The lease history once a warm start has opened new epochs. */
  function Opened(h: seq<Event>): seq<Event> {
    h + [Read(BACKEND), Bumped(BACKEND), Bumped(DESKTOP)]
  }

  lemma AtAppend(timeout: Duration, h: seq<Event>, e: Event)
    ensures At(timeout, h + [e], |h| + 1) == Step(At(timeout, h, |h|), e)
  {
    AtExtends(timeout, h, [e], |h|);
  }

  lemma OpenedRegistry(timeout: Duration, h: seq<Event>)
    ensures At(timeout, Opened(h), |h| + 3) == OpenEpochs(At(timeout, h, |h|))
  {
    hide NormalizeService, Registry.Touch, Registry.Bump;
    CanonicalServices();
    AtAppend(timeout, h, Read(BACKEND));
    AtAppend(timeout, h + [Read(BACKEND)], Bumped(BACKEND));
    AtAppend(timeout, h + [Read(BACKEND)] + [Bumped(BACKEND)], Bumped(DESKTOP));
    assert Opened(h) == h + [Read(BACKEND)] + [Bumped(BACKEND)] + [Bumped(DESKTOP)];
  }

  lemma {:induction false} DeliveredRegistry(timeout: Duration, h: seq<Event>, beats: seq<Beat>)
    ensures |BeatEvents(beats)| == |beats|
    ensures At(timeout, h + BeatEvents(beats), |h| + |beats|) == Deliver(At(timeout, h, |h|), beats)
  {
    hide Registry.Ingest;
    if beats == [] {
      assert h + BeatEvents(beats) == h;
    } else {
      DeliveredRegistry(timeout, h, Front(beats));
      AtAppend(timeout, h + BeatEvents(Front(beats)), Received(Last(beats).env, Last(beats).at));
      assert h + BeatEvents(beats) == h + BeatEvents(Front(beats)) + [Received(Last(beats).env, Last(beats).at)];
    }
  }

  /** Nothing accepted before a bump is current after it. */
  lemma CurrentIsAfterBump(timeout: Duration, h: seq<Event>, n: nat, at: nat, i: int)
    requires at < n <= |h| && BumpedAt(h, at, BACKEND) && Current(timeout, h, n, i, BACKEND)
    ensures i > at
  {
    hide At, NormalizeService;
    assert i != at;
  }

  /** The reading a warm start decides by: starting from any lease history, after opening the epochs and
      the given heartbeats, it is positive exactly when the last backend heartbeat accepted since that
      opening reported active runs. Heartbeats accepted earlier never count. */
  lemma DrainReadingCountsOnlyThisEpoch(timeout: Duration, h: seq<Event>, beats: seq<Beat>)
    ensures var full := Opened(h) + BeatEvents(beats);
            && |full| == |h| + 3 + |beats|
            && (Deliver(OpenEpochs(At(timeout, h, |h|)), beats).LastActiveRuns(BACKEND) > 0 <==>
                  exists i :: |h| + 3 <= i < |full| && Current(timeout, full, |full|, i, BACKEND)
                              && full[i].env.payload.activeRuns > 0)
  {
    hide At, NormalizeService, Deliver, OpenEpochs, Current, Registry.LastActiveRuns;
    CanonicalServices();
    OpenedRegistry(timeout, h);
    DeliveredRegistry(timeout, Opened(h), beats);
    var full := Opened(h) + BeatEvents(beats);
    LastActiveRunsIsAboutHistory(timeout, full, |full|, BACKEND);
    forall i | Current(timeout, full, |full|, i, BACKEND) ensures |h| + 3 <= i < |full| {
      CurrentIsAfterBump(timeout, full, |full|, |h| + 1, i);
      CurrentIsReceived(timeout, full, |full|, i);
    }
  }

  lemma CurrentIsReceived(timeout: Duration, h: seq<Event>, n: nat, i: int)
    requires n <= |h| && Current(timeout, h, n, i, BACKEND)
    ensures 0 <= i < n && h[i].Received?
  {
    hide At, NormalizeService;
  }

  /* ---- interleaved callers ---- */

  /** Where a caller of Run is. since: the index of its backend bump in the lease history; read: how
      long the history was at its last reading of active runs. A refused caller has left the lock and will
      read the snapshot again; Told is what it then reports, and author the caller whose outcome that is. */
  datatype Caller =
    | Idle
    | Refused
    | Told(outcome: Outcome, author: Option<nat>)
    | Entered
    | Bumping(since: nat)
    | Counted(since: nat, read: nat, runs: int)
    | Finished(since: nat, read: nat, runs: int, hookFailed: bool, outcome: Outcome)
  {
    predicate Running() {
      Entered? || Bumping? || Counted?
    }
  }

  /** outcome: what the sequencer's snapshot shows; author: the caller that put it there. */
  datatype System = System(
    active: bool, outcome: Outcome, author: Option<nat>, callers: seq<Caller>, history: seq<Event>)

  /** One atomic move of one caller, a heartbeat that arrives, or the bump of another command: an
      operator's, or a cycle's recovery. */
  datatype Move =
    | PassGate(i: nat)
    | Reread(i: nat)
    | OpenEpoch(i: nat)
    | ReadRuns(i: nat)
    | Conclude(i: nat, hookFailed: bool)
    | Arrive(env: Envelope, at: Time)
    | BumpElsewhere(service: string)

  predicate Enabled(s: System, m: Move) {
    match m
    case PassGate(i) => i < |s.callers| && s.callers[i].Idle?
    case Reread(i) => i < |s.callers| && s.callers[i].Refused?
    case OpenEpoch(i) => i < |s.callers| && s.callers[i].Entered?
    case ReadRuns(i) => i < |s.callers| && s.callers[i].Bumping?
    case Conclude(i, _) => i < |s.callers| && s.callers[i].Counted?
    case Arrive(_, _) => true
    case BumpElsewhere(_) => true
  }

  function Apply(timeout: Duration, s: System, m: Move): System
    requires Enabled(s, m)
  {
    match m
    case PassGate(i) =>
      if s.active then s.(callers := s.callers[i := Refused])
      else s.(active := true, outcome := Pending, author := None, callers := s.callers[i := Entered])
    case Reread(i) =>
      s.(callers := s.callers[i := Told(s.outcome, s.author)])
    case OpenEpoch(i) =>
      s.(history := Opened(s.history), callers := s.callers[i := Bumping(|s.history| + 1)])
    case ReadRuns(i) =>
      var runs := At(timeout, s.history, |s.history|).LastActiveRuns(BACKEND);
      s.(callers := s.callers[i := Counted(s.callers[i].since, |s.history|, runs)])
    case Conclude(i, failed) =>
      var c := s.callers[i];
      var outcome := OutcomeOf(failed, c.runs);
      s.(active := false, outcome := outcome, author := Some(i),
         callers := s.callers[i := Finished(c.since, c.read, c.runs, failed, outcome)])
    case Arrive(env, at) =>
      s.(history := s.history + [Received(env, at)])
    case BumpElsewhere(service) =>
      s.(history := s.history + [Bumped(service)])
  }

  /** Any number of callers, none of which has started. */
  ghost predicate Initial(s: System) {
    !s.active && s.outcome == Pending && s.author == None && forall i :: 0 <= i < |s.callers| ==> s.callers[i].Idle?
  }

  ghost predicate CallerOk(timeout: Duration, h: seq<Event>, c: Caller) {
    match c
    case Bumping(since) => BumpedAt(h, since, BACKEND)
    case Counted(since, read, runs) =>
      BumpedAt(h, since, BACKEND) && since < read <= |h| && runs == At(timeout, h, read).LastActiveRuns(BACKEND)
    case Finished(since, read, runs, failed, outcome) =>
      && BumpedAt(h, since, BACKEND) && since < read <= |h| && runs == At(timeout, h, read).LastActiveRuns(BACKEND)
      && outcome == OutcomeOf(failed, runs)
    case _ => true
  }

  /** The gate is closed exactly while a caller runs, and only one does. */
  ghost predicate Exclusive(s: System) {
    && (s.active <==> exists i :: 0 <= i < |s.callers| && s.callers[i].Running())
    && forall i, j | 0 <= i < |s.callers| && 0 <= j < |s.callers| ::
         s.callers[i].Running() && s.callers[j].Running() ==> i == j
  }

  /** The outcome is a finished caller's, or there is none yet. */
  ghost predicate Attributed(callers: seq<Caller>, outcome: Outcome, author: Option<nat>) {
    match author
    case None => outcome == Pending
    case Some(j) => j < |callers| && callers[j].Finished? && callers[j].outcome == outcome
  }

  /** The snapshot, and what refused callers were told, is always attributed; while the gate is closed the
      snapshot has no outcome, and once it has been open again it has one. */
  ghost predicate Honest(s: System) {
    && Attributed(s.callers, s.outcome, s.author) && (s.active ==> s.author == None)
    && (!s.active && s.author == None ==> forall i :: 0 <= i < |s.callers| ==> s.callers[i].Idle?)
    && forall i :: 0 <= i < |s.callers| && s.callers[i].Told? ==>
         Attributed(s.callers, s.callers[i].outcome, s.callers[i].author)
  }

  ghost predicate Inv(timeout: Duration, s: System) {
    && Exclusive(s) && Honest(s)
    && forall i :: 0 <= i < |s.callers| ==> CallerOk(timeout, s.history, s.callers[i])
  }

  predicate OfACaller(m: Move) {
    !m.Arrive? && !m.BumpElsewhere?
  }

  lemma ExclusiveStep(timeout: Duration, s: System, m: Move)
    requires Exclusive(s) && Enabled(s, m)
    ensures Exclusive(Apply(timeout, s, m))
  {
    hide At, OutcomeOf, Registry.LastActiveRuns;
    var s' := Apply(timeout, s, m);
    if OfACaller(m) {
      assert forall j :: 0 <= j < |s.callers| && j != m.i ==> s'.callers[j] == s.callers[j];
      assert s'.callers[m.i].Running() <==> (s'.callers[m.i] != Refused && !m.Conclude? && !m.Reread?);
    } else {
      assert s'.callers == s.callers;
    }
    if s.active {
      var i :| 0 <= i < |s.callers| && s.callers[i].Running();
      assert s'.active ==> s'.callers[i].Running();
    }
  }

  /** Finished callers stay finished. */
  lemma AttributedStep(timeout: Duration, s: System, m: Move, outcome: Outcome, author: Option<nat>)
    requires Enabled(s, m) && Attributed(s.callers, outcome, author)
    ensures Attributed(Apply(timeout, s, m).callers, outcome, author)
  {
    hide At, OutcomeOf, Registry.LastActiveRuns, Opened;
  }

  lemma HonestStep(timeout: Duration, s: System, m: Move)
    requires Exclusive(s) && Honest(s) && Enabled(s, m)
    ensures Honest(Apply(timeout, s, m))
  {
    hide At, OutcomeOf, Registry.LastActiveRuns, Attributed, Opened;
    var s' := Apply(timeout, s, m);
    AttributedStep(timeout, s, m, s.outcome, s.author);
    NewlyAttributed(s');
    forall i | 0 <= i < |s'.callers| && s'.callers[i].Told?
      ensures Attributed(s'.callers, s'.callers[i].outcome, s'.callers[i].author)
    {
      if s.callers[i].Told? {
        AttributedStep(timeout, s, m, s.callers[i].outcome, s.callers[i].author);
      }
    }
    if m.Conclude? {
      assert s.active && s'.callers[m.i].Finished?;
    }
  }

  lemma NewlyAttributed(s: System)
    ensures Attributed(s.callers, Pending, None)
    ensures forall i: nat :: i < |s.callers| && s.callers[i].Finished? ==>
              Attributed(s.callers, s.callers[i].outcome, Some(i))
  {
  }

  /** What is known about a caller stays true as the history grows. */
  lemma CallerOkExtends(timeout: Duration, h: seq<Event>, more: seq<Event>, c: Caller)
    requires CallerOk(timeout, h, c)
    ensures CallerOk(timeout, h + more, c)
  {
    hide At, NormalizeService, OutcomeOf, Registry.LastActiveRuns;
    if c.Bumping? {
      assert BumpedAt(h + more, c.since, BACKEND);
    } else if c.Counted? || c.Finished? {
      AtExtends(timeout, h, more, c.read);
      assert BumpedAt(h + more, c.since, BACKEND);
    }
  }

  lemma InvStep(timeout: Duration, s: System, m: Move)
    requires Inv(timeout, s) && Enabled(s, m)
    ensures Inv(timeout, Apply(timeout, s, m))
  {
    hide At, NormalizeService, OutcomeOf, Registry.LastActiveRuns, Exclusive, Honest;
    var s' := Apply(timeout, s, m);
    ExclusiveStep(timeout, s, m);
    HonestStep(timeout, s, m);
    CanonicalServices();
    forall j | 0 <= j < |s'.callers| ensures CallerOk(timeout, s'.history, s'.callers[j]) {
      match m
      case Arrive(env, at) =>
        CallerOkExtends(timeout, s.history, [Received(env, at)], s.callers[j]);
      case BumpElsewhere(service) =>
        CallerOkExtends(timeout, s.history, [Bumped(service)], s.callers[j]);
      case OpenEpoch(i) =>
        if j != i {
          CallerOkExtends(timeout, s.history, [Read(BACKEND), Bumped(BACKEND), Bumped(DESKTOP)], s.callers[j]);
        } else {
          assert Opened(s.history)[|s.history| + 1] == Bumped(BACKEND);
        }
      case _ =>
    }
  }

  /** A run of the system: each move is enabled where it is made. */
  function Reach(timeout: Duration, s: System, moves: seq<Move>): Option<System> {
    if moves == [] then Some(s)
    else match Reach(timeout, s, Front(moves))
         case None => None
         case Some(t) => if Enabled(t, Last(moves)) then Some(Apply(timeout, t, Last(moves))) else None
  }

  lemma {:induction false} ReachKeepsInv(timeout: Duration, s: System, moves: seq<Move>)
    requires Initial(s)
    ensures Reach(timeout, s, moves).Some? ==> Inv(timeout, Reach(timeout, s, moves).value)
  {
    hide Apply, Enabled, At;
    if moves != [] {
      ReachKeepsInv(timeout, s, Front(moves));
      if Reach(timeout, s, moves).Some? {
        InvStep(timeout, Reach(timeout, s, Front(moves)).value, Last(moves));
      }
    }
  }

  /** However the callers interleave, no two warm starts overlap, and the gate is open again whenever
      none is running. */
  lemma WarmStartsNeverOverlap(timeout: Duration, s: System, moves: seq<Move>, i: nat, j: nat)
    requires Initial(s) && Reach(timeout, s, moves).Some?
    requires var t := Reach(timeout, s, moves).value;
             i < |t.callers| && j < |t.callers| && t.callers[i].Running() && t.callers[j].Running()
    ensures i == j
    ensures Reach(timeout, s, moves).value.active
  {
    hide Reach, CallerOk;
    ReachKeepsInv(timeout, s, moves);
  }

  lemma GateReopens(timeout: Duration, s: System, moves: seq<Move>)
    requires Initial(s) && Reach(timeout, s, moves).Some?
    requires var t := Reach(timeout, s, moves).value;
             forall i :: 0 <= i < |t.callers| ==> !t.callers[i].Running()
    ensures !Reach(timeout, s, moves).value.active
  {
    hide Reach, CallerOk;
    ReachKeepsInv(timeout, s, moves);
  }

  /** A refused caller reads the snapshot again after leaving the lock. What it reports is no outcome at
      all, or exactly the outcome of another caller's finished warm start, never of its own. */
  lemma RefusedReportsAnother(timeout: Duration, s: System, moves: seq<Move>, i: nat)
    requires Initial(s) && Reach(timeout, s, moves).Some?
    requires i < |Reach(timeout, s, moves).value.callers| && Reach(timeout, s, moves).value.callers[i].Told?
    ensures var t := Reach(timeout, s, moves).value;
            var c := t.callers[i];
            match c.author
            case None => c.outcome == Pending
            case Some(j) => j != i && j < |t.callers| && t.callers[j].Finished? && t.callers[j].outcome == c.outcome
  {
    hide Reach, CallerOk, Exclusive;
    ReachKeepsInv(timeout, s, moves);
  }

  /** Which of the two it is: another's outcome exactly when the warm start that refused it has ended before
      the second look, and no further one has begun. */
  lemma RefusedReportsAnotherIff(timeout: Duration, s: System, moves: seq<Move>, i: nat)
    requires Initial(s) && Reach(timeout, s, moves).Some?
    requires Enabled(Reach(timeout, s, moves).value, Reread(i))
    ensures var t := Reach(timeout, s, moves).value;
            var t' := Apply(timeout, t, Reread(i));
            t'.callers[i].outcome != Pending <==> !t.active
  {
    hide Reach, Exclusive;
    ReachKeepsInv(timeout, s, moves);
    var t := Reach(timeout, s, moves).value;
    assert t.callers[i].Refused?;
    if !t.active {
      assert CallerOk(timeout, t.history, t.callers[t.author.value]);
    }
  }

  /** It does happen: two callers suffice. The second is refused, the first ends in success, and the second
      reports that success. */
  lemma RefusedCanReportAnother(timeout: Duration)
    ensures var s := System(false, Pending, None, [Idle, Idle], []);
            var moves := [PassGate(0), PassGate(1), OpenEpoch(0), ReadRuns(0), Conclude(0, false), Reread(1)];
            && Initial(s) && Reach(timeout, s, moves).Some?
            && Reach(timeout, s, moves).value.callers[1] == Told(Success, Some(0))
  {
    hide At, NormalizeService, Opened;
    var s := System(false, Pending, None, [Idle, Idle], []);
    var h := Opened([]);
    SecondIsRefused(timeout, s);
    var moves := [PassGate(0), PassGate(1)];
    ReachOne(timeout, s, moves, OpenEpoch(0));
    var t3 := System(true, Pending, None, [Bumping(1), Refused], h);
    assert Apply(timeout, System(true, Pending, None, [Entered, Refused], []), OpenEpoch(0)) == t3;
    NoRunsAfterOpening(timeout);
    FirstSucceeds(timeout, s, moves + [OpenEpoch(0)], t3);
    assert moves + [OpenEpoch(0)] + [ReadRuns(0)] + [Conclude(0, false)] + [Reread(1)]
        == [PassGate(0), PassGate(1), OpenEpoch(0), ReadRuns(0), Conclude(0, false), Reread(1)];
  }

  lemma SecondIsRefused(timeout: Duration, s: System)
    requires s == System(false, Pending, None, [Idle, Idle], [])
    ensures Reach(timeout, s, [PassGate(0), PassGate(1)]) == Some(System(true, Pending, None, [Entered, Refused], []))
  {
    hide Reach;
    var none: seq<Move> := [];
    assert Reach(timeout, s, none) == Some(s) by { ReachNothing(timeout, s); }
    ReachOne(timeout, s, none, PassGate(0));
    var t1 := System(true, Pending, None, [Entered, Idle], []);
    assert Apply(timeout, s, PassGate(0)) == t1;
    ReachOne(timeout, s, none + [PassGate(0)], PassGate(1));
    assert Apply(timeout, t1, PassGate(1)) == System(true, Pending, None, [Entered, Refused], []);
    assert none + [PassGate(0)] + [PassGate(1)] == [PassGate(0), PassGate(1)];
  }

  lemma ReachNothing(timeout: Duration, s: System)
    ensures Reach(timeout, s, []) == Some(s)
  {
  }

  lemma FirstSucceeds(timeout: Duration, s: System, moves: seq<Move>, t: System)
    requires Reach(timeout, s, moves) == Some(t) && t == System(true, Pending, None, [Bumping(1), Refused], t.history)
    requires At(timeout, t.history, |t.history|).LastActiveRuns(BACKEND) == 0
    ensures var r := Reach(timeout, s, moves + [ReadRuns(0)] + [Conclude(0, false)] + [Reread(1)]);
            r.Some? && r.value.callers == [r.value.callers[0], Told(Success, Some(0))]
  {
    hide At, NormalizeService, Reach, Registry.LastActiveRuns;
    var h := t.history;
    ReachOne(timeout, s, moves, ReadRuns(0));
    var t1 := t.(callers := [Counted(1, |h|, 0), Refused]);
    assert Apply(timeout, t, ReadRuns(0)) == t1;
    ReachOne(timeout, s, moves + [ReadRuns(0)], Conclude(0, false));
    var t2 := System(false, Success, Some(0), [Finished(1, |h|, 0, false, Success), Refused], h);
    assert Apply(timeout, t1, Conclude(0, false)) == t2;
    ReachOne(timeout, s, moves + [ReadRuns(0)] + [Conclude(0, false)], Reread(1));
  }

  lemma NoRunsAfterOpening(timeout: Duration)
    ensures At(timeout, Opened([]), |Opened([])|).LastActiveRuns(BACKEND) == 0
  {
    hide NormalizeService, NextEpoch;
    CanonicalServices();
    OpenedRegistry(timeout, []);
  }

  lemma ReachOne(timeout: Duration, s: System, moves: seq<Move>, m: Move)
    requires Reach(timeout, s, moves).Some? && Enabled(Reach(timeout, s, moves).value, m)
    ensures Reach(timeout, s, moves + [m]) == Some(Apply(timeout, Reach(timeout, s, moves).value, m))
  {
    assert Front(moves + [m]) == moves;
  }

  /** However callers, heartbeats and the bumps of other commands interleave, a finished warm start in which
      no hook failed was interrupted exactly when, at its own last reading, the backend's current heartbeat
      reported active runs: the last one accepted since its own bump, and since any later bump by others. */
  lemma OutcomeIsAboutOwnEpoch(timeout: Duration, s: System, moves: seq<Move>, i: nat)
    requires Initial(s) && Reach(timeout, s, moves).Some?
    requires i < |Reach(timeout, s, moves).value.callers| && Reach(timeout, s, moves).value.callers[i].Finished?
    ensures var t := Reach(timeout, s, moves).value;
            var c := t.callers[i];
            && c.since < c.read <= |t.history| && BumpedAt(t.history, c.since, BACKEND)
            && (c.outcome == Failed <==> c.hookFailed)
            && (c.outcome == Interrupted <==>
                  !c.hookFailed
                  && exists k :: c.since < k < c.read && Current(timeout, t.history, c.read, k, BACKEND)
                                 && t.history[k].env.payload.activeRuns > 0)
  {
    hide Reach, At, NormalizeService, Current, Registry.LastActiveRuns, Exclusive, Honest;
    ReachKeepsInv(timeout, s, moves);
    CanonicalServices();
    var t := Reach(timeout, s, moves).value;
    var c := t.callers[i];
    assert CallerOk(timeout, t.history, c);
    LastActiveRunsIsAboutHistory(timeout, t.history, c.read, BACKEND);
    forall k | Current(timeout, t.history, c.read, k, BACKEND) ensures c.since < k < c.read {
      CurrentIsAfterBump(timeout, t.history, c.read, c.since, k);
      CurrentIsReceived(timeout, t.history, c.read, k);
    }
  }
}
