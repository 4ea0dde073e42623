/** The session-continuity claim over whole runs, in a world where one process at a time occupies the
    managed port and accepts exactly the token it was spawned with. */
module TokenRuns {
  import opened Prelude
  import opened Text
  import opened Backend
  import opened BackendCalls

  /** The token the port's occupant was spawned with, at each point where a call may ask it something,
      and when the call is over. None: nobody is there. */
  datatype Occupancy = Occupancy(
    inMemory: Option<string>, ownChild: Option<string>, occupant: Option<string>,
    spawned: Option<string>, after: Option<string>)
  {
    function At(place: Place): Option<string> {
      match place
      case InMemory => inMemory
      case OwnChild => ownChild
      case Occupant => occupant
      case AfterSpawn => spawned
    }
  }

  /** The same process is still there, or it is gone. */
  predicate Survives(from: Option<string>, to: Option<string>) {
    to == None || to == from
  }

  /** The environment's answers p and the log of the call fit an occupancy that starts from occ: the
      occupant changes only by dying or by the watchdog's own spawn, an answering port is occupied, and
      auth succeeds exactly for the occupant's token. */
  ghost predicate Consistent(occ: Option<string>, o: Occupancy, b: Back, p: Probes, log: seq<Effect>) {
    && Survives(occ, o.inMemory) && Survives(o.inMemory, o.ownChild) && Survives(o.ownChild, o.occupant)
    && (Survives(o.occupant, o.spawned)
        || exists i :: 0 <= i < |log| && log[i].Launched? && o.spawned == Some(log[i].token))
    && Survives(o.spawned, o.after)
    && (b.InMemoryReady(p) ==> o.inMemory.Some?)
    && (p.ready2 ==> o.ownChild.Some?)
    && (p.ready3 ==> o.occupant.Some?)
    && (p.readyInTime || p.readyLate ==> o.spawned.Some?)
    && forall i :: 0 <= i < |log| && log[i].AuthProbe? ==>
         (log[i].accepted <==> o.At(log[i].place) == Some(log[i].token))
  }

  /** Token t is held, and whoever occupies the port was spawned with it. */
  ghost predicate Settled(t: string, b: Back, occ: Option<string>) {
    WellFormedToken(t) && Holds(t, b) && Survives(Some(t), occ)
  }

  predicate Asked(log: seq<Effect>, e: Effect) {
    exists i :: 0 <= i < |log| && log[i] == e
  }

  lemma AskedAppend(log: seq<Effect>, x: Effect, e: Effect)
    requires Asked(log, e) || x == e
    ensures Asked(log + [x], e)
  {
    if i :| 0 <= i < |log| && log[i] == e {
      assert (log + [x])[i] == e;
    } else {
      assert (log + [x])[|log|] == e;
    }
  }

  lemma SpawnKeepsLog(b: Back, log: seq<Effect>, port: int, p: Probes, e: Effect)
    requires Asked(log, e)
    ensures Asked(Spawn(b, log, port, p).log, e)
  {
    hide TrimSpace, Asked;
    var token := if b.PreferredToken() != "" then Some(b.PreferredToken()) else p.minted;
    if token.Some? {
      var probe := AuthProbe(AfterSpawn, port, token.value, AuthOk(port, token.value, p.accepts5));
      AskedAppend(log, Launched(token.value), e);
      AskedAppend(log + [Launched(token.value)], probe, e);
      AskedAppend(log + [Launched(token.value)] + [probe], Published(Manifest(token.value, port, p.newPid)), e);
    }
  }

  /** A drift replacement only ever follows a refused probe of the held token. */
  lemma DriftFollowsRefusal(t: string, b: Back, log: seq<Effect>, port: int, p: Probes)
    requires WellFormedToken(t) && Holds(t, b) && !Drifted(log)
    requires Drifted(TryOccupant(b, log, port, p).log)
    ensures p.ready3 && Asked(TryOccupant(b, log, port, p).log, AuthProbe(Occupant, port, t, false))
  {
    hide TrimSpace, IsReservedOpsPort, Asked;
    var r := TryOccupant(b, log, port, p);
    var probe := AuthProbe(Occupant, port, t, AuthOk(port, t, p.accepts3));
    DriftAppend(log, probe);
    AskedAppend(log, probe, probe);
    AskedAppend(log + [probe], DriftReplaced, probe);
    DriftAppend(log + [probe], Published(Manifest(t, port, 0)));
  }

  /** A spawn is refused only by an answering port that rejects the held token. */
  lemma RefusalIsAsked(t: string, b: Back, log: seq<Effect>, port: int, p: Probes)
    requires WellFormedToken(t) && Holds(t, b)
    requires Spawn(b, log, port, p).result == Some(Failed(AuthRefused))
    ensures p.readyInTime || p.readyLate
    ensures Asked(Spawn(b, log, port, p).log, AuthProbe(AfterSpawn, port, t, false))
    ensures Asked(Spawn(b, log, port, p).log, Launched(t))
  {
    hide TrimSpace, Asked;
    var probe := AuthProbe(AfterSpawn, port, t, AuthOk(port, t, p.accepts5));
    AskedAppend(log, Launched(t), Launched(t));
    AskedAppend(log + [Launched(t)], probe, Launched(t));
    AskedAppend(log + [Launched(t)], probe, probe);
  }

  lemma LaunchesOnly(t: string, b: Back, log: seq<Effect>, port: int, p: Probes)
    requires WellFormedToken(t) && Holds(t, b) && !HasLaunched(log)
    ensures forall i :: 0 <= i < |Spawn(b, log, port, p).log| && Spawn(b, log, port, p).log[i].Launched? ==>
              Spawn(b, log, port, p).log[i].token == t
  {
    hide TrimSpace;
  }

  ghost predicate LaunchedOnly(log: seq<Effect>, t: string) {
    forall i :: 0 <= i < |log| && log[i].Launched? ==> log[i].token == t
  }

  /** What a call with a held token can have done to it, read off the log. */
  ghost predicate HeldTokenTrace(t: string, port: int, p: Probes, r: Progress) {
    if Drifted(r.log) then
      p.ready3 && Asked(r.log, AuthProbe(Occupant, port, t, false))
    else
      && LaunchedOnly(r.log, t)
      && if r.result == Some(Failed(AuthRefused)) then
           && (p.readyInTime || p.readyLate)
           && Asked(r.log, AuthProbe(AfterSpawn, port, t, false)) && Asked(r.log, Launched(t))
         else
           Holds(t, r.back)
  }

  lemma SpawnTrace(t: string, before: Back, log: seq<Effect>, port: int, p: Probes)
    requires WellFormedToken(t) && Holds(t, before) && !Drifted(log) && !HasLaunched(log)
    requires TryOccupant(before, log, port, p).result == None
    ensures var s := TryOccupant(before, log, port, p);
            HeldTokenTrace(t, port, p, Spawn(s.back, s.log, port, p))
  {
    hide TrimSpace, TryOccupant, Spawn, Holds, Drifted, Asked, HasLaunched;
    var s := TryOccupant(before, log, port, p);
    OccupantHolds(t, before, log, port, p);
    if Drifted(s.log) {
      DriftFollowsRefusal(t, before, log, port, p);
      SpawnKeepsLog(s.back, s.log, port, p, AuthProbe(Occupant, port, t, false));
      SpawnKeepsDrift(s.back, s.log, port, p);
    } else {
      SpawnHolds(t, s.back, s.log, port, p);
      LaunchesOnly(t, s.back, s.log, port, p);
      if Spawn(s.back, s.log, port, p).result == Some(Failed(AuthRefused)) {
        RefusalIsAsked(t, s.back, s.log, port, p);
      }
    }
  }

  lemma SpawnKeepsDrift(b: Back, log: seq<Effect>, port: int, p: Probes)
    requires Drifted(log)
    ensures Drifted(Spawn(b, log, port, p).log)
  {
    hide Spawn;
    SpawnKeepsLog(b, log, port, p, DriftReplaced);
  }

  lemma EnsureTrace(cfg: Config, t: string, b: Back, p: Probes)
    requires WellFormedToken(t) && Holds(t, b)
    ensures HeldTokenTrace(t, cfg.Port(), p, Ensure(cfg, b, p))
  {
    hide TryInMemory, TryOwnChild, TryOccupant, Spawn, Drifted, TrimSpace, Asked, Holds;
    NoDriftInNothing();
    var s1 := TryInMemory(b, p);
    InMemoryHolds(t, b, p);
    if cfg.rootConfigured && s1.result.None? {
      var s2 := TryOwnChild(s1.back, s1.log, p);
      OwnChildHolds(t, s1.back, s1.log, p);
      if s2.result.None? {
        OccupantHolds(t, s2.back, s2.log, cfg.Port(), p);
        if TryOccupant(s2.back, s2.log, cfg.Port(), p).result.None? {
          SpawnTrace(t, s2.back, s2.log, cfg.Port(), p);
        }
      }
    }
  }

  lemma HeldToken(t: string, b: Back)
    requires Holds(t, b)
    ensures b.token == t
  {
  }

  /** In a consistent world a call keeps the settled token and publishes nothing else. */
  lemma EnsureKeepsSettled(cfg: Config, t: string, b: Back, p: Probes, occ: Option<string>, o: Occupancy)
    requires Settled(t, b, occ)
    requires Consistent(occ, o, b, p, Ensure(cfg, b, p).log)
    ensures Settled(t, Ensure(cfg, b, p).back, o.after)
    ensures HasPublished(Ensure(cfg, b, p)) ==> Last(Ensure(cfg, b, p).log).manifest.token == t
  {
    hide Ensure, Holds, TrimSpace;
    var r := Ensure(cfg, b, p);
    EnsureTrace(cfg, t, b, p);
    EnsurePublishesOnlyAuthenticated(cfg, b, p);
    HeldToken(t, r.back);
  }

  predicate WellMinted(m: Option<string>) {
    m.Some? ==> WellFormedToken(m.value)
  }

  predicate TokenTrimmed(b: Back) {
    TrimSpace(b.token) == b.token
  }

  lemma ManifestTokenTrimmed(b: Back)
    ensures TrimSpace(b.ManifestToken()) == b.ManifestToken()
    ensures TrimSpace(b.PreferredToken()) == b.PreferredToken()
  {
    EmptyTrims();
    TrimSpaceTrims(b.token);
    TrimSpaceFixes(TrimSpace(b.token));
    if b.disk.Some? {
      TrimSpaceTrims(b.disk.value.token);
      TrimSpaceFixes(TrimSpace(b.disk.value.token));
    }
  }

  lemma OccupantTrimmed(b: Back, log: seq<Effect>, port: int, p: Probes)
    requires TokenTrimmed(b)
    ensures TokenTrimmed(TryOccupant(b, log, port, p).back)
  {
    hide TrimSpace, IsReservedOpsPort;
    EmptyTrims();
    ManifestTokenTrimmed(b);
    assert b.(port := port).ManifestToken() == b.ManifestToken();
  }

  lemma SpawnTrimmed(b: Back, log: seq<Effect>, port: int, p: Probes)
    requires TokenTrimmed(b) && WellMinted(p.minted)
    ensures TokenTrimmed(Spawn(b, log, port, p).back)
  {
    hide TrimSpace;
    EmptyTrims();
    ManifestTokenTrimmed(b);
  }

  lemma EarlyTrimmed(b: Back, log: seq<Effect>, p: Probes)
    requires TokenTrimmed(b)
    ensures TokenTrimmed(TryInMemory(b, p).back) && TokenTrimmed(TryOwnChild(b, log, p).back)
  {
    hide TrimSpace, Back.InMemoryReady;
    ManifestTokenTrimmed(b);
  }

  lemma EnsureTrimmed(cfg: Config, b: Back, p: Probes)
    requires TokenTrimmed(b) && WellMinted(p.minted)
    ensures TokenTrimmed(Ensure(cfg, b, p).back)
  {
    hide TryInMemory, TryOwnChild, TryOccupant, Spawn, TrimSpace;
    var s1 := TryInMemory(b, p);
    EarlyTrimmed(b, [], p);
    EarlyTrimmed(s1.back, s1.log, p);
    var s2 := TryOwnChild(s1.back, s1.log, p);
    OccupantTrimmed(s2.back, s2.log, cfg.Port(), p);
    var s3 := TryOccupant(s2.back, s2.log, cfg.Port(), p);
    SpawnTrimmed(s3.back, s3.log, cfg.Port(), p);
  }

  /** A success settles its token, whatever the state before it, unless an older manifest naming
      another token could not be overwritten. */
  lemma SuccessSettles(cfg: Config, b: Back, p: Probes, occ: Option<string>, o: Occupancy)
    requires TokenTrimmed(b) && WellMinted(p.minted)
    requires Consistent(occ, o, b, p, Ensure(cfg, b, p).log)
    requires Ensure(cfg, b, p).result.value.Healthy?
    requires var r := Ensure(cfg, b, p); r.back.ManifestToken() == "" || r.back.ManifestToken() == r.back.token
    ensures Settled(Ensure(cfg, b, p).back.token, Ensure(cfg, b, p).back, o.after)
  {
    hide Ensure, TrimSpace;
    var r := Ensure(cfg, b, p);
    EnsureTrimmed(cfg, b, p);
    EnsurePublishesOnlyAuthenticated(cfg, b, p);
    EmptyTrims();
    var probe := r.log[|r.log| - 2];
    assert o.At(probe.place) == Some(r.back.token);
  }

  /* ---- runs ---- */

  datatype World = World(back: Back, occ: Option<string>)

  /** A supervised call, a crash of the serve, an operator's stop (which may or may not kill it), or
      the warm start's notification. */
  datatype Step =
    | Call(p: Probes, o: Occupancy)
    | Crash
    | StopCommand(left: Option<string>)
    | NotifyCall(port: int, minted: Option<string>, written: bool)

  function Next(cfg: Config, w: World, s: Step): World {
    match s
    case Call(p, o) => World(Ensure(cfg, w.back, p).back, o.after)
    case Crash => w.(occ := None)
    case StopCommand(left) => World(w.back.Stop(), left)
    case NotifyCall(port, minted, written) => w.(back := Notify(w.back, port, minted, written).0)
  }

  function Effects(cfg: Config, w: World, s: Step): seq<Effect> {
    match s
    case Call(p, _) => Ensure(cfg, w.back, p).log
    case NotifyCall(port, minted, written) => Notify(w.back, port, minted, written).1
    case _ => []
  }

  ghost predicate Allowed(cfg: Config, w: World, s: Step) {
    match s
    case Call(p, o) => WellMinted(p.minted) && Consistent(w.occ, o, w.back, p, Ensure(cfg, w.back, p).log)
    case Crash => true
    case StopCommand(left) => Survives(w.occ, left)
    case NotifyCall(_, minted, _) => WellMinted(minted)
  }

  function At(cfg: Config, w: World, steps: seq<Step>, n: nat): World
    requires n <= |steps|
  {
    if n == 0 then w else Next(cfg, At(cfg, w, steps, n - 1), steps[n - 1])
  }

  ghost predicate GoodRun(cfg: Config, w: World, steps: seq<Step>) {
    && TokenTrimmed(w.back)
    && forall n :: 0 <= n < |steps| ==> Allowed(cfg, At(cfg, w, steps, n), steps[n])
  }

  /** The step is a call that succeeds and whose token the manifest on disk does not contradict. */
  ghost predicate Succeeds(cfg: Config, w: World, s: Step) {
    && s.Call?
    && var r := Ensure(cfg, w.back, s.p);
       r.result.value.Healthy? && (r.back.ManifestToken() == "" || r.back.ManifestToken() == r.back.token)
  }

  lemma NextKeepsSettled(cfg: Config, t: string, w: World, s: Step)
    requires Settled(t, w.back, w.occ) && Allowed(cfg, w, s)
    ensures Settled(t, Next(cfg, w, s).back, Next(cfg, w, s).occ)
    ensures var es := Effects(cfg, w, s);
            forall i :: 0 <= i < |es| && es[i].Published? ==> es[i].manifest.token == t
  {
    hide Ensure, TrimSpace;
    match s
    case Call(p, o) =>
      EnsureKeepsSettled(cfg, t, w.back, p, w.occ, o);
      EnsurePublishesOnlyAuthenticated(cfg, w.back, p);
    case _ =>
  }

  lemma NextKeepsTrimmed(cfg: Config, w: World, s: Step)
    requires TokenTrimmed(w.back) && Allowed(cfg, w, s)
    ensures TokenTrimmed(Next(cfg, w, s).back)
  {
    hide Ensure, TrimSpace, Consistent;
    if s.Call? {
      EnsureTrimmed(cfg, w.back, s.p);
    }
  }

  lemma {:induction false} RunKeepsTrimmed(cfg: Config, w: World, steps: seq<Step>, n: nat)
    requires n <= |steps| && GoodRun(cfg, w, steps)
    ensures TokenTrimmed(At(cfg, w, steps, n).back)
  {
    hide Next, TokenTrimmed, Allowed;
    if n > 0 {
      RunKeepsTrimmed(cfg, w, steps, n - 1);
      NextKeepsTrimmed(cfg, At(cfg, w, steps, n - 1), steps[n - 1]);
    }
  }

  lemma {:induction false} RunKeepsSettled(cfg: Config, t: string, w: World, steps: seq<Step>, m: nat, n: nat)
    requires m <= n <= |steps| && GoodRun(cfg, w, steps)
    requires Settled(t, At(cfg, w, steps, m).back, At(cfg, w, steps, m).occ)
    ensures Settled(t, At(cfg, w, steps, n).back, At(cfg, w, steps, n).occ)
    decreases n
  {
    hide Next, TokenTrimmed, Allowed, Settled;
    if m < n {
      RunKeepsSettled(cfg, t, w, steps, m, n - 1);
      NextKeepsSettled(cfg, t, At(cfg, w, steps, n - 1), steps[n - 1]);
    }
  }

  /** The success itself, seen as a step: it settles the token it publishes. */
  lemma SuccessStep(cfg: Config, w: World, s: Step)
    requires TokenTrimmed(w.back) && Allowed(cfg, w, s) && Succeeds(cfg, w, s)
    ensures var w' := Next(cfg, w, s);
            && Settled(w'.back.token, w'.back, w'.occ)
            && forall i :: 0 <= i < |Effects(cfg, w, s)| && Effects(cfg, w, s)[i].Published? ==>
                 Effects(cfg, w, s)[i].manifest.token == w'.back.token
  {
    hide Ensure, TrimSpace, Consistent, Settled;
    SuccessSettles(cfg, w.back, s.p, w.occ, s.o);
    EnsurePublishesOnlyAuthenticated(cfg, w.back, s.p);
  }

  /** Session continuity: from the first success on, through any later calls with any spawn and
      readiness outcomes, crashes, stops and notifications, every manifest published carries the token
      of that success. Manifest writes may fail at any time after it. */
  lemma SessionContinuity(cfg: Config, w: World, steps: seq<Step>, first: nat, later: nat)
    requires GoodRun(cfg, w, steps) && first <= later < |steps|
    requires Succeeds(cfg, At(cfg, w, steps, first), steps[first])
    ensures var t := At(cfg, w, steps, first + 1).back.token;
            var es := Effects(cfg, At(cfg, w, steps, later), steps[later]);
            t != "" && forall i :: 0 <= i < |es| && es[i].Published? ==> es[i].manifest.token == t
  {
    hide Next, Effects, TrimSpace, Allowed, Settled, TokenTrimmed, Succeeds;
    var t := At(cfg, w, steps, first + 1).back.token;
    RunKeepsTrimmed(cfg, w, steps, first);
    SuccessStep(cfg, At(cfg, w, steps, first), steps[first]);
    SettledToken(t, At(cfg, w, steps, first + 1));
    if first < later {
      RunKeepsSettled(cfg, t, w, steps, first + 1, later);
      NextKeepsSettled(cfg, t, At(cfg, w, steps, later), steps[later]);
    }
  }

  lemma SettledToken(t: string, w: World)
    requires Settled(t, w.back, w.occ)
    ensures t != ""
  {
  }

  /** Without that consistency the claim fails: if the serve dies between answering the readiness probe
      and the auth probe while no manifest is on disk, a call replaces it as drifted and publishes a
      freshly minted token. */
  lemma CrashBetweenProbesRemints(cfg: Config, b: Back, t: string, u: string) returns (p: Probes)
    requires cfg.rootConfigured && !IsReservedOpsPort(cfg.Port())
    requires WellFormedToken(t) && WellFormedToken(u) && Holds(t, b) && b.disk == None && b.port == 0
    ensures p.minted == Some(u) && p.ready3 && !p.accepts3
    ensures var r := Ensure(cfg, b, p);
            r.result.value.Healthy? && r.back.token == u && r.back.disk == Some(Manifest(u, cfg.Port(), p.newPid))
  {
    hide TrimSpace, IsReservedOpsPort;
    EmptyTrims();
    p := Probes(
      false, false, false, false, false,
      false, false, false, false,
      true, false, false, 0, false, true,
      false, false,
      true, Some(u), true, true, 7, true,
      true, true, false, true, true);
    assert TryInMemory(b, p).result.None?;
    var s2 := TryOwnChild(b, [], p);
    assert s2 == Progress(b.Stop(), [], None);
    var s3 := TryOccupant(s2.back, [], cfg.Port(), p);
    assert s3.result.None? && s3.back.token == "" && s3.back.disk == None;
  }

  const NOTHING := Back(false, 0, 0, "", false, None)

  /** The first call in an empty world can spawn a serve under a minted token; its manifest write may
      or may not succeed. */
  lemma ColdStart(cfg: Config, u: string, written: bool) returns (s: Step)
    requires cfg.rootConfigured && !IsReservedOpsPort(cfg.Port()) && WellFormedToken(u)
    ensures var w := World(NOTHING, None);
            && Allowed(cfg, w, s) && Succeeds(cfg, w, s)
            && Next(cfg, w, s).back.token == u && Next(cfg, w, s).occ == Some(u)
            && Next(cfg, w, s).back.disk == if written then Some(Manifest(u, cfg.Port(), 7)) else None
  {
    hide TrimSpace, IsReservedOpsPort;
    EmptyTrims();
    var p := Probes(
      false, false, false, false, false,
      false, false, false, false,
      false, false, false, 0, false, false,
      false, false,
      true, Some(u), true, true, 7, true,
      true, true, false, true, written);
    s := Call(p, Occupancy(None, None, None, Some(u), Some(u)));
    var log := [Launched(u), AuthProbe(AfterSpawn, cfg.Port(), u, true), Published(Manifest(u, cfg.Port(), 7))];
    assert TryInMemory(NOTHING, p) == Progress(NOTHING, [], None);
    assert TryOwnChild(NOTHING, [], p) == Progress(NOTHING, [], None);
    assert TryOccupant(NOTHING, [], cfg.Port(), p) == Progress(NOTHING, [], None);
    assert Ensure(cfg, NOTHING, p).log == log && log[0].Launched?;
  }

  /** Such runs exist. */
  lemma ColdStartSucceeds(cfg: Config, u: string) returns (s: Step)
    requires cfg.rootConfigured && !IsReservedOpsPort(cfg.Port()) && WellFormedToken(u)
    ensures var w := World(NOTHING, None);
            && GoodRun(cfg, w, [s]) && Succeeds(cfg, w, s) && Next(cfg, w, s).back.token == u
  {
    hide Next, Allowed, Succeeds, TrimSpace, IsReservedOpsPort;
    EmptyTrims();
    s := ColdStart(cfg, u, true);
    assert At(cfg, World(NOTHING, None), [s], 0) == World(NOTHING, None);
  }

  /** And the crash that breaks continuity is one step away from a run that satisfies everything the
      continuity theorem asks for: a first call whose manifest write fails, then an operator's stop that
      does not kill the serve. If the serve dies between two probes of the next call, that call publishes
      a second token. */
  lemma RemintIsReachable(cfg: Config, t: string, u: string) returns (steps: seq<Step>, p: Probes)
    requires cfg.rootConfigured && !IsReservedOpsPort(cfg.Port())
    requires WellFormedToken(t) && WellFormedToken(u) && t != u
    ensures var w := World(NOTHING, None);
            && |steps| == 2 && GoodRun(cfg, w, steps) && Succeeds(cfg, w, steps[0])
            && At(cfg, w, steps, 1).back.token == t
            && At(cfg, w, steps, 2).back.token == t && At(cfg, w, steps, 2).occ == Some(t)
            && var r := Ensure(cfg, At(cfg, w, steps, 2).back, p);
               && p.ready3 && !p.accepts3
               && r.result.value.Healthy? && r.back.disk == Some(Manifest(u, cfg.Port(), p.newPid))
  {
    hide Ensure, Succeeds, TrimSpace, IsReservedOpsPort;
    EmptyTrims();
    var w := World(NOTHING, None);
    var first := ColdStart(cfg, t, false);
    var second := StopCommand(Some(t));
    steps := [first, second];
    assert At(cfg, w, steps, 0) == w;
    var w1 := Next(cfg, w, first);
    assert At(cfg, w, steps, 1) == w1;
    assert At(cfg, w, steps, 2) == World(w1.back.Stop(), Some(t));
    assert forall n :: 0 <= n < 2 ==> Allowed(cfg, At(cfg, w, steps, n), steps[n]);
    p := CrashBetweenProbesRemints(cfg, w1.back.Stop(), t, u);
  }
}
