/** Exactly when a session token survives, whatever the environment answers: one call, in terms of what is
    held before it and of the answers, and whole runs. */
module TokenSurvival {
  import opened Prelude
  import opened Text
  import opened Backend
  import opened BackendCalls
  import opened TokenRuns

  /* ---- one call ---- */

  /** A spawned child becomes ready, at the first look or at the second. */
  predicate ChildComesUp(p: Probes) {
    p.startOk && (p.readyInTime || (p.childAlive && p.readyLate))
  }

  /** A spawn keeps the token it is given if the child accepts it. Where it fails earlier the manifest is
      withdrawn, except when only the pipe fails; held: the token is in memory too. */
  predicate SpawnKeeps(held: bool, p: Probes) {
    if !p.canBuild then held
    else if !p.pipeOk then true
    else if !ChildComesUp(p) then held
    else p.accepts5
  }

  /** The manifest names a token, and another one. */
  predicate NamesAnother(t: string, b: Back) {
    b.ManifestToken() != "" && b.ManifestToken() != t
  }

  /** The managed port is looked at, and freed if need be. An occupant that answers makes the manager adopt
      the manifest's token; one that is replaced takes the token in memory with it. */
  predicate PortKeeps(port: int, t: string, held: bool, b: Back, p: Probes) {
    if IsReservedOpsPort(port) then held
    else if p.ready3 then
      if NamesAnother(t, b) then false
      else if p.accepts3 || !p.cleared3 then true
      else b.ManifestToken() == t && SpawnKeeps(false, p)
    else if p.zombie && !p.cleared4 then held
    else SpawnKeeps(held, p)
  }

  /** Our own child answers and the token in memory works. */
  predicate ReusesChild(b: Back, p: Probes) {
    b.cmd && b.port > 0 && p.alive2 && p.ready2 && b.token != "" && p.accepts2
  }

  /** The whole call. A serve found healthy in memory makes the manager adopt the manifest's token. */
  predicate KeepsToken(cfg: Config, t: string, b: Back, p: Probes) {
    if !cfg.rootConfigured then true
    else if b.InMemoryReady(p) then
      if NamesAnother(t, b) then false
      else p.accepts1 || PortKeeps(cfg.Port(), t, true, b, p)
    else
      ReusesChild(b, p) || PortKeeps(cfg.Port(), t, b.token == t, b, p)
  }

  /** Token t is what the next spawn would be given. */
  predicate Preferred(t: string, b: Back) {
    WellFormedToken(t) && TokenTrimmed(b) && b.PreferredToken() == t
  }

  /** Neither memory nor manifest knows t. */
  predicate Forgotten(t: string, b: Back) {
    WellFormedToken(t) && TokenTrimmed(b) && b.token != t && b.ManifestToken() != t
  }

  lemma ForgottenIsNotPreferred(t: string, b: Back)
    requires Forgotten(t, b)
    ensures !Preferred(t, b)
  {
    hide TrimSpace;
  }

  predicate MintsOthers(t: string, minted: Option<string>) {
    minted.Some? ==> WellFormedToken(minted.value) && minted.value != t
  }

  lemma SettleForgets(t: string, b: Back, log: seq<Effect>, port: int, token: string, p: Probes)
    requires Forgotten(t, b) && WellFormedToken(token) && token != t
    ensures Forgotten(t, Settle(b, log, port, token, p).back)
  {
    hide TrimSpace;
    EmptyTrims();
  }

  lemma SpawnForgets(t: string, b: Back, log: seq<Effect>, port: int, p: Probes)
    requires Forgotten(t, b) && MintsOthers(t, p.minted)
    ensures Forgotten(t, Spawn(b, log, port, p).back)
  {
    hide TrimSpace, Settle;
    EmptyTrims();
    ManifestTokenTrimmed(b);
    var token := if b.PreferredToken() != "" then Some(b.PreferredToken()) else p.minted;
    if token.Some? {
      SettleForgets(t, b.(job := p.jobOk), log + [Launched(token.value)], port, token.value, p);
    }
  }

  lemma OccupantForgets(t: string, b: Back, log: seq<Effect>, port: int, p: Probes)
    requires Forgotten(t, b)
    ensures Forgotten(t, TryOccupant(b, log, port, p).back)
  {
    hide TrimSpace, IsReservedOpsPort;
    EmptyTrims();
    ManifestTokenTrimmed(b);
    OccupantTrimmed(b, log, port, p);
  }

  lemma OwnChildForgets(t: string, b: Back, log: seq<Effect>, p: Probes)
    requires Forgotten(t, b)
    ensures Forgotten(t, TryOwnChild(b, log, p).back)
  {
    hide TrimSpace;
    EmptyTrims();
  }

  lemma SettleKeepsIff(t: string, b: Back, log: seq<Effect>, port: int, p: Probes)
    requires Preferred(t, b) && port > 0 && p.startOk
    ensures Preferred(t, Settle(b, log, port, t, p).back) <==>
              if ChildComesUp(p) then p.accepts5 else b.token == t
  {
    hide TrimSpace;
    EmptyTrims();
  }

  lemma SpawnKeepsIff(t: string, b: Back, log: seq<Effect>, port: int, p: Probes)
    requires Preferred(t, b) && port > 0
    ensures Preferred(t, Spawn(b, log, port, p).back) <==> SpawnKeeps(b.token == t, p)
  {
    hide TrimSpace, Settle;
    EmptyTrims();
    if p.startOk {
      SettleKeepsIff(t, b.(job := p.jobOk), log + [Launched(t)], port, p);
    }
  }

  /** What TryOccupant decides, and what it leaves to the spawn. */
  lemma OccupantKeepsIff(t: string, b: Back, log: seq<Effect>, port: int, p: Probes)
    requires Preferred(t, b) && port > 0
    ensures var r := TryOccupant(b, log, port, p);
            var keeps := PortKeeps(port, t, b.token == t, b, p);
            if r.result.Some? then
              Preferred(t, r.back) <==> keeps
            else if Preferred(t, r.back) then
              keeps <==> SpawnKeeps(r.back.token == t, p)
            else
              Forgotten(t, r.back) && !keeps
  {
    hide TrimSpace, IsReservedOpsPort, SpawnKeeps;
    EmptyTrims();
    ManifestTokenTrimmed(b);
    OccupantTrimmed(b, log, port, p);
  }

  lemma PortKeepsIff(t: string, b: Back, log: seq<Effect>, port: int, p: Probes)
    requires Preferred(t, b) && port > 0 && MintsOthers(t, p.minted)
    ensures var r := TryOccupant(b, log, port, p);
            var last := if r.result.Some? then r else Spawn(r.back, r.log, port, p);
            Preferred(t, last.back) <==> PortKeeps(port, t, b.token == t, b, p)
  {
    hide TrimSpace, TryOccupant, Spawn, PortKeeps, SpawnKeeps, Preferred, Forgotten;
    var r := TryOccupant(b, log, port, p);
    OccupantKeepsIff(t, b, log, port, p);
    if r.result.None? {
      if Preferred(t, r.back) {
        SpawnKeepsIff(t, r.back, r.log, port, p);
      } else {
        SpawnForgets(t, r.back, r.log, port, p);
        ForgottenIsNotPreferred(t, Spawn(r.back, r.log, port, p).back);
      }
    }
  }

  lemma InMemoryKeepsIff(t: string, b: Back, p: Probes)
    requires Preferred(t, b)
    ensures var r := TryInMemory(b, p);
            if !b.InMemoryReady(p) then r == Progress(b, [], None)
            else if NamesAnother(t, b) then Forgotten(t, r.back)
            else
              && Preferred(t, r.back) && r.back.token == t
              && (r.result.Some? <==> p.accepts1)
              && (r.result.None? ==> !r.back.cmd && r.back.disk == b.disk)
  {
    hide TrimSpace, Back.InMemoryReady;
    EmptyTrims();
    ManifestTokenTrimmed(b);
    InMemoryPort(b, p);
  }

  lemma InMemoryPort(b: Back, p: Probes)
    ensures b.InMemoryReady(p) ==> b.port > 0
  {
  }

  lemma OwnChildKeeps(t: string, b: Back, log: seq<Effect>, p: Probes)
    requires Preferred(t, b)
    ensures var r := TryOwnChild(b, log, p);
            && Preferred(t, r.back) && r.back.token == b.token
            && (r.result.Some? <==> ReusesChild(b, p))
            && (r.result.None? ==> r.back.disk == b.disk)
  {
    hide TrimSpace;
    EmptyTrims();
  }

  /** From the state in memory on, once the manifest is known not to contradict it. */
  lemma RestKeepsIff(cfg: Config, t: string, b: Back, log: seq<Effect>, p: Probes)
    requires Preferred(t, b) && MintsOthers(t, p.minted)
    ensures var s2 := TryOwnChild(b, log, p);
            var s3 := TryOccupant(s2.back, s2.log, cfg.Port(), p);
            var last := if s2.result.Some? then s2
                        else if s3.result.Some? then s3 else Spawn(s3.back, s3.log, cfg.Port(), p);
            Preferred(t, last.back) <==> ReusesChild(b, p) || PortKeeps(cfg.Port(), t, b.token == t, b, p)
  {
    hide TrimSpace, TryOwnChild, TryOccupant, Spawn, SpawnKeeps, Preferred, ReusesChild, IsReservedOpsPort;
    var s2 := TryOwnChild(b, log, p);
    OwnChildKeeps(t, b, log, p);
    if s2.result.None? {
      PortKeepsIff(t, s2.back, s2.log, cfg.Port(), p);
    }
  }

  /** A token that is forgotten early stays forgotten. */
  lemma RestForgets(cfg: Config, t: string, b: Back, log: seq<Effect>, p: Probes)
    requires Forgotten(t, b) && MintsOthers(t, p.minted)
    ensures var s2 := TryOwnChild(b, log, p);
            var s3 := TryOccupant(s2.back, s2.log, cfg.Port(), p);
            var last := if s2.result.Some? then s2
                        else if s3.result.Some? then s3 else Spawn(s3.back, s3.log, cfg.Port(), p);
            Forgotten(t, last.back)
  {
    hide TrimSpace, TryOwnChild, TryOccupant, Spawn, Forgotten;
    var s2 := TryOwnChild(b, log, p);
    OwnChildForgets(t, b, log, p);
    OccupantForgets(t, s2.back, s2.log, cfg.Port(), p);
    var s3 := TryOccupant(s2.back, s2.log, cfg.Port(), p);
    SpawnForgets(t, s3.back, s3.log, cfg.Port(), p);
  }

  /** Exactly when a call keeps the session token, wherever it is held and whatever the environment answers:
      a condition on the state before the call and on those answers alone. */
  lemma TokenSurvivesIff(cfg: Config, t: string, b: Back, p: Probes)
    requires Preferred(t, b) && MintsOthers(t, p.minted)
    ensures Preferred(t, Ensure(cfg, b, p).back) <==> KeepsToken(cfg, t, b, p)
  {
    hide TrimSpace, TryInMemory, TryOwnChild, TryOccupant, Spawn, PortKeeps, ReusesChild, Preferred, Forgotten,
         Back.InMemoryReady;
    if cfg.rootConfigured {
      var s1 := TryInMemory(b, p);
      InMemoryKeepsIff(t, b, p);
      if b.InMemoryReady(p) && NamesAnother(t, b) {
        RestForgets(cfg, t, s1.back, s1.log, p);
        ForgottenIsNotPreferred(t, s1.back);
        ForgottenIsNotPreferred(t, Ensure(cfg, b, p).back);
      } else if s1.result.None? {
        RestKeepsIff(cfg, t, s1.back, s1.log, p);
        NoChildNoReuse(s1.back, p);
        SameManifest(cfg.Port(), t, s1.back.token == t, s1.back, b, p);
      }
    }
  }

  lemma NoChildNoReuse(b: Back, p: Probes)
    ensures !b.cmd ==> !ReusesChild(b, p)
  {
  }

  lemma SameManifest(port: int, t: string, held: bool, b: Back, c: Back, p: Probes)
    ensures b.disk == c.disk ==> (PortKeeps(port, t, held, b, p) <==> PortKeeps(port, t, held, c, p))
  {
    hide TrimSpace;
  }

  /* ---- runs ---- */

  /** A step keeps the token: a call by the condition above; a notification unless it mints one because
      memory holds none. */
  predicate StepKeeps(cfg: Config, t: string, b: Back, s: Step) {
    match s
    case Call(p, _) => KeepsToken(cfg, t, b, p)
    case NotifyCall(_, minted, _) => b.token == t || minted == None
    case Crash => true
    case StopCommand(_) => true
  }

  predicate StepMintsOthers(t: string, s: Step) {
    match s
    case Call(p, _) => MintsOthers(t, p.minted)
    case NotifyCall(_, minted, _) => MintsOthers(t, minted)
    case _ => true
  }

  lemma StepKeepsIff(cfg: Config, t: string, w: World, s: Step)
    requires Preferred(t, w.back) && StepMintsOthers(t, s)
    ensures Preferred(t, Next(cfg, w, s).back) <==> StepKeeps(cfg, t, w.back, s)
  {
    hide TrimSpace, Ensure, KeepsToken;
    EmptyTrims();
    if s.Call? {
      TokenSurvivesIff(cfg, t, w.back, s.p);
    }
  }

  lemma AtKeepsIff(cfg: Config, t: string, w: World, steps: seq<Step>, i: nat)
    requires i < |steps| && Preferred(t, At(cfg, w, steps, i).back) && StepMintsOthers(t, steps[i])
    ensures Preferred(t, At(cfg, w, steps, i + 1).back) <==> StepKeeps(cfg, t, At(cfg, w, steps, i).back, steps[i])
  {
    hide Preferred, Next, StepKeeps, StepMintsOthers;
    StepKeepsIff(cfg, t, At(cfg, w, steps, i), steps[i]);
  }

  /** Token t is preferred after the first i steps. */
  ghost predicate PreferredAfter(cfg: Config, t: string, w: World, steps: seq<Step>, i: int) {
    0 <= i <= |steps| && Preferred(t, At(cfg, w, steps, i).back)
  }

  /** Step i keeps token t. */
  ghost predicate KeptBy(cfg: Config, t: string, w: World, steps: seq<Step>, i: int) {
    0 <= i < |steps| && StepKeeps(cfg, t, At(cfg, w, steps, i).back, steps[i])
  }

  lemma {:induction false} KeptByEveryStep(cfg: Config, t: string, w: World, steps: seq<Step>, n: nat, i: nat)
    requires i <= n <= |steps| && Preferred(t, w.back)
    requires forall j :: 0 <= j < |steps| ==> StepMintsOthers(t, steps[j])
    requires forall j :: 0 <= j < n ==> KeptBy(cfg, t, w, steps, j)
    ensures PreferredAfter(cfg, t, w, steps, i)
    decreases i
  {
    hide Preferred, Next, StepKeeps, StepMintsOthers;
    if i > 0 {
      KeptByEveryStep(cfg, t, w, steps, n, i - 1);
      assert KeptBy(cfg, t, w, steps, i - 1);
      AtKeepsIff(cfg, t, w, steps, i - 1);
    }
  }

  /** Over any run, with any answers at all and no assumption about who holds the port: token t stays the
      one the next spawn would be given, after each of the first n steps, if and only if each of these
      steps keeps it. */
  lemma TokenSurvivesRunIff(cfg: Config, t: string, w: World, steps: seq<Step>, n: nat)
    requires n <= |steps| && Preferred(t, w.back)
    requires forall i :: 0 <= i < |steps| ==> StepMintsOthers(t, steps[i])
    ensures (forall i :: 0 <= i <= n ==> PreferredAfter(cfg, t, w, steps, i)) <==>
              forall i :: 0 <= i < n ==> KeptBy(cfg, t, w, steps, i)
  {
    hide Preferred, Next, StepKeeps, StepMintsOthers;
    if forall i :: 0 <= i < n ==> KeptBy(cfg, t, w, steps, i) {
      forall i | 0 <= i <= n ensures PreferredAfter(cfg, t, w, steps, i) {
        KeptByEveryStep(cfg, t, w, steps, n, i);
      }
    }
    if forall i :: 0 <= i <= n ==> PreferredAfter(cfg, t, w, steps, i) {
      forall i | 0 <= i < n ensures KeptBy(cfg, t, w, steps, i) {
        assert PreferredAfter(cfg, t, w, steps, i) && PreferredAfter(cfg, t, w, steps, i + 1);
        AtKeepsIff(cfg, t, w, steps, i);
      }
    }
  }

  /** The half-kept token: a replacement that fails at its pipe leaves the token only in the manifest, and
      the next call, failing at its start, withdraws that. No serve refused it and no call replaced a
      drifted one at the moment it was lost. Before those calls the run is a consistent one. */
  lemma ManifestAloneIsNotEnough(cfg: Config, t: string) returns (steps: seq<Step>, p1: Probes, p2: Probes)
    requires cfg.rootConfigured && !IsReservedOpsPort(cfg.Port()) && WellFormedToken(t)
    ensures var w := World(NOTHING, None);
            && |steps| == 2 && GoodRun(cfg, w, steps) && Succeeds(cfg, w, steps[0])
            && var b := At(cfg, w, steps, 2).back;
               var b1 := Ensure(cfg, b, p1).back;
               var r2 := Ensure(cfg, b1, p2);
               && b.token == t
               && KeepsToken(cfg, t, b, p1) && b1.token == "" && b1.PreferredToken() == t
               && !p2.ready3 && r2.result == Some(Failed(StartFailed))
               && r2.back.token == "" && r2.back.disk == None
  {
    hide Succeeds, TrimSpace, IsReservedOpsPort, Back.InMemoryReady;
    EmptyTrims();
    var w := World(NOTHING, None);
    var first := ColdStart(cfg, t, true);
    steps := [first, StopCommand(Some(t))];
    assert At(cfg, w, steps, 0) == w;
    var w1 := Next(cfg, w, first);
    assert At(cfg, w, steps, 1) == w1;
    assert At(cfg, w, steps, 2) == World(w1.back.Stop(), Some(t));
    assert forall n :: 0 <= n < 2 ==> Allowed(cfg, At(cfg, w, steps, n), steps[n]);
    p1, p2 := HalfKept(cfg, w1.back.Stop(), t);
  }

  lemma HalfKept(cfg: Config, b: Back, t: string) returns (p1: Probes, p2: Probes)
    requires cfg.rootConfigured && !IsReservedOpsPort(cfg.Port()) && WellFormedToken(t)
    requires b.token == t && b.disk.Some? && b.disk.value.token == t && b.port == 0
    ensures var b1 := Ensure(cfg, b, p1).back;
            var r2 := Ensure(cfg, b1, p2);
            && KeepsToken(cfg, t, b, p1) && b1.token == "" && b1.PreferredToken() == t
            && !p2.ready3 && r2.result == Some(Failed(StartFailed))
            && r2.back.token == "" && r2.back.disk == None
  {
    hide TrimSpace, IsReservedOpsPort;
    EmptyTrims();
    p1 := Probes(
      false, false, false, false, false,
      false, false, false, false,
      true, false, false, 0, false, true,
      false, false,
      true, None, false, false, 0, false,
      false, false, false, false, false);
    p2 := p1.(ready3 := false, pipeOk := true);
    var s1 := TryOwnChild(b, [], p1);
    var s2 := TryOccupant(s1.back, s1.log, cfg.Port(), p1);
    assert s2.result.None? && s2.back.token == "" && s2.back.disk == b.disk && s2.back.port == 0;
    var b1 := Ensure(cfg, b, p1).back;
    assert b1 == s2.back;
  }
}
