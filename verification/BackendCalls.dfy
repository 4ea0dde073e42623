/** What one EnsureHealthy call may publish, what it leaves behind when it fails, and exactly when a
    held session token survives it, whatever the environment answers. */
module BackendCalls {
  import opened Prelude
  import opened Text
  import opened Backend

  /* ---- one call, any answers from the environment ---- */

  predicate HasPublished(r: Progress) {
    r.log != [] && Last(r.log).Published?
  }

  /** A call publishes at most once, as its last effect, right after the probe that authenticated the
      same token on the same port, and what it publishes describes its successful result. */
  ghost predicate PublishesOnlyAuthenticated(r: Progress) {
    && (forall i :: 0 <= i < |r.log| - 1 ==> !r.log[i].Published?)
    && (HasPublished(r) ==>
          && |r.log| >= 2
          && var (probe, m) := (r.log[|r.log| - 2], Last(r.log).manifest);
             && probe.AuthProbe? && probe.accepted
             && probe.port == m.port && probe.token == m.token == r.back.token
             && TrimSpace(m.token) != ""
             && (HasLaunched(r.log) <==> probe.place == AfterSpawn)
             && r.result == Some(Healthy(m.pid, m.port)))
  }

  /** Nothing of a child is left, and no manifest points at it. */
  predicate Emptied(b: Back) {
    !b.cmd && b.pid == 0 && b.port == 0 && !b.job && b.disk == None
  }

  predicate HasLaunched(log: seq<Effect>) {
    exists i :: 0 <= i < |log| && log[i].Launched?
  }

  /** Nothing published and nothing launched yet. */
  predicate Quiet(log: seq<Effect>) {
    forall i :: 0 <= i < |log| ==> !log[i].Published? && !log[i].Launched?
  }

  ghost predicate Sound(r: Progress) {
    match r.result
    case None => Quiet(r.log)
    case Some(Healthy(_, _)) => PublishesOnlyAuthenticated(r) && HasPublished(r)
    case Some(Failed(_)) =>
      PublishesOnlyAuthenticated(r) && !HasPublished(r) && (HasLaunched(r.log) ==> Emptied(r.back))
  }

  lemma InMemorySound(b: Back, p: Probes)
    ensures Sound(TryInMemory(b, p))
  {
    hide TrimSpace, Back.InMemoryReady;
  }

  lemma OwnChildSound(b: Back, log: seq<Effect>, p: Probes)
    requires Quiet(log)
    ensures Sound(TryOwnChild(b, log, p))
  {
    hide TrimSpace;
  }

  lemma OccupantSound(b: Back, log: seq<Effect>, port: int, p: Probes)
    requires Quiet(log)
    ensures Sound(TryOccupant(b, log, port, p))
  {
    hide TrimSpace, AdoptOccupant, IsReservedOpsPort;
  }

  lemma SettleSound(b: Back, log: seq<Effect>, port: int, token: string, p: Probes)
    requires log != [] && Last(log).Launched? && forall i :: 0 <= i < |log| ==> !log[i].Published?
    ensures Sound(Settle(b, log, port, token, p))
  {
    hide TrimSpace;
    assert Settle(b, log, port, token, p).log[|log| - 1].Launched?;
  }

  lemma SpawnSound(b: Back, log: seq<Effect>, port: int, p: Probes)
    requires Quiet(log)
    ensures Sound(Spawn(b, log, port, p))
  {
    hide TrimSpace, Settle, Sound;
    var token := if b.PreferredToken() != "" then Some(b.PreferredToken()) else p.minted;
    if p.canBuild && token.Some? && p.pipeOk && p.startOk {
      SettleSound(b.(job := p.jobOk), log + [Launched(token.value)], port, token.value, p);
    } else {
      QuietFailureIsSound(b, log, BuildFailed);
      QuietFailureIsSound(b.(disk := None), log, BuildFailed);
      QuietFailureIsSound(b, log, PipeFailed);
      QuietFailureIsSound(b.(disk := None), log, StartFailed);
    }
  }

  lemma QuietFailureIsSound(b: Back, log: seq<Effect>, why: Failure)
    requires Quiet(log)
    ensures Sound(Finish(b, log, Failed(why)))
  {
  }

  lemma EnsureSound(cfg: Config, b: Back, p: Probes)
    ensures Sound(Ensure(cfg, b, p))
  {
    hide TryInMemory, TryOwnChild, TryOccupant, Spawn;
    var s1 := TryInMemory(b, p);
    InMemorySound(b, p);
    if s1.result.None? {
      var s2 := TryOwnChild(s1.back, s1.log, p);
      OwnChildSound(s1.back, s1.log, p);
      if s2.result.None? {
        var s3 := TryOccupant(s2.back, s2.log, cfg.Port(), p);
        OccupantSound(s2.back, s2.log, cfg.Port(), p);
        if s3.result.None? {
          SpawnSound(s3.back, s3.log, cfg.Port(), p);
        }
      }
    }
  }

  /** Every manifest a call writes carries a token that passed auth on the published port in that very
      call, and a call succeeds exactly when it publishes. */
  lemma EnsurePublishesOnlyAuthenticated(cfg: Config, b: Back, p: Probes)
    ensures PublishesOnlyAuthenticated(Ensure(cfg, b, p))
    ensures Ensure(cfg, b, p).result.value.Healthy? <==> HasPublished(Ensure(cfg, b, p))
  {
    hide Ensure;
    EnsureSound(cfg, b, p);
  }

  /** Every failing exit after a spawn withdraws the manifest and keeps no trace of the child. */
  lemma FailureAfterSpawnLeavesNothing(cfg: Config, b: Back, p: Probes)
    requires HasLaunched(Ensure(cfg, b, p).log) && Ensure(cfg, b, p).result.value.Failed?
    ensures Emptied(Ensure(cfg, b, p).back)
  {
    hide Ensure;
    EnsureSound(cfg, b, p);
  }

  /** After a success the warm start's notification republishes the authenticated token: it never mints. */
  lemma NotifyAfterSuccessNeverMints(cfg: Config, b: Back, p: Probes, port: int, minted: Option<string>, written: bool)
    requires Ensure(cfg, b, p).result.value.Healthy?
    ensures var r := Ensure(cfg, b, p);
            && r.back.token != ""
            && HasPublished(r) && Last(r.log).manifest.token == r.back.token
            && Notify(r.back, port, minted, written).0.token == r.back.token
            && Notify(r.back, port, minted, written).1 ==
                 [Published(Manifest(r.back.token, if port > 0 then port else r.back.port, r.back.pid))]
  {
    hide Ensure, TrimSpace;
    var r := Ensure(cfg, b, p);
    EnsurePublishesOnlyAuthenticated(cfg, b, p);
    EmptyTrims();
  }

  lemma EmptyTrims()
    ensures TrimSpace("") == ""
  {
  }

  /* ---- when a token survives a call ---- */

  predicate WellFormedToken(t: string) {
    t != "" && TrimSpace(t) == t
  }

  /** The manager holds token t, and the manifest, if it names a token at all, names the same. */
  predicate Holds(t: string, b: Back) {
    b.token == t && (b.ManifestToken() == "" || b.ManifestToken() == t)
  }

  predicate Drifted(log: seq<Effect>) {
    exists i :: 0 <= i < |log| && log[i].DriftReplaced?
  }

  /** A call goes on with token t still in memory and the manifest untouched, or it is over and t is
      still held. */
  ghost predicate StillHolds(t: string, disk: Option<Manifest>, r: Progress) {
    && Holds(t, r.back) && !Drifted(r.log) && !HasLaunched(r.log)
    && r.result != Some(Failed(AuthRefused))
    && (r.result.None? ==> r.back.disk == disk)
  }

  lemma InMemoryHolds(t: string, b: Back, p: Probes)
    requires WellFormedToken(t) && Holds(t, b)
    ensures StillHolds(t, b.disk, TryInMemory(b, p))
  {
    hide TrimSpace, Back.InMemoryReady;
  }

  lemma OwnChildHolds(t: string, b: Back, log: seq<Effect>, p: Probes)
    requires WellFormedToken(t) && Holds(t, b) && !Drifted(log) && !HasLaunched(log)
    ensures StillHolds(t, b.disk, TryOwnChild(b, log, p))
  {
    hide TrimSpace;
  }

  lemma OccupantHolds(t: string, b: Back, log: seq<Effect>, port: int, p: Probes)
    requires WellFormedToken(t) && Holds(t, b) && !Drifted(log) && !HasLaunched(log)
    ensures var r := TryOccupant(b, log, port, p);
            if Drifted(r.log) then
              r.result == None && !HasLaunched(r.log) && r.back.token == "" && r.back.disk == b.disk
            else StillHolds(t, b.disk, r)
  {
    hide TrimSpace, IsReservedOpsPort;
    EmptyTrims();
    var r := TryOccupant(b, log, port, p);
    if r.result == None && p.ready3 {
      assert Last(r.log).DriftReplaced?;
    }
  }

  lemma SettleHolds(t: string, b: Back, log: seq<Effect>, port: int, p: Probes)
    requires WellFormedToken(t) && Holds(t, b)
    ensures var r := Settle(b, log, port, t, p);
            && (Drifted(r.log) <==> Drifted(log))
            && (if r.result == Some(Failed(AuthRefused)) then r.back.token == "" && r.back.disk == None
                else Holds(t, r.back))
  {
    hide TrimSpace, Drifted;
    var probe := AuthProbe(AfterSpawn, port, t, AuthOk(port, t, p.accepts5));
    DriftAppend(log, probe);
    DriftAppend(log + [probe], Published(Manifest(t, port, p.newPid)));
  }

  lemma DriftAppend(log: seq<Effect>, e: Effect)
    requires !e.DriftReplaced?
    ensures Drifted(log + [e]) <==> Drifted(log)
  {
    if i :| 0 <= i < |log| && log[i].DriftReplaced? {
      assert (log + [e])[i].DriftReplaced?;
    }
  }

  lemma SpawnHolds(t: string, b: Back, log: seq<Effect>, port: int, p: Probes)
    requires WellFormedToken(t) && Holds(t, b)
    ensures var r := Spawn(b, log, port, p);
            && (Drifted(r.log) <==> Drifted(log))
            && (if r.result == Some(Failed(AuthRefused)) then r.back.token == "" && r.back.disk == None
                else Holds(t, r.back))
  {
    hide TrimSpace, Settle, Drifted;
    DriftAppend(log, Launched(t));
    SettleHolds(t, b.(job := p.jobOk), log + [Launched(t)], port, p);
  }

  lemma NoDriftInNothing()
    ensures !Drifted([])
  {
  }
}
