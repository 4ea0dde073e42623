/** Heartbeats from the sender's side: which of the names in use reaches which service's lease, what makes
    a heartbeat acceptable, and what its lease then says. Nothing here is stated through the registry's own
    helpers. */
module HeartbeatNames {
  import opened Prelude
  import opened Text
  import opened Heartbeat
  import opened HeartbeatRuns

  /** Under any lettering and padding. */
  function Folded(s: string): string {
    TrimSpace(ToLower(s))
  }

  predicate CallsBackend(s: string) {
    Folded(s) in {"", "backend", "hermes-backend", "serve"}
  }

  predicate CallsDesktop(s: string) {
    Folded(s) in {"desktop", "hermes-desktop", "hermes.exe"}
  }

  function Addressee(s: string): string {
    if CallsBackend(s) then "hermes-backend" else if CallsDesktop(s) then "hermes-desktop" else Folded(s)
  }

  lemma NamesAre(s: string)
    ensures NormalizeService(s) == Addressee(s)
    ensures CallsBackend(s) <==> NormalizeService(s) == "hermes-backend"
    ensures CallsDesktop(s) <==> NormalizeService(s) == "hermes-desktop"
  {
    hide TrimSpace, ToLower;
    assert BACKEND[7] != DESKTOP[7];
  }

  /** The envelope's value, or the payload's where the envelope has none. */
  function Sender(env: Envelope): string {
    if TrimSpace(env.instanceId) != "" then TrimSpace(env.instanceId) else TrimSpace(env.payload.instanceId)
  }

  function Claimed(env: Envelope): int {
    if env.epoch != 0 then env.epoch else env.payload.epoch
  }

  /** The lease a heartbeat asks for; a blank state claims ready. */
  function Asked(env: Envelope, now: Time): Lease {
    var state := Folded(env.payload.state);
    Lease(Sender(env), Claimed(env), if state == "" then "ready" else state,
          env.payload.pid, env.payload.activeRuns, now)
  }

  /** The epoch a service is at; a service never heard of is at 1. */
  function EpochOf(r: Registry, s: string): int {
    if s in r.epochs && r.epochs[s] != 0 then r.epochs[s] else 1
  }

  /** Every answer to a heartbeat, in the order in which they take precedence. */
  lemma AnswerIs(r: Registry, env: Envelope)
    ensures var s := Addressee(env.payload.service);
            r.Verdict(env) ==
              if env.protocolVersion != 1 then Some(UnsupportedProtocol)
              else if ToLower(TrimSpace(env.messageType)) != "heartbeat" then Some(UnsupportedMessageType)
              else if Sender(env) == "" then Some(MissingInstance)
              else if Claimed(env) != EpochOf(r, s) then Some(StaleEpoch)
              else if s in r.leases && r.leases[s].instanceId !in {"", Sender(env)} then Some(InstanceMismatch)
              else None
  {
    hide TrimSpace, ToLower, NormalizeService, Addressee;
    NamesAre(env.payload.service);
  }

  /** An accepted heartbeat replaces the lease of the service it names, and no other: under any of Desktop's
      names Desktop's, under any of Backend's names, or none, Backend's. A refused one changes no lease. */
  lemma HeartbeatReaches(r: Registry, env: Envelope, now: Time)
    ensures var (name, r') := (env.payload.service, r.Ingest(env, now));
            if r.Verdict(env).Some? then
              r'.leases == r.leases
            else if CallsBackend(name) then
              r'.leases == r.leases["hermes-backend" := Asked(env, now)]
            else if CallsDesktop(name) then
              r'.leases == r.leases["hermes-desktop" := Asked(env, now)]
            else
              && r'.leases == r.leases[Folded(name) := Asked(env, now)]
              && Folded(name) != "hermes-backend" && Folded(name) != "hermes-desktop"
  {
    hide TrimSpace, ToLower, NormalizeService;
    NamesAre(env.payload.service);
  }

  /** What readers ask of a service, under any of its names, is asked of that lease. */
  lemma FreshnessIs(r: Registry, name: string, now: Time)
    ensures var s := Addressee(name);
            && (r.FreshLive(name, now) <==> s in r.leases && now - r.leases[s].receivedAt <= r.timeout)
            && (r.FreshReady(name, now) <==>
                  s in r.leases && now - r.leases[s].receivedAt <= r.timeout && r.leases[s].state == "ready")
            && r.LastActiveRuns(name) == (if s in r.leases then r.leases[s].activeRuns else 0)
  {
    hide NormalizeService, Addressee;
    NamesAre(name);
  }

  /** A bump under any name of a service drops that service's lease and advances its epoch, and no other's. */
  lemma BumpIs(r: Registry, name: string)
    requires forall s :: s in r.epochs ==> r.epochs[s] <= MAX_INT64
    ensures var (s, r') := (Addressee(name), r.Bump(name));
            && r'.leases == r.leases - {s} && r'.timeout == r.timeout
            && r'.epochs == r.epochs[s := var e := if s in r.epochs then r.epochs[s] else 0;
                                          if e == MAX_INT64 then 1 else if 0 <= e then e + 1 else r'.epochs[s]]
  {
    hide NormalizeService, Addressee;
    NamesAre(name);
  }

  lemma NewRegistryIs(timeout: Duration)
    ensures var r := NewRegistry(timeout);
            && r.epochs == map["hermes-backend" := 1, "hermes-desktop" := 1] && r.leases == map[]
            && r.timeout == if timeout > 0 then timeout else 45_000_000_000
  {
  }

  /* ---- over histories ---- */

  predicate Canonical(s: string) {
    s == "hermes-backend" || s == "hermes-desktop"
  }

  /** After any history Backend and Desktop are at the epoch their bumps have counted up to. */
  lemma {:induction false} EpochCountsBumps(timeout: Duration, h: seq<Event>, n: nat, s: string)
    requires n <= |h| && Canonical(s)
    ensures EpochOf(At(timeout, h, n), s) == Bumps(h, s, 0, n) % MAX_INT64 + 1
    ensures s in At(timeout, h, n).epochs
  {
    hide Step, NormalizeService, NextEpoch;
    if n > 0 {
      EpochCountsBumps(timeout, h, n - 1, s);
      var r := At(timeout, h, n - 1);
      StepOnService(r, h[n - 1], s);
      EpochsInRange(timeout, h, n - 1, s);
      EpochsInRange(timeout, h, n, s);
      LeasesAreFenced(timeout, h, n - 1);
      LeasesAreFenced(timeout, h, n);
      NextEpochCycles(r.RawEpoch(s));
      CycleStep(Bumps(h, s, 0, n - 1), r.RawEpoch(s));
      StepKeepsEpochs(r, h[n - 1], s);
    }
  }

  lemma StepKeepsEpochs(r: Registry, e: Event, s: string)
    requires s in r.epochs
    ensures s in Step(r, e).epochs
  {
    hide NormalizeService;
  }

  /** A heartbeat is accepted, at any point of any history, exactly when it is a well-formed heartbeat of
      protocol 1 that names its sender, claims the epoch the bumps have counted up to, and comes from the
      same sender as the last one accepted since the last bump, if there is one. */
  lemma AcceptedIff(timeout: Duration, h: seq<Event>, i: nat, s: string)
    requires i < |h| && h[i].Received? && Addressee(h[i].env.payload.service) == s && Canonical(s)
    ensures var env := h[i].env;
            Accepted(timeout, h, i, s) <==>
              && env.protocolVersion == 1 && ToLower(TrimSpace(env.messageType)) == "heartbeat"
              && Sender(env) != "" && Claimed(env) == Bumps(h, s, 0, i) % MAX_INT64 + 1
              && forall k :: Current(timeout, h, i, k, s) ==> Sender(h[k].env) == Sender(env)
  {
    hide At, NormalizeService, TrimSpace, ToLower, Addressee, Bumps, Registry.Verdict, Current;
    var env, r := h[i].env, At(timeout, h, i);
    NamesAre(env.payload.service);
    AnswerIs(r, env);
    EpochCountsBumps(timeout, h, i, s);
    LeaseIsLastAccepted(timeout, h, i, s);
    LeasesAreFenced(timeout, h, i);
    CurrentsAreHeartbeats(timeout, h, i, s);
    forall k | 0 <= k < i && h[k].Received? && Current(timeout, h, i, k, s)
      ensures s in r.leases && r.leases[s].instanceId == Sender(h[k].env)
    {
      SenderIs(h, k);
    }
    if s in r.leases {
      var k :| Current(timeout, h, i, k, s);
    }
  }

  lemma CurrentsAreHeartbeats(timeout: Duration, h: seq<Event>, n: nat, s: string)
    requires n <= |h|
    ensures forall k :: Current(timeout, h, n, k, s) ==> 0 <= k < n && h[k].Received?
  {
    hide At, NormalizeService;
  }

  lemma SenderIs(h: seq<Event>, k: int)
    requires 0 <= k < |h| && h[k].Received?
    ensures LeaseOf(h, k) == Asked(h[k].env, h[k].at)
  {
    hide TrimSpace, ToLower;
  }
}
