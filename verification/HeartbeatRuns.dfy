/** What the lease registry means, stated against the plain history of messages it was given. */
module HeartbeatRuns {
  import opened Prelude
  import opened Heartbeat

  datatype Event = Received(env: Envelope, at: Time) | Bumped(service: string) | Read(service: string)

  function Step(r: Registry, e: Event): Registry {
    match e
    case Received(env, at) => r.Ingest(env, at)
    case Bumped(s) => r.Bump(s)
    case Read(s) => r.Touch(NormalizeService(s))
  }

  /** The registry after the first n events of the history. */
  function At(timeout: Duration, h: seq<Event>, n: nat): Registry
    requires n <= |h|
  {
    if n == 0 then NewRegistry(timeout) else Step(At(timeout, h, n - 1), h[n - 1])
  }

  /** Event i is a heartbeat of the service that the registry accepted. */
  ghost predicate Accepted(timeout: Duration, h: seq<Event>, i: int, service: string) {
    && 0 <= i < |h|
    && h[i].Received?
    && h[i].env.Service() == service
    && At(timeout, h, i).Verdict(h[i].env).None?
  }

  predicate BumpedAt(h: seq<Event>, i: int, service: string) {
    0 <= i < |h| && h[i].Bumped? && NormalizeService(h[i].service) == service
  }

  /** Event i is the last heartbeat accepted from the service before event n, and the service's epoch
      has not been bumped since. */
  ghost predicate Current(timeout: Duration, h: seq<Event>, n: int, i: int, service: string) {
    && i < n
    && Accepted(timeout, h, i, service)
    && forall j :: i < j < n ==> !Accepted(timeout, h, j, service) && !BumpedAt(h, j, service)
  }

  /** The lease that heartbeat i would leave behind. */
  function LeaseOf(h: seq<Event>, i: int): Lease
    requires 0 <= i < |h| && h[i].Received?
  {
    LeaseFrom(h[i].env, h[i].at)
  }

  /** Every stored lease carries its service's current epoch and a non-empty instance. */
  ghost predicate Fenced(r: Registry) {
    && r.leases.Keys <= r.epochs.Keys
    && (forall s :: s in r.leases ==> r.leases[s].epoch == r.RawEpoch(s) && r.leases[s].instanceId != "")
    && (forall s :: s in r.epochs ==> r.epochs[s] >= 1)
  }

  lemma StepKeepsFenced(r: Registry, e: Event)
    requires Fenced(r)
    ensures Fenced(Step(r, e))
  {
    hide NormalizeService, Wrap64;
  }

  lemma {:induction false} LeasesAreFenced(timeout: Duration, h: seq<Event>, n: nat)
    requires n <= |h|
    ensures Fenced(At(timeout, h, n))
  {
    if n > 0 {
      LeasesAreFenced(timeout, h, n - 1);
      StepKeepsFenced(At(timeout, h, n - 1), h[n - 1]);
    }
  }

  /** What one event does to one service's lease. */
  lemma StepOnService(r: Registry, e: Event, s: string)
    ensures var r' := Step(r, e);
            if e.Bumped? && NormalizeService(e.service) == s then
              s !in r'.leases && r'.RawEpoch(s) == NextEpoch(r.RawEpoch(s))
            else if e.Received? && e.env.Service() == s && r.Verdict(e.env).None? then
              && s in r'.leases && r'.leases[s] == LeaseFrom(e.env, e.at)
              && r'.RawEpoch(s) == r.CurrentEpoch(s) == e.env.Epoch()
            else
              && (s in r'.leases <==> s in r.leases)
              && (s in r.leases ==> r'.leases[s] == r.leases[s])
              && (r'.RawEpoch(s) == r.RawEpoch(s) || (r.RawEpoch(s) == 0 && r'.RawEpoch(s) == 1))
  {
    hide NormalizeService, Wrap64;
  }

  lemma CurrentUnchanged(timeout: Duration, h: seq<Event>, n: nat, i: int, s: string)
    requires 0 < n <= |h| && !BumpedAt(h, n - 1, s) && !Accepted(timeout, h, n - 1, s)
    ensures Current(timeout, h, n, i, s) <==> Current(timeout, h, n - 1, i, s)
  {
    hide Accepted, BumpedAt;
  }

  lemma NothingCurrentAtStart(timeout: Duration, h: seq<Event>, s: string)
    ensures forall i :: !Current(timeout, h, 0, i, s)
  {
    hide At, NormalizeService;
  }

  lemma CurrentAfterBump(timeout: Duration, h: seq<Event>, n: nat, i: int, s: string)
    requires 0 < n <= |h| && BumpedAt(h, n - 1, s)
    ensures !Current(timeout, h, n, i, s)
  {
    hide At, NormalizeService;
  }

  lemma CurrentAfterAccept(timeout: Duration, h: seq<Event>, n: nat, i: int, s: string)
    requires 0 < n <= |h| && Accepted(timeout, h, n - 1, s)
    ensures Current(timeout, h, n, i, s) <==> i == n - 1
  {
    hide Accepted;
  }

  /** The stored lease of a service is the one left by its last accepted heartbeat since its last
      bump, and there is none exactly when there is no such heartbeat. */
  lemma {:induction false} LeaseIsLastAccepted(timeout: Duration, h: seq<Event>, n: nat, s: string)
    requires n <= |h|
    ensures s in At(timeout, h, n).leases <==> exists i :: Current(timeout, h, n, i, s)
    ensures forall i :: Current(timeout, h, n, i, s) ==>
              s in At(timeout, h, n).leases && At(timeout, h, n).leases[s] == LeaseOf(h, i)
  {
    hide Step, Current, NormalizeService;
    if n > 0 {
      LeaseIsLastAccepted(timeout, h, n - 1, s);
      StepOnService(At(timeout, h, n - 1), h[n - 1], s);
      forall i ensures
          if BumpedAt(h, n - 1, s) then !Current(timeout, h, n, i, s)
          else if Accepted(timeout, h, n - 1, s) then (Current(timeout, h, n, i, s) <==> i == n - 1)
          else (Current(timeout, h, n, i, s) <==> Current(timeout, h, n - 1, i, s))
      {
        if BumpedAt(h, n - 1, s) {
          CurrentAfterBump(timeout, h, n, i, s);
        } else if Accepted(timeout, h, n - 1, s) {
          CurrentAfterAccept(timeout, h, n, i, s);
        } else {
          CurrentUnchanged(timeout, h, n, i, s);
        }
      }
      if !BumpedAt(h, n - 1, s) && Accepted(timeout, h, n - 1, s) {
        assert Current(timeout, h, n, n - 1, s);
      } else if !BumpedAt(h, n - 1, s) && s in At(timeout, h, n - 1).leases {
        var i :| Current(timeout, h, n - 1, i, s);
        assert Current(timeout, h, n, i, s);
      }
    } else {
      NothingCurrentAtStart(timeout, h, s);
    }
  }

  /** FreshLive and FreshReady answer from the plain history: some heartbeat is the last one accepted
      since the last bump, it is no older than the timeout, and, for FreshReady, it claimed ready. */
  lemma FreshnessIsAboutHistory(timeout: Duration, h: seq<Event>, n: nat, service: string, now: Time)
    requires n <= |h|
    ensures var r, s := At(timeout, h, n), NormalizeService(service);
            && (r.FreshLive(service, now) <==>
                  exists i :: Current(timeout, h, n, i, s) && now - h[i].at <= r.timeout)
            && (r.FreshReady(service, now) <==>
                  exists i :: Current(timeout, h, n, i, s) && now - h[i].at <= r.timeout
                              && h[i].env.State() == "ready")
  {
    hide At, NormalizeService;
    LeaseIsLastAccepted(timeout, h, n, NormalizeService(service));
  }

  /** The drain reads the runs the current lease reported, and zero without a lease. */
  lemma LastActiveRunsIsAboutHistory(timeout: Duration, h: seq<Event>, n: nat, service: string)
    requires n <= |h|
    ensures At(timeout, h, n).LastActiveRuns(service) > 0 <==>
              exists i :: Current(timeout, h, n, i, NormalizeService(service)) && h[i].env.payload.activeRuns > 0
  {
    hide At, NormalizeService;
    LeaseIsLastAccepted(timeout, h, n, NormalizeService(service));
  }

  /** Until the int64 counter runs out, epochs never decrease and every bump increases them. */
  lemma {:induction false} EpochsGrow(timeout: Duration, h: seq<Event>, m: nat, n: nat, s: string)
    requires m <= n <= |h| < MAX_INT64
    ensures 0 <= At(timeout, h, m).RawEpoch(s) <= At(timeout, h, n).RawEpoch(s) <= n + 1
    decreases n
  {
    hide Step;
    if n > 0 {
      StepOnService(At(timeout, h, n - 1), h[n - 1], s);
      if m < n {
        EpochsGrow(timeout, h, m, n - 1, s);
      } else {
        EpochsGrow(timeout, h, n - 1, n - 1, s);
      }
    }
  }

  /* ---- replays ---- */

  /** How often the service was bumped by the events from m up to n. */
  function Bumps(h: seq<Event>, s: string, m: nat, n: nat): nat
    requires n <= |h|
  {
    if n <= m then 0 else Bumps(h, s, m, n - 1) + if BumpedAt(h, n - 1, s) then 1 else 0
  }

  lemma NextEpochCycles(e: int)
    requires 0 <= e <= MAX_INT64
    ensures 1 <= NextEpoch(e) <= MAX_INT64
    ensures NextEpoch(e) == if e == MAX_INT64 then 1 else e + 1
  {
  }

  lemma {:induction false} EpochsInRange(timeout: Duration, h: seq<Event>, n: nat, s: string)
    requires n <= |h|
    ensures 0 <= At(timeout, h, n).RawEpoch(s) <= MAX_INT64
  {
    hide Step, NextEpoch;
    if n > 0 {
      EpochsInRange(timeout, h, n - 1, s);
      StepOnService(At(timeout, h, n - 1), h[n - 1], s);
      NextEpochCycles(At(timeout, h, n - 1).RawEpoch(s));
    }
  }

  lemma CycleStep(x: int, e: int)
    requires 1 <= e <= MAX_INT64 && e - 1 == x % MAX_INT64
    ensures (if e == MAX_INT64 then 0 else e) == (x + 1) % MAX_INT64
  {
  }

  /** From an accepted heartbeat on, the epoch is its own plus the bumps since, round the int64 cycle. */
  lemma {:induction false} EpochAfterBumps(timeout: Duration, h: seq<Event>, i: nat, n: nat, s: string)
    requires i < n <= |h| && Accepted(timeout, h, i, s)
    ensures 1 <= h[i].env.Epoch() <= MAX_INT64
    ensures var e := At(timeout, h, n).RawEpoch(s);
            1 <= e <= MAX_INT64 && e - 1 == (h[i].env.Epoch() - 1 + Bumps(h, s, i + 1, n)) % MAX_INT64
  {
    hide Step, NormalizeService, NextEpoch;
    StepOnService(At(timeout, h, n - 1), h[n - 1], s);
    EpochsInRange(timeout, h, n, s);
    EpochsInRange(timeout, h, n - 1, s);
    if i < n - 1 {
      EpochAfterBumps(timeout, h, i, n - 1, s);
      NextEpochCycles(At(timeout, h, n - 1).RawEpoch(s));
      CycleStep(h[i].env.Epoch() - 1 + Bumps(h, s, i + 1, n - 1), At(timeout, h, n - 1).RawEpoch(s));
    }
  }

  lemma FullCycles(x: int, b: nat)
    requires 0 <= x < MAX_INT64
    ensures (x + b) % MAX_INT64 == x <==> b % MAX_INT64 == 0
  {
    var q, r := b / MAX_INT64, b % MAX_INT64;
    assert x + b == MAX_INT64 * q + (x + r);
    ModOffset(q, x + r);
  }

  lemma ModOffset(q: nat, y: int)
    ensures (MAX_INT64 * q + y) % MAX_INT64 == y % MAX_INT64
  {
  }

  /** A heartbeat once accepted is stale, whenever it is replayed, if and only if its service was bumped since
      a number of times that is not a multiple of the largest int64. */
  lemma ReplayIsStaleIff(timeout: Duration, h: seq<Event>, i: nat, n: nat, s: string)
    requires i < n <= |h| && Accepted(timeout, h, i, s)
    ensures At(timeout, h, n).Verdict(h[i].env) == Some(StaleEpoch) <==> Bumps(h, s, i + 1, n) % MAX_INT64 != 0
  {
    hide At, NormalizeService;
    EpochAfterBumps(timeout, h, i, n, s);
    FullCycles(h[i].env.Epoch() - 1, Bumps(h, s, i + 1, n));
  }

  lemma {:induction false} BumpsCount(h: seq<Event>, s: string, m: nat, k: nat, n: nat)
    requires m <= k < n <= |h| && BumpedAt(h, k, s)
    ensures 1 <= Bumps(h, s, m, n) <= n - m
  {
    hide BumpedAt;
    if k < n - 1 {
      BumpsCount(h, s, m, k, n - 1);
    } else {
      BumpsAtMost(h, s, m, n - 1);
    }
  }

  lemma {:induction false} BumpsAtMost(h: seq<Event>, s: string, m: nat, n: nat)
    requires n <= |h|
    ensures Bumps(h, s, m, n) <= if n <= m then 0 else n - m
  {
    if n > m {
      BumpsAtMost(h, s, m, n - 1);
    }
  }

  /** In particular a heartbeat accepted before a bump of its service is stale at every later time of any
      history too short for the epochs to run round. */
  lemma ReplayAcrossBumpIsRejected(timeout: Duration, h: seq<Event>, i: nat, k: nat, n: nat, s: string)
    requires i < k < n <= |h| < MAX_INT64
    requires Accepted(timeout, h, i, s) && BumpedAt(h, k, s)
    ensures At(timeout, h, n).Verdict(h[i].env) == Some(StaleEpoch)
  {
    hide At, NormalizeService, Accepted, BumpedAt, Bumps;
    ReplayIsStaleIff(timeout, h, i, n, s);
    BumpsCount(h, s, i + 1, k, n);
  }

  function Repeated(s: string, k: nat): seq<Event> {
    if k == 0 then [] else Repeated(s, k - 1) + [Bumped(s)]
  }

  lemma {:induction false} RepeatedBumps(h: seq<Event>, s: string, m: nat, k: nat)
    requires m <= |h| && NormalizeService(s) == s
    ensures |Repeated(s, k)| == k
    ensures Bumps(h + Repeated(s, k), s, m, |h| + k) == Bumps(h, s, m, |h|) + k
  {
    hide NormalizeService;
    if k == 0 {
      assert h + Repeated(s, 0) == h;
    } else {
      RepeatedBumps(h, s, m, k - 1);
      var full, shorter := h + Repeated(s, k), h + Repeated(s, k - 1);
      assert full == shorter + [Bumped(s)] && full[|h| + k - 1] == Bumped(s);
      BumpsExtend(shorter, [Bumped(s)], s, m, |h| + k - 1);
    }
  }

  lemma {:induction false} BumpsExtend(h: seq<Event>, more: seq<Event>, s: string, m: nat, n: nat)
    requires n <= |h|
    ensures Bumps(h + more, s, m, n) == Bumps(h, s, m, n)
  {
    if n > m {
      BumpsExtend(h, more, s, m, n - 1);
      assert (h + more)[n - 1] == h[n - 1];
    }
  }

  lemma {:induction false} AtExtends(timeout: Duration, h: seq<Event>, more: seq<Event>, n: nat)
    requires n <= |h|
    ensures At(timeout, h + more, n) == At(timeout, h, n)
  {
    if n > 0 {
      AtExtends(timeout, h, more, n - 1);
    }
  }

  lemma AcceptedExtends(timeout: Duration, h: seq<Event>, more: seq<Event>, i: nat, s: string)
    requires Accepted(timeout, h, i, s)
    ensures Accepted(timeout, h + more, i, s)
  {
    hide At, NormalizeService, Registry.Verdict;
    AtExtends(timeout, h, more, i);
  }

  /** The wrap is real: after any history, enough further bumps run the epochs round to where a heartbeat
      once accepted is accepted again. */
  lemma EpochWrapReadmits(timeout: Duration, h: seq<Event>, i: nat, s: string) returns (more: seq<Event>)
    requires i < |h| && Accepted(timeout, h, i, s) && NormalizeService(s) == s
    ensures 0 < |more| <= MAX_INT64 && forall k :: 0 <= k < |more| ==> more[k] == Bumped(s)
    ensures At(timeout, h + more, |h + more|).Verdict(h[i].env) == None
  {
    hide At, NormalizeService, Registry.Verdict, Bumps;
    var b := Bumps(h, s, i + 1, |h|);
    var k := MAX_INT64 - b % MAX_INT64;
    more := Repeated(s, k);
    RepeatedOnly(s, k);
    RepeatedBumps(h, s, i + 1, k);
    AcceptedExtends(timeout, h, more, i, s);
    assert (h + more)[i] == h[i];
    ReplayIsStaleIff(timeout, h + more, i, |h + more|, s);
    assert b + k == MAX_INT64 * (b / MAX_INT64 + 1);
    ModOffset(b / MAX_INT64 + 1, 0);
    assert (h + more)[|h + more| - 1] == Bumped(s);
    NoLeaseAfterBump(timeout, h + more, s);
    NotStaleNotMismatched(At(timeout, h + more, |h + more|), h[i].env, s, At(timeout, h, i));
  }

  lemma {:induction false} RepeatedOnly(s: string, k: nat)
    ensures |Repeated(s, k)| == k && forall j :: 0 <= j < k ==> Repeated(s, k)[j] == Bumped(s)
  {
    if k > 0 {
      RepeatedOnly(s, k - 1);
    }
  }

  lemma NoLeaseAfterBump(timeout: Duration, h: seq<Event>, s: string)
    requires h != [] && Last(h) == Bumped(s) && NormalizeService(s) == s
    ensures s !in At(timeout, h, |h|).leases
  {
    hide NormalizeService, NextEpoch;
  }

  lemma NotStaleNotMismatched(r: Registry, env: Envelope, s: string, earlier: Registry)
    requires earlier.Verdict(env).None? && env.Service() == s && s !in r.leases
    requires r.Verdict(env) != Some(StaleEpoch)
    ensures r.Verdict(env) == None
  {
    hide NormalizeService, Envelope.Defect;
  }

  /** While a service is not bumped, its lease stays with the instance first accepted. */
  lemma {:induction false} IncarnationHolds(timeout: Duration, h: seq<Event>, i: nat, n: nat, s: string)
    requires i < n <= |h| && Accepted(timeout, h, i, s)
    requires forall k :: i < k < n ==> !BumpedAt(h, k, s)
    ensures s in At(timeout, h, n).leases
    ensures At(timeout, h, n).leases[s].instanceId == h[i].env.Instance()
  {
    hide Step, NormalizeService;
    StepOnService(At(timeout, h, n - 1), h[n - 1], s);
    assert i < n - 1 ==> !BumpedAt(h, n - 1, s);
    if i < n - 1 {
      IncarnationHolds(timeout, h, i, n - 1, s);
      LeasesAreFenced(timeout, h, n - 1);
    }
  }

  /** All heartbeats accepted for one service in one epoch come from one instance, unless the epochs ran
      round in between. */
  lemma OneIncarnationPerEpoch(timeout: Duration, h: seq<Event>, i: nat, j: nat, s: string)
    requires i < j < |h| && Bumps(h, s, i + 1, j) < MAX_INT64
    requires Accepted(timeout, h, i, s) && Accepted(timeout, h, j, s)
    requires h[i].env.Epoch() == h[j].env.Epoch()
    ensures h[i].env.Instance() == h[j].env.Instance()
  {
    hide At, NormalizeService, Bumps;
    ReplayIsStaleIff(timeout, h, i, j, s);
    forall k | i < k < j ensures !BumpedAt(h, k, s) {
      if BumpedAt(h, k, s) {
        BumpsCount(h, s, i + 1, k, j);
      }
    }
    IncarnationHolds(timeout, h, i, j, s);
    LeasesAreFenced(timeout, h, j);
  }
}
