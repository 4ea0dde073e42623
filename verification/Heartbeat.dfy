/** The lease registry of heartbeat.go: one epoch and at most one live incarnation per service. */
module Heartbeat {
  import opened Prelude
  import opened Text

  const BACKEND := "hermes-backend"
  const DESKTOP := "hermes-desktop"
  const PROTOCOL_VERSION := 1

  function NormalizeService(s: string): string {
    var n := TrimSpace(ToLower(s));
    if n == "backend" || n == BACKEND || n == "serve" || n == "" then BACKEND
    else if n == "desktop" || n == DESKTOP || n == "hermes.exe" then DESKTOP
    else n
  }

  /** A canonical service name is its own canonical name. */
  lemma NormalizeServiceIdempotent(s: string)
    ensures NormalizeService(NormalizeService(s)) == NormalizeService(s) != ""
    ensures NormalizeService(BACKEND) == BACKEND && NormalizeService(DESKTOP) == DESKTOP
  {
    NormalFormFixed(s);
    CanonicalNamesAreNormal();
  }

  lemma CanonicalNamesAreNormal()
    ensures TrimSpace(ToLower(BACKEND)) == BACKEND && TrimSpace(ToLower(DESKTOP)) == DESKTOP
  {
    assert ToLower(BACKEND) == BACKEND;
    assert ToLower(DESKTOP) == DESKTOP;
    TrimSpaceFixes(BACKEND);
    TrimSpaceFixes(DESKTOP);
  }

  datatype Payload = Payload(
    service: string, pid: int, instanceId: string, epoch: int, state: string, activeRuns: int)

  datatype Envelope = Envelope(
    protocolVersion: int, messageType: string, instanceId: string, epoch: int, payload: Payload)
  {
    function Service(): string {
      NormalizeService(payload.service)
    }

    /** The envelope's instance, or the payload's when the envelope names none. */
    function Instance(): string {
      var outer := TrimSpace(instanceId);
      if outer != "" then outer else TrimSpace(payload.instanceId)
    }

    function Epoch(): int {
      if epoch != 0 then epoch else payload.epoch
    }

    function State(): string {
      var s := TrimSpace(ToLower(payload.state));
      if s == "" then "ready" else s
    }

    /** What makes an envelope a heartbeat at all, before any lease is looked at. */
    function Defect(): Option<IngestError> {
      if protocolVersion != PROTOCOL_VERSION then Some(UnsupportedProtocol)
      else if ToLower(TrimSpace(messageType)) != "heartbeat" then Some(UnsupportedMessageType)
      else if Instance() == "" then Some(MissingInstance)
      else None
    }
  }

  datatype IngestError =
    UnsupportedProtocol | UnsupportedMessageType | MissingInstance | StaleEpoch | InstanceMismatch

  datatype Lease = Lease(
    instanceId: string, epoch: int, state: string, pid: int, activeRuns: int, receivedAt: Time)

  function LeaseFrom(env: Envelope, now: Time): Lease {
    Lease(env.Instance(), env.Epoch(), env.State(), env.payload.pid, env.payload.activeRuns, now)
  }

  /** The epoch after e: int64 increment, restarting from 1 when it wraps. */
  function NextEpoch(e: int): int {
    var n := Wrap64(e + 1);
    if n <= 0 then 1 else n
  }

  /** The registry's maps as a value. A missing epoch reads as Go's zero. */
  datatype Registry = Registry(epochs: map<string, int>, leases: map<string, Lease>, timeout: Duration)
  {
    function RawEpoch(service: string): int {
      if service in epochs then epochs[service] else 0
    }

    /** Reading the epoch of a service never seen before sets it to 1. */
    function Touch(service: string): Registry {
      if RawEpoch(service) == 0 then this.(epochs := epochs[service := 1]) else this
    }

    /** The epoch heartbeats of a (canonical) service must carry. */
    function CurrentEpoch(service: string): int {
      if RawEpoch(service) == 0 then 1 else RawEpoch(service)
    }

    function Bump(service: string): Registry {
      var s := NormalizeService(service);
      this.(epochs := epochs[s := NextEpoch(RawEpoch(s))], leases := leases - {s})
    }

    function Verdict(env: Envelope): Option<IngestError> {
      var s := env.Service();
      if env.Defect().Some? then env.Defect()
      else if env.Epoch() != CurrentEpoch(s) then Some(StaleEpoch)
      else if s in leases && leases[s].instanceId != "" && leases[s].instanceId != env.Instance()
      then Some(InstanceMismatch)
      else None
    }

    function Ingest(env: Envelope, now: Time): Registry {
      var s := env.Service();
      if env.Defect().Some? then this
      else if Verdict(env).Some? then Touch(s)
      else Touch(s).(leases := leases[s := LeaseFrom(env, now)])
    }

    predicate FreshLive(service: string, now: Time) {
      var s := NormalizeService(service);
      s in leases && now - leases[s].receivedAt <= timeout
    }

    predicate FreshReady(service: string, now: Time) {
      FreshLive(service, now) && leases[NormalizeService(service)].state == "ready"
    }

    function LastActiveRuns(service: string): int {
      var s := NormalizeService(service);
      if s in leases then leases[s].activeRuns else 0
    }
  }

  function NewRegistry(timeout: Duration): Registry {
    Registry(map[BACKEND := 1, DESKTOP := 1], map[], if timeout <= 0 then 45 * SECOND else timeout)
  }

  class HeartbeatRegistry {
    var epochs: map<string, int>
    var leases: map<string, Lease>
    const timeout: Duration

    ghost function View(): Registry
      reads this
    {
      Registry(epochs, leases, timeout)
    }

    constructor (t: Duration)
      ensures View() == NewRegistry(t)
    {
      epochs := map[BACKEND := 1, DESKTOP := 1];
      leases := map[];
      timeout := if t <= 0 then 45 * SECOND else t;
    }

    method Epoch(service: string) returns (e: int)
      modifies this
      ensures View() == old(View()).Touch(NormalizeService(service))
      ensures e == old(View()).CurrentEpoch(NormalizeService(service))
    {
      var s := NormalizeService(service);
      if s !in epochs || epochs[s] == 0 {
        epochs := epochs[s := 1];
      }
      e := epochs[s];
    }

    method BumpEpoch(service: string) returns (e: int)
      modifies this
      ensures View() == old(View()).Bump(service)
      ensures e == View().RawEpoch(NormalizeService(service)) && e > 0
    {
      var s := NormalizeService(service);
      epochs := epochs[s := Wrap64((if s in epochs then epochs[s] else 0) + 1)];
      if epochs[s] <= 0 {
        epochs := epochs[s := 1];
      }
      leases := leases - {s};
      e := epochs[s];
    }

    method Ingest(env: Envelope, now: Time) returns (err: Option<IngestError>)
      modifies this
      ensures err == old(View()).Verdict(env)
      ensures View() == old(View()).Ingest(env, now)
    {
      if env.protocolVersion != PROTOCOL_VERSION {
        return Some(UnsupportedProtocol);
      }
      if ToLower(TrimSpace(env.messageType)) != "heartbeat" {
        return Some(UnsupportedMessageType);
      }
      var service := NormalizeService(env.payload.service);
      var instanceId := TrimSpace(env.instanceId);
      if instanceId == "" {
        instanceId := TrimSpace(env.payload.instanceId);
      }
      if instanceId == "" {
        return Some(MissingInstance);
      }
      var epoch := env.epoch;
      if epoch == 0 {
        epoch := env.payload.epoch;
      }
      var current := if service in epochs then epochs[service] else 0;
      if current == 0 {
        current := 1;
        epochs := epochs[service := current];
      }
      if epoch != current {
        return Some(StaleEpoch);
      }
      if service in leases {
        var prev := leases[service];
        if prev.instanceId != "" && prev.instanceId != instanceId {
          return Some(InstanceMismatch);
        }
      }
      var state := TrimSpace(ToLower(env.payload.state));
      if state == "" {
        state := "ready";
      }
      leases := leases[service := Lease(instanceId, epoch, state, env.payload.pid, env.payload.activeRuns, now)];
      return None;
    }

    method FreshReady(service: string, now: Time) returns (ok: bool)
      ensures ok <==> View().FreshReady(service, now)
    {
      var s := NormalizeService(service);
      if s !in leases {
        return false;
      }
      if now - leases[s].receivedAt > timeout {
        return false;
      }
      return leases[s].state == "ready";
    }

    method FreshLive(service: string, now: Time) returns (ok: bool)
      ensures ok <==> View().FreshLive(service, now)
    {
      var s := NormalizeService(service);
      if s !in leases {
        return false;
      }
      return now - leases[s].receivedAt <= timeout;
    }

    method LastActiveRuns(service: string) returns (n: int)
      ensures n == View().LastActiveRuns(service)
    {
      var s := NormalizeService(service);
      if s !in leases {
        return 0;
      }
      return leases[s].activeRuns;
    }
  }
}
