/** The managed-serve supervisor of backend.go: probe, reuse, replace, spawn, publish. The operating
    system and the network answer through a Probes value, one answer per question asked. */
module Backend {
  import opened Prelude
  import opened Text

  const DEFAULT_MANAGED_PORT := 9119

  predicate IsReservedOpsPort(port: int) {
    port in {8080, 8081, 8646, 8765, 8787, 9120, 9920, 18794}
  }

  datatype Config = Config(rootConfigured: bool, managedPort: int)
  {
    function Port(): (p: int)
      ensures p > 0
    {
      if managedPort <= 0 then DEFAULT_MANAGED_PORT else managedPort
    }
  }

  /** desktop-backend.json */
  datatype Manifest = Manifest(token: string, port: int, pid: int)

  /** The environment's answers to one EnsureHealthy call, in the order the questions come up. */
  datatype Probes = Probes(
    // is the serve in memory healthy, and does its token still work?
    alive1: bool, live1: bool, ready1: bool, accepts1: bool, written1: bool,
    // is our own child process still answering with the token in memory?
    alive2: bool, ready2: bool, accepts2: bool, written2: bool,
    // is something else answering on the managed port?
    ready3: bool, manifestPidAlive: bool, accepts3: bool, listener: int, written3: bool, cleared3: bool,
    // is something silent listening on it?
    zombie: bool, cleared4: bool,
    // spawning
    canBuild: bool, minted: Option<string>, pipeOk: bool, startOk: bool, newPid: int, jobOk: bool,
    readyInTime: bool, childAlive: bool, readyLate: bool, accepts5: bool, written5: bool)

  datatype Failure =
    | RootNotConfigured | PortReserved | StillOccupied | ZombieUncleared | BuildFailed
    | PipeFailed | StartFailed | ExitedEarly | NeverReady | AuthRefused

  datatype Result = Healthy(pid: int, port: int) | Failed(why: Failure)

  /** Where in the sequence an auth probe was made. */
  datatype Place = InMemory | OwnChild | Occupant | AfterSpawn

  datatype Effect =
    | AuthProbe(place: Place, port: int, token: string, accepted: bool)
    | Published(manifest: Manifest)
    | DriftReplaced
    | Launched(token: string)

  /** The manager's fields and the manifest on disk. job: a Job Object is held. */
  datatype Back = Back(cmd: bool, pid: int, port: int, token: string, job: bool, disk: Option<Manifest>)
  {
    /** The token is kept: Desktop may still hold it. */
    function Stop(): Back {
      this.(cmd := false, pid := 0, port := 0, job := false)
    }

    /** A failed write leaves the old file in place. */
    function Publish(onPort: int, forPid: int, written: bool): Back {
      if written then this.(disk := Some(Manifest(token, onPort, forPid))) else this
    }

    function ManifestToken(): string {
      if disk.Some? then TrimSpace(disk.value.token) else ""
    }

    function AdoptManifestToken(): Back {
      if ManifestToken() != "" then this.(token := ManifestToken()) else this
    }

    /** The token the next spawn would be given. */
    function PreferredToken(): string {
      if TrimSpace(token) != "" then TrimSpace(token) else ManifestToken()
    }

    predicate InMemoryReady(p: Probes) {
      port > 0 && !(pid > 0 && !p.alive1) && !IsReservedOpsPort(port) && p.live1 && p.ready1
    }
  }

  /** testBackendAuth never succeeds without a port or a token. */
  predicate AuthOk(port: int, token: string, accepts: bool) {
    port > 0 && TrimSpace(token) != "" && accepts
  }

  /** Progress of a call: what is known so far, and the result once there is one. */
  datatype Progress = Progress(back: Back, log: seq<Effect>, result: Option<Result>)

  function Finish(b: Back, log: seq<Effect>, r: Result): Progress {
    Progress(b, log, Some(r))
  }

  function PublishAndFinish(b: Back, log: seq<Effect>, port: int, pid: int, written: bool): Progress {
    Finish(b.Publish(port, pid, written), log + [Published(Manifest(b.token, port, pid))], Healthy(pid, port))
  }

  /** A healthy serve in memory is kept if the manifest's token, or else the one in memory, works. */
  function TryInMemory(b: Back, p: Probes): Progress {
    if b.InMemoryReady(p) then
      var a := b.AdoptManifestToken();
      var ok := AuthOk(a.port, a.token, p.accepts1);
      var log := if a.token != "" then [AuthProbe(InMemory, a.port, a.token, ok)] else [];
      if a.token != "" && ok then PublishAndFinish(a, log, a.port, a.pid, p.written1)
      else Progress(a.Stop(), log, None)
    else
      Progress(b, [], None)
  }

  /** Our own child is kept if it still answers with the token in memory; otherwise it is stopped. */
  function TryOwnChild(b: Back, log: seq<Effect>, p: Probes): Progress {
    if b.cmd && b.port > 0 && p.alive2 && p.ready2 && b.token != "" then
      var ok := AuthOk(b.port, b.token, p.accepts2);
      var log' := log + [AuthProbe(OwnChild, b.port, b.token, ok)];
      if ok then PublishAndFinish(b, log', b.port, b.pid, p.written2)
      else Progress(b.Stop(), log', None)
    else
      Progress(b.Stop(), log, None)
  }

  /** What the manager believes about whatever answers on the managed port. */
  function AdoptOccupant(b: Back, port: int, p: Probes): Back {
    var a := b.(port := port).AdoptManifestToken();
    if b.disk.Some? && b.disk.value.pid > 0 && p.manifestPidAlive then a.(pid := b.disk.value.pid) else a
  }

  /** The managed port is reused, freed, or given up on. */
  function TryOccupant(b: Back, log: seq<Effect>, port: int, p: Probes): Progress {
    if IsReservedOpsPort(port) then
      Finish(b.(disk := None), log, Failed(PortReserved))
    else if p.ready3 then
      var a := AdoptOccupant(b, port, p);
      var ok := AuthOk(port, a.token, p.accepts3);
      var log' := if a.token != "" then log + [AuthProbe(Occupant, port, a.token, ok)] else log;
      if a.token != "" && ok then
        var pid := if a.pid <= 0 && p.listener > 0 then p.listener else a.pid;
        PublishAndFinish(a.(pid := pid), log', port, pid, p.written3)
      else if !p.cleared3 then
        Finish(a.(disk := None), log', Failed(StillOccupied))
      else
        Progress(a.(port := 0, pid := 0, token := ""), log' + [DriftReplaced], None)
    else if p.zombie && !p.cleared4 then
      Finish(b.(disk := None), log, Failed(ZombieUncleared))
    else
      Progress(b, log, None)
  }

  /** Stops a child that did not make it and withdraws the manifest. */
  function Abandon(b: Back, pid: int): Back {
    b.(cmd := true, pid := pid).Stop().(disk := None)
  }

  function Spawn(b: Back, log: seq<Effect>, port: int, p: Probes): (r: Progress)
    ensures r.result.Some?
  {
    var preferred := b.PreferredToken();
    var token := if preferred != "" then Some(preferred) else p.minted;
    if !p.canBuild || token.None? then Finish(b.(disk := None), log, Failed(BuildFailed))
    else if !p.pipeOk then Finish(b, log, Failed(PipeFailed))
    else if !p.startOk then Finish(b.(disk := None), log, Failed(StartFailed))
    else Settle(b.(job := p.jobOk), log + [Launched(token.value)], port, token.value, p)
  }

  /** A launched child is published once it is ready and its token works; otherwise it is abandoned. */
  function Settle(b: Back, log: seq<Effect>, port: int, token: string, p: Probes): (r: Progress)
    ensures r.result.Some?
  {
    if !p.readyInTime && !p.childAlive then Finish(Abandon(b, p.newPid), log, Failed(ExitedEarly))
    else if !p.readyInTime && !p.readyLate then Finish(Abandon(b, p.newPid), log, Failed(NeverReady))
    else
      var ok := AuthOk(port, token, p.accepts5);
      var log' := log + [AuthProbe(AfterSpawn, port, token, ok)];
      if !ok then Finish(Abandon(b, p.newPid).(token := ""), log', Failed(AuthRefused))
      else
        var up := b.(cmd := true, pid := p.newPid, port := port, token := token);
        PublishAndFinish(up, log', port, p.newPid, p.written5)
  }

  function Ensure(cfg: Config, b: Back, p: Probes): (r: Progress)
    ensures r.result.Some?
  {
    if !cfg.rootConfigured then Finish(b, [], Failed(RootNotConfigured))
    else
      var s1 := TryInMemory(b, p);
      if s1.result.Some? then s1 else
        var s2 := TryOwnChild(s1.back, s1.log, p);
        if s2.result.Some? then s2 else
          var s3 := TryOccupant(s2.back, s2.log, cfg.Port(), p);
          if s3.result.Some? then s3 else Spawn(s3.back, s3.log, cfg.Port(), p)
  }

  /** The warm start's last act: publish the token in memory, minting one only if there is none. */
  function Notify(b: Back, port: int, minted: Option<string>, written: bool): (r: (Back, seq<Effect>)) {
    var a := if b.token == "" && minted.Some? then b.(token := minted.value) else b;
    if b.token == "" && minted.None? then (b, [])
    else
      var c := if port > 0 then a.(port := port) else a;
      (c.Publish(c.port, c.pid, written), [Published(Manifest(c.token, c.port, c.pid))])
  }

  class BackendManager {
    const cfg: Config
    var cmd: bool
    var pid: int
    var port: int
    var token: string
    var job: bool
    var disk: Option<Manifest>

    ghost function View(): Back
      reads this
    {
      Back(cmd, pid, port, token, job, disk)
    }

    constructor (c: Config, manifest: Option<Manifest>)
      ensures cfg == c && View() == Back(false, 0, 0, "", false, manifest)
    {
      cfg := c;
      cmd, pid, port, token, job, disk := false, 0, 0, "", false, manifest;
    }

    method StopLocked()
      modifies this
      ensures View() == old(View()).Stop()
    {
      job := false;
      cmd := false;
      pid := 0;
      port := 0;
    }

    method PublishManifestLocked(onPort: int, forPid: int, written: bool)
      modifies this`disk
      ensures View() == old(View()).Publish(onPort, forPid, written)
    {
      if written {
        disk := Some(Manifest(token, onPort, forPid));
      }
    }

    method ClearManifest()
      modifies this`disk
      ensures View() == old(View()).(disk := None)
    {
      disk := None;
    }

    method EnsureInMemory(p: Probes) returns (r: Option<Result>, ghost log: seq<Effect>)
      modifies this
      ensures Progress(View(), log, r) == TryInMemory(old(View()), p)
    {
      log := [];
      r := None;
      if port > 0 && !(pid > 0 && !p.alive1) && !IsReservedOpsPort(port) && p.live1 && p.ready1 {
        var manifestToken := if disk.Some? then TrimSpace(disk.value.token) else "";
        if manifestToken != "" {
          token := manifestToken;
        }
        if token != "" {
          var ok := AuthOk(port, token, p.accepts1);
          log := [AuthProbe(InMemory, port, token, ok)];
          if ok {
            PublishManifestLocked(port, pid, p.written1);
            log := log + [Published(Manifest(token, port, pid))];
            return Some(Healthy(pid, port)), log;
          }
        }
        StopLocked();
      }
    }

    method EnsureOwnChild(p: Probes, ghost before: seq<Effect>) returns (r: Option<Result>, ghost log: seq<Effect>)
      modifies this
      ensures Progress(View(), log, r) == TryOwnChild(old(View()), before, p)
    {
      log := before;
      if cmd && port > 0 && p.alive2 && p.ready2 && token != "" {
        var ok := AuthOk(port, token, p.accepts2);
        log := log + [AuthProbe(OwnChild, port, token, ok)];
        if ok {
          PublishManifestLocked(port, pid, p.written2);
          log := log + [Published(Manifest(token, port, pid))];
          return Some(Healthy(pid, port)), log;
        }
      }
      StopLocked();
      r := None;
    }

    /** Takes over what the manifest says about the process answering on the managed port. */
    method AdoptFromManifest(managed: int, p: Probes)
      modifies this
      ensures View() == AdoptOccupant(old(View()), managed, p)
    {
      var manifestToken, manifestPid := "", 0;
      if disk.Some? {
        manifestToken := TrimSpace(disk.value.token);
        if disk.value.pid > 0 && p.manifestPidAlive {
          manifestPid := disk.value.pid;
        }
      }
      port := managed;
      if manifestToken != "" {
        token := manifestToken;
      }
      if manifestPid > 0 {
        pid := manifestPid;
      }
    }

    method EnsurePortFree(managed: int, p: Probes, ghost before: seq<Effect>)
      returns (r: Option<Result>, ghost log: seq<Effect>)
      modifies this
      ensures Progress(View(), log, r) == TryOccupant(old(View()), before, managed, p)
    {
      hide TrimSpace, AuthOk, IsReservedOpsPort, AdoptOccupant;
      log := before;
      r := None;
      if IsReservedOpsPort(managed) {
        ClearManifest();
        return Some(Failed(PortReserved)), log;
      }
      if p.ready3 {
        AdoptFromManifest(managed, p);
        if token != "" {
          var ok := AuthOk(managed, token, p.accepts3);
          log := log + [AuthProbe(Occupant, managed, token, ok)];
          if ok {
            if pid <= 0 && p.listener > 0 {
              pid := p.listener;
            }
            PublishManifestLocked(managed, pid, p.written3);
            log := log + [Published(Manifest(token, managed, pid))];
            return Some(Healthy(pid, managed)), log;
          }
        }
        if !p.cleared3 {
          ClearManifest();
          return Some(Failed(StillOccupied)), log;
        }
        port := 0;
        pid := 0;
        token := "";
        log := log + [DriftReplaced];
      } else if p.zombie {
        if !p.cleared4 {
          ClearManifest();
          return Some(Failed(ZombieUncleared)), log;
        }
      }
    }

    /** Stops a child that never became ready and withdraws the manifest. */
    method AbandonChild(child: int)
      modifies this
      ensures View() == Abandon(old(View()), child)
    {
      cmd := true;
      pid := child;
      StopLocked();
      ClearManifest();
    }

    method SpawnServe(managed: int, p: Probes, ghost before: seq<Effect>)
      returns (r: Result, ghost log: seq<Effect>)
      modifies this
      ensures Progress(View(), log, Some(r)) == Spawn(old(View()), before, managed, p)
    {
      hide TrimSpace, AuthOk;
      log := before;
      var preferred := TrimSpace(token);
      if preferred == "" && disk.Some? {
        preferred := TrimSpace(disk.value.token);
      }
      if !p.canBuild || (preferred == "" && p.minted == None) {
        ClearManifest();
        return Failed(BuildFailed), log;
      }
      var serveToken := if preferred != "" then preferred else p.minted.value;
      if !p.pipeOk {
        return Failed(PipeFailed), log;
      }
      if !p.startOk {
        ClearManifest();
        return Failed(StartFailed), log;
      }
      job := p.jobOk;
      r, log := SettleChild(managed, serveToken, p, log + [Launched(serveToken)]);
    }

    method SettleChild(managed: int, serveToken: string, p: Probes, ghost before: seq<Effect>)
      returns (r: Result, ghost log: seq<Effect>)
      modifies this
      ensures Progress(View(), log, Some(r)) == Settle(old(View()), before, managed, serveToken, p)
    {
      log := before;
      if !p.readyInTime {
        if !p.childAlive {
          AbandonChild(p.newPid);
          return Failed(ExitedEarly), log;
        }
        if !p.readyLate {
          AbandonChild(p.newPid);
          return Failed(NeverReady), log;
        }
      }
      var ok := AuthOk(managed, serveToken, p.accepts5);
      log := log + [AuthProbe(AfterSpawn, managed, serveToken, ok)];
      cmd := true;
      pid := p.newPid;
      port := managed;
      token := serveToken;
      if !ok {
        AbandonChild(p.newPid);
        token := "";
        return Failed(AuthRefused), log;
      }
      PublishManifestLocked(managed, pid, p.written5);
      log := log + [Published(Manifest(token, managed, pid))];
      return Healthy(pid, managed), log;
    }

    method EnsureHealthy(p: Probes) returns (r: Result, ghost log: seq<Effect>)
      modifies this
      ensures Progress(View(), log, Some(r)) == Ensure(cfg, old(View()), p)
    {
      log := [];
      if !cfg.rootConfigured {
        return Failed(RootNotConfigured), log;
      }
      var s: Option<Result>;
      s, log := EnsureInMemory(p);
      if s.Some? {
        return s.value, log;
      }
      s, log := EnsureOwnChild(p, log);
      if s.Some? {
        return s.value, log;
      }
      s, log := EnsurePortFree(cfg.Port(), p, log);
      if s.Some? {
        return s.value, log;
      }
      r, log := SpawnServe(cfg.Port(), p, log);
    }

    method NotifyDesktop(onPort: int, minted: Option<string>, written: bool)
      returns (ok: bool, ghost log: seq<Effect>)
      modifies this
      ensures (View(), log) == Notify(old(View()), onPort, minted, written)
      ensures ok ==> disk == Some(Manifest(token, port, pid))
    {
      if token == "" {
        if minted == None {
          return false, [];
        }
        token := minted.value;
      }
      if onPort > 0 {
        port := onPort;
      }
      PublishManifestLocked(port, pid, written);
      return written, [Published(Manifest(token, port, pid))];
    }
  }
}
