/** EnsureHealthy as one flat decision table over what is held before the call and the answers of the
    environment, stated through none of the stages. */
module BackendTable {
  import opened Prelude
  import opened Text
  import opened Backend
  import opened BackendCalls

  predicate Reserved(port: int) {
    || port == 8080 || port == 8081 || port == 8646 || port == 8765
    || port == 8787 || port == 9120 || port == 9920 || port == 18794
  }

  function Managed(cfg: Config): int {
    if cfg.managedPort > 0 then cfg.managedPort else 9119
  }

  /** The manifest's token, blank if it names none. */
  function OnDisk(b: Back): string {
    if b.disk.Some? then TrimSpace(b.disk.value.token) else ""
  }

  /** The manifest's token where there is one, else the one in memory. */
  function Adopted(b: Back): string {
    if OnDisk(b) != "" then OnDisk(b) else b.token
  }

  predicate Usable(token: string) {
    TrimSpace(token) != ""
  }

  /** The serve in memory answers, live and ready, and its process, if known, is alive. */
  predicate MemoryReady(b: Back, p: Probes) {
    b.port > 0 && (b.pid <= 0 || p.alive1) && !Reserved(b.port) && p.live1 && p.ready1
  }

  predicate MemoryServes(b: Back, p: Probes) {
    MemoryReady(b, p) && Usable(Adopted(b)) && p.accepts1
  }

  predicate ChildServes(b: Back, p: Probes) {
    !MemoryReady(b, p) && b.cmd && b.port > 0 && p.alive2 && p.ready2 && Usable(b.token) && p.accepts2
  }

  /** The token in memory once the early checks are over. */
  function Remaining(b: Back, p: Probes): string {
    if MemoryReady(b, p) then Adopted(b) else b.token
  }

  predicate OccupantServes(b: Back, p: Probes) {
    p.ready3 && Usable(Adopted(b)) && p.accepts3
  }

  /** The pid the occupant is published under: the manifest's if alive, else a listener's. */
  function OccupantPid(b: Back, p: Probes): int {
    if b.disk.Some? && b.disk.value.pid > 0 && p.manifestPidAlive then b.disk.value.pid
    else if p.listener > 0 then p.listener else 0
  }

  /** The token a spawn is given: the one in memory unless a drifted occupant took it along, else the
      manifest's, else a fresh one. */
  function SpawnToken(b: Back, p: Probes): Option<string> {
    if !p.ready3 && Usable(Remaining(b, p)) then Some(TrimSpace(Remaining(b, p)))
    else if OnDisk(b) != "" then Some(OnDisk(b))
    else p.minted
  }

  predicate ComesUp(p: Probes) {
    p.startOk && (p.readyInTime || (p.childAlive && p.readyLate))
  }

  function Written(b: Back, written: bool, token: string, port: int, pid: int): Option<Manifest> {
    if written then Some(Manifest(token, port, pid)) else b.disk
  }

  /** The result of a call, and what it leaves behind. */
  function Table(cfg: Config, b: Back, p: Probes): (Result, Back) {
    var managed := Managed(cfg);
    var bare := Back(false, 0, 0, if p.ready3 then "" else Remaining(b, p), false, b.disk);
    if !cfg.rootConfigured then (Failed(RootNotConfigured), b)
    else if MemoryServes(b, p) then
      (Healthy(b.pid, b.port),
       b.(token := Adopted(b), disk := Written(b, p.written1, Adopted(b), b.port, b.pid)))
    else if ChildServes(b, p) then
      (Healthy(b.pid, b.port), b.(disk := Written(b, p.written2, b.token, b.port, b.pid)))
    else if Reserved(managed) then
      (Failed(PortReserved), Back(false, 0, 0, Remaining(b, p), false, None))
    else if OccupantServes(b, p) then
      var pid := OccupantPid(b, p);
      (Healthy(pid, managed),
       Back(false, pid, managed, Adopted(b), false, Written(b, p.written3, Adopted(b), managed, pid)))
    else if p.ready3 && !p.cleared3 then
      (Failed(StillOccupied),
       Back(false, if b.disk.Some? && b.disk.value.pid > 0 && p.manifestPidAlive then b.disk.value.pid else 0,
            managed, Adopted(b), false, None))
    else if !p.ready3 && p.zombie && !p.cleared4 then (Failed(ZombieUncleared), bare.(disk := None))
    else if !p.canBuild || SpawnToken(b, p) == None then (Failed(BuildFailed), bare.(disk := None))
    else if !p.pipeOk then (Failed(PipeFailed), bare)
    else if !p.startOk then (Failed(StartFailed), bare.(disk := None))
    else if !p.readyInTime && !p.childAlive then (Failed(ExitedEarly), bare.(disk := None))
    else if !ComesUp(p) then (Failed(NeverReady), bare.(disk := None))
    else
      var token := SpawnToken(b, p).value;
      if !Usable(token) || !p.accepts5 then (Failed(AuthRefused), bare.(token := "", disk := None))
      else
        (Healthy(p.newPid, managed),
         Back(true, p.newPid, managed, token, p.jobOk, Written(b, p.written5, token, managed, p.newPid)))
  }

  /* ---- the stages against the table ---- */

  lemma InMemoryRow(b: Back, p: Probes)
    ensures var r := TryInMemory(b, p);
            if MemoryServes(b, p) then
              && r.result == Some(Healthy(b.pid, b.port))
              && r.back == b.(token := Adopted(b), disk := Written(b, p.written1, Adopted(b), b.port, b.pid))
            else
              && r.result == None
              && r.back == if MemoryReady(b, p) then Back(false, 0, 0, Adopted(b), false, b.disk) else b
  {
    hide TrimSpace;
    EmptyTrims();
  }

  lemma ChildRow(b: Back, log: seq<Effect>, p: Probes)
    ensures var r := TryOwnChild(b, log, p);
            if b.cmd && b.port > 0 && p.alive2 && p.ready2 && Usable(b.token) && p.accepts2 then
              && r.result == Some(Healthy(b.pid, b.port))
              && r.back == b.(disk := Written(b, p.written2, b.token, b.port, b.pid))
            else
              r.result == None && r.back == Back(false, 0, 0, b.token, false, b.disk)
  {
    hide TrimSpace;
    EmptyTrims();
  }

  lemma OccupantRow(b: Back, log: seq<Effect>, port: int, p: Probes)
    requires b.pid == 0 && b.port == 0 && !b.cmd && !b.job && port > 0
    ensures var r := TryOccupant(b, log, port, p);
            if Reserved(port) then
              r.result == Some(Failed(PortReserved)) && r.back == b.(disk := None)
            else if OccupantServes(b, p) then
              var pid := OccupantPid(b, p);
              && r.result == Some(Healthy(pid, port))
              && r.back == Back(false, pid, port, Adopted(b), false, Written(b, p.written3, Adopted(b), port, pid))
            else if p.ready3 && !p.cleared3 then
              && r.result == Some(Failed(StillOccupied))
              && r.back == Back(false, if b.disk.Some? && b.disk.value.pid > 0 && p.manifestPidAlive
                                       then b.disk.value.pid else 0, port, Adopted(b), false, None)
            else if !p.ready3 && p.zombie && !p.cleared4 then
              r.result == Some(Failed(ZombieUncleared)) && r.back == b.(disk := None)
            else
              r.result == None && r.back == if p.ready3 then b.(token := "") else b
  {
    hide TrimSpace;
    EmptyTrims();
  }

  lemma SpawnRow(b: Back, log: seq<Effect>, port: int, p: Probes)
    requires b.pid == 0 && b.port == 0 && !b.cmd && !b.job && port > 0
    ensures var r := Spawn(b, log, port, p);
            var token := if Usable(b.token) then Some(TrimSpace(b.token))
                         else if OnDisk(b) != "" then Some(OnDisk(b)) else p.minted;
            (r.result.value, r.back) ==
              if !p.canBuild || token == None then (Failed(BuildFailed), b.(disk := None))
              else if !p.pipeOk then (Failed(PipeFailed), b)
              else if !p.startOk then (Failed(StartFailed), b.(disk := None))
              else if !p.readyInTime && !p.childAlive then (Failed(ExitedEarly), b.(disk := None))
              else if !ComesUp(p) then (Failed(NeverReady), b.(disk := None))
              else if !Usable(token.value) || !p.accepts5 then (Failed(AuthRefused), b.(token := "", disk := None))
              else
                (Healthy(p.newPid, port),
                 Back(true, p.newPid, port, token.value, p.jobOk,
                      Written(b, p.written5, token.value, port, p.newPid)))
  {
    hide TrimSpace;
    EmptyTrims();
  }

  lemma ManagedPort(cfg: Config)
    ensures cfg.Port() == Managed(cfg) > 0
  {
  }

  /** What the early checks leave when nobody serves. */
  function Bare(b: Back, p: Probes): Back {
    Back(false, 0, 0, Remaining(b, p), false, b.disk)
  }

  lemma TableOfBare(cfg: Config, b: Back, p: Probes)
    requires cfg.rootConfigured && !MemoryServes(b, p) && !ChildServes(b, p)
    ensures Table(cfg, b, p) == Table(cfg, Bare(b, p), p)
  {
    hide TrimSpace, Reserved, Usable;
  }

  lemma PortIs(cfg: Config, b: Back, log: seq<Effect>, p: Probes)
    requires cfg.rootConfigured && b.pid == 0 && b.port == 0 && !b.cmd && !b.job
    ensures var s3 := TryOccupant(b, log, Managed(cfg), p);
            var last := if s3.result.Some? then s3 else Spawn(s3.back, s3.log, Managed(cfg), p);
            (last.result.value, last.back) == Table(cfg, b, p)
  {
    hide TryOccupant, Spawn, TrimSpace, Reserved;
    EmptyTrims();
    ManagedPort(cfg);
    var s3 := TryOccupant(b, log, Managed(cfg), p);
    OccupantRow(b, log, Managed(cfg), p);
    if s3.result.None? {
      SpawnRow(s3.back, s3.log, Managed(cfg), p);
    }
  }

  /** Every call, on every state and for all answers, comes out as the table says. */
  lemma EnsureIs(cfg: Config, b: Back, p: Probes)
    ensures (Ensure(cfg, b, p).result.value, Ensure(cfg, b, p).back) == Table(cfg, b, p)
  {
    hide TryInMemory, TryOwnChild, TryOccupant, Spawn, TrimSpace, Reserved, OccupantServes, SpawnToken, ComesUp;
    ManagedPort(cfg);
    var s1 := TryInMemory(b, p);
    InMemoryRow(b, p);
    if cfg.rootConfigured && !MemoryServes(b, p) {
      var s2 := TryOwnChild(s1.back, s1.log, p);
      ChildRow(s1.back, s1.log, p);
      if !ChildServes(b, p) {
        TableOfBare(cfg, b, p);
        PortIs(cfg, s2.back, s2.log, p);
      }
    }
  }

  /* ---- what success means ---- */

  /** A call can come to a spawn: nobody before it serves, and the managed port is free or freed. */
  predicate Spawns(cfg: Config, b: Back, p: Probes) {
    && !MemoryServes(b, p) && !ChildServes(b, p) && !Reserved(Managed(cfg)) && !OccupantServes(b, p)
    && (if p.ready3 then p.cleared3 else p.zombie ==> p.cleared4)
  }

  predicate SpawnServes(cfg: Config, b: Back, p: Probes) {
    && Spawns(cfg, b, p)
    && p.canBuild && SpawnToken(b, p).Some? && p.pipeOk && ComesUp(p)
    && Usable(SpawnToken(b, p).value) && p.accepts5
  }

  /** A call succeeds exactly when some serve answered ready in that very call and accepted the token: the one
      in memory, our own child, the managed port's occupant, or a fresh one. */
  lemma SucceedsIff(cfg: Config, b: Back, p: Probes)
    ensures Ensure(cfg, b, p).result.value.Healthy? <==>
              && cfg.rootConfigured
              && (|| MemoryServes(b, p) || ChildServes(b, p)
                  || (!Reserved(Managed(cfg)) && OccupantServes(b, p))
                  || SpawnServes(cfg, b, p))
  {
    hide Ensure, TrimSpace, Reserved;
    EnsureIs(cfg, b, p);
  }

  /** The serve that a successful call took answered ready where its token was accepted. */
  predicate Ready(place: Place, b: Back, p: Probes) {
    match place
    case InMemory => p.live1 && p.ready1 && (b.pid <= 0 || p.alive1)
    case OwnChild => p.alive2 && p.ready2
    case Occupant => p.ready3
    case AfterSpawn => p.startOk && (p.readyInTime || (p.childAlive && p.readyLate))
  }

  /** So every manifest a call publishes points at a serve that was ready in that call. */
  lemma SuccessTookAReadyServe(cfg: Config, b: Back, p: Probes)
    requires Ensure(cfg, b, p).result.value.Healthy?
    ensures var log := Ensure(cfg, b, p).log;
            |log| >= 2 && log[|log| - 2].AuthProbe? && log[|log| - 2].accepted && Ready(log[|log| - 2].place, b, p)
  {
    hide TryInMemory, TryOwnChild, TryOccupant, Spawn, TrimSpace, Reserved, IsReservedOpsPort;
    var s1 := TryInMemory(b, p);
    InMemoryTook(b, p);
    InMemoryRow(b, p);
    if s1.result.None? {
      var s2 := TryOwnChild(s1.back, s1.log, p);
      ChildTook(s1.back, s1.log, p);
      if s2.result.None? {
        var s3 := TryOccupant(s2.back, s2.log, cfg.Port(), p);
        OccupantTook(s2.back, s2.log, cfg.Port(), p);
        if s3.result.None? {
          SpawnTook(s3.back, s3.log, cfg.Port(), p);
        }
      }
    }
  }

  /** The last effect but one is an accepted probe at this place. */
  predicate TookAt(log: seq<Effect>, place: Place) {
    |log| >= 2 && log[|log| - 2].AuthProbe? && log[|log| - 2].accepted && log[|log| - 2].place == place
  }

  lemma InMemoryTook(b: Back, p: Probes)
    ensures var r := TryInMemory(b, p);
            r.result.Some? ==> TookAt(r.log, InMemory) && Ready(InMemory, b, p)
  {
    hide TrimSpace;
  }

  lemma ChildTook(b: Back, log: seq<Effect>, p: Probes)
    ensures var r := TryOwnChild(b, log, p);
            r.result.Some? ==> TookAt(r.log, OwnChild) && p.alive2 && p.ready2
  {
    hide TrimSpace;
  }

  lemma OccupantTook(b: Back, log: seq<Effect>, port: int, p: Probes)
    ensures var r := TryOccupant(b, log, port, p);
            r.result.Some? && r.result.value.Healthy? ==> TookAt(r.log, Occupant) && p.ready3
  {
    hide TrimSpace, IsReservedOpsPort;
  }

  lemma SpawnTook(b: Back, log: seq<Effect>, port: int, p: Probes)
    ensures var r := Spawn(b, log, port, p);
            r.result.value.Healthy? ==> TookAt(r.log, AfterSpawn) && Ready(AfterSpawn, b, p)
  {
    hide TrimSpace;
  }

  /* ---- stopping and notifying ---- */

  /** A stop forgets everything but the token and the manifest; a notification publishes the token in memory,
      or a fresh one only where there is none, on the given port if it is one. */
  lemma StopAndNotifyAre(b: Back, port: int, minted: Option<string>, written: bool)
    ensures b.Stop() == Back(false, 0, 0, b.token, false, b.disk)
    ensures var token := if b.token != "" then Some(b.token) else minted;
            var at := if port > 0 then port else b.port;
            Notify(b, port, minted, written) ==
              if token == None then (b, [])
              else
                (Back(b.cmd, b.pid, at, token.value, b.job, Written(b, written, token.value, at, b.pid)),
                 [Published(Manifest(token.value, at, b.pid))])
  {
  }
}
