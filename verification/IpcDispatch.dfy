/** Dispatch of control-plane messages (ipc_dispatch.go): heartbeats and anomaly reports are recorded,
    command requests pass the allowlist, the role check and the nonce cache before anything runs. */
module IpcDispatch {
  import opened Prelude
  import opened Text
  import opened Watchdog
  import opened CommandFrame
  import H = Heartbeat
  import A = Anomaly
  import N = Nonce

  const PROTOCOL_VERSION := 1

  datatype CommandRequest = CommandRequest(command: string, requester: string)

  /** The payload under each reading of its JSON; None where it does not decode that way. */
  datatype Body = Body(heartbeat: Option<H.Payload>, anomaly: Option<A.Report>, command: Option<CommandRequest>)

  datatype Envelope = Envelope(
    protocolVersion: int, messageType: string, instanceId: string, epoch: int, nonce: string, body: Body)
  {
    function Type(): string {
      ToLower(TrimSpace(messageType))
    }
  }

  datatype Reply =
    | Recorded
    | Merged
    | Done(cmd: Command)
    | Unsupported
    | Malformed
    | LeaseRefused(why: H.IngestError)
    | NotAllowlisted
    | ReportOnly
    | Unauthorized
    | NonceRefused(replay: N.NonceError)
    | CommandFailed(cmd: Command)
  {
    predicate Accepted() {
      Recorded? || Merged? || Done?
    }
  }

  /** Desktop and Backend, under any of their names, may only report. */
  predicate ReportOnlyRequester(requester: string) {
    ToLower(TrimSpace(requester)) in {"desktop", "hermes-desktop", "backend", "hermes-backend", "serve"}
  }

  function HeartbeatOf(m: Envelope): H.Envelope
    requires m.body.heartbeat.Some?
  {
    H.Envelope(m.protocolVersion, "heartbeat", m.instanceId, m.epoch, m.body.heartbeat.value)
  }

  /** Why a command request is turned away before its nonce is even looked at. */
  function Turned(r: CommandRequest, role: string): Option<Reply> {
    if ParseCommand(TrimSpace(r.command)).None? then Some(NotAllowlisted)
    else if role == "service" || ReportOnlyRequester(r.requester) then Some(ReportOnly)
    else if role != "admin" && role != "operator" then Some(Unauthorized)
    else None
  }

  function HandleCommand(s: State, m: Envelope, r: CommandRequest, role: string, now: Time, e: CommandEnv)
    : (State, Reply)
  {
    var turned := Turned(r, role);
    if turned.Some? then (s, turned.value)
    else
      var verdict := s.nonces.Verdict(m.nonce, now);
      var s1 := s.(nonces := s.nonces.Accept(m.nonce, now));
      if verdict.Some? then (s1, NonceRefused(verdict.value))
      else
        var cmd := ParseCommand(TrimSpace(r.command)).value;
        var s2 := s1.Emit(Executed(TrimSpace(m.nonce), now, cmd));
        (s2.Run(cmd, e), if s2.RunOk(cmd, e) then Done(cmd) else CommandFailed(cmd))
  }

  function HandleAnomaly(s: State, p: A.Report, now: Time): (State, Reply) {
    if TrimSpace(p.code) == "" || TrimSpace(p.service) == "" then (s, Malformed)
    else
      var rec := s.anomalies.Gc(now).NewRecord(p, now);
      (s.(anomalies := s.anomalies.Ingest(p, now), recovery := s.recovery.Observe(rec.code)),
       if rec.merged then Merged else Recorded)
  }

  function HandleHeartbeat(s: State, hb: H.Envelope, now: Time): (State, Reply) {
    (s.Emit(HeartbeatReceived(hb, now)).(hb := s.hb.Ingest(hb, now)),
     if s.hb.Verdict(hb).Some? then LeaseRefused(s.hb.Verdict(hb).value) else Recorded)
  }

  function Handle(before: State, m: Envelope, role: string, now: Time, e: CommandEnv): (State, Reply) {
    var s := before.(out := []);
    if m.protocolVersion != PROTOCOL_VERSION then (s, Unsupported)
    else if m.Type() == "heartbeat" then
      if m.body.heartbeat.None? then (s, Malformed) else HandleHeartbeat(s, HeartbeatOf(m), now)
    else if m.Type() == "anomaly_report" then
      if m.body.anomaly.None? then (s, Malformed) else HandleAnomaly(s, m.body.anomaly.value, now)
    else if m.Type() == "command_request" then
      if m.body.command.None? then (s, Malformed)
      else HandleCommand(s, m, m.body.command.value, role, now, e)
    else (s, Unsupported)
  }

  lemma CommandExecutesIff(s: State, m: Envelope, r: CommandRequest, role: string, now: Time, e: CommandEnv)
    requires s.out == []
    ensures (exists n, at, c :: Executed(n, at, c) in HandleCommand(s, m, r, role, now, e).0.out) <==>
              Turned(r, role).None? && s.nonces.Verdict(m.nonce, now).None?
    ensures forall c :: Issued(c) in HandleCommand(s, m, r, role, now, e).0.out ==>
              && Some(c) == ParseCommand(TrimSpace(r.command))
              && Executed(TrimSpace(m.nonce), now, c) in HandleCommand(s, m, r, role, now, e).0.out
  {
    hide TrimSpace, ToLower, State.Run, State.RunOk, N.Nonces.Accept, N.Nonces.Verdict, ParseCommand, Turned;
    TurnedOnlyWithoutCommand(r, role);
    if Turned(r, role).None? && s.nonces.Verdict(m.nonce, now).None? {
      var cmd := ParseCommand(TrimSpace(r.command)).value;
      var s1 := s.(nonces := s.nonces.Accept(m.nonce, now)).Emit(Executed(TrimSpace(m.nonce), now, cmd));
      assert s1.out == [Executed(TrimSpace(m.nonce), now, cmd)];
      RunFrame(s1, cmd, e);
      assert Executed(TrimSpace(m.nonce), now, cmd) in s1.out;
    }
  }

  lemma TurnedOnlyWithoutCommand(r: CommandRequest, role: string)
    ensures Turned(r, role).None? <==>
              && ParseCommand(TrimSpace(r.command)).Some?
              && (role == "admin" || role == "operator") && !ReportOnlyRequester(r.requester)
  {
    hide TrimSpace, ToLower, ParseCommand, ReportOnlyRequester;
  }

  /** A message runs a command exactly when it is a well-formed request for an allowlisted command, from
      an admin or operator who does not speak for Desktop or Backend, under a nonce the cache accepts.
      Heartbeats and reports never run anything, whatever they suggest. */
  lemma ExecutesIff(s: State, m: Envelope, role: string, now: Time, e: CommandEnv)
    ensures (exists n, at, c :: Executed(n, at, c) in Handle(s, m, role, now, e).0.out) <==>
              && m.protocolVersion == PROTOCOL_VERSION && m.Type() == "command_request"
              && m.body.command.Some?
              && ParseCommand(TrimSpace(m.body.command.value.command)).Some?
              && (role == "admin" || role == "operator")
              && !ReportOnlyRequester(m.body.command.value.requester)
              && s.nonces.Verdict(m.nonce, now).None?
    ensures forall c :: Issued(c) in Handle(s, m, role, now, e).0.out ==>
              && m.body.command.Some? && Some(c) == ParseCommand(TrimSpace(m.body.command.value.command))
              && Executed(TrimSpace(m.nonce), now, c) in Handle(s, m, role, now, e).0.out
  {
    hide TrimSpace, ToLower, ParseCommand, ReportOnlyRequester, Turned, HandleCommand, N.Nonces.Verdict;
    if m.body.command.Some? {
      CommandExecutesIff(s.(out := []), m, m.body.command.value, role, now, e);
      TurnedOnlyWithoutCommand(m.body.command.value, role);
    }
  }
}
