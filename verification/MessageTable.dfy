/** HandleIPCMessage as one flat decision table over the message, the caller's role and the state, and the
    commands it can run, stated through none of the handlers. */
module MessageTable {
  import opened Prelude
  import opened Text
  import opened Watchdog
  import opened IpcDispatch
  import H = Heartbeat
  import A = Anomaly
  import AN = AnomalyNames
  import N = Nonce
  import R = RecoveryPolicy
  import B = Backend

  /* ---- names ---- */

  function NameOf(c: Command): string {
    match c
    case StartDesktop => "start_desktop"
    case StartBackend => "start_backend"
    case StopBackend => "stop_backend"
    case WarmRestart => "warm_restart"
    case StopDesktop => "stop_desktop"
  }

  /** The allowlist is exactly the names of the commands, and no name stands for two. */
  lemma ParsesItsNamesOnly(s: string, c: Command)
    ensures ParseCommand(s) == Some(c) <==> s == NameOf(c)
    ensures ParseCommand(NameOf(c)) == Some(c)
  {
  }

  lemma RefusesOtherNames(s: string)
    ensures ParseCommand(s) == None <==> forall c :: s != NameOf(c)
  {
    if ParseCommand(s) == None {
      forall c ensures s != NameOf(c) {
        ParsesItsNamesOnly(s, c);
      }
    } else {
      ParsesItsNamesOnly(s, ParseCommand(s).value);
    }
  }

  /** A requester that speaks for one of the two services. */
  predicate SpeaksForService(requester: string) {
    var r := ToLower(TrimSpace(requester));
    r == "desktop" || r == "hermes-desktop" || r == "backend" || r == "hermes-backend" || r == "serve"
  }

  predicate RendererCode(code: string) {
    "renderer_" <= ToLower(TrimSpace(code))
  }

  /* ---- commands ---- */

  /** The commands other than a warm restart: each lists itself, gives its service a new epoch, and does its
      one thing; only a start can fail. */
  lemma CommandIs(s: State, c: Command, e: CommandEnv)
    requires c != WarmRestart
    ensures var s' := s.Run(c, e);
            var r := B.Ensure(s.cfg.backend, s.back, e.probes);
            match c
            case StartDesktop =>
              s' == s.(out := s.out + [Issued(c)], hb := s.hb.Bump("hermes-desktop")) && s.RunOk(c, e) == e.launched
            case StopDesktop =>
              s' == s.(out := s.out + [Issued(c)], hb := s.hb.Bump("hermes-desktop")) && s.RunOk(c, e)
            case StopBackend =>
              && s' == s.(out := s.out + [Issued(c), BackendStopped], hb := s.hb.Bump("hermes-backend"),
                          back := B.Back(false, 0, 0, s.back.token, false, s.back.disk))
              && s.RunOk(c, e)
            case StartBackend =>
              && s' == s.(out := s.out + [Issued(c), Ensured(e.probes)], hb := s.hb.Bump("hermes-backend"),
                          back := r.back)
              && (s.RunOk(c, e) <==> r.result.value.Healthy?)
            case WarmRestart => true
  {
    hide B.Ensure, H.Registry.Bump;
  }

  /* ---- messages ---- */

  /** The nonces still remembered. */
  function Remembered(n: N.Nonces, now: Time): map<string, Time> {
    map k | k in n.seen && now - n.seen[k] <= n.ttl :: n.seen[k]
  }

  function CommandAnswer(s: State, m: Envelope, r: CommandRequest, role: string, now: Time, e: CommandEnv)
    : (State, Reply)
  {
    var cmd := ParseCommand(TrimSpace(r.command));
    var nonce := TrimSpace(m.nonce);
    var swept := s.nonces.(seen := Remembered(s.nonces, now));
    if cmd == None then (s, NotAllowlisted)
    else if role == "service" || SpeaksForService(r.requester) then (s, ReportOnly)
    else if role != "admin" && role != "operator" then (s, Unauthorized)
    else if nonce == "" then (s, NonceRefused(N.EmptyNonce))
    else if nonce in s.nonces.seen && now - s.nonces.seen[nonce] <= s.nonces.ttl then
      (s.(nonces := swept), NonceRefused(N.ReplayedNonce))
    else
      var go := s.(nonces := swept.(seen := swept.seen[nonce := now]),
                   out := s.out + [Executed(nonce, now, cmd.value)]);
      (go.Run(cmd.value, e), if go.RunOk(cmd.value, e) then Done(cmd.value) else CommandFailed(cmd.value))
  }

  function Answer(before: State, m: Envelope, role: string, now: Time, e: CommandEnv): (State, Reply) {
    var s := before.(out := []);
    var kind := ToLower(TrimSpace(m.messageType));
    if m.protocolVersion != 1 || (kind != "heartbeat" && kind != "anomaly_report" && kind != "command_request") then
      (s, Unsupported)
    else if kind == "heartbeat" then
      if m.body.heartbeat == None then (s, Malformed)
      else
        var hb := H.Envelope(1, "heartbeat", m.instanceId, m.epoch, m.body.heartbeat.value);
        (s.(hb := s.hb.Ingest(hb, now), out := [HeartbeatReceived(hb, now)]),
         if s.hb.Verdict(hb) == None then Recorded else LeaseRefused(s.hb.Verdict(hb).value))
    else if kind == "anomaly_report" then
      if m.body.anomaly == None then (s, Malformed)
      else
        var p := m.body.anomaly.value;
        if TrimSpace(p.code) == "" || TrimSpace(p.service) == "" then (s, Malformed)
        else
          (s.(anomalies := s.anomalies.Ingest(p, now), recovery := R.Recovery(RendererCode(p.code), TrimSpace(p.code))),
           if s.anomalies.Gc(now).NewRecord(p, now).merged then Merged else Recorded)
    else if m.body.command == None then (s, Malformed)
    else CommandAnswer(s, m, m.body.command.value, role, now, e)
  }

  lemma RequesterIs(requester: string)
    ensures ReportOnlyRequester(requester) <==> SpeaksForService(requester)
  {
    hide ToLower, TrimSpace;
  }

  lemma CommandAnswerIs(s: State, m: Envelope, r: CommandRequest, role: string, now: Time, e: CommandEnv)
    ensures HandleCommand(s, m, r, role, now, e) == CommandAnswer(s, m, r, role, now, e)
  {
    hide ToLower, TrimSpace, ParseCommand, State.Run, State.RunOk, ReportOnlyRequester, SpeaksForService;
    RequesterIs(r.requester);
    assert s.nonces.Live(now) == Remembered(s.nonces, now);
  }

  lemma AnomalyAnswerIs(s: State, p: A.Report, now: Time)
    ensures HandleAnomaly(s, p, now) ==
              if TrimSpace(p.code) == "" || TrimSpace(p.service) == "" then (s, Malformed)
              else
                (s.(anomalies := s.anomalies.Ingest(p, now),
                    recovery := R.Recovery(RendererCode(p.code), TrimSpace(p.code))),
                 if s.anomalies.Gc(now).NewRecord(p, now).merged then Merged else Recorded)
  {
    hide ToLower, TrimSpace, A.Anomalies.Ingest, R.IsRendererOnlyAnomaly, A.Anomalies.Gc;
    R.NamedCodesCarryThePrefix(TrimSpace(p.code));
    TrimSpaceTrims(p.code);
    TrimSpaceFixes(TrimSpace(p.code));
    AN.ReportIs(p);
    RecordKeepsCode(s.anomalies.Gc(now), p, now);
  }

  lemma RecordKeepsCode(r: A.Anomalies, p: A.Report, now: Time)
    ensures r.NewRecord(p, now).code == p.Code()
  {
    hide TrimSpace, ToLower, H.NormalizeService, A.Report.Code, A.Report.MatchCode;
  }

  /** Every message, from whomever and in whatever state, is answered, and acted upon, as the table says. */
  lemma MessageIs(s: State, m: Envelope, role: string, now: Time, e: CommandEnv)
    ensures Handle(s, m, role, now, e) == Answer(s, m, role, now, e)
  {
    hide ToLower, TrimSpace, HandleCommand, HandleAnomaly, CommandAnswer, A.Anomalies.Ingest, A.Anomalies.Gc,
         A.Anomalies.NewRecord, H.Registry.Ingest, H.Registry.Verdict, RendererCode;
    var s0 := s.(out := []);
    if m.body.heartbeat.Some? {
      var received := HeartbeatReceived(HeartbeatOf(m), now);
      assert [] + [received] == [received];
    }
    if m.body.command.Some? {
      CommandAnswerIs(s0, m, m.body.command.value, role, now, e);
    }
    if m.body.anomaly.Some? {
      AnomalyAnswerIs(s0, m.body.anomaly.value, now);
    }
  }
}
