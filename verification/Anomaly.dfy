/** Merging of simultaneous Desktop and Backend reports (ipc.go's AnomalyRegistry). */
module Anomaly {
  import opened Prelude
  import opened Text
  import opened Heartbeat

  datatype Report = Report(service: string, severity: string, code: string, detail: string)
  {
    function Service(): string {
      NormalizeService(service)
    }

    function Code(): string {
      if TrimSpace(code) == "" then "unspecified" else TrimSpace(code)
    }

    /** The lower-case code reports are matched on. */
    function MatchCode(): string {
      TrimSpace(ToLower(Code()))
    }

    function Severity(): string {
      var s := ToLower(TrimSpace(severity));
      if s == "" then "warn" else s
    }
  }

  datatype Record = Record(
    service: string, severity: string, code: string, detail: string,
    sources: set<string>, merged: bool, received: Time)

  function KeyOf(matchCode: string, service: string): string {
    matchCode + "|" + service
  }

  function AnomalyKey(code: string, service: string): string {
    KeyOf(TrimSpace(ToLower(code)), NormalizeService(service))
  }

  /** Only Desktop and Backend have a peer to merge with. */
  function Peer(service: string): Option<string> {
    if service == BACKEND then Some(DESKTOP)
    else if service == DESKTOP then Some(BACKEND)
    else None
  }

  datatype Anomalies = Anomalies(byKey: map<string, Record>, mergeWindow: Duration, retain: Duration)
  {
    function Gc(now: Time): Anomalies {
      this.(byKey := map k | k in byKey && now - byKey[k].received <= retain :: byKey[k])
    }

    /** The record under the key, if it is recent enough to merge with. */
    function Recent(key: string, now: Time): Option<Record> {
      if key in byKey && now - byKey[key].received <= mergeWindow then Some(byKey[key]) else None
    }

    function PeerHit(p: Report, now: Time): Option<Record> {
      match Peer(p.Service())
      case None => None
      case Some(peer) => Recent(KeyOf(p.MatchCode(), peer), now)
    }

    function NewRecord(p: Report, now: Time): Record {
      var peer := PeerHit(p, now);
      var prev := Recent(KeyOf(p.MatchCode(), p.Service()), now);
      var sources := {p.Service()}
                     + (if peer.Some? then {peer.value.service} else {})
                     + (if prev.Some? then prev.value.sources else {});
      var detail := TrimSpace(p.detail);
      Record(
        p.Service(), p.Severity(), p.Code(),
        if prev.Some? && prev.value.detail != "" && detail == "" then prev.value.detail else detail,
        sources,
        peer.Some? || (prev.Some? && (prev.value.merged || |sources| > 1)),
        now)
    }

    /** The peer's recent record, if there is one, is marked as merged. */
    function MarkPeer(p: Report, now: Time): Anomalies {
      var peer := PeerHit(p, now);
      if peer.Some? then
        this.(byKey := byKey[KeyOf(p.MatchCode(), Peer(p.Service()).value) :=
          peer.value.(merged := true, sources := peer.value.sources + {p.Service()})])
      else this
    }

    /** The registry after a report, apart from the initial garbage collection. */
    function Store(p: Report, now: Time): Anomalies {
      this.(byKey := MarkPeer(p, now).byKey[KeyOf(p.MatchCode(), p.Service()) := NewRecord(p, now)])
    }

    function Ingest(p: Report, now: Time): Anomalies {
      Gc(now).Store(p, now)
    }

    predicate IsFreshDual(r: Record, now: Time) {
      r.merged && |r.sources| >= 2 && now - r.received <= 2 * mergeWindow
    }

    ghost predicate HasMergedDual(now: Time) {
      exists k :: k in Gc(now).byKey && IsFreshDual(byKey[k], now)
    }
  }

  function NewAnomalies(mergeWindow: Duration): Anomalies {
    Anomalies(map[], if mergeWindow <= 0 then 5 * SECOND else mergeWindow, 10 * MINUTE)
  }

  lemma PeersDiffer(matchCode: string, service: string)
    requires Peer(service).Some?
    ensures Peer(service).value != service
    ensures KeyOf(matchCode, service) != KeyOf(matchCode, Peer(service).value)
  {
    var peer := Peer(service).value;
    assert BACKEND[7] == 'b' && DESKTOP[7] == 'd';
    var n := |matchCode| + 1;
    assert KeyOf(matchCode, service)[n + 7] == service[7];
    assert KeyOf(matchCode, peer)[n + 7] == peer[7];
  }

  lemma PeerKeyFacts(p: Report)
    requires Peer(p.Service()).Some?
    ensures AnomalyKey(p.Code(), Peer(p.Service()).value) == KeyOf(p.MatchCode(), Peer(p.Service()).value)
    ensures KeyOf(p.MatchCode(), p.Service()) != KeyOf(p.MatchCode(), Peer(p.Service()).value)
  {
    hide NormalizeService, TrimSpace, ToLower;
    NormalizeServiceIdempotent(p.service);
    PeersDiffer(p.MatchCode(), p.Service());
  }

  class AnomalyRegistry {
    var byKey: map<string, Record>
    const mergeWindow: Duration
    const retain: Duration

    ghost function View(): Anomalies
      reads this
    {
      Anomalies(byKey, mergeWindow, retain)
    }

    constructor (w: Duration)
      ensures View() == NewAnomalies(w)
    {
      byKey := map[];
      mergeWindow := if w <= 0 then 5 * SECOND else w;
      retain := 10 * MINUTE;
    }

    method CollectGarbage(now: Time)
      modifies this
      ensures View() == old(View()).Gc(now)
    {
      var rest := byKey.Keys;
      ghost var was := byKey;
      while rest != {}
        invariant rest <= was.Keys
        invariant byKey == map k | k in was && (k in rest || now - was[k].received <= retain) :: was[k]
        decreases rest
      {
        var k :| k in rest;
        if now - byKey[k].received > retain {
          byKey := byKey - {k};
        }
        rest := rest - {k};
      }
    }

    method Ingest(p: Report, now: Time) returns (rec: Record)
      modifies this
      ensures View() == old(View()).Ingest(p, now)
      ensures rec == old(View()).Gc(now).NewRecord(p, now)
    {
      CollectGarbage(now);
      var service := NormalizeService(p.service);
      var code := TrimSpace(p.code);
      if code == "" {
        code := "unspecified";
      }
      var severity := ToLower(TrimSpace(p.severity));
      if severity == "" {
        severity := "warn";
      }
      var base := Record(service, severity, code, TrimSpace(p.detail), {service}, false, now);
      NormalizeServiceIdempotent(p.service);
      rec := Merge(p, base, AnomalyKey(code, service), now);
    }

    /** Merges a new record with its peer's recent one, which is marked as merged too. */
    method MergePeer(ghost p: Report, base: Record, now: Time) returns (rec: Record)
      requires base.service == p.Service() && TrimSpace(ToLower(base.code)) == p.MatchCode() && base.code == p.Code()
      requires base.sources == {p.Service()} && !base.merged
      modifies this
      ensures View() == old(View()).MarkPeer(p, now)
      ensures var hit := old(View()).PeerHit(p, now);
              rec == if hit.Some? then base.(merged := true, sources := base.sources + {hit.value.service}) else base
    {
      hide NormalizeService, TrimSpace, ToLower, Peer, KeyOf, AnomalyKey, Report.Code, Report.MatchCode;
      rec := base;
      var peer := Peer(base.service);
      if peer.Some? {
        PeerKeyFacts(p);
        var peerKey := AnomalyKey(base.code, peer.value);
        if peerKey in byKey && now - byKey[peerKey].received <= mergeWindow {
          var other := byKey[peerKey];
          rec := rec.(merged := true, sources := rec.sources + {other.service});
          byKey := byKey[peerKey := other.(merged := true, sources := other.sources + {base.service})];
        }
      }
    }

    /** Merges a new record with its peer's and with its predecessor, marks the peer, and stores it. */
    method Merge(ghost p: Report, base: Record, key: string, now: Time) returns (rec: Record)
      requires base == Record(p.Service(), p.Severity(), p.Code(), TrimSpace(p.detail), {p.Service()}, false, now)
      requires key == KeyOf(p.MatchCode(), p.Service())
      modifies this
      ensures View() == old(View()).Store(p, now)
      ensures rec == old(View()).NewRecord(p, now)
    {
      hide NormalizeService, TrimSpace, ToLower, Peer, KeyOf, AnomalyKey, Report.Code;
      if Peer(p.Service()).Some? {
        PeerKeyFacts(p);
      }
      rec := MergePeer(p, base, now);
      if key in byKey && now - byKey[key].received <= mergeWindow {
        var prev := byKey[key];
        rec := rec.(sources := rec.sources + prev.sources);
        rec := rec.(merged := rec.merged || prev.merged || |rec.sources| > 1);
        if prev.detail != "" && rec.detail == "" {
          rec := rec.(detail := prev.detail);
        }
      }
      byKey := byKey[key := rec];
    }

    method HasMergedDual(now: Time) returns (dual: bool)
      modifies this
      ensures View() == old(View()).Gc(now)
      ensures dual <==> old(View()).HasMergedDual(now)
    {
      CollectGarbage(now);
      var rest := byKey.Keys;
      while rest != {}
        invariant rest <= byKey.Keys
        invariant forall k :: k in byKey.Keys - rest ==> !View().IsFreshDual(byKey[k], now)
        decreases rest
      {
        var k :| k in rest;
        var rec := byKey[k];
        if rec.merged && |rec.sources| >= 2 && now - rec.received <= mergeWindow * 2 {
          return true;
        }
        rest := rest - {k};
      }
      return false;
    }
  }
}
