/** Anomaly reports from the sender's side: which reports speak of the same fault of the same service, under
    any lettering and any of the names in use, and what a report is answered with. Nothing here is stated
    through the registry's own helpers. */
module AnomalyNames {
  import opened Prelude
  import opened Text
  import opened Heartbeat
  import opened HeartbeatNames
  import opened Anomaly
  import D = AnomalyRuns

  /** Codes are compared without padding and case. */
  function Fault(code: string): string {
    if TrimSpace(code) == "" then "unspecified" else Folded(code)
  }

  lemma {:induction false} TrimLeftFolds(s: string)
    ensures TrimLeft(ToLower(s)) == ToLower(TrimLeft(s))
  {
    if s != [] {
      LowerCharFacts(s[0]);
      assert ToLower(s)[1..] == ToLower(s[1..]);
      TrimLeftFolds(s[1..]);
    }
  }

  lemma {:induction false} TrimRightFolds(s: string)
    ensures TrimRight(ToLower(s)) == ToLower(TrimRight(s))
  {
    if s != [] {
      LowerCharFacts(s[|s| - 1]);
      assert ToLower(s)[..|s| - 1] == ToLower(s[..|s| - 1]);
      TrimRightFolds(s[..|s| - 1]);
    }
  }

  lemma TrimFolds(s: string)
    ensures TrimSpace(ToLower(s)) == ToLower(TrimSpace(s))
  {
    hide ToLower, TrimLeft, TrimRight;
    TrimLeftFolds(s);
    TrimRightFolds(TrimLeft(s));
  }

  /** Padding a code, or writing it in capitals, makes no difference. */
  lemma TrimsOnce(s: string)
    ensures TrimSpace(ToLower(TrimSpace(s))) == TrimSpace(ToLower(s))
  {
    hide ToLower, TrimSpace;
    TrimFolds(s);
    TrimFolds(TrimSpace(s));
    TrimSpaceTrims(s);
    TrimSpaceFixes(TrimSpace(s));
  }

  lemma ReportIs(p: Report)
    ensures p.Service() == Addressee(p.service)
    ensures p.MatchCode() == Fault(p.code)
    ensures p.Code() == if TrimSpace(p.code) == "" then "unspecified" else TrimSpace(p.code)
    ensures p.Severity() == if TrimSpace(p.severity) == "" then "warn" else Folded(p.severity)
  {
    hide ToLower, TrimSpace, NormalizeService, Addressee;
    NamesAre(p.service);
    TrimsOnce(p.code);
    TrimFolds(p.severity);
    LowerEmpty(TrimSpace(p.severity));
    UnspecifiedFolds();
  }

  lemma UnspecifiedFolds()
    ensures TrimSpace(ToLower("unspecified")) == "unspecified"
  {
    assert ToLower("unspecified") == "unspecified";
    TrimSpaceFixes("unspecified");
  }

  lemma LowerEmpty(s: string)
    ensures ToLower(s) == "" <==> s == ""
  {
  }

  /** Two reports count as of the same service and fault exactly when their names address the same service
      and their codes differ at most in padding and case. */
  lemma SameReportIff(e: D.Event, c: string, s: string)
    ensures D.Is(e, c, s) <==> e.Reported? && Fault(e.p.code) == c && Addressee(e.p.service) == s
  {
    hide Report.Service, Report.MatchCode, Fault, Addressee;
    if e.Reported? {
      ReportIs(e.p);
    }
  }

  /** The service whose reports merge with those of s. */
  function Counterpart(s: string): string {
    if s == "hermes-backend" then "hermes-desktop" else if s == "hermes-desktop" then "hermes-backend" else ""
  }

  /** A record a new report can still merge with: neither swept nor out of the merge window. */
  predicate Mergeable(r: Anomalies, k: string, now: Time) {
    k in r.byKey && now - r.byKey[k].received <= r.retain && now - r.byKey[k].received <= r.mergeWindow
  }

  function Sources(r: Anomalies, k: string, yes: bool): set<string> {
    if yes && k in r.byKey then r.byKey[k].sources else {}
  }

  /** What a report is answered with, from the registry as it was: its texts are the report's own, trimmed,
      the detail falling back to its predecessor's; its sources and merged flag join those of the counterpart
      and of the predecessor that are still mergeable. */
  lemma AnswerIs(r: Anomalies, p: Report, now: Time)
    ensures var s := Addressee(p.service);
            var own, other := Fault(p.code) + "|" + s, Fault(p.code) + "|" + Counterpart(s);
            var (met, again) := (Counterpart(s) != "" && Mergeable(r, other, now), Mergeable(r, own, now));
            var rec := r.Gc(now).NewRecord(p, now);
            && rec.service == s && rec.received == now
            && rec.code == (if TrimSpace(p.code) == "" then "unspecified" else TrimSpace(p.code))
            && rec.severity == (if TrimSpace(p.severity) == "" then "warn" else Folded(p.severity))
            && rec.detail == (if again && TrimSpace(p.detail) == "" then r.byKey[own].detail else TrimSpace(p.detail))
            && rec.sources == {s} + (if met then {r.byKey[other].service} else {}) + Sources(r, own, again)
            && (rec.merged <==> met || (again && (r.byKey[own].merged || |rec.sources| > 1)))
  {
    hide TrimSpace, ToLower, NormalizeService, Addressee, Fault, Report.Service, Report.Code, Report.MatchCode,
         Report.Severity, Folded, Anomalies.PeerHit, Anomalies.Recent, KeyOf, Sources, Mergeable;
    ReportIs(p);
    HitsAre(r, p, now);
    var own := Fault(p.code) + "|" + Addressee(p.service);
    SourcesAre(r, own, Mergeable(r, own, now));
  }

  lemma SourcesAre(r: Anomalies, k: string, yes: bool)
    ensures Sources(r, k, yes) == if yes && k in r.byKey then r.byKey[k].sources else {}
  {
  }

  /** The two records a report can merge with. */
  lemma HitsAre(r: Anomalies, p: Report, now: Time)
    ensures var s := Addressee(p.service);
            var own, other := Fault(p.code) + "|" + s, Fault(p.code) + "|" + Counterpart(s);
            && r.Gc(now).Recent(KeyOf(p.MatchCode(), p.Service()), now) ==
                 (if Mergeable(r, own, now) then Some(r.byKey[own]) else None)
            && r.Gc(now).PeerHit(p, now) ==
                 (if Counterpart(s) != "" && Mergeable(r, other, now) then Some(r.byKey[other]) else None)
            && (Mergeable(r, own, now) ==> own in r.byKey) && (Mergeable(r, other, now) ==> other in r.byKey)
  {
    hide TrimSpace, ToLower, NormalizeService, Addressee, Fault, Report.Service, Report.Code, Report.MatchCode,
         Report.Severity;
    ReportIs(p);
  }

  /** What a report leaves stored: everything older than the retention is gone, a mergeable counterpart is
      marked with the reporter as a further source, and the answer is filed under code and service. */
  lemma StoredIs(r: Anomalies, p: Report, now: Time)
    ensures var s := Addressee(p.service);
            var own, other := Fault(p.code) + "|" + s, Fault(p.code) + "|" + Counterpart(s);
            var r' := r.Ingest(p, now);
            && r'.mergeWindow == r.mergeWindow && r'.retain == r.retain
            && r'.byKey.Keys == (set k | k in r.byKey && now - r.byKey[k].received <= r.retain) + {own}
            && r'.byKey[own] == r.Gc(now).NewRecord(p, now)
            && forall k :: k in r'.byKey && k != own ==>
                 r'.byKey[k] == if k == other && Counterpart(s) != "" && Mergeable(r, other, now) then
                                  r.byKey[k].(merged := true, sources := r.byKey[k].sources + {s})
                                else r.byKey[k]
  {
    hide TrimSpace, ToLower, NormalizeService, Addressee, Fault, Report.Service, Report.Code, Report.MatchCode,
         Report.Severity, Anomalies.NewRecord;
    ReportIs(p);
  }

  lemma DefaultWindowsAre(w: Duration)
    ensures NewAnomalies(w) == Anomalies(map[], if w > 0 then w else 5_000_000_000, 600_000_000_000)
  {
  }
}
