/** The merged flag and the dual-anomaly query, stated against the plain history of reports: no
    garbage collection, no records, only who reported which code and when. */
module AnomalyRuns {
  import opened Prelude
  import opened Text
  import opened Heartbeat
  import opened Anomaly

  /** Sweeps are the garbage collections that queries run. */
  datatype Event = Reported(p: Report, at: Time) | Swept(at: Time)

  function Step(r: Anomalies, e: Event): Anomalies {
    match e
    case Reported(p, at) => r.Ingest(p, at)
    case Swept(at) => r.Gc(at)
  }

  function At(w: Duration, h: seq<Event>, n: nat): Anomalies
    requires n <= |h|
  {
    if n == 0 then NewAnomalies(w) else Step(At(w, h, n - 1), h[n - 1])
  }

  predicate Is(e: Event, c: string, s: string) {
    e.Reported? && e.p.MatchCode() == c && e.p.Service() == s
  }

  /** When service s last reported code c among the first n events. */
  function LastReport(h: seq<Event>, n: nat, c: string, s: string): Option<Time>
    requires n <= |h|
  {
    if n == 0 then None
    else if Is(h[n - 1], c, s) then Some(h[n - 1].at)
    else LastReport(h, n - 1, c, s)
  }

  predicate Near(t: Option<Time>, now: Time, w: Duration) {
    t.Some? && now - t.value <= w
  }

  /** Whether the latest report of code c by s counts as merged after n events: the peer reported the
      code within w before or after it, or it follows within w an earlier report that was merged. */
  predicate Dual(w: Duration, h: seq<Event>, n: nat, c: string, s: string)
    requires n <= |h|
  {
    && n > 0
    && Peer(s).Some?
    && var e := h[n - 1];
       if Is(e, c, s) then
         || Near(LastReport(h, n - 1, c, Peer(s).value), e.at, w)
         || (Near(LastReport(h, n - 1, c, s), e.at, w) && Dual(w, h, n - 1, c, s))
       else if Is(e, c, Peer(s).value) then
         Dual(w, h, n - 1, c, s) || Near(LastReport(h, n - 1, c, s), e.at, w)
       else
         Dual(w, h, n - 1, c, s)
  }

  ghost predicate ClockForward(h: seq<Event>) {
    forall i, j :: 0 <= i <= j < |h| ==> h[i].at <= h[j].at
  }

  /** A key of service a can be read as a key of service b: b follows a bar in a's name, and what comes
      before that bar can end a code, which never ends in a space. */
  predicate Mistakable(a: string, b: string) {
    var n := |a| - |b| - 1;
    n >= 0 && a[n..] == "|" + b && (n == 0 || !IsSpace(a[n - 1]))
  }

  ghost predicate Reports(h: seq<Event>, s: string) {
    exists i :: 0 <= i < |h| && h[i].Reported? && h[i].p.Service() == s
  }

  /** A service whose record some report may touch: it reports itself, or its peer does. */
  ghost predicate Concerned(h: seq<Event>, s: string) {
    Reports(h, s) || (Peer(s).Some? && Reports(h, Peer(s).value))
  }

  ghost predicate Unambiguous(h: seq<Event>) {
    forall a, b :: Reports(h, a) && Concerned(h, b) ==> !Mistakable(a, b) && !Mistakable(b, a)
  }

  function Sources(dual: bool, s: string): set<string> {
    if dual then {BACKEND, DESKTOP} else {s}
  }

  /** How far back a report still finds another one: the merge window, unless garbage collection has
      dropped the record before. */
  function Reach(r: Anomalies): Duration {
    Min(r.mergeWindow, r.retain)
  }

  /** Nothing in the registry is older than the retention. */
  ghost predicate Fresh(r: Anomalies, now: Time) {
    forall k :: k in r.byKey ==> now - r.byKey[k].received <= r.retain
  }

  /** The registry's record for (c, s) at time now is what the history says, or has aged out. */
  ghost predicate Agrees(r: Anomalies, h: seq<Event>, n: nat, c: string, s: string, now: Time)
    requires n <= |h|
  {
    var k, last, dual := KeyOf(c, s), LastReport(h, n, c, s), Dual(Reach(r), h, n, c, s);
    if k in r.byKey then
      && last == Some(r.byKey[k].received)
      && r.byKey[k].merged == dual
      && r.byKey[k].service == s
      && r.byKey[k].sources == Sources(dual, s)
    else
      last.Some? ==> now - last.value > r.retain
  }

  /** Every record is some reporting service's and sits under the key of its own code and service. */
  ghost predicate WellKeyed(r: Anomalies, h: seq<Event>) {
    forall k :: k in r.byKey ==>
      Reports(h, r.byKey[k].service) && k == KeyOf(TrimSpace(ToLower(r.byKey[k].code)), r.byKey[k].service)
  }

  /** Services that cannot be mistaken for each other never share a key. */
  lemma KeyInjective(c1: string, s1: string, c2: string, s2: string)
    requires Trimmed(c1) && Trimmed(c2) && !Mistakable(s1, s2) && !Mistakable(s2, s1)
    requires KeyOf(c1, s1) == KeyOf(c2, s2)
    ensures c1 == c2 && s1 == s2
  {
    if |s1| > |s2| {
      SharedKeyMistakes(c1, s1, c2, s2);
    } else if |s1| < |s2| {
      SharedKeyMistakes(c2, s2, c1, s1);
    } else {
      var k := KeyOf(c1, s1);
      assert k[..|c1|] == c1 && k[..|c1|] == c2;
      assert k[|c1| + 1..] == s1 && k[|c1| + 1..] == s2;
    }
  }

  lemma SharedKeyMistakes(c1: string, s1: string, c2: string, s2: string)
    requires Trimmed(c2) && KeyOf(c1, s1) == KeyOf(c2, s2) && |s1| > |s2|
    ensures Mistakable(s1, s2)
  {
    var k, n := KeyOf(c1, s1), |s1| - |s2| - 1;
    assert forall i :: 0 <= i < |s1| ==> s1[i] == k[|c1| + 1 + i];
    assert k[|c2|..] == "|" + s2 && s1[n..] == k[|c2|..];
    if n > 0 {
      assert s1[n - 1] == c2[|c2| - 1];
    }
  }

  lemma MistakenKey(a: string, b: string) returns (d: string)
    requires Mistakable(a, b)
    ensures d == "c|" + a[..|a| - |b| - 1] && KeyOf("c", a) == KeyOf(d, b) && Trimmed(d)
  {
    var n := |a| - |b| - 1;
    d := "c|" + a[..n];
    assert a == a[..n] + ("|" + b);
  }

  /** Two services share a key, under codes as the registry matches them, exactly when they are the same or
      one is mistakable for the other. */
  lemma SharedKeyIff(a: string, b: string)
    ensures (exists c1, c2 :: Trimmed(c1) && Trimmed(c2) && KeyOf(c1, a) == KeyOf(c2, b)) <==>
              a == b || Mistakable(a, b) || Mistakable(b, a)
  {
    hide KeyOf, Mistakable;
    var c := "c";
    assert Trimmed(c);
    if a == b {
      assert KeyOf(c, a) == KeyOf(c, b);
    } else if Mistakable(a, b) {
      var d := MistakenKey(a, b);
      assert KeyOf(c, a) == KeyOf(d, b);
    } else if Mistakable(b, a) {
      var d := MistakenKey(b, a);
      assert KeyOf(d, a) == KeyOf(c, b);
    } else if c1, c2 :| Trimmed(c1) && Trimmed(c2) && KeyOf(c1, a) == KeyOf(c2, b) {
      KeyInjective(c1, a, c2, b);
    }
  }

  /** Keys of services without a bar are unambiguous, whatever the code contains. */
  lemma BarFreeKeys(c1: string, s1: string, c2: string, s2: string)
    requires '|' !in s1 && '|' !in s2
    requires KeyOf(c1, s1) == KeyOf(c2, s2)
    ensures c1 == c2 && s1 == s2
  {
    var k := KeyOf(c1, s1);
    assert k[|c1|] == '|' && k[|c2|] == '|';
    assert forall i :: |c1| < i < |k| ==> k[i] == s1[i - |c1| - 1];
    assert forall i :: |c2| < i < |k| ==> k[i] == s2[i - |c2| - 1];
    assert k[..|c1|] == c1 && k[..|c2|] == c2;
    assert k[|c1| + 1..] == s1 && k[|c2| + 1..] == s2;
  }

  lemma {:induction false} SplitAtLastBar(s: string) returns (head: string, tail: string)
    requires '|' in s
    ensures s == head + "|" + tail && '|' !in tail
  {
    if '|' in s[1..] {
      var h, t := SplitAtLastBar(s[1..]);
      head, tail := [s[0]] + h, t;
      assert s == [s[0]] + s[1..];
    } else {
      head, tail := [], s[1..];
      assert s == "|" + s[1..];
    }
  }

  /** A service can be taken for another, bar-free one exactly when its own name has a bar. */
  lemma ConfusableIffBar(s: string)
    ensures (exists c1, c2, other :: '|' !in other && other != s && KeyOf(c1, s) == KeyOf(c2, other)) <==> '|' in s
  {
    if '|' in s {
      var head, tail := SplitAtLastBar(s);
      assert KeyOf("", s) == "|" + head + "|" + tail == KeyOf("|" + head, tail);
    } else {
      forall c1, c2, other | '|' !in other && KeyOf(c1, s) == KeyOf(c2, other) ensures other == s {
        BarFreeKeys(c1, s, c2, other);
      }
    }
  }

  lemma GcAgrees(r: Anomalies, h: seq<Event>, n: nat, c: string, s: string, past: Time, now: Time)
    requires n <= |h| && past <= now
    requires Agrees(r, h, n, c, s, past)
    ensures Agrees(r.Gc(now), h, n, c, s, now) && Fresh(r.Gc(now), now)
  {
    hide Dual, LastReport;
  }

  /** Right after garbage collection a merge finds exactly the reports within reach. */
  lemma RecentIsNear(r: Anomalies, h: seq<Event>, n: nat, c: string, s: string, now: Time)
    requires n <= |h| && Fresh(r, now)
    requires Agrees(r, h, n, c, s, now)
    ensures r.Recent(KeyOf(c, s), now).Some? <==> Near(LastReport(h, n, c, s), now, Reach(r))
  {
    hide Dual, LastReport;
  }

  lemma DualOfReport(w: Duration, h: seq<Event>, n: nat, p: Report, now: Time)
    requires 0 < n <= |h| && h[n - 1] == Reported(p, now)
    ensures var (c, s) := (p.MatchCode(), p.Service());
            Dual(w, h, n, c, s) <==>
              && Peer(s).Some?
              && (|| Near(LastReport(h, n - 1, c, Peer(s).value), now, w)
                  || (Near(LastReport(h, n - 1, c, s), now, w) && Dual(w, h, n - 1, c, s)))
  {
    hide NormalizeService, TrimSpace, ToLower, LastReport, Report.MatchCode, Report.Service;
  }

  lemma {:induction false} OnlyPeersAreDual(w: Duration, h: seq<Event>, n: nat, c: string, s: string)
    requires n <= |h| && Peer(s).None?
    ensures !Dual(w, h, n, c, s)
  {
  }

  /** The merged flag and the sources that a report is answered with. */
  lemma NewRecordIsDual(r: Anomalies, h: seq<Event>, n: nat, p: Report, now: Time)
    requires 0 < n <= |h| && h[n - 1] == Reported(p, now) && Fresh(r, now)
    requires Agrees(r, h, n - 1, p.MatchCode(), p.Service(), now)
    requires Peer(p.Service()).Some? ==> Agrees(r, h, n - 1, p.MatchCode(), Peer(p.Service()).value, now)
    ensures var dual := Dual(Reach(r), h, n, p.MatchCode(), p.Service());
            && r.NewRecord(p, now).merged == dual
            && r.NewRecord(p, now).sources == Sources(dual, p.Service())
  {
    hide NormalizeService, TrimSpace, ToLower, KeyOf, LastReport, Report.MatchCode, Report.Code, Report.Severity,
         Report.Service, Dual;
    var c, s := p.MatchCode(), p.Service();
    DualOfReport(Reach(r), h, n, p, now);
    RecentIsNear(r, h, n - 1, c, s, now);
    var prev := r.Recent(KeyOf(c, s), now);
    if Peer(s).Some? {
      RecentIsNear(r, h, n - 1, c, Peer(s).value, now);
      assert {s, Peer(s).value} == {BACKEND, DESKTOP};
    } else {
      OnlyPeersAreDual(Reach(r), h, n - 1, c, s);
      assert {s} + {} + (if prev.Some? then prev.value.sources else {}) == {s};
    }
  }

  /** The reporter's own record after a report. */
  lemma OwnRecordAgrees(r: Anomalies, h: seq<Event>, n: nat, p: Report, now: Time)
    requires 0 < n <= |h| && h[n - 1] == Reported(p, now) && Fresh(r, now)
    requires Agrees(r, h, n - 1, p.MatchCode(), p.Service(), now)
    requires Peer(p.Service()).Some? ==> Agrees(r, h, n - 1, p.MatchCode(), Peer(p.Service()).value, now)
    ensures Agrees(r.Store(p, now), h, n, p.MatchCode(), p.Service(), now)
  {
    hide NormalizeService, TrimSpace, ToLower, KeyOf, Dual, Report.MatchCode, Report.Code, Report.Severity;
    NewRecordIsDual(r, h, n, p, now);
  }

  /** The peer's record after a report. */
  lemma PeerRecordAgrees(r: Anomalies, h: seq<Event>, n: nat, p: Report, now: Time)
    requires 0 < n <= |h| && h[n - 1] == Reported(p, now) && Fresh(r, now)
    requires Peer(p.Service()).Some?
    requires Agrees(r, h, n - 1, p.MatchCode(), Peer(p.Service()).value, now)
    ensures Agrees(r.Store(p, now), h, n, p.MatchCode(), Peer(p.Service()).value, now)
  {
    hide NormalizeService, TrimSpace, ToLower, KeyOf, Report.MatchCode, Report.Code, Report.Severity,
         Anomalies.NewRecord;
    var c, s := p.MatchCode(), p.Service();
    PeerKeyFacts(p);
    RecentIsNear(r, h, n - 1, c, Peer(s).value, now);
  }

  /** Every other record is untouched by a report. */
  lemma OtherRecordAgrees(r: Anomalies, h: seq<Event>, n: nat, p: Report, now: Time, c: string, s: string)
    requires 0 < n <= |h| && h[n - 1] == Reported(p, now)
    requires Unambiguous(h) && Concerned(h, s) && Trimmed(c)
    requires !(c == p.MatchCode() && (s == p.Service() || Peer(p.Service()) == Some(s)))
    requires Agrees(r, h, n - 1, c, s, now)
    ensures Agrees(r.Store(p, now), h, n, c, s, now)
  {
    hide NormalizeService, TrimSpace, ToLower, KeyOf, Report.MatchCode, Report.Code, Report.Severity,
         Anomalies.NewRecord;
    assert Reports(h, p.Service());
    MatchCodeTrimmed(p);
    KeysApart(h, s, p.Service());
    if Peer(p.Service()).Some? {
      KeysApart(h, s, Peer(p.Service()).value);
      PeerOfPeer(p.Service());
    }
    if KeyOf(c, s) == KeyOf(p.MatchCode(), p.Service()) {
      KeyInjective(c, s, p.MatchCode(), p.Service());
    }
    if Peer(p.Service()).Some? && KeyOf(c, s) == KeyOf(p.MatchCode(), Peer(p.Service()).value) {
      KeyInjective(c, s, p.MatchCode(), Peer(p.Service()).value);
    }
  }

  lemma MatchCodeTrimmed(p: Report)
    ensures Trimmed(p.MatchCode())
  {
    TrimSpaceTrims(ToLower(p.Code()));
  }

  lemma PeerOfPeer(s: string)
    requires Peer(s).Some?
    ensures Peer(Peer(s).value) == Some(s)
  {
  }

  /** Concerned services are not mistaken for each other: Backend and Desktop never for anything. */
  lemma KeysApart(h: seq<Event>, a: string, b: string)
    requires Unambiguous(h) && Concerned(h, a) && (Reports(h, b) || Peer(b).Some?)
    ensures Concerned(h, b) ==> !Mistakable(a, b) && !Mistakable(b, a)
  {
    if !Reports(h, a) && !Reports(h, b) {
      CanonicalNotMistakable(a, b);
    }
  }

  lemma CanonicalNotMistakable(a: string, b: string)
    requires Peer(a).Some? && Peer(b).Some?
    ensures !Mistakable(a, b)
  {
  }

  lemma StepAgrees(r: Anomalies, h: seq<Event>, n: nat, past: Time, c: string, s: string)
    requires 0 < n <= |h| && past <= h[n - 1].at
    requires Unambiguous(h) && Concerned(h, s) && Trimmed(c)
    requires Agrees(r, h, n - 1, c, s, past)
    requires forall q :: Peer(s) == Some(q) ==> Agrees(r, h, n - 1, c, q, past)
    ensures Agrees(Step(r, h[n - 1]), h, n, c, s, h[n - 1].at)
  {
    hide Agrees, NormalizeService, TrimSpace, ToLower, KeyOf, Report.MatchCode, Report.Code, Anomalies.Store,
         Anomalies.NewRecord;
    var now := h[n - 1].at;
    GcAgrees(r, h, n - 1, c, s, past, now);
    if Peer(s).Some? {
      GcAgrees(r, h, n - 1, c, Peer(s).value, past, now);
    }
    match h[n - 1]
    case Swept(_) =>
      SweepAgrees(r.Gc(now), h, n, c, s, now);
    case Reported(p, _) =>
      if c == p.MatchCode() && s == p.Service() {
        OwnRecordAgrees(r.Gc(now), h, n, p, now);
      } else if c == p.MatchCode() && Peer(p.Service()) == Some(s) {
        PeerRecordAgrees(r.Gc(now), h, n, p, now);
      } else {
        OtherRecordAgrees(r.Gc(now), h, n, p, now, c, s);
      }
  }

  lemma SweepAgrees(r: Anomalies, h: seq<Event>, n: nat, c: string, s: string, now: Time)
    requires 0 < n <= |h| && h[n - 1].Swept?
    requires Agrees(r, h, n - 1, c, s, now)
    ensures Agrees(r, h, n, c, s, now)
  {
  }

  lemma WellKeyedStep(r: Anomalies, h: seq<Event>, e: Event)
    requires WellKeyed(r, h) && (e.Reported? ==> Reports(h, e.p.Service()))
    ensures WellKeyed(Step(r, e), h)
  {
    hide NormalizeService, TrimSpace, ToLower, KeyOf, Report.Code, Report.Severity;
    if e.Reported? {
      var g := r.Gc(e.at);
      assert g.PeerHit(e.p, e.at).Some? ==> KeyOf(e.p.MatchCode(), Peer(e.p.Service()).value) in g.byKey;
    }
  }

  function ClockAt(h: seq<Event>, n: nat): Time
    requires n <= |h| && h != []
  {
    if n == 0 then h[0].at else h[n - 1].at
  }

  /** After every event, every record agrees with the history, and the absent ones have aged out. */
  lemma {:induction false} RegistryAgreesWithHistory(w: Duration, h: seq<Event>, n: nat, c: string, s: string)
    requires n <= |h| && h != [] && ClockForward(h) && Unambiguous(h) && Concerned(h, s) && Trimmed(c)
    ensures Agrees(At(w, h, n), h, n, c, s, ClockAt(h, n))
    ensures At(w, h, n).mergeWindow == NewAnomalies(w).mergeWindow
    ensures At(w, h, n).retain == NewAnomalies(w).retain
    decreases n
  {
    hide Step, NormalizeService;
    if n > 0 {
      RegistryAgreesWithHistory(w, h, n - 1, c, s);
      if Peer(s).Some? {
        RegistryAgreesWithHistory(w, h, n - 1, c, Peer(s).value);
      }
      assert ClockAt(h, n - 1) <= h[n - 1].at;
      StepKeepsWindows(At(w, h, n - 1), h[n - 1]);
      StepAgrees(At(w, h, n - 1), h, n, ClockAt(h, n - 1), c, s);
    }
  }

  lemma StepKeepsWindows(r: Anomalies, e: Event)
    ensures Step(r, e).mergeWindow == r.mergeWindow && Step(r, e).retain == r.retain
  {
  }

  lemma {:induction false} RegistryIsWellKeyed(w: Duration, h: seq<Event>, n: nat)
    requires n <= |h|
    ensures WellKeyed(At(w, h, n), h)
  {
    hide Step, NormalizeService;
    if n > 0 {
      RegistryIsWellKeyed(w, h, n - 1);
      WellKeyedStep(At(w, h, n - 1), h, h[n - 1]);
    }
  }

  /** A record is merged exactly when its sources are Backend and Desktop. */
  lemma MergedIffBothServices(w: Duration, h: seq<Event>, n: nat, k: string)
    requires n <= |h| && h != [] && ClockForward(h) && Unambiguous(h)
    requires k in At(w, h, n).byKey
    ensures At(w, h, n).byKey[k].merged <==> At(w, h, n).byKey[k].sources == {BACKEND, DESKTOP}
  {
    hide At, NormalizeService, KeyOf, Dual, LastReport;
    RegistryIsWellKeyed(w, h, n);
    var rec := At(w, h, n).byKey[k];
    TrimSpaceTrims(ToLower(rec.code));
    RegistryAgreesWithHistory(w, h, n, TrimSpace(ToLower(rec.code)), rec.service);
    TwoServices(rec.service);
  }

  lemma TwoServices(s: string)
    ensures {s} != {BACKEND, DESKTOP} && |{BACKEND, DESKTOP}| == 2
  {
    assert BACKEND[7] != DESKTOP[7];
    assert BACKEND in {BACKEND, DESKTOP} && DESKTOP in {BACKEND, DESKTOP};
  }

  /** How far back the dual query looks: two merge windows, unless garbage collection was there before. */
  function QueryReach(w: Duration): Duration {
    Min(2 * NewAnomalies(w).mergeWindow, NewAnomalies(w).retain)
  }

  lemma StoredDualIsFresh(r: Anomalies, h: seq<Event>, n: nat, c: string, s: string, past: Time, now: Time)
    requires n <= |h| && past <= now && Agrees(r, h, n, c, s, past) && |{BACKEND, DESKTOP}| == 2
    requires Dual(Reach(r), h, n, c, s) && Near(LastReport(h, n, c, s), now, Min(2 * r.mergeWindow, r.retain))
    ensures r.HasMergedDual(now)
  {
    hide Dual, LastReport, KeyOf;
    var k := KeyOf(c, s);
    assert k in r.byKey && k in r.Gc(now).byKey;
    assert r.IsFreshDual(r.byKey[k], now);
  }

  /** Sweeping or not, at any later time the dual query answers exactly what the history says: some
      service's latest report of some code is merged and within the query's reach. */
  lemma DualQueryIgnoresGarbageCollection(w: Duration, h: seq<Event>, n: nat, now: Time)
    requires n <= |h| && h != [] && ClockForward(h) && Unambiguous(h) && ClockAt(h, n) <= now
    ensures At(w, h, n).HasMergedDual(now) <==>
              exists c, s :: Dual(Reach(NewAnomalies(w)), h, n, c, s)
                        && Near(LastReport(h, n, c, s), now, QueryReach(w))
  {
    hide At, NormalizeService, TrimSpace, ToLower, Dual, LastReport, Agrees, Near, QueryReach, Reach, Unambiguous,
         Concerned, Reports, KeyOf;
    var r := At(w, h, n);
    if r.HasMergedDual(now) {
      DualIsReported(w, h, n, now);
    }
    if c, s :| Dual(Reach(NewAnomalies(w)), h, n, c, s) && Near(LastReport(h, n, c, s), now, QueryReach(w)) {
      ReportedDualIsStored(w, h, n, c, s, now);
    }
  }

  lemma DualIsReported(w: Duration, h: seq<Event>, n: nat, now: Time)
    requires n <= |h| && h != [] && ClockForward(h) && Unambiguous(h) && ClockAt(h, n) <= now
    requires At(w, h, n).HasMergedDual(now)
    ensures exists c, s :: Dual(Reach(NewAnomalies(w)), h, n, c, s) && Near(LastReport(h, n, c, s), now, QueryReach(w))
  {
    hide At, NormalizeService, TrimSpace, ToLower, Dual, LastReport, Unambiguous, KeyOf;
    var r := At(w, h, n);
    RegistryIsWellKeyed(w, h, n);
    var k :| k in r.Gc(now).byKey && r.IsFreshDual(r.byKey[k], now);
    var c, s := TrimSpace(ToLower(r.byKey[k].code)), r.byKey[k].service;
    TrimSpaceTrims(ToLower(r.byKey[k].code));
    RegistryAgreesWithHistory(w, h, n, c, s);
    assert Dual(Reach(r), h, n, c, s) by { TwoServices(s); }
  }

  lemma ReportedDualIsStored(w: Duration, h: seq<Event>, n: nat, c: string, s: string, now: Time)
    requires n <= |h| && h != [] && ClockForward(h) && Unambiguous(h) && ClockAt(h, n) <= now
    requires Dual(Reach(NewAnomalies(w)), h, n, c, s) && Near(LastReport(h, n, c, s), now, QueryReach(w))
    ensures At(w, h, n).HasMergedDual(now)
  {
    hide At, NormalizeService, TrimSpace, ToLower, Dual, LastReport, Unambiguous, KeyOf,
         Anomalies.HasMergedDual, Report.MatchCode, Is;
    LastReportIsReport(h, n, c, s);
    var i :| 0 <= i < n && Is(h[i], c, s) && h[i].at == LastReport(h, n, c, s).value;
    IsReported(h, i, c, s);
    RegistryAgreesWithHistory(w, h, n, c, s);
    TwoServices(s);
    StoredDualIsFresh(At(w, h, n), h, n, c, s, ClockAt(h, n), now);
  }

  lemma IsReported(h: seq<Event>, i: nat, c: string, s: string)
    requires i < |h| && Is(h[i], c, s)
    ensures Reports(h, s) && Trimmed(c)
  {
    MatchCodeTrimmed(h[i].p);
  }

  lemma {:induction false} LastReportIsReport(h: seq<Event>, n: nat, c: string, s: string)
    requires n <= |h| && LastReport(h, n, c, s).Some?
    ensures exists i :: 0 <= i < n && Is(h[i], c, s) && h[i].at == LastReport(h, n, c, s).value
  {
    hide Is;
    if !Is(h[n - 1], c, s) {
      LastReportIsReport(h, n - 1, c, s);
    }
  }

  lemma {:induction false} LastReportIsLatest(h: seq<Event>, n: nat, c: string, s: string, i: nat)
    requires i < n <= |h| && ClockForward(h) && Is(h[i], c, s)
    ensures LastReport(h, n, c, s).Some? && LastReport(h, n, c, s).value >= h[i].at
  {
    hide Is;
    if i < n - 1 && !Is(h[n - 1], c, s) {
      LastReportIsLatest(h, n - 1, c, s, i);
    }
  }

  /** A merged report stands for two real ones: both services reported the code, at most one merge
      window apart. */
  lemma {:induction false} DualHasTwoReports(w: Duration, h: seq<Event>, n: nat, c: string, s: string)
    requires n <= |h| && Dual(w, h, n, c, s) && ClockForward(h)
    ensures exists i, j :: 0 <= i < n && 0 <= j < n && Is(h[i], c, BACKEND) && Is(h[j], c, DESKTOP)
                           && -w <= h[i].at - h[j].at <= w
  {
    hide Is;
    var e, q := h[n - 1], Peer(s).value;
    var own := Is(e, c, s) && Near(LastReport(h, n - 1, c, q), e.at, w);
    var other := !Is(e, c, s) && Is(e, c, q) && Near(LastReport(h, n - 1, c, s), e.at, w);
    if own || other {
      var first := if own then q else s;
      LastReportIsReport(h, n - 1, c, first);
      var i :| 0 <= i < n - 1 && Is(h[i], c, first) && h[i].at == LastReport(h, n - 1, c, first).value;
      assert h[i].at <= e.at;
      assert Is(h[n - 1], c, if own then s else q);
    } else {
      DualHasTwoReports(w, h, n - 1, c, s);
    }
  }

  /** Right after one service reports a code its peer reported within reach, the dual query answers yes. */
  lemma SecondReportIsDualAtOnce(w: Duration, h: seq<Event>, n: nat, i: nat, c: string, s: string, q: string)
    requires i < n - 1 && n <= |h| && ClockForward(h) && Unambiguous(h)
    requires Is(h[n - 1], c, s) && Peer(s) == Some(q) && Is(h[i], c, q)
    requires h[n - 1].at - h[i].at <= Reach(NewAnomalies(w))
    ensures At(w, h, n).HasMergedDual(h[n - 1].at)
  {
    hide At, NormalizeService, Report.MatchCode;
    LastReportIsLatest(h, n - 1, c, q, i);
    DualQueryIgnoresGarbageCollection(w, h, n, h[n - 1].at);
    assert Dual(Reach(NewAnomalies(w)), h, n, c, s);
  }

  /** What a report is answered with, after any history: it is stored, and it is merged exactly when the
      peer's latest report of the code is within reach, or its own latest one is and was merged. A merge
      window longer than the ten minutes of retention is therefore cut short. */
  lemma SecondReportMergesIff(w: Duration, h: seq<Event>, n: nat, p: Report, at: Time)
    requires 0 < n <= |h| && ClockForward(h) && Unambiguous(h) && h[n - 1] == Reported(p, at)
    ensures var (c, s) := (p.MatchCode(), p.Service());
            var reach := Min(NewAnomalies(w).mergeWindow, NewAnomalies(w).retain);
            && KeyOf(c, s) in At(w, h, n).byKey
            && (At(w, h, n).byKey[KeyOf(c, s)].merged <==>
                  && Peer(s).Some?
                  && (|| Near(LastReport(h, n - 1, c, Peer(s).value), at, reach)
                      || (Near(LastReport(h, n - 1, c, s), at, reach) && Dual(reach, h, n - 1, c, s))))
  {
    hide At, NormalizeService, TrimSpace, ToLower, KeyOf, Report.MatchCode, Report.Service, Dual;
    MatchCodeTrimmed(p);
    assert Reports(h, p.Service());
    RegistryAgreesWithHistory(w, h, n, p.MatchCode(), p.Service());
    DualOfReport(Reach(NewAnomalies(w)), h, n, p, at);
    assert LastReport(h, n, p.MatchCode(), p.Service()) == Some(at);
  }

  /** The query implies two real reports, no further apart than a merge reaches. */
  lemma DualQueryMeansTwoReports(w: Duration, h: seq<Event>, n: nat, now: Time)
    requires n <= |h| && h != [] && ClockForward(h) && Unambiguous(h) && ClockAt(h, n) <= now
    requires At(w, h, n).HasMergedDual(now)
    ensures exists c, i, j :: 0 <= i < n && 0 <= j < n && Is(h[i], c, BACKEND) && Is(h[j], c, DESKTOP)
              && -Reach(NewAnomalies(w)) <= h[i].at - h[j].at <= Reach(NewAnomalies(w))
  {
    hide At, NormalizeService, Is, Dual, LastReport;
    DualQueryIgnoresGarbageCollection(w, h, n, now);
    var c, s :| Dual(Reach(NewAnomalies(w)), h, n, c, s)
                && Near(LastReport(h, n, c, s), now, QueryReach(w));
    DualHasTwoReports(Reach(NewAnomalies(w)), h, n, c, s);
  }

  /* ---- mistaken services ---- */

  /** A report whose code and service are already normal. */
  function Plain(service: string, code: string): Report {
    Report(service, "", code, "")
  }

  lemma PlainNames(service: string, code: string)
    requires NormalizeService(service) == service && ToLower(code) == code && Trimmed(code) && code != ""
    ensures Plain(service, code).Service() == service && Plain(service, code).MatchCode() == code
  {
    TrimSpaceFixes(code);
  }

  lemma MistakenCode(a: string, b: string) returns (d: string)
    requires Mistakable(a, b) && NormalizeService(a) == a
    ensures KeyOf("c", a) == KeyOf(d, b) && a != BACKEND && a != DESKTOP && a != b
    ensures Plain(a, "c").Service() == a && Plain(a, "c").MatchCode() == "c"
    ensures NormalizeService(b) == b ==> Plain(b, d).Service() == b && Plain(b, d).MatchCode() == d
    ensures Peer(b).Some? ==>
              Plain(Peer(b).value, d).Service() == Peer(b).value && Plain(Peer(b).value, d).MatchCode() == d
  {
    d := MistakenKey(a, b);
    BarNamesAreLower(a, b);
    var n := |a| - |b| - 1;
    assert forall i :: 0 <= i < n ==> d[i + 2] == a[i] == ToLower(a)[i];
    assert ToLower(d) == d;
    assert ToLower("c") == "c";
    PlainNames(a, "c");
    CanonicalNamesAreNormal();
    if NormalizeService(b) == b {
      PlainNames(b, d);
    }
    if Peer(b).Some? {
      PlainNames(Peer(b).value, d);
    }
  }

  lemma BarNamesAreLower(a: string, b: string)
    requires Mistakable(a, b) && NormalizeService(a) == a
    ensures ToLower(a) == a && '|' in a && a != BACKEND && a != DESKTOP
  {
    var n := |a| - |b| - 1;
    assert a[n] == a[n..][0] == '|';
    LowerFixesLower(a);
    TrimKeepsLower(ToLower(a));
  }

  lemma TwoSources(sources: set<string>, a: string, b: string)
    requires {a, b} <= sources && a != b
    ensures |sources| >= 2
  {
    var rest := sources - {a};
    var rest' := rest - {b};
    assert sources == {a} + rest && rest == {b} + rest';
  }

  lemma FirstReport(w: Duration, p: Report, at: Time)
    ensures var r := NewAnomalies(w).Ingest(p, at); var k := KeyOf(p.MatchCode(), p.Service());
            && k in r.byKey && r.byKey[k].received == at && r.byKey[k].service == p.Service()
            && r.byKey[k].sources == {p.Service()}
            && r.mergeWindow == NewAnomalies(w).mergeWindow && r.retain == NewAnomalies(w).retain
  {
    hide NormalizeService, TrimSpace, ToLower, KeyOf, Report.Code, Report.MatchCode, Report.Service, Report.Severity;
  }

  /** The second report meets, under its own key or under its peer's, the record of another service. */
  lemma SecondReportIsTakenFor(r: Anomalies, p: Report, k: string, now: Time)
    requires r.mergeWindow > 0 && r.retain >= 0
    requires k in r.byKey && r.byKey[k].received == now && r.byKey[k].service in r.byKey[k].sources
    requires r.byKey[k].service != p.Service()
    requires k == KeyOf(p.MatchCode(), p.Service()) ||
             (Peer(p.Service()).Some? && k == KeyOf(p.MatchCode(), Peer(p.Service()).value))
    ensures r.Ingest(p, now).HasMergedDual(now)
  {
    hide NormalizeService, TrimSpace, ToLower, KeyOf, Report.Code, Report.MatchCode, Report.Service, Report.Severity,
         Peer;
    var g, own, r' := r.Gc(now), KeyOf(p.MatchCode(), p.Service()), r.Ingest(p, now);
    var rec := g.NewRecord(p, now);
    assert {p.Service(), r.byKey[k].service} <= rec.sources;
    TwoSources(rec.sources, p.Service(), r.byKey[k].service);
    assert rec.merged;
    assert own in r'.Gc(now).byKey && r'.IsFreshDual(r'.byKey[own], now);
  }

  /** A service that is mistakable for another breaks the agreement, even if neither is Backend or Desktop:
      one report of each and the dual query says yes. */
  lemma MistakableForgesDual(w: Duration, a: string, b: string, now: Time) returns (h: seq<Event>)
    requires Mistakable(a, b) && NormalizeService(a) == a && NormalizeService(b) == b
    ensures |h| == 2 && h[0].Reported? && h[1].Reported? && h[0].p.Service() == b && h[1].p.Service() == a
    ensures a != BACKEND && a != DESKTOP && h[0].at == h[1].at == now
    ensures At(w, h, 2).HasMergedDual(now)
  {
    hide NormalizeService, ToLower, TrimSpace, Report.Code, Report.MatchCode, Report.Service, Mistakable, KeyOf,
         Anomalies.Ingest, Anomalies.HasMergedDual;
    var d := MistakenCode(a, b);
    h := [Reported(Plain(b, d), now), Reported(Plain(a, "c"), now)];
    FirstReport(w, Plain(b, d), now);
    var r := NewAnomalies(w).Ingest(Plain(b, d), now);
    SecondReportIsTakenFor(r, Plain(a, "c"), KeyOf("c", a), now);
    TwoEvents(w, h);
  }

  /** One that is mistakable for Backend or Desktop breaks it as soon as the other of the two reports: the
      query says yes although the one it is taken for reported nothing. */
  lemma BarForgesDual(w: Duration, a: string, b: string, now: Time) returns (h: seq<Event>)
    requires Mistakable(a, b) && NormalizeService(a) == a && Peer(b).Some?
    ensures |h| == 2 && h[0].Reported? && h[1].Reported?
    ensures h[0].p.Service() == a && h[1].p.Service() == Peer(b).value && h[0].at == h[1].at == now
    ensures !Reports(h, b) && At(w, h, 2).HasMergedDual(now)
  {
    hide NormalizeService, ToLower, TrimSpace, Report.Code, Report.MatchCode, Report.Service, Mistakable, KeyOf,
         Anomalies.Ingest, Anomalies.HasMergedDual;
    var d := MistakenCode(a, b);
    var q := Peer(b).value;
    PeersDiffer(d, b);
    PeerOfPeer(b);
    h := [Reported(Plain(a, "c"), now), Reported(Plain(q, d), now)];
    FirstReport(w, Plain(a, "c"), now);
    var r := NewAnomalies(w).Ingest(Plain(a, "c"), now);
    SecondReportIsTakenFor(r, Plain(q, d), KeyOf(d, b), now);
    TwoEvents(w, h);
  }

  lemma TwoEvents(w: Duration, h: seq<Event>)
    requires |h| == 2
    ensures At(w, h, 2) == Step(Step(NewAnomalies(w), h[0]), h[1])
  {
    hide Step;
    assert At(w, h, 1) == Step(At(w, h, 0), h[0]);
  }

  lemma NameIsNormal(s: string)
    requires ToLower(s) == s && Trimmed(s)
    requires s !in {"", "backend", "serve", "desktop", "hermes.exe"}
    ensures NormalizeService(s) == s
  {
    hide ToLower;
    TrimSpaceFixes(s);
  }

  /** Both lemmas speak of names that exist. */
  lemma MistakableNames()
    ensures Mistakable("a|b", "b") && NormalizeService("a|b") == "a|b" && NormalizeService("b") == "b"
    ensures Mistakable("x|hermes-backend", BACKEND) && NormalizeService("x|hermes-backend") == "x|hermes-backend"
  {
    hide NormalizeService;
    assert ToLower("a|b") == "a|b" && ToLower("b") == "b" && ToLower("x|hermes-backend") == "x|hermes-backend";
    NameIsNormal("a|b");
    NameIsNormal("b");
    NameIsNormal("x|hermes-backend");
    assert "a|b"[1..] == "|b" && "x|hermes-backend"[1..] == "|hermes-backend";
  }
}
