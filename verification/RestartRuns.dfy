/** What the crash-loop limiter guarantees over whole runs of failures, Ready observations and
    operator resumes. */
module RestartRuns {
  import opened Prelude
  import opened RestartPolicy

  datatype Event = Failed(at: Time) | Readied(at: Time) | Resumed

  function Apply(t: Tracker, e: Event): Tracker {
    match e
    case Failed(at) => t.RecordFailure(at)
    case Readied(at) => t.MarkReady(at)
    case Resumed => t.ClearFailed()
  }

  function Run(p: Policy, es: seq<Event>): Tracker {
    if es == [] then NewTracker(p) else Apply(Run(p, Front(es)), Last(es))
  }

  /** The full log: every failure since the last reset, unpruned. */
  function SinceReset(es: seq<Event>): seq<Time> {
    if es == [] || !Last(es).Failed? then [] else SinceReset(Front(es)) + [Last(es).at]
  }

  /** Every failure was recorded at an instant at which CanAttempt held. */
  ghost predicate Gated(p: Policy, es: seq<Event>) {
    es != [] ==>
      Gated(p, Front(es)) && (Last(es).Failed? ==> Run(p, Front(es)).CanAttempt(Last(es).at))
  }

  /** The clock never went back over s. */
  ghost predicate Sorted(s: seq<Time>) {
    |s| >= 2 ==> Sorted(Front(s)) && Last(Front(s)) <= Last(s)
  }

  /** The failures in the half-open interval (lo, lo + width]. */
  function Within(s: seq<Time>, lo: Time, width: Duration): seq<Time> {
    if s == [] then []
    else if lo < Last(s) <= lo + width then Within(Front(s), lo, width) + [Last(s)]
    else Within(Front(s), lo, width)
  }

  /** The failures in the window that ends at the last failure of the log. */
  function Recent(log: seq<Time>, width: Duration): seq<Time> {
    if log == [] then [] else Prune(log, Last(log) - width)
  }

  /** Each failure follows the previous one by at least the delay that one imposed. */
  ghost predicate Spaced(p: Policy, log: seq<Time>) {
    |log| >= 2 ==>
      Spaced(p, Front(log)) && Last(log) >= Last(Front(log)) + Backoff(p, |log| - 1)
  }

  /** Before the last failure, no failure had brought its window to MaxRestarts. */
  ghost predicate BelowLimit(p: Policy, log: seq<Time>) {
    log != [] ==> BelowLimit(p, Front(log)) && |Recent(Front(log), p.window)| < p.maxRestarts
  }

  /* ---- pruning ---- */

  lemma {:induction false} PruneTwice(s: seq<Time>, cut: Time, later: Time)
    requires cut <= later
    ensures Prune(Prune(s, cut), later) == Prune(s, later)
  {
    if s != [] {
      PruneTwice(Front(s), cut, later);
      if Last(s) > cut {
        var kept := Prune(Front(s), cut);
        assert Front(kept + [Last(s)]) == kept;
      }
    }
  }

  lemma {:induction false} PruneShrinks(s: seq<Time>, cut: Time, later: Time)
    requires cut <= later
    ensures |Prune(s, later)| <= |Prune(s, cut)|
  {
    if s != [] {
      PruneShrinks(Front(s), cut, later);
    }
  }

  lemma {:induction false} PruneOld(s: seq<Time>, cut: Time)
    requires Sorted(s) && (s != [] ==> Last(s) <= cut)
    ensures Prune(s, cut) == []
  {
    if s != [] {
      PruneOld(Front(s), cut);
    }
  }

  lemma SortedAppend(s: seq<Time>, at: Time)
    requires Sorted(s) && (s != [] ==> Last(s) <= at)
    ensures Sorted(s + [at])
  {
    assert Front(s + [at]) == s;
  }

  lemma PruneAppend(s: seq<Time>, at: Time, cut: Time)
    requires cut < at
    ensures Prune(s + [at], cut) == Prune(s, cut) + [at]
  {
    assert Front(s + [at]) == s;
  }

  /* ---- the pruned tracker against the full log ---- */

  /** The in-place compacted window always holds exactly the failures since the last reset that are
      younger than Window at the latest failure, in order, and the streak counts all of them. */
  lemma {:induction false} PrunedTrackerRefinesLog(p: Policy, es: seq<Event>)
    requires p.window > 0 && Sorted(SinceReset(es))
    ensures Run(p, es).attempts == Recent(SinceReset(es), p.window)
  {
    if es != [] && Last(es).Failed? {
      SinceResetExtends(es);
      PrunedTrackerRefinesLog(p, Front(es));
      PolicyIsFixed(p, Front(es));
      RecordExtendsWindow(Run(p, Front(es)), SinceReset(Front(es)), Last(es).at);
    }
  }

  lemma RecordExtendsWindow(t: Tracker, log: seq<Time>, now: Time)
    requires t.policy.window > 0 && t.attempts == Recent(log, t.policy.window)
    requires log != [] ==> Last(log) <= now
    ensures t.RecordFailure(now).attempts == Recent(log + [now], t.policy.window)
  {
    hide Backoff, Prune;
    var width := t.policy.window;
    assert Last(log + [now]) == now;
    PruneAppend(log, now, now - width);
    if log != [] {
      PruneTwice(log, Last(log) - width, now - width);
    }
  }

  lemma SinceResetExtends(es: seq<Event>)
    requires es != [] && Last(es).Failed?
    ensures var log := SinceReset(es);
            log != [] && Last(log) == Last(es).at && Front(log) == SinceReset(Front(es))
    ensures Sorted(SinceReset(es)) ==> Sorted(SinceReset(Front(es)))
  {
  }

  /** The streak counts every failure since the last reset, pruned or not, and the gate reopens one
      delay of that streak after the latest. */
  lemma {:induction false} StreakCountsWholeLog(p: Policy, es: seq<Event>)
    ensures var log := SinceReset(es);
            && Run(p, es).attemptN == |log|
            && Run(p, es).nextAt == (if log == [] then None else Some(Last(log) + Backoff(p, |log|)))
  {
    hide Backoff;
    if es != [] {
      PolicyIsFixed(p, Front(es));
      StreakCountsWholeLog(p, Front(es));
    }
  }

  lemma {:induction false} PolicyIsFixed(p: Policy, es: seq<Event>)
    ensures Run(p, es).policy == p
  {
    if es != [] {
      PolicyIsFixed(p, Front(es));
    }
  }

  /* ---- the back-off delay ---- */

  /** Whatever the streak length, even when the shift wraps or runs past the word, the delay stays
      between InitialBackoff and the larger of InitialBackoff and MaxBackoff. */
  lemma BackoffBounds(p: Policy, n: nat)
    requires p.Valid() && n >= 1
    ensures p.initialBackoff <= Backoff(p, n) <= Max(p.initialBackoff, p.maxBackoff)
  {
  }

  /** The documented delay: doubling from InitialBackoff, capped at MaxBackoff. */
  function IdealBackoff(p: Policy, n: nat): Duration
    requires n >= 1
  {
    Min(p.maxBackoff, p.initialBackoff * Pow2(n - 1))
  }

  /** The int64 computation yields the documented delay exactly when the doubled value still fits in
      63 bits, or its truncation happens to reach the cap, or there is nothing to double towards. */
  lemma BackoffIsIdealIff(p: Policy, n: nat)
    requires p.Valid() && n >= 1 && p.initialBackoff <= p.maxBackoff
    ensures Backoff(p, n) == IdealBackoff(p, n) <==>
              || p.initialBackoff * Pow2(n - 1) <= MAX_INT64
              || Shl64(p.initialBackoff, n - 1) >= p.maxBackoff
              || p.initialBackoff == p.maxBackoff
  {
    var v := p.initialBackoff * Pow2(n - 1);
    assert v >= p.initialBackoff by {
      assert Pow2(n - 1) >= 1;
      MulAtLeast(p.initialBackoff, Pow2(n - 1));
    }
    if v <= MAX_INT64 {
      assert Wrap64(v) == v;
    } else {
      assert IdealBackoff(p, n) == p.maxBackoff;
    }
  }

  lemma MulAtLeast(a: int, b: int)
    requires a >= 0 && b >= 1
    ensures a * b >= a
  {
  }

  /** With the default policy the delay is the documented one up to the 34th failure and first drops, to
      one second, at the 35th. */
  lemma DefaultBackoffFirstCollapse(n: nat)
    requires 1 <= n <= 35
    ensures Backoff(DEFAULT_POLICY, n) == if n < 35 then IdealBackoff(DEFAULT_POLICY, n) else 1 * SECOND
    ensures n >= 7 ==> IdealBackoff(DEFAULT_POLICY, n) == 60 * SECOND
  {
    Pow2Is2To34();
    if n < 35 {
      Pow2Monotone(n - 1, 33);
      BackoffIsIdealIff(DEFAULT_POLICY, n);
    }
    if n >= 7 {
      Pow2Monotone(6, n - 1);
      assert Pow2(6) == 64;
    }
  }

  lemma Pow2Is2To34()
    ensures Pow2(33) == 0x2_0000_0000 && Pow2(34) == 0x4_0000_0000
  {
    assert Pow2(8) == 256;
    Pow2Split(8, 8);
    Pow2Split(16, 16);
  }

  /** With the default policy the delay falls back to one second from the 56th failure on. */
  lemma DefaultBackoffCollapses(n: nat)
    requires n >= 56
    ensures Backoff(DEFAULT_POLICY, n) == 1 * SECOND
    ensures IdealBackoff(DEFAULT_POLICY, n) == 60 * SECOND
  {
    assert Pow2(9) == 512;
    Pow2Split(9, n - 1);
    Pow2Split(64, n - 56);
    Pow2Is2To64();
    assert 1 * SECOND * Pow2(n - 1) == 1953125 * (Pow2(9) * Pow2(n - 1));
    var k := 1953125 * Pow2(n - 56);
    assert 1 * SECOND * Pow2(n - 1) == k * TWO_64;
    WrapOfMultiple(k);
    Pow2Monotone(6, n - 1);
    assert Pow2(6) == 64;
  }

  /** One failure every three minutes: the run the back-off does not survive. */
  function EveryThreeMinutes(n: nat): seq<Event> {
    if n == 0 then [] else EveryThreeMinutes(n - 1) + [Failed(ThreeMinuteMark(n - 1))]
  }

  function ThreeMinuteMark(i: int): Time {
    180_000_000_000 * i
  }

  function ThreeMinuteLog(n: nat): seq<Time> {
    if n == 0 then [] else ThreeMinuteLog(n - 1) + [ThreeMinuteMark(n - 1)]
  }

  lemma {:induction false} ThreeMinuteRun(n: nat)
    ensures SinceReset(EveryThreeMinutes(n)) == ThreeMinuteLog(n)
  {
    if n > 0 {
      ThreeMinuteRun(n - 1);
      EveryThreeMinutesStep(n);
    }
  }

  lemma ThreeMinuteWindow(n: nat)
    requires n > 0
    ensures |Run(DEFAULT_POLICY, EveryThreeMinutes(n)).attempts| <= 4
  {
    ThreeMinuteRun(n);
    ThreeMinuteLogSorted(n);
    ThreeMinuteLogShape(n);
    PrunedTrackerRefinesLog(DEFAULT_POLICY, EveryThreeMinutes(n));
    FewInTenMinutes(n);
  }

  lemma ThreeMinuteGate(n: nat)
    ensures Run(DEFAULT_POLICY, EveryThreeMinutes(n)).nextAt ==
              if n == 0 then None else Some(ThreeMinuteMark(n - 1) + Backoff(DEFAULT_POLICY, n))
  {
    hide Backoff;
    ThreeMinuteRun(n);
    ThreeMinuteLogShape(n);
    StreakCountsWholeLog(DEFAULT_POLICY, EveryThreeMinutes(n));
  }

  lemma EveryThreeMinutesStep(n: nat)
    requires n > 0
    ensures var es := EveryThreeMinutes(n);
            es != [] && Front(es) == EveryThreeMinutes(n - 1) && Last(es) == Failed(ThreeMinuteMark(n - 1))
  {
    var shorter := EveryThreeMinutes(n - 1);
    assert Front(shorter + [Failed(ThreeMinuteMark(n - 1))]) == shorter;
  }

  /** A gated run can keep the default tracker unlatched for ever while its streak grows past the
      shift width, so the collapse above is reached: after 35 failures, and after any n >= 56, the next
      attempt is allowed after one second instead of sixty. */
  lemma {:induction false} BackoffCollapseIsReachable(n: nat)
    ensures var es := EveryThreeMinutes(n);
            && |es| == n
            && Gated(DEFAULT_POLICY, es)
            && !Run(DEFAULT_POLICY, es).failed
            && (n == 35 || n >= 56 ==> Run(DEFAULT_POLICY, es).nextAt == Some(ThreeMinuteMark(n - 1) + 1 * SECOND))
  {
    hide Backoff, Prune;
    var p, es := DEFAULT_POLICY, EveryThreeMinutes(n);
    ThreeMinuteGate(n);
    if n > 0 {
      EveryThreeMinutesStep(n);
      BackoffCollapseIsReachable(n - 1);
      ThreeMinuteGate(n - 1);
      ThreeMinuteWindow(n);
      PolicyIsFixed(p, Front(es));
      if n > 1 {
        BackoffBounds(p, n - 1);
      }
      if n == 35 {
        DefaultBackoffFirstCollapse(n);
      }
      if n >= 56 {
        DefaultBackoffCollapses(n);
      }
    }
  }

  lemma {:induction false} ThreeMinuteLogShape(n: nat)
    ensures |ThreeMinuteLog(n)| == n
    ensures n > 0 ==> Last(ThreeMinuteLog(n)) == ThreeMinuteMark(n - 1)
  {
    if n > 0 {
      ThreeMinuteLogShape(n - 1);
    }
  }

  lemma {:induction false} ThreeMinuteLogSorted(n: nat)
    ensures Sorted(ThreeMinuteLog(n))
  {
    if n > 0 {
      ThreeMinuteLogSorted(n - 1);
      ThreeMinuteLogShape(n - 1);
      SortedAppend(ThreeMinuteLog(n - 1), ThreeMinuteMark(n - 1));
    }
  }

  lemma PruneThreeMinuteLog(n: nat, cut: Time)
    requires n > 0
    ensures |Prune(ThreeMinuteLog(n), cut)| <= |Prune(ThreeMinuteLog(n - 1), cut)| + 1
  {
    var shorter := ThreeMinuteLog(n - 1);
    assert Front(shorter + [ThreeMinuteMark(n - 1)]) == shorter;
  }

  /** Ten minutes hold at most four of the marks. */
  lemma FewInTenMinutes(n: nat)
    requires n > 0
    ensures |Prune(ThreeMinuteLog(n), ThreeMinuteMark(n - 1) - 600_000_000_000)| <= 4
  {
    var cut := ThreeMinuteMark(n - 1) - 600_000_000_000;
    var aged := if n > 4 then n - 4 else 0;
    ThreeMinuteLogShape(aged);
    ThreeMinuteLogSorted(aged);
    PruneOld(ThreeMinuteLog(aged), cut);
    PruneMarks(n, aged, cut);
  }

  lemma {:induction false} PruneMarks(n: nat, m: nat, cut: Time)
    requires m <= n
    ensures |Prune(ThreeMinuteLog(n), cut)| <= |Prune(ThreeMinuteLog(m), cut)| + (n - m)
  {
    if m < n {
      PruneThreeMinuteLog(n, cut);
      PruneMarks(n - 1, m, cut);
    }
  }

  /* ---- gated runs ---- */

  /** What the log of a gated run looks like. */
  ghost predicate Shape(p: Policy, log: seq<Time>, latched: bool) {
    && Spaced(p, log) && Sorted(log) && BelowLimit(p, log)
    && |Recent(log, p.window)| <= p.maxRestarts
    && (latched <==> |Recent(log, p.window)| == p.maxRestarts)
  }

  /** One more failure, at an instant the gate allows, keeps that shape. */
  lemma GatedFailureShape(p: Policy, log: seq<Time>, now: Time)
    requires p.Valid() && Shape(p, log, false)
    requires log != [] ==> now >= Last(log) + Backoff(p, |log|)
    ensures Shape(p, log + [now], |Recent(log + [now], p.window)| >= p.maxRestarts)
    ensures log != [] ==> Last(log) <= now
  {
    hide Backoff, Prune;
    assert Front(log + [now]) == log && Last(log + [now]) == now;
    PruneAppend(log, now, now - p.window);
    if log != [] {
      BackoffBounds(p, |log|);
      PruneShrinks(log, Last(log) - p.window, now - p.window);
    } else {
      PruneOld(log, now - p.window);
    }
  }

  /** In a gated run the log is spaced by the delays, no failure but the last brought its window to
      the limit, and the tracker is latched exactly when the last one did. */
  lemma {:induction false} GatedRunShape(p: Policy, es: seq<Event>)
    requires p.Valid() && Gated(p, es)
    ensures var log := SinceReset(es);
            && Spaced(p, log) && Sorted(log) && BelowLimit(p, log)
            && |Recent(log, p.window)| <= p.maxRestarts
            && (Run(p, es).failed <==> |Recent(log, p.window)| == p.maxRestarts)
  {
    hide Backoff, Prune, Recent, Spaced, Sorted, BelowLimit;
    assert Shape(p, SinceReset(es), Run(p, es).failed) by {
      if es != [] && Last(es).Failed? {
        GatedRunShape(p, Front(es));
        SinceResetExtends(es);
        StreakCountsWholeLog(p, Front(es));
        GatedFailureShape(p, SinceReset(Front(es)), Last(es).at);
        PrunedTrackerRefinesLog(p, es);
        PolicyIsFixed(p, Front(es));
      } else {
        NothingIsInShape(p);
      }
    }
  }

  lemma NothingIsInShape(p: Policy)
    requires p.Valid()
    ensures Shape(p, [], false)
  {
  }

  lemma {:induction false} WithinSorted(p: Policy, log: seq<Time>, lo: Time)
    requires p.Valid() && Sorted(log) && BelowLimit(p, log)
    requires |Recent(log, p.window)| <= p.maxRestarts
    ensures |Within(log, lo, p.window)| <= p.maxRestarts
  {
    if log != [] {
      if Last(log) > lo + p.window {
        WithinSorted(p, Front(log), lo);
      } else {
        WithinIsPrune(log, lo, p.window);
        PruneShrinks(log, Last(log) - p.window, lo);
      }
    }
  }

  lemma {:induction false} WithinIsPrune(log: seq<Time>, lo: Time, width: Duration)
    requires Sorted(log) && (log != [] ==> Last(log) <= lo + width)
    ensures Within(log, lo, width) == Prune(log, lo)
  {
    if log != [] {
      WithinIsPrune(Front(log), lo, width);
    }
  }

  /** Between two resets, no half-open interval of length Window holds more than MaxRestarts failures. */
  lemma CrashLoopRateBound(p: Policy, es: seq<Event>, lo: Time)
    requires p.Valid() && Gated(p, es)
    ensures |Within(SinceReset(es), lo, p.window)| <= p.maxRestarts
  {
    GatedRunShape(p, es);
    WithinSorted(p, SinceReset(es), lo);
  }

  /** The latch fires exactly on the failure that brings the window to MaxRestarts. */
  lemma LatchFiresExactlyAtLimit(p: Policy, es: seq<Event>)
    requires p.Valid() && Gated(p, es) && es != [] && Last(es).Failed?
    ensures !Run(p, Front(es)).failed
    ensures Run(p, es).failed <==>
              |Within(SinceReset(es), Last(es).at - p.window, p.window)| == p.maxRestarts
  {
    hide Run, Within, Prune, BelowLimit, Spaced;
    GatedRunShape(p, es);
    SinceResetExtends(es);
    WithinIsPrune(SinceReset(es), Last(es).at - p.window, p.window);
  }

  /** Once latched, further failures and time never unlatch; only Ready or an operator resume does. */
  lemma {:induction false} LatchHoldsUntilReset(p: Policy, es: seq<Event>, more: seq<Event>)
    requires Run(p, es).failed
    requires forall i :: 0 <= i < |more| ==> more[i].Failed?
    ensures Run(p, es + more).failed
  {
    if more == [] {
      assert es + more == es;
    } else {
      assert Front(es + more) == es + Front(more);
      LatchHoldsUntilReset(p, es, Front(more));
    }
  }

  /** The sum of the first n documented delays. */
  function IdealSpan(p: Policy, n: nat): Duration {
    if n == 0 then 0 else IdealSpan(p, n - 1) + IdealBackoff(p, n)
  }

  /** n gated failures since the last reset span at least the n - 1 documented delays, as long as
      the last of them fits in 63 bits. */
  lemma GeometricSpacing(p: Policy, es: seq<Event>)
    requires p.Valid() && Gated(p, es) && p.initialBackoff <= p.maxBackoff
    requires |SinceReset(es)| >= 2
    requires p.initialBackoff * Pow2(|SinceReset(es)| - 2) <= MAX_INT64
    ensures Last(SinceReset(es)) - SinceReset(es)[0] >= IdealSpan(p, |SinceReset(es)| - 1)
  {
    GatedRunShape(p, es);
    SpanOfSpaced(p, SinceReset(es));
  }

  lemma {:induction false} SpanOfSpaced(p: Policy, log: seq<Time>)
    requires p.Valid() && Spaced(p, log) && p.initialBackoff <= p.maxBackoff
    requires |log| >= 1
    requires |log| >= 2 ==> p.initialBackoff * Pow2(|log| - 2) <= MAX_INT64
    ensures Last(log) - log[0] >= IdealSpan(p, |log| - 1)
  {
    hide Backoff, Shl64;
    if |log| >= 2 {
      var n := |log| - 1;
      BackoffIsIdealIff(p, n);
      if n >= 2 {
        assert Pow2(n - 1) == 2 * Pow2(n - 2);
        assert p.initialBackoff * Pow2(n - 1) == 2 * (p.initialBackoff * Pow2(n - 2));
      }
      SpanOfSpaced(p, Front(log));
    }
  }

  /* ---- the gate ---- */

  /** When the gate opens: after any history of failures, Ready observations and resumes, an attempt is allowed
      exactly when the limiter is not latched and the delay that the latest failure imposed is over. */
  lemma CanAttemptIff(p: Policy, es: seq<Event>, now: Time)
    ensures var log := SinceReset(es);
            Run(p, es).CanAttempt(now) <==>
              !Run(p, es).failed && (log == [] || now >= Last(log) + Backoff(p, |log|))
  {
    hide Backoff, Run, SinceReset;
    StreakCountsWholeLog(p, es);
  }

  /** What the delay is, for every streak: the doubled InitialBackoff cut to the int64 with the same low 64
      bits, and then brought between InitialBackoff and MaxBackoff, the former winning. */
  lemma BackoffIsClampedResidue(p: Policy, n: nat) returns (r: int)
    requires n >= 1
    ensures -0x8000_0000_0000_0000 <= r < 0x8000_0000_0000_0000
    ensures (p.initialBackoff * Pow2(n - 1) - r) % 0x1_0000_0000_0000_0000 == 0
    ensures Backoff(p, n) == if r < p.initialBackoff || p.maxBackoff < p.initialBackoff then p.initialBackoff
                             else if r > p.maxBackoff then p.maxBackoff else r
  {
    r := Wrap64(p.initialBackoff * Pow2(n - 1));
    WrapIsCongruent(p.initialBackoff * Pow2(n - 1));
  }

  /** The success path on its own: everything is cleared exactly when the last success is at least
      ResetAfter ago. */
  lemma RecordSuccessIs(t: Tracker, now: Time)
    ensures var t' := t.RecordSuccess(now);
            && t'.lastOK == Some(now) && t'.policy == t.policy
            && if t.lastOK.Some? && t.lastOK.value + t.policy.resetAfter <= now then
                 !t'.failed && t'.attempts == [] && t'.attemptN == 0 && t'.nextAt == None
               else
                 t'.failed == t.failed && t'.attempts == t.attempts && t'.attemptN == t.attemptN &&
                 t'.nextAt == t.nextAt
  {
  }

  /** One minute, ten minutes, five attempts: what a policy without values means. */
  lemma DefaultPolicyIs(p: Policy)
    ensures var q := WithDefaults(p);
            && q.maxRestarts == (if p.maxRestarts > 0 then p.maxRestarts else 5)
            && q.window == (if p.window > 0 then p.window else 600_000_000_000)
            && q.initialBackoff == (if p.initialBackoff > 0 then p.initialBackoff else 1_000_000_000)
            && q.maxBackoff == (if p.maxBackoff > 0 then p.maxBackoff else 60_000_000_000)
            && q.resetAfter == (if p.resetAfter > 0 then p.resetAfter else 600_000_000_000)
  {
  }
}
