/** The crash-loop limiter of restart_policy.go: a sliding window of failures, a shifted and
    clamped back-off, and the Failed latch. The class updates its buffer in place; the
    datatype Tracker is the value it stands for. */
module RestartPolicy {
  import opened Prelude

  datatype Policy = Policy(
    maxRestarts: int,
    window: Duration,
    initialBackoff: Duration,
    maxBackoff: Duration,
    resetAfter: Duration)
  {
    predicate Valid() {
      && 0 < maxRestarts
      && 0 < window <= MAX_INT64
      && 0 < initialBackoff <= MAX_INT64
      && 0 < maxBackoff <= MAX_INT64
      && 0 < resetAfter <= MAX_INT64
    }
  }

  const DEFAULT_POLICY := Policy(5, 10 * MINUTE, 1 * SECOND, 60 * SECOND, 10 * MINUTE)

  /** Every non-positive field of a policy falls back to its default. */
  function WithDefaults(p: Policy): Policy {
    Policy(
      if p.maxRestarts <= 0 then DEFAULT_POLICY.maxRestarts else p.maxRestarts,
      if p.window <= 0 then DEFAULT_POLICY.window else p.window,
      if p.initialBackoff <= 0 then DEFAULT_POLICY.initialBackoff else p.initialBackoff,
      if p.maxBackoff <= 0 then DEFAULT_POLICY.maxBackoff else p.maxBackoff,
      if p.resetAfter <= 0 then DEFAULT_POLICY.resetAfter else p.resetAfter)
  }

  /** The attempts later than cut, in order. */
  function Prune(attempts: seq<Time>, cut: Time): (kept: seq<Time>)
    ensures |kept| <= |attempts|
  {
    if attempts == [] then []
    else if Last(attempts) > cut then Prune(Front(attempts), cut) + [Last(attempts)]
    else Prune(Front(attempts), cut)
  }

  /** The delay imposed by the n-th consecutive failure, as the code computes it on int64. */
  function Backoff(p: Policy, n: nat): Duration
    requires n >= 1
  {
    var shifted := Shl64(p.initialBackoff, n - 1);
    var capped := if shifted > p.maxBackoff then p.maxBackoff else shifted;
    if capped < p.initialBackoff then p.initialBackoff else capped
  }

  function NewTracker(p: Policy): Tracker {
    Tracker(p, [], None, None, false, 0)
  }

  datatype Tracker = Tracker(
    policy: Policy,
    attempts: seq<Time>,
    lastOK: Option<Time>,
    nextAt: Option<Time>,
    failed: bool,
    attemptN: nat)
  {
    predicate CanAttempt(now: Time) {
      !failed && !(nextAt.Some? && now < nextAt.value)
    }

    function RecordFailure(now: Time): Tracker {
      var kept := Prune(attempts, now - policy.window) + [now];
      this.(attempts := kept,
            attemptN := attemptN + 1,
            nextAt := Some(now + Backoff(policy, attemptN + 1)),
            failed := failed || |kept| >= policy.maxRestarts)
    }

    function RecordSuccess(now: Time): Tracker {
      if lastOK.Some? && now - lastOK.value >= policy.resetAfter then
        ClearFailed().(lastOK := Some(now))
      else
        this.(lastOK := Some(now))
    }

    /** Whatever ResetAfter says, one Ready observation clears the latch, the window and the streak. */
    function MarkReady(now: Time): (r: Tracker)
      ensures r == ClearFailed().(lastOK := Some(now))
    {
      RecordSuccess(now).(nextAt := None, attemptN := 0, failed := false, attempts := [])
    }

    function ClearFailed(): Tracker {
      this.(failed := false, attempts := [], attemptN := 0, nextAt := None)
    }
  }

  /** restart_policy.go's RestartTracker. buf[..len] is the Go slice t.attempts. */
  class RestartTracker {
    const policy: Policy
    var buf: array<Time>
    var len: nat
    var lastOK: Option<Time>
    var nextAt: Option<Time>
    var failed: bool
    var attemptN: nat

    ghost predicate Valid()
      reads this
    {
      len <= buf.Length && policy.Valid()
    }

    ghost function View(): Tracker
      requires Valid()
      reads this, buf
    {
      Tracker(policy, buf[..len], lastOK, nextAt, failed, attemptN)
    }

    constructor (p: Policy)
      requires IsInt64(p.window) && IsInt64(p.initialBackoff) && IsInt64(p.maxBackoff) && IsInt64(p.resetAfter)
      ensures Valid() && fresh(buf)
      ensures View() == NewTracker(WithDefaults(p))
    {
      policy := WithDefaults(p);
      buf := new Time[0];
      len := 0;
      lastOK := None;
      nextAt := None;
      failed := false;
      attemptN := 0;
    }

    /** Drops the attempts outside the window by compacting the buffer in place. */
    method PruneAttempts(now: Time)
      requires Valid()
      modifies this`len, buf
      ensures Valid()
      ensures View() == old(View()).(attempts := Prune(old(buf[..len]), now - policy.window))
    {
      var cut := now - policy.window;
      ghost var was := buf[..len];
      var kept, i := 0, 0;
      while i < len
        invariant 0 <= kept <= i <= len == |was|
        invariant buf[..kept] == Prune(was[..i], cut)
        invariant forall k :: i <= k < len ==> buf[k] == was[k]
      {
        assert Front(was[..i + 1]) == was[..i];
        if buf[i] > cut {
          buf[kept] := buf[i];
          kept := kept + 1;
          assert buf[..kept] == buf[..kept - 1] + [was[i]];
        }
        i := i + 1;
      }
      assert was[..i] == was;
      len := kept;
    }

    /** Go's append: grows into a fresh, larger buffer when the current one is full. */
    method Append(now: Time)
      requires Valid()
      modifies this`len, this`buf, buf
      ensures Valid() && (buf == old(buf) || fresh(buf))
      ensures View() == old(View()).(attempts := old(buf[..len]) + [now])
    {
      if len == buf.Length {
        var grown := new Time[2 * len + 1];
        var i := 0;
        while i < len
          invariant 0 <= i <= len
          invariant grown[..i] == buf[..i]
          modifies grown
        {
          grown[i] := buf[i];
          i := i + 1;
        }
        buf := grown;
      }
      buf[len] := now;
      len := len + 1;
      assert buf[..len] == buf[..len - 1] + [now];
    }

    method RecordFailure(now: Time) returns (backoff: Duration, latchedFailed: bool)
      requires Valid()
      modifies this, buf
      ensures Valid() && (buf == old(buf) || fresh(buf))
      ensures View() == old(View()).RecordFailure(now)
      ensures backoff == Backoff(policy, attemptN)
      ensures latchedFailed <==> |View().attempts| >= policy.maxRestarts
    {
      hide Prune, Shl64;
      PruneAttempts(now);
      Append(now);
      attemptN := attemptN + 1;
      backoff := Shl64(policy.initialBackoff, attemptN - 1);
      if backoff > policy.maxBackoff {
        backoff := policy.maxBackoff;
      }
      if backoff < policy.initialBackoff {
        backoff := policy.initialBackoff;
      }
      nextAt := Some(now + backoff);
      latchedFailed := false;
      if len >= policy.maxRestarts {
        failed := true;
        latchedFailed := true;
      }
    }

    method CanAttempt(now: Time) returns (ok: bool)
      requires Valid()
      ensures ok <==> View().CanAttempt(now)
    {
      if failed {
        return false;
      }
      if nextAt.Some? && now < nextAt.value {
        return false;
      }
      return true;
    }

    method RecordSuccess(now: Time)
      requires Valid()
      modifies this
      ensures Valid() && buf == old(buf)
      ensures View() == old(View()).RecordSuccess(now)
    {
      if lastOK == None {
        lastOK := Some(now);
        return;
      }
      if now - lastOK.value >= policy.resetAfter {
        ClearFailed();
      }
      lastOK := Some(now);
    }

    method MarkReady(now: Time)
      requires Valid()
      modifies this
      ensures Valid() && buf == old(buf)
      ensures View() == old(View()).MarkReady(now)
    {
      RecordSuccess(now);
      nextAt := None;
      attemptN := 0;
      failed := false;
      len := 0;
    }

    method ClearFailed()
      requires Valid()
      modifies this
      ensures Valid() && buf == old(buf)
      ensures View() == old(View()).ClearFailed()
    {
      failed := false;
      len := 0;
      attemptN := 0;
      nextAt := None;
    }
  }
}
