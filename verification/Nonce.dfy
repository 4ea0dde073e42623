/** The replay guard of command requests (ipc.go's NonceCache). */
module Nonce {
  import opened Prelude
  import opened Text

  datatype NonceError = EmptyNonce | ReplayedNonce

  datatype Nonces = Nonces(seen: map<string, Time>, ttl: Duration)
  {
    /** What is left once the entries older than the ttl are dropped. */
    function Live(now: Time): map<string, Time> {
      map n | n in seen && now - seen[n] <= ttl :: seen[n]
    }

    function Verdict(nonce: string, now: Time): Option<NonceError> {
      if TrimSpace(nonce) == "" then Some(EmptyNonce)
      else if TrimSpace(nonce) in Live(now) then Some(ReplayedNonce)
      else None
    }

    function Accept(nonce: string, now: Time): Nonces {
      match Verdict(nonce, now)
      case Some(EmptyNonce) => this
      case Some(ReplayedNonce) => this.(seen := Live(now))
      case None => this.(seen := Live(now)[TrimSpace(nonce) := now])
    }
  }

  function NewNonces(ttl: Duration): Nonces {
    Nonces(map[], if ttl <= 0 then 10 * MINUTE else ttl)
  }

  class NonceCache {
    var seen: map<string, Time>
    const ttl: Duration

    ghost function View(): Nonces
      reads this
    {
      Nonces(seen, ttl)
    }

    constructor (t: Duration)
      ensures View() == NewNonces(t)
    {
      seen := map[];
      ttl := if t <= 0 then 10 * MINUTE else t;
    }

    method Accept(raw: string, now: Time) returns (err: Option<NonceError>)
      modifies this
      ensures err == old(View()).Verdict(raw, now)
      ensures View() == old(View()).Accept(raw, now)
    {
      var nonce := TrimSpace(raw);
      if nonce == "" {
        return Some(EmptyNonce);
      }
      var rest := seen.Keys;
      ghost var was := seen;
      while rest != {}
        invariant rest <= was.Keys
        invariant seen == map n | n in was && (n in rest || now - was[n] <= ttl) :: was[n]
        decreases rest
      {
        var k :| k in rest;
        if now - seen[k] > ttl {
          seen := seen - {k};
        }
        rest := rest - {k};
      }
      assert seen == old(View()).Live(now);
      if nonce in seen {
        return Some(ReplayedNonce);
      }
      seen := seen[nonce := now];
      return None;
    }
  }

  /* ---- runs ---- */

  datatype Call = Call(nonce: string, at: Time)

  function At(ttl: Duration, h: seq<Call>, n: nat): Nonces
    requires n <= |h|
  {
    if n == 0 then NewNonces(ttl) else At(ttl, h, n - 1).Accept(h[n - 1].nonce, h[n - 1].at)
  }

  ghost predicate Accepted(ttl: Duration, h: seq<Call>, i: int) {
    0 <= i < |h| && At(ttl, h, i).Verdict(h[i].nonce, h[i].at).None?
  }

  ghost predicate ClockForward(h: seq<Call>) {
    forall i, j :: 0 <= i <= j < |h| ==> h[i].at <= h[j].at
  }

  /** The cache remembers only acceptances. */
  ghost predicate Sound(c: Nonces, ttl: Duration, h: seq<Call>, n: nat)
    requires n <= |h|
  {
    forall k :: k in c.seen ==>
      exists j :: j < n && Accepted(ttl, h, j) && TrimSpace(h[j].nonce) == k && h[j].at == c.seen[k]
  }

  /** An acceptance is either still remembered, possibly through a later one, or out of its ttl. */
  ghost predicate Remembered(c: Nonces, ttl: Duration, h: seq<Call>, n: nat, j: int)
    requires n <= |h|
  {
    j < n && Accepted(ttl, h, j) ==>
      var k := TrimSpace(h[j].nonce);
      (k in c.seen && c.seen[k] >= h[j].at) || h[n - 1].at - h[j].at > c.ttl
  }

  lemma SoundStep(ttl: Duration, h: seq<Call>, n: nat)
    requires 0 < n <= |h|
    requires Sound(At(ttl, h, n - 1), ttl, h, n - 1)
    ensures Sound(At(ttl, h, n), ttl, h, n)
  {
    hide TrimSpace;
    var before, after := At(ttl, h, n - 1), At(ttl, h, n);
    forall k | k in after.seen
      ensures exists j :: j < n && Accepted(ttl, h, j) && TrimSpace(h[j].nonce) == k && h[j].at == after.seen[k]
    {
      if k !in before.seen || after.seen[k] != before.seen[k] {
        assert Accepted(ttl, h, n - 1);
      }
    }
  }

  lemma RememberedStep(ttl: Duration, h: seq<Call>, n: nat, j: int)
    requires 0 < n <= |h| && ClockForward(h)
    requires Remembered(At(ttl, h, n - 1), ttl, h, n - 1, j)
    ensures Remembered(At(ttl, h, n), ttl, h, n, j)
  {
    hide TrimSpace;
    if 0 <= j < n - 1 {
      assert h[j].at <= h[n - 1].at && h[n - 2].at <= h[n - 1].at;
    }
  }

  lemma {:induction false} CacheAgrees(ttl: Duration, h: seq<Call>, n: nat)
    requires n <= |h| && ClockForward(h)
    ensures Sound(At(ttl, h, n), ttl, h, n)
    ensures forall j :: Remembered(At(ttl, h, n), ttl, h, n, j)
  {
    hide TrimSpace, Nonces.Accept, Nonces.Verdict;
    if n > 0 {
      CacheAgrees(ttl, h, n - 1);
      SoundStep(ttl, h, n);
      forall j ensures Remembered(At(ttl, h, n), ttl, h, n, j) {
        RememberedStep(ttl, h, n, j);
      }
    }
  }

  lemma {:induction false} TtlIsFixed(ttl: Duration, h: seq<Call>, n: nat)
    requires n <= |h|
    ensures At(ttl, h, n).ttl == NewNonces(ttl).ttl
  {
    if n > 0 {
      TtlIsFixed(ttl, h, n - 1);
    }
  }

  /** A call is accepted exactly when its trimmed nonce is non-empty and was not accepted within the
      last ttl. */
  lemma AcceptedIffNotSeenWithinTtl(ttl: Duration, h: seq<Call>, i: nat)
    requires i < |h| && ClockForward(h)
    ensures Accepted(ttl, h, i) <==>
              && TrimSpace(h[i].nonce) != ""
              && forall j :: 0 <= j < i && Accepted(ttl, h, j) && TrimSpace(h[j].nonce) == TrimSpace(h[i].nonce)
                   ==> h[i].at - h[j].at > NewNonces(ttl).ttl
  {
    hide TrimSpace, At;
    CacheAgrees(ttl, h, i);
    TtlIsFixed(ttl, h, i);
    var c, k := At(ttl, h, i), TrimSpace(h[i].nonce);
    forall j | 0 <= j < i && Accepted(ttl, h, j) && TrimSpace(h[j].nonce) == k && Accepted(ttl, h, i)
      ensures h[i].at - h[j].at > c.ttl
    {
      assert Remembered(c, ttl, h, i, j);
      assert h[i - 1].at <= h[i].at;
    }
  }

  /** Why a call is refused: empty after trimming, or else accepted before and still in its ttl. */
  lemma RefusalIs(ttl: Duration, h: seq<Call>, i: nat)
    requires i < |h| && ClockForward(h)
    ensures var v := At(ttl, h, i).Verdict(h[i].nonce, h[i].at);
            && (v == Some(EmptyNonce) <==> TrimSpace(h[i].nonce) == "")
            && (v == Some(ReplayedNonce) <==>
                  && TrimSpace(h[i].nonce) != ""
                  && exists j :: 0 <= j < i && Accepted(ttl, h, j) && TrimSpace(h[j].nonce) == TrimSpace(h[i].nonce)
                       && h[i].at - h[j].at <= NewNonces(ttl).ttl)
  {
    hide TrimSpace, At;
    AcceptedIffNotSeenWithinTtl(ttl, h, i);
  }

  lemma DefaultTtlIs(ttl: Duration)
    ensures NewNonces(ttl).ttl == if ttl > 0 then ttl else 600_000_000_000
  {
  }
}
