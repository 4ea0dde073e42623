/** The gate that suspends automatic recovery during updates (update_suppress.go). */
module UpdateSuppress {
  import opened Prelude

  datatype Source = NotSuppressed | ByApi | ByEnv | ByFile

  datatype Gate = Gate(apiOn: bool, apiExpire: Option<Time>)
  {
    function SetAPI(on: bool, ttl: Duration, now: Time): Gate {
      Gate(on, if !on || ttl <= 0 then None else Some(now + ttl))
    }

    predicate Expired(now: Time) {
      apiOn && apiExpire.Some? && now > apiExpire.value
    }

    /** Asking clears an API flag whose time is up. */
    function Ask(now: Time): Gate {
      if Expired(now) then Gate(false, None) else this
    }

    /** env: HERMES_WATCHDOG_UPDATE_IN_PROGRESS is truthy; file: update.lock exists. */
    function Active(now: Time, env: bool, file: bool): Source {
      if apiOn && !Expired(now) then ByApi
      else if env then ByEnv
      else if file then ByFile
      else NotSuppressed
    }
  }

  function NewGate(): Gate {
    Gate(false, None)
  }

  class UpdateSuppressGate {
    var apiOn: bool
    var apiExpire: Option<Time>

    ghost function View(): Gate
      reads this
    {
      Gate(apiOn, apiExpire)
    }

    constructor ()
      ensures View() == NewGate()
    {
      apiOn := false;
      apiExpire := None;
    }

    method SetAPI(on: bool, ttl: Duration, now: Time)
      modifies this
      ensures View() == old(View()).SetAPI(on, ttl, now)
    {
      apiOn := on;
      if !on || ttl <= 0 {
        apiExpire := None;
        return;
      }
      apiExpire := Some(now + ttl);
    }

    method Active(now: Time, env: bool, file: bool) returns (source: Source)
      modifies this
      ensures View() == old(View()).Ask(now)
      ensures source == old(View()).Active(now, env, file)
    {
      if apiOn {
        if apiExpire.Some? && now > apiExpire.value {
          apiOn := false;
          apiExpire := None;
        } else {
          return ByApi;
        }
      }
      if env {
        return ByEnv;
      }
      if file {
        return ByFile;
      }
      return NotSuppressed;
    }
  }

  /* ---- runs ---- */

  datatype Event = Set(on: bool, ttl: Duration, at: Time) | Asked(at: Time)

  function At(h: seq<Event>, n: nat): Gate
    requires n <= |h|
  {
    if n == 0 then NewGate()
    else match h[n - 1]
         case Set(on, ttl, at) => At(h, n - 1).SetAPI(on, ttl, at)
         case Asked(at) => At(h, n - 1).Ask(at)
  }

  /** Event i is the last admin request among the first n events. */
  predicate LastSet(h: seq<Event>, n: nat, i: int)
    requires n <= |h|
  {
    0 <= i < n && h[i].Set? && forall j :: i < j < n ==> !h[j].Set?
  }

  predicate StillOn(e: Event, now: Time) {
    e.Set? && e.on && (e.ttl <= 0 || now <= e.at + e.ttl)
  }

  ghost predicate ClockForward(h: seq<Event>) {
    forall i, j :: 0 <= i <= j < |h| ==> h[i].at <= h[j].at
  }

  /** However often the gate was asked in between, and whatever that cleared, with a clock that never
      goes back the API suppresses recovery exactly while the last admin request is on and inside its
      time to live. */
  lemma {:induction false} LazyExpiryIsInvisible(h: seq<Event>, n: nat, now: Time)
    requires n <= |h| && ClockForward(h)
    requires n > 0 ==> h[n - 1].at <= now
    ensures At(h, n).Active(now, false, false) == ByApi <==> exists i :: LastSet(h, n, i) && StillOn(h[i], now)
  {
    if n > 0 {
      if h[n - 1].Set? {
        assert LastSet(h, n, n - 1);
      } else {
        assert n > 1 ==> h[n - 2].at <= h[n - 1].at;
        LazyExpiryIsInvisible(h, n - 1, now);
        forall i ensures LastSet(h, n, i) <==> LastSet(h, n - 1, i) {
        }
        if i :| LastSet(h, n - 1, i) && StillOn(h[i], now) {
          assert LastSet(h, n, i);
        }
      }
    }
  }

  /** Which source is named, after any run: the API while its last request is on and in time, else the
      environment, else the lock file. */
  lemma SourceIs(h: seq<Event>, n: nat, now: Time, env: bool, file: bool)
    requires n <= |h| && ClockForward(h)
    requires n > 0 ==> h[n - 1].at <= now
    ensures var api := exists i :: LastSet(h, n, i) && StillOn(h[i], now);
            At(h, n).Active(now, env, file) ==
              if api then ByApi else if env then ByEnv else if file then ByFile else NotSuppressed
  {
    hide At, LastSet, StillOn;
    LazyExpiryIsInvisible(h, n, now);
  }

  /** The gate's own record: asking forgets a request whose time is up, both parts of it, and nothing else; a
      request is remembered with the instant its time is up, if it is on and has one. */
  lemma RecordIs(g: Gate, now: Time, on: bool, ttl: Duration)
    ensures g.Ask(now) == if g.apiOn && g.apiExpire.Some? && g.apiExpire.value < now then NewGate() else g
    ensures g.SetAPI(on, ttl, now) == Gate(on, if on && ttl > 0 then Some(now + ttl) else None)
    ensures NewGate() == Gate(false, None)
  {
  }
}
