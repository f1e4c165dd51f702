/**
  The fixed-window rate limiter of internal/security/ratelimit.go.

  Each key has a window start and a count. A call resets the window when the
  key is new or its window has run out, denies when the count has reached the
  limit, and otherwise counts the call. Resetting also sweeps out every key
  whose window started two windows ago or more.

  Times are nanoseconds. `now` is the clock read at the start of `Allow`;
  `now2` is the second reading that `cleanupExpired` takes.
*/
module RateLimit {

  /** `fixedWindowRecord`. */
  datatype WindowRecord = WindowRecord(windowStart: int, count: int)

  /** The limiter's map after a call, and the call's answer. */
  datatype Decision = Decision(records: map<string, WindowRecord>, allowed: bool)

  /** `cleanupExpired`: the keys whose window started less than `2 * window` before `now2`. */
  function Sweep(records: map<string, WindowRecord>, window: int, now2: int): map<string, WindowRecord> {
    map k | k in records && !(now2 - records[k].windowStart >= window * 2) :: records[k]
  }

  /** `Allow` as a function of the map before the call. */
  function AllowStep(records: map<string, WindowRecord>, key: string, limit: int, window: int, now: int, now2: int): Decision {
    if limit <= 0 then Decision(records, false)
    else if key !in records || now - records[key].windowStart >= window then
      Decision(Sweep(records[key := WindowRecord(now, 1)], window, now2), true)
    else if records[key].count >= limit then Decision(records, false)
    else Decision(records[key := records[key].(count := records[key].count + 1)], true)
  }

  /** Every stored count is at least 1. */
  ghost predicate CountsPositive(records: map<string, WindowRecord>) {
    forall k :: k in records ==> records[k].count >= 1
  }

  /** A limit of zero or less denies and leaves the map as it was. */
  lemma NonPositiveLimitDenies(records: map<string, WindowRecord>, key: string, limit: int, window: int, now: int, now2: int)
    requires limit <= 0
    ensures AllowStep(records, key, limit, window, now, now2) == Decision(records, false)
  {
  }

  /**
    A new key, or one whose window has run out, is allowed and restarted at
    `(now, 1)`; the sweep then keeps exactly the keys whose window started
    less than two windows before `now2`, so the restarted key survives
    exactly when `now2 - now < 2 * window` (always, when `window > 0` and
    the two readings coincide).
  */
  lemma ResetRestartsWindow(records: map<string, WindowRecord>, key: string, limit: int, window: int, now: int, now2: int)
    requires 0 < limit
    requires key !in records || now - records[key].windowStart >= window
    ensures var d := AllowStep(records, key, limit, window, now, now2);
      && d.allowed
      && (key in d.records <==> now2 - now < window * 2)
      && (key in d.records ==> d.records[key] == WindowRecord(now, 1))
      && (forall k :: k != key ==>
            (k in d.records <==> k in records && now2 - records[k].windowStart < window * 2)
            && (k in d.records ==> d.records[k] == records[k]))
  {
  }

  /**
    Inside the window a call is allowed exactly when the count is below the
    limit; an allowed call adds exactly one, a denied one changes nothing,
    and no other key is touched either way.
  */
  lemma WithinWindowCountsOrDenies(records: map<string, WindowRecord>, key: string, limit: int, window: int, now: int, now2: int)
    requires 0 < limit
    requires key in records && now - records[key].windowStart < window
    ensures var d := AllowStep(records, key, limit, window, now, now2);
      && (d.allowed <==> records[key].count < limit)
      && d.records.Keys == records.Keys
      && d.records[key] == (if d.allowed then records[key].(count := records[key].count + 1) else records[key])
      && (forall k :: k in records && k != key ==> d.records[k] == records[k])
  {
  }

  /** For a fixed limit of at least 1, a key's count stays within `1..limit`. */
  lemma CountStaysWithinLimit(records: map<string, WindowRecord>, key: string, limit: int, window: int, now: int, now2: int)
    requires 1 <= limit
    requires key in records ==> 1 <= records[key].count <= limit
    ensures var d := AllowStep(records, key, limit, window, now, now2);
      key in d.records ==> 1 <= d.records[key].count <= limit
  {
  }

  /** `Allow` never stores a count below 1. */
  lemma AllowKeepsCountsPositive(records: map<string, WindowRecord>, key: string, limit: int, window: int, now: int, now2: int)
    requires CountsPositive(records)
    ensures CountsPositive(AllowStep(records, key, limit, window, now, now2).records)
  {
  }

  /** The result of a run of calls on one key, each reading the clock once. */
  datatype RunResult = RunResult(records: map<string, WindowRecord>, allowed: nat)

  /** Calls `Allow(key, limit, window)` at each instant of `times` in turn, counting the allowed ones. */
  function RunCalls(records: map<string, WindowRecord>, key: string, limit: int, window: int, times: seq<int>): RunResult
    decreases |times|
  {
    if times == [] then RunResult(records, 0)
    else
      var d := AllowStep(records, key, limit, window, times[0], times[0]);
      var rest := RunCalls(d.records, key, limit, window, times[1..]);
      RunResult(rest.records, rest.allowed + (if d.allowed then 1 else 0))
  }

  function Min(a: int, b: int): int {
    if a < b then a else b
  }

  /**
    While a window lasts, the calls on its key are allowed exactly until the
    count reaches the limit: of `n` calls, `min(n, limit - count)` are allowed
    (none once the count is at the limit, or when the limit is not positive),
    and the count grows by that many.
  */
  lemma {:induction false} RunWithinWindow(records: map<string, WindowRecord>, key: string, limit: int, window: int, times: seq<int>)
    requires key in records
    requires forall i :: 0 <= i < |times| ==> times[i] - records[key].windowStart < window
    ensures var r := RunCalls(records, key, limit, window, times);
      var room := if 0 < limit && records[key].count < limit then limit - records[key].count else 0;
      && key in r.records
      && r.records[key] == records[key].(count := records[key].count + r.allowed)
      && r.allowed == Min(|times|, room)
    decreases |times|
  {
    if times != [] {
      var d := AllowStep(records, key, limit, window, times[0], times[0]);
      assert d.records[key].windowStart == records[key].windowStart;
      assert d.allowed <==> 0 < limit && records[key].count < limit;
      assert d.records[key].count == records[key].count + (if d.allowed then 1 else 0);
      RunWithinWindow(d.records, key, limit, window, times[1..]);
    }
  }

  /**
    Between two resets at most `limit` calls get through: a call that opens a
    new window, followed by calls inside that window, is allowed at most
    `limit` times in all.
  */
  lemma AtMostLimitPerWindow(records: map<string, WindowRecord>, key: string, limit: int, window: int, times: seq<int>)
    requires 1 <= limit && 0 < window
    requires times != []
    requires key !in records || times[0] - records[key].windowStart >= window
    requires forall i :: 0 < i < |times| ==> times[i] - times[0] < window
    ensures RunCalls(records, key, limit, window, times).allowed == Min(|times|, limit)
  {
    var d := AllowStep(records, key, limit, window, times[0], times[0]);
    assert key in d.records && d.records[key] == WindowRecord(times[0], 1);
    RunWithinWindow(d.records, key, limit, window, times[1..]);
  }

  /**
    With a limit of 6 and a window of 15 minutes, seven calls at the same
    instant: the first six are allowed and the seventh is denied.
  */
  lemma SixthAllowedSeventhDenied(records: map<string, WindowRecord>, key: string, now: int)
    requires key !in records
    ensures RunCalls(records, key, 6, 15 * 60 * 1_000_000_000, seq(6, _ => now)).allowed == 6
    ensures RunCalls(records, key, 6, 15 * 60 * 1_000_000_000, seq(7, _ => now)).allowed == 6
  {
    AtMostLimitPerWindow(records, key, 6, 15 * 60 * 1_000_000_000, seq(6, _ => now));
    AtMostLimitPerWindow(records, key, 6, 15 * 60 * 1_000_000_000, seq(7, _ => now));
  }

  /** `FixedWindowLimiter`: the map guarded by the limiter's mutex. */
  class FixedWindowLimiter {
    var records: map<string, WindowRecord>

    ghost predicate Valid()
      reads this
    {
      CountsPositive(records)
    }

    /** `NewFixedWindowLimiter`. */
    constructor ()
      ensures Valid() && records == map[]
    {
      records := map[];
    }

    /** `Allow`. */
    method Allow(key: string, limit: int, window: int, now: int, now2: int) returns (allowed: bool)
      requires Valid()
      modifies this
      ensures Valid()
      ensures Decision(records, allowed) == AllowStep(old(records), key, limit, window, now, now2)
    {
      if limit <= 0 {
        return false;
      }
      if key !in records || now - records[key].windowStart >= window {
        records := records[key := WindowRecord(now, 1)];
        CleanupExpired(window, now2);
        return true;
      }
      var record := records[key];
      if record.count >= limit {
        return false;
      }
      record := record.(count := record.count + 1);
      records := records[key := record];
      return true;
    }

    /** `cleanupExpired`: delete every key whose window started at least `2 * window` before `now2`. */
    method CleanupExpired(window: int, now2: int)
      modifies this
      ensures records == Sweep(old(records), window, now2)
    {
      var pending := records.Keys;
      while pending != {}
        invariant pending <= old(records).Keys
        invariant forall k :: k in records <==>
          k in old(records) && (k in pending || !(now2 - old(records)[k].windowStart >= window * 2))
        invariant forall k :: k in records ==> records[k] == old(records)[k]
        decreases pending
      {
        var k :| k in pending;
        if now2 - records[k].windowStart >= window * 2 {
          records := records - {k};
        }
        pending := pending - {k};
      }
    }
  }
}
