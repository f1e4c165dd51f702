/**
  The duplicate-submission detector of internal/security/dedupe.go.

  The map sends a content key to the instant its entry expires. A key seen
  before its expiry is reported as seen, and its expiry is not pushed back.
  Otherwise the key's expiry is set to `now + window`, every entry that
  expired before `now` is swept out, and the key is reported as new.
  Times are nanoseconds, `now` is the single clock reading of the call.
*/
module Dedupe {

  /** The detector's map after a call, and the call's answer. */
  datatype Observation = Observation(records: map<string, int>, seen: bool)

  /** The sweep: the entries `now` is not after. */
  function SweepExpired(records: map<string, int>, now: int): map<string, int> {
    map k | k in records && !(now > records[k]) :: records[k]
  }

  /** `SeenRecently` as a function of the map before the call. */
  function SeenStep(records: map<string, int>, key: string, window: int, now: int): Observation {
    if key in records && now < records[key] then Observation(records, true)
    else Observation(SweepExpired(records[key := now + window], now), false)
  }

  /** A key whose entry has not yet expired is seen, and the map (its expiry included) stays as it was. */
  lemma HitKeepsExpiry(records: map<string, int>, key: string, window: int, now: int)
    requires key in records && now < records[key]
    ensures SeenStep(records, key, window, now) == Observation(records, true)
  {
  }

  /**
    Otherwise (no entry, or one with `expireAt <= now`) the answer is "not
    seen": the key's expiry becomes `now + window` (kept whenever
    `window >= 0`) and of the other entries exactly those that expired
    before `now` are deleted.
  */
  lemma MissRecordsExpiry(records: map<string, int>, key: string, window: int, now: int)
    requires !(key in records && now < records[key])
    ensures var o := SeenStep(records, key, window, now);
      && !o.seen
      && (key in o.records <==> 0 <= window)
      && (key in o.records ==> o.records[key] == now + window)
      && (forall k :: k != key ==>
            (k in o.records <==> k in records && now <= records[k])
            && (k in o.records ==> o.records[k] == records[k]))
  {
  }

  /**
    After a miss at `now`, a later call on the same key (at `later >= now`)
    reports "seen" exactly when `later` is before `now + window`: an entry
    whose expiry equals the clock counts as not seen.
  */
  lemma SeenAgainExactlyWithinWindow(records: map<string, int>, key: string, window: int, now: int, later: int, window2: int)
    requires !SeenStep(records, key, window, now).seen
    requires now <= later
    ensures SeenStep(SeenStep(records, key, window, now).records, key, window2, later).seen <==> later < now + window
  {
  }

  /** With a positive window, two calls on one key at the same instant answer "new" and then "seen". */
  lemma SameInstantTwice(records: map<string, int>, key: string, window: int, now: int)
    requires 0 < window
    requires key !in records
    ensures !SeenStep(records, key, window, now).seen
    ensures SeenStep(SeenStep(records, key, window, now).records, key, window, now).seen
  {
    SeenAgainExactlyWithinWindow(records, key, window, now, now, window);
  }

  /** `DuplicateDetector`: the map guarded by the detector's mutex. */
  class DuplicateDetector {
    var records: map<string, int>

    /** `NewDuplicateDetector`. */
    constructor ()
      ensures records == map[]
    {
      records := map[];
    }

    /** `SeenRecently`. */
    method SeenRecently(key: string, window: int, now: int) returns (seen: bool)
      modifies this
      ensures Observation(records, seen) == SeenStep(old(records), key, window, now)
    {
      if key in records {
        var expireAt := records[key];
        if now < expireAt {
          return true;
        }
      }

      records := records[key := now + window];
      var pending := records.Keys;
      ghost var written := records;
      while pending != {}
        invariant pending <= written.Keys
        invariant forall k :: k in records <==> k in written && (k in pending || !(now > written[k]))
        invariant forall k :: k in records ==> records[k] == written[k]
        decreases pending
      {
        var k :| k in pending;
        if now > records[k] {
          records := records - {k};
        }
        pending := pending - {k};
      }
      return false;
    }
  }
}
