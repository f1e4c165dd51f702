/**
  The challenge-response check of internal/security/challenge.go.

  A `ChallengeManager` keeps two maps: challenge id to record, and client IP
  to the instant its block ends. `Issue` hands out a one-time bundle bound to
  the caller's IP; `VerifySubmission` runs an ordered chain of checks against
  a submission signed with the bundle's secret. Both first drop the records
  and blocks that have run out.

  Time is an integer count of nanoseconds since the Unix epoch, passed in as
  `now`; durations are nanoseconds too. SHA-256 and HMAC-SHA256 (both
  returning lower-case hex) are the function values of a `Crypto`; the random
  id, secret and nonce are parameters of `Issue`.

  Each operation has a specification function (`IssueStep`, `VerifyStep`) on
  a `State` value; the lemmas below are about those functions, and the class
  methods are proved to perform exactly those steps.
*/
module Challenge {
  import opened Wrappers
  import opened Strings
  import opened Decimal

  newtype byte = x: int | 0 <= x < 256

  /** `time.Second`, in nanoseconds. */
  const Second: int := 1_000_000_000

  /** What the client receives: id, signing secret, nonce, and the expiry instant. */
  datatype ChallengeBundle = ChallengeBundle(challengeId: string, clientSecret: string, nonce: string, expiresAt: int)

  /** The server's shadow of a bundle: the bundle, the issuing IP, the used flag, the failed-signature count. */
  datatype ChallengeRecord = ChallengeRecord(bundle: ChallengeBundle, issuedIp: string, used: bool, failCount: int)

  /** The seven error values, in the order the source declares them. */
  datatype VerifyError =
    | ChallengeMissing
    | ChallengeExpired
    | ChallengeUsed
    | SignatureInvalid
    | TimestampInvalid
    | ClientBlocked
    | ChallengeIpMismatch

  /** The manager's configuration: challenge lifetime, allowed clock skew, failures before a block, block length. */
  datatype Policy = Policy(ttl: int, timestampSkew: int, failThreshold: int, blockDuration: int)

  /** The manager's two maps. */
  datatype State = State(records: map<string, ChallengeRecord>, blocked: map<string, int>)

  /** The arguments of `VerifySubmission` other than the clock. */
  datatype Submission = Submission(
    clientIp: string,
    challengeId: string,
    timestampRaw: string,
    signatureRaw: string,
    httpMethod: string,
    path: string,
    body: seq<byte>)

  /** SHA-256 of the body and HMAC-SHA256 (key, message), both as lower-case hex. */
  datatype Crypto = Crypto(sha256Hex: seq<byte> -> string, hmacSha256Hex: (string, string) -> string)

  /** The state after a verification attempt and the error it returns (`Pass` is `nil`). */
  datatype Transition = Transition(state: State, outcome: Outcome<VerifyError>)

  /** The state after `Issue` and the bundle it returns. */
  datatype Issued = Issued(state: State, bundle: ChallengeBundle)

  // ---------------------------------------------------------------------------
  // Lazy cleanup

  /** The records `cleanup` keeps: those whose expiry is not before `now`. */
  function PurgeRecords(records: map<string, ChallengeRecord>, now: int): map<string, ChallengeRecord> {
    map id | id in records && !(records[id].bundle.expiresAt < now) :: records[id]
  }

  /** The blocks `cleanup` keeps: those `now` is not after. */
  function PurgeBlocks(blocked: map<string, int>, now: int): map<string, int> {
    map ip | ip in blocked && !(now > blocked[ip]) :: blocked[ip]
  }

  /** `cleanup(now)` on both maps. */
  function Cleaned(s: State, now: int): State {
    State(PurgeRecords(s.records, now), PurgeBlocks(s.blocked, now))
  }

  /** No record has expired and no block has ended before `now`. */
  ghost predicate NothingStale(s: State, now: int) {
    && (forall id :: id in s.records ==> !(s.records[id].bundle.expiresAt < now))
    && (forall ip :: ip in s.blocked ==> !(s.blocked[ip] < now))
  }

  /**
    What every reachable state satisfies: each record sits under its own
    challenge id, and no record is marked used (a used record is deleted at
    once).
  */
  ghost predicate WellFormed(s: State) {
    forall id :: id in s.records ==> s.records[id].bundle.challengeId == id && !s.records[id].used
  }

  // ---------------------------------------------------------------------------
  // Signatures and timestamps

  /** The signed text: upper-cased method, path, raw timestamp, body hash and nonce, joined by newlines. */
  function SigningText(httpMethod: string, path: string, timestampRaw: string, bodyHashHex: string, nonce: string): string {
    ToUpper(httpMethod) + "\n" + path + "\n" + timestampRaw + "\n" + bodyHashHex + "\n" + nonce
  }

  /** The signature the server expects for `sub` under `bundle`. */
  function ExpectedSignature(c: Crypto, bundle: ChallengeBundle, sub: Submission): string {
    c.hmacSha256Hex(bundle.clientSecret, SigningText(sub.httpMethod, sub.path, sub.timestampRaw, c.sha256Hex(sub.body), bundle.nonce))
  }

  /** The expected and supplied signatures agree after lower-casing both (compared in constant time by the source). */
  predicate SignatureMatches(c: Crypto, bundle: ChallengeBundle, sub: Submission) {
    ToLower(ExpectedSignature(c, bundle, sub)) == ToLower(sub.signatureRaw)
  }

  /**
    The skew check as intended: the distance between `now` and the client's
    timestamp (whole seconds) is at most `skew`, so exactly the timestamps
    in the closed interval `[now - skew, now + skew]` pass. This is the
    corrected form of the source's check; `SkewRejectsAsWritten` is the
    source's own.
  */
  predicate TimestampWithinSkew(now: int, timestampUnix: int, skew: int): (ok: bool)
    ensures ok <==> now - skew <= timestampUnix * Second <= now + skew
  {
    var delta := now - timestampUnix * Second;
    (if delta < 0 then -delta else delta) <= skew
  }

  /** `time.Time.Sub`: the difference, saturated to the range of a 64-bit `Duration`. */
  function SaturatingSub(t: int, u: int): (d: int)
    ensures Int64Min <= d <= Int64Max
  {
    var d := t - u;
    if d < Int64Min then Int64Min else if d > Int64Max then Int64Max else d
  }

  /** Unary minus on a 64-bit integer: the minimum value wraps to itself. */
  function NegateInt64(d: int): int
    requires Int64Min <= d <= Int64Max
  {
    if d == Int64Min then Int64Min else -d
  }

  /** Seconds from the year 1 to 1970, which `time.Unix` adds to the Unix seconds it stores. */
  const UnixToInternal: int := 62_135_596_800

  /** Two's-complement wrap-around of an integer into 64 bits. */
  function Wrap64(x: int): (r: int)
    ensures Int64Min <= r <= Int64Max
    ensures Int64Min <= x <= Int64Max ==> r == x
    ensures Int64Max < x <= Int64Max + 0x1_0000_0000_0000_0000 ==> r == x - 0x1_0000_0000_0000_0000
  {
    (x - Int64Min) % 0x1_0000_0000_0000_0000 + Int64Min
  }

  /**
    The instant `time.Unix(timestampUnix, 0)` stands for, in nanoseconds
    since 1970: `time.Unix` stores the seconds since the year 1 in a 64-bit
    integer without checking for overflow, so a timestamp within
    `UnixToInternal` of the largest 64-bit value wraps to the far past.
  */
  function UnixInstant(timestampUnix: int): (t: int)
    requires Int64Min <= timestampUnix <= Int64Max
    ensures timestampUnix <= Int64Max - UnixToInternal ==> t == timestampUnix * Second
    ensures timestampUnix > Int64Max - UnixToInternal ==> t < Int64Min
  {
    (Wrap64(timestampUnix + UnixToInternal) - UnixToInternal) * Second
  }

  /**
    The skew check as the source writes it: `delta := now.Sub(time.Unix(ts, 0))`,
    negated when negative, then `delta > timestampSkew` rejects. Wherever the
    timestamp does not wrap in `time.Unix` and the difference fits a
    `Duration` without hitting its minimum, it rejects exactly what the
    intended check does not accept.
  */
  predicate SkewRejectsAsWritten(now: int, timestampUnix: int, skew: int): (rejects: bool)
    requires Int64Min <= timestampUnix <= Int64Max
    ensures timestampUnix <= Int64Max - UnixToInternal && Int64Min < now - timestampUnix * Second <= Int64Max
      ==> (rejects <==> !TimestampWithinSkew(now, timestampUnix, skew))
  {
    var delta := SaturatingSub(now, UnixInstant(timestampUnix));
    var magnitude := if delta < 0 then NegateInt64(delta) else delta;
    magnitude > skew
  }

  /**
    The source's check lets through a timestamp far in the future: for a
    timestamp of 10^11 seconds (about the year 5138) and a clock in 2023,
    `now.Sub` saturates to the minimum `Duration`, negating it wraps back to
    the same negative value, and `delta > 90s` is false. The intended check
    rejects it.
  */
  lemma FarFutureTimestampPassesAsWritten()
    ensures !SkewRejectsAsWritten(1_700_000_000 * Second, 100_000_000_000, 90 * Second)
    ensures !TimestampWithinSkew(1_700_000_000 * Second, 100_000_000_000, 90 * Second)
  {
  }

  /**
    The largest timestamps wrap in `time.Unix` to the far past instead: the
    difference then saturates to the maximum `Duration` and the source's
    check rejects them, as the intended check does.
  */
  lemma WrappedTimestampRejectedAsWritten(now: int, timestampUnix: int, skew: int)
    requires Int64Max - UnixToInternal < timestampUnix <= Int64Max
    requires 0 <= now <= Int64Max && skew < Int64Max
    ensures SkewRejectsAsWritten(now, timestampUnix, skew)
    ensures !TimestampWithinSkew(now, timestampUnix, skew)
  {
  }

  // ---------------------------------------------------------------------------
  // The two operations as functions on states

  /** `Issue`: clean up, then store a fresh record under the new id (overwriting any record with that id). */
  function IssueStep(p: Policy, s: State, clientIp: string, challengeId: string, clientSecret: string, nonce: string, now: int): Issued {
    var cleaned := Cleaned(s, now);
    var bundle := ChallengeBundle(challengeId, clientSecret, nonce, now + p.ttl);
    Issued(cleaned.(records := cleaned.records[challengeId := ChallengeRecord(bundle, clientIp, false, 0)]), bundle)
  }

  /** The chain of checks of `VerifySubmission`, on an already cleaned state. */
  function CheckSubmission(p: Policy, s: State, sub: Submission, now: int, c: Crypto): Transition {
    var ip, id := sub.clientIp, sub.challengeId;
    if ip in s.blocked && now < s.blocked[ip] then Transition(s, Fail(ClientBlocked))
    else if id !in s.records then Transition(s, Fail(ChallengeMissing))
    else
      var record := s.records[id];
      if record.used then Transition(s, Fail(ChallengeUsed))
      else if record.bundle.expiresAt < now then Transition(s.(records := s.records - {id}), Fail(ChallengeExpired))
      else if record.issuedIp != ip then Transition(s, Fail(ChallengeIpMismatch))
      else match ParseInt64(sub.timestampRaw)
        case None => Transition(s, Fail(TimestampInvalid))
        case Some(timestampUnix) =>
          if !TimestampWithinSkew(now, timestampUnix, p.timestampSkew) then Transition(s, Fail(TimestampInvalid))
          else if !SignatureMatches(c, record.bundle, sub) then
            var failed := record.(failCount := record.failCount + 1);
            if failed.failCount >= p.failThreshold then
              Transition(State(s.records - {id}, s.blocked[ip := now + p.blockDuration]), Fail(SignatureInvalid))
            else
              Transition(s.(records := s.records[id := failed]), Fail(SignatureInvalid))
          else Transition(s.(records := s.records - {id}), Pass)
  }

  /** `VerifySubmission`: clean up, then run the checks. */
  function VerifyStep(p: Policy, s: State, sub: Submission, now: int, c: Crypto): Transition {
    CheckSubmission(p, Cleaned(s, now), sub, now, c)
  }

  /** Every check of the chain passes on the cleaned state. */
  ghost predicate Accepted(p: Policy, s: State, sub: Submission, now: int, c: Crypto) {
    var cs := Cleaned(s, now);
    var ip, id := sub.clientIp, sub.challengeId;
    && !(ip in cs.blocked && now < cs.blocked[ip])
    && id in cs.records
    && !cs.records[id].used
    && !(cs.records[id].bundle.expiresAt < now)
    && cs.records[id].issuedIp == ip
    && ParseInt64(sub.timestampRaw).Some?
    && TimestampWithinSkew(now, ParseInt64(sub.timestampRaw).value, p.timestampSkew)
    && SignatureMatches(c, cs.records[id].bundle, sub)
  }

  // ---------------------------------------------------------------------------
  // Properties of Issue

  /**
    `Issue` returns a bundle expiring `ttl` after `now` and stores exactly one
    new record under its id: bound to the caller's IP, unused, with a fail
    count of 0 whatever that client did before. Every other live record and
    every block is what cleanup left.
  */
  lemma IssueStoresFreshRecord(p: Policy, s: State, clientIp: string, challengeId: string, clientSecret: string, nonce: string, now: int)
    ensures var r := IssueStep(p, s, clientIp, challengeId, clientSecret, nonce, now);
      && r.bundle == ChallengeBundle(challengeId, clientSecret, nonce, now + p.ttl)
      && challengeId in r.state.records
      && r.state.records[challengeId] == ChallengeRecord(r.bundle, clientIp, false, 0)
      && r.state.records.Keys == PurgeRecords(s.records, now).Keys + {challengeId}
      && (forall id :: id in r.state.records && id != challengeId ==> r.state.records[id] == s.records[id])
      && r.state.blocked == PurgeBlocks(s.blocked, now)
  {
  }

  lemma IssuePreservesWellFormed(p: Policy, s: State, clientIp: string, challengeId: string, clientSecret: string, nonce: string, now: int)
    requires WellFormed(s)
    ensures WellFormed(IssueStep(p, s, clientIp, challengeId, clientSecret, nonce, now).state)
  {
  }

  // ---------------------------------------------------------------------------
  // Properties of VerifySubmission

  lemma VerifyPreservesWellFormed(p: Policy, s: State, sub: Submission, now: int, c: Crypto)
    requires WellFormed(s)
    ensures WellFormed(VerifyStep(p, s, sub, now, c).state)
  {
  }

  /**
    After a verification attempt no record has expired before `now`, and (for
    a non-negative block duration) no block has ended before `now`.
  */
  lemma VerifyLeavesNothingStale(p: Policy, s: State, sub: Submission, now: int, c: Crypto)
    requires 0 <= p.blockDuration
    ensures NothingStale(VerifyStep(p, s, sub, now, c).state, now)
  {
  }

  /** A client inside its block is refused before any record is looked at, and nothing but cleanup happens. */
  lemma BlockedClientRefusedFirst(p: Policy, s: State, sub: Submission, now: int, c: Crypto)
    requires sub.clientIp in s.blocked && now < s.blocked[sub.clientIp]
    ensures VerifyStep(p, s, sub, now, c) == Transition(Cleaned(s, now), Fail(ClientBlocked))
  {
  }

  /**
    The `ChallengeExpired` and `ChallengeUsed` branches cannot be taken:
    cleanup has already removed every record that the expiry test would
    catch, and a record is deleted as soon as it is used.
  */
  lemma ExpiredAndUsedUnreachable(p: Policy, s: State, sub: Submission, now: int, c: Crypto)
    requires WellFormed(s)
    ensures VerifyStep(p, s, sub, now, c).outcome != Fail(ChallengeExpired)
    ensures VerifyStep(p, s, sub, now, c).outcome != Fail(ChallengeUsed)
  {
  }

  /** An expired challenge (or an unknown one) is reported as missing, or the client as blocked. */
  lemma ExpiredChallengeIsMissing(p: Policy, s: State, sub: Submission, now: int, c: Crypto)
    requires sub.challengeId in s.records ==> s.records[sub.challengeId].bundle.expiresAt < now
    ensures var t := VerifyStep(p, s, sub, now, c);
      t.state == Cleaned(s, now) && t.outcome in {Fail(ChallengeMissing), Fail(ClientBlocked)}
  {
  }

  /**
    Once the client is not blocked and the challenge is live and unused, a
    wrong IP gives `ChallengeIpMismatch`; with the right IP, an unparsable
    timestamp or one outside the skew gives `TimestampInvalid`. These
    failures change nothing beyond cleanup: no fail count moves and no
    block is set.
  */
  lemma EarlyRejectionsKeepCounters(p: Policy, s: State, sub: Submission, now: int, c: Crypto)
    ensures var t := VerifyStep(p, s, sub, now, c);
      var cs := Cleaned(s, now);
      var live := && !(sub.clientIp in cs.blocked && now < cs.blocked[sub.clientIp])
                  && sub.challengeId in cs.records && !cs.records[sub.challengeId].used;
      && (live && cs.records[sub.challengeId].issuedIp != sub.clientIp
          ==> t == Transition(cs, Fail(ChallengeIpMismatch)))
      && (live && cs.records[sub.challengeId].issuedIp == sub.clientIp && ParseInt64(sub.timestampRaw).None?
          ==> t == Transition(cs, Fail(TimestampInvalid)))
      && (live && cs.records[sub.challengeId].issuedIp == sub.clientIp && ParseInt64(sub.timestampRaw).Some?
          && !TimestampWithinSkew(now, ParseInt64(sub.timestampRaw).value, p.timestampSkew)
          ==> t == Transition(cs, Fail(TimestampInvalid)))
    ensures var t := VerifyStep(p, s, sub, now, c);
      t.outcome in {Fail(ChallengeIpMismatch), Fail(TimestampInvalid), Fail(ChallengeMissing), Fail(ClientBlocked)}
      ==> t.state == Cleaned(s, now)
  {
  }

  /**
    A bad signature adds one to that record's fail count; when the count
    reaches the threshold, the client's IP is blocked until
    `now + blockDuration` and the record is deleted. Nothing else changes.
  */
  lemma SignatureFailureBookkeeping(p: Policy, s: State, sub: Submission, now: int, c: Crypto)
    requires VerifyStep(p, s, sub, now, c).outcome == Fail(SignatureInvalid)
    ensures var cs, t := Cleaned(s, now), VerifyStep(p, s, sub, now, c);
      && sub.challengeId in cs.records
      && var count := cs.records[sub.challengeId].failCount + 1;
      && (count >= p.failThreshold ==>
            t.state == State(cs.records - {sub.challengeId}, cs.blocked[sub.clientIp := now + p.blockDuration]))
      && (count < p.failThreshold ==>
            t.state == State(cs.records[sub.challengeId := cs.records[sub.challengeId].(failCount := count)], cs.blocked))
  {
  }

  /**
    Success happens exactly when every check passes, and then the only
    change beyond cleanup is that the challenge's record is gone.
  */
  lemma VerifySucceedsIff(p: Policy, s: State, sub: Submission, now: int, c: Crypto)
    ensures var t := VerifyStep(p, s, sub, now, c);
      (t.outcome == Pass <==> Accepted(p, s, sub, now, c))
      && (t.outcome == Pass ==> t.state == Cleaned(s, now).(records := Cleaned(s, now).records - {sub.challengeId}))
  {
  }

  /** A verification attempt touches no record but its own challenge's and no block but its own client's. */
  lemma VerifyChangesOnlyItsOwn(p: Policy, s: State, sub: Submission, now: int, c: Crypto)
    ensures var cs, t := Cleaned(s, now), VerifyStep(p, s, sub, now, c);
      && (forall id :: id != sub.challengeId ==>
            (id in t.state.records <==> id in cs.records) && (id in cs.records ==> t.state.records[id] == cs.records[id]))
      && (forall ip :: ip != sub.clientIp ==>
            (ip in t.state.blocked <==> ip in cs.blocked) && (ip in cs.blocked ==> t.state.blocked[ip] == cs.blocked[ip]))
  {
  }

  /**
    Single use, first half: a challenge just issued to a client that is not
    blocked is accepted when that client presents, before expiry, a timestamp
    within the skew and the right signature.
  */
  lemma IssuedChallengeVerifies(
    p: Policy, s: State, clientIp: string, challengeId: string, clientSecret: string, nonce: string, now: int,
    sub: Submission, later: int, c: Crypto)
    requires now <= later <= now + p.ttl
    requires !(clientIp in s.blocked && later < s.blocked[clientIp])
    requires sub.clientIp == clientIp && sub.challengeId == challengeId
    requires ParseInt64(sub.timestampRaw).Some?
    requires TimestampWithinSkew(later, ParseInt64(sub.timestampRaw).value, p.timestampSkew)
    requires SignatureMatches(c, ChallengeBundle(challengeId, clientSecret, nonce, now + p.ttl), sub)
    ensures var issued := IssueStep(p, s, clientIp, challengeId, clientSecret, nonce, now);
      VerifyStep(p, issued.state, sub, later, c).outcome == Pass
  {
    var issued := IssueStep(p, s, clientIp, challengeId, clientSecret, nonce, now);
    var cs := Cleaned(issued.state, later);
    assert challengeId in cs.records;
    assert !(clientIp in cs.blocked && later < cs.blocked[clientIp]);
  }

  /**
    Single use, second half: once a submission has been accepted, any later
    attempt with the same challenge id is refused as missing (or the client
    as blocked), whatever its signature.
  */
  lemma ReplayIsMissing(p: Policy, s: State, sub: Submission, now: int, c: Crypto, replay: Submission, later: int, c2: Crypto)
    requires VerifyStep(p, s, sub, now, c).outcome == Pass
    requires replay.challengeId == sub.challengeId
    ensures VerifyStep(p, VerifyStep(p, s, sub, now, c).state, replay, later, c2).outcome
      in {Fail(ChallengeMissing), Fail(ClientBlocked)}
  {
    var t := VerifyStep(p, s, sub, now, c);
    VerifySucceedsIff(p, s, sub, now, c);
    assert sub.challengeId !in t.state.records;
  }

  /**
    A block outlasts new challenges: once a bad signature has blocked a
    client, a challenge issued to it afterwards, however correctly signed,
    is refused with `ClientBlocked` until the block ends.
  */
  lemma BlockOutlastsNewChallenges(
    p: Policy, s: State, sub: Submission, now: int, c: Crypto,
    challengeId: string, clientSecret: string, nonce: string, issuedAt: int,
    next: Submission, later: int, c2: Crypto)
    requires VerifyStep(p, s, sub, now, c).outcome == Fail(SignatureInvalid)
    requires sub.challengeId in Cleaned(s, now).records
    requires Cleaned(s, now).records[sub.challengeId].failCount + 1 >= p.failThreshold
    requires now <= issuedAt <= later < now + p.blockDuration
    requires next.clientIp == sub.clientIp
    ensures var blocking := VerifyStep(p, s, sub, now, c);
      var issued := IssueStep(p, blocking.state, sub.clientIp, challengeId, clientSecret, nonce, issuedAt);
      VerifyStep(p, issued.state, next, later, c2).outcome == Fail(ClientBlocked)
  {
    var blocking := VerifyStep(p, s, sub, now, c);
    SignatureFailureBookkeeping(p, s, sub, now, c);
    assert blocking.state.blocked[sub.clientIp] == now + p.blockDuration;
    var issued := IssueStep(p, blocking.state, sub.clientIp, challengeId, clientSecret, nonce, issuedAt);
    assert issued.state.blocked[sub.clientIp] == now + p.blockDuration;
    BlockedClientRefusedFirst(p, issued.state, next, later, c2);
  }

  /**
    Fail counts belong to records, not to clients: a bad signature on a
    freshly issued challenge leaves the count at 1 and sets no block when the
    threshold is above 1, whatever the client's earlier failures.
  */
  lemma FailCountIsPerChallenge(
    p: Policy, s: State, clientIp: string, challengeId: string, clientSecret: string, nonce: string, now: int,
    sub: Submission, c: Crypto)
    requires 1 < p.failThreshold
    requires sub.challengeId == challengeId
    requires VerifyStep(p, IssueStep(p, s, clientIp, challengeId, clientSecret, nonce, now).state, sub, now, c).outcome
      == Fail(SignatureInvalid)
    ensures var issued := IssueStep(p, s, clientIp, challengeId, clientSecret, nonce, now);
      var t := VerifyStep(p, issued.state, sub, now, c);
      && challengeId in t.state.records
      && t.state.records[challengeId].failCount == 1
      && t.state.blocked == Cleaned(issued.state, now).blocked
  {
    var issued := IssueStep(p, s, clientIp, challengeId, clientSecret, nonce, now);
    assert challengeId in Cleaned(issued.state, now).records;
    SignatureFailureBookkeeping(p, issued.state, sub, now, c);
  }

  // ---------------------------------------------------------------------------
  // The manager

  class ChallengeManager {
    const policy: Policy
    var records: map<string, ChallengeRecord>
    var blocked: map<string, int>

    ghost predicate Valid()
      reads this
    {
      WellFormed(State(records, blocked))
    }

    /** `NewChallengeManager`: the four settings and two empty maps. */
    constructor (ttl: int, timestampSkew: int, failThreshold: int, blockDuration: int)
      ensures Valid()
      ensures policy == Policy(ttl, timestampSkew, failThreshold, blockDuration)
      ensures records == map[] && blocked == map[]
    {
      policy := Policy(ttl, timestampSkew, failThreshold, blockDuration);
      records := map[];
      blocked := map[];
    }

    /** `cleanup`: delete every record whose expiry is before `now`, then every block `now` is after. */
    method Cleanup(now: int)
      modifies this
      ensures records == PurgeRecords(old(records), now)
      ensures blocked == PurgeBlocks(old(blocked), now)
    {
      var pending := records.Keys;
      while pending != {}
        invariant pending <= old(records).Keys
        invariant blocked == old(blocked)
        invariant forall id :: id in records <==>
          id in old(records) && (id in pending || !(old(records)[id].bundle.expiresAt < now))
        invariant forall id :: id in records ==> records[id] == old(records)[id]
        decreases pending
      {
        var id :| id in pending;
        if records[id].bundle.expiresAt < now {
          records := records - {id};
        }
        pending := pending - {id};
      }
      var pendingIps := blocked.Keys;
      while pendingIps != {}
        invariant pendingIps <= old(blocked).Keys
        invariant records == PurgeRecords(old(records), now)
        invariant forall ip :: ip in blocked <==>
          ip in old(blocked) && (ip in pendingIps || !(now > old(blocked)[ip]))
        invariant forall ip :: ip in blocked ==> blocked[ip] == old(blocked)[ip]
        decreases pendingIps
      {
        var ip :| ip in pendingIps;
        if now > blocked[ip] {
          blocked := blocked - {ip};
        }
        pendingIps := pendingIps - {ip};
      }
    }

    /** `Issue`: the id, secret and nonce are what the random source produced. */
    method Issue(clientIp: string, challengeId: string, clientSecret: string, nonce: string, now: int)
      returns (bundle: ChallengeBundle)
      requires Valid()
      modifies this
      ensures Valid()
      ensures var r := IssueStep(policy, old(State(records, blocked)), clientIp, challengeId, clientSecret, nonce, now);
        State(records, blocked) == r.state && bundle == r.bundle
    {
      Cleanup(now);
      bundle := ChallengeBundle(challengeId, clientSecret, nonce, now + policy.ttl);
      records := records[bundle.challengeId := ChallengeRecord(bundle, clientIp, false, 0)];
    }

    /** `VerifySubmission`: the checks in the source's order; `Pass` is a `nil` error. */
    method VerifySubmission(
      clientIp: string,
      challengeId: string,
      timestampRaw: string,
      signatureRaw: string,
      httpMethod: string,
      path: string,
      body: seq<byte>,
      now: int,
      crypto: Crypto)
      returns (result: Outcome<VerifyError>)
      requires Valid()
      modifies this
      ensures Valid()
      ensures var t := VerifyStep(policy, old(State(records, blocked)),
          Submission(clientIp, challengeId, timestampRaw, signatureRaw, httpMethod, path, body), now, crypto);
        State(records, blocked) == t.state && result == t.outcome
    {
      ghost var sub := Submission(clientIp, challengeId, timestampRaw, signatureRaw, httpMethod, path, body);
      Cleanup(now);

      if clientIp in blocked && now < blocked[clientIp] {
        return Fail(ClientBlocked);
      }

      if challengeId !in records {
        return Fail(ChallengeMissing);
      }
      var record := records[challengeId];

      if record.used {
        return Fail(ChallengeUsed);
      }

      if record.bundle.expiresAt < now {
        // Dead code in the source: Cleanup(now) above has already deleted every
        // record whose expiry is before now, so the record cannot be here and
        // neither its deletion nor ChallengeExpired can happen.
        assert false;
      }

      if record.issuedIp != clientIp {
        return Fail(ChallengeIpMismatch);
      }

      var parsed := ParseInt64(timestampRaw);
      if parsed.None? {
        return Fail(TimestampInvalid);
      }
      var delta := now - parsed.value * Second;
      if delta < 0 {
        delta := -delta;
      }
      if delta > policy.timestampSkew {
        return Fail(TimestampInvalid);
      }

      var bodyHashHex := crypto.sha256Hex(body);
      var signingText := SigningText(httpMethod, path, timestampRaw, bodyHashHex, record.bundle.nonce);
      var expectedSignature := crypto.hmacSha256Hex(record.bundle.clientSecret, signingText);
      assert expectedSignature == ExpectedSignature(crypto, record.bundle, sub);

      if ToLower(expectedSignature) != ToLower(signatureRaw) {
        record := record.(failCount := record.failCount + 1);
        records := records[challengeId := record];
        if record.failCount >= policy.failThreshold {
          blocked := blocked[clientIp := now + policy.blockDuration];
          records := records - {challengeId};
        }
        return Fail(SignatureInvalid);
      }

      record := record.(used := true);
      records := records - {challengeId};
      return Pass;
    }
  }
}
