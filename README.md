# els-feedback-proxy in Dafny

This project models the core of els-feedback-proxy. The proxy is an HTTP gateway that turns app feedback into GitHub issues. Its core is an anti-abuse engine, and a set of pure helpers shape each request.

The anti-abuse engine has three parts:

- `ChallengeManager` (module `Challenge`) issues one-time challenges. It verifies submissions signed with HMAC-SHA256. It counts bad signatures per challenge and blocks a client IP for a while when a challenge's count reaches the threshold.
- `FixedWindowLimiter` (module `RateLimit`) is a fixed-window rate limiter per key.
- `DuplicateDetector` (module `Dedupe`) remembers content keys until they expire.

The helpers:

- `ApiTypes`: normalisation and validation of a submitted request.
- `ApiServer`: the pure helpers of the HTTP layer. These are the platform label, visible-label filtering, issue-status mapping, the label list of a new issue and the rate-limit key.
- `Renderer`: the Markdown title and body of a new issue.
- `TicketStore`: the issue-number-to-token map.
- `Config`: configuration loading from the environment.

Three support modules stand in for Go's library:

- `Wrappers` holds `Option` and `Outcome`.
- `Strings` models `strings.TrimSpace`, `ToLower`/`ToUpper`, `HasPrefix` and `EqualFold`.
- `Decimal` models `fmt`'s `%d` and `strconv.ParseInt`.

## How the model is built

- **Objects become classes.** Each object whose maps the source updates in place is a class with `map` fields. Its methods are proved to perform exactly one step of a specification function on the maps: `IssueStep`, `VerifyStep`, `AllowStep`, `SeenStep` or `Stored`. The properties of the component are lemmas about those functions.
- **Time is a parameter.** Time is an integer number of nanoseconds, passed as `now`. `cleanupExpired` in the rate limiter reads the clock a second time; that reading is `now2`.
- **Crypto is a parameter.** SHA-256 and HMAC-SHA256 (hex-encoded) are function values of a `Crypto`. Constant-time comparison is modelled as equality.
- **Randomness is a parameter.** The random id, secret and nonce that `Issue` uses are parameters.

Three behaviours of the code are easy to misread, and the model follows the code in each:

- **Expired and used challenges read as missing.** `VerifySubmission` first purges every record that expired before `now`. That purge uses the same `now` and the same strict comparison as the expiry check. A successful verification deletes its record. So the `ErrChallengeExpired` and `ErrChallengeUsed` branches can never be taken: an expired or replayed challenge yields `ErrChallengeMissing`. This is proved by `Challenge.ExpiredAndUsedUnreachable` and `Challenge.ReplayIsMissing`.
- **Fail counts are per challenge, not per client.** A new challenge starts at zero whatever the client's earlier failures. This is proved by `Challenge.FailCountIsPerChallenge`.
- **A status label beats a closed state.** `internal/api/server_test.go:5-10` expects a closed issue carrying `status/triage` to report "closed". `mapIssueStatus` returns "triage", and the model does too. `ApiServer.TriageBeatsClosed` states the case.

One place does not follow the code: the timestamp skew check in `VerifySubmission`. The check as written lets some far-future timestamps through (see "## Findings"). `Challenge.SkewRejectsAsWritten` models it exactly, and the verification step uses the corrected check `Challenge.TimestampWithinSkew`. The two agree on every timestamp that neither wraps in `time.Unix` nor saturates `now.Sub`.

## Model

| member | source | states |
|---|---|---|
| Challenge.ChallengeManager.constructor | internal/security/challenge.go:53-62 | the four settings are stored; both maps start empty |
| Challenge.ChallengeManager.Cleanup | internal/security/challenge.go:159-170 | deletes exactly the records that expired before `now` and the blocks that ended before `now` |
| Challenge.ChallengeManager.Issue | internal/security/challenge.go:64-84 | the new maps and the returned bundle are those of `IssueStep` on the old maps; the manager stays well formed |
| Challenge.ChallengeManager.VerifySubmission | internal/security/challenge.go:86-157 | the new maps and the returned error are those of `VerifyStep` on the old maps; the manager stays well formed |
| Challenge.IssueStoresFreshRecord | internal/security/challenge.go:64-84 | after cleanup, exactly one record is added under the returned id: the returned bundle, bound to the caller's IP, unused, fail count 0, expiring at `now + ttl`; the bundle carries the supplied id, secret and nonce |
| Challenge.IssuePreservesWellFormed | internal/security/challenge.go:64-84 | issuing keeps every record stored under its own id and unused |
| Challenge.VerifyPreservesWellFormed | internal/security/challenge.go:86-157 | verifying keeps every record stored under its own id and unused (a used record is deleted at once) |
| Challenge.VerifyLeavesNothingStale | internal/security/challenge.go:98-99 | after a verification attempt, no record expired before `now` and no block ended before `now` |
| Challenge.BlockedClientRefusedFirst | internal/security/challenge.go:101-103 | a client inside its block gets `ClientBlocked`; nothing but the cleanup happens, whatever the challenge |
| Challenge.ExpiredAndUsedUnreachable | internal/security/challenge.go:105-117 | on a well-formed state, verification never returns `ChallengeExpired` or `ChallengeUsed` |
| Challenge.ExpiredChallengeIsMissing | internal/security/challenge.go:98-108 | an unknown or expired challenge id yields `ChallengeMissing` (or `ClientBlocked`), and the state is only cleaned up |
| Challenge.EarlyRejectionsKeepCounters | internal/security/challenge.go:119-135 | for an unblocked client and a live, unused challenge: a wrong IP gives `ChallengeIpMismatch`; with the right IP, an unparsable timestamp or one outside the corrected skew check gives `TimestampInvalid`; each of these failures (and a missing challenge or blocked client) leaves the state as cleanup made it |
| Challenge.SignatureFailureBookkeeping | internal/security/challenge.go:137-152 | a bad signature adds one to that record's fail count; at the threshold the client is blocked until `now + blockDuration` and the record is deleted; nothing else changes |
| Challenge.VerifySucceedsIff | internal/security/challenge.go:86-157 | success happens exactly when the client is not blocked, the id is live, the IP matches, the timestamp parses and passes the corrected skew check `TimestampWithinSkew`, and the signature matches; on success only that record is removed |
| Challenge.VerifyChangesOnlyItsOwn | internal/security/challenge.go:86-157 | a verification attempt changes no record but its own challenge's and no block but its own client's |
| Challenge.IssuedChallengeVerifies | internal/security/challenge.go:64-157 | a freshly issued challenge, correctly signed within its lifetime and the skew by an unblocked client, verifies |
| Challenge.ReplayIsMissing | internal/security/challenge.go:154-156 | after a success, any later submission with the same id yields `ChallengeMissing` or `ClientBlocked`, whatever its signature |
| Challenge.BlockOutlastsNewChallenges | internal/security/challenge.go:145-152 | once a client is blocked, a challenge issued to it during the block is refused with `ClientBlocked` |
| Challenge.FailCountIsPerChallenge | internal/security/challenge.go:78-81 | a freshly issued challenge starts at fail count 0, so one bad signature on it does not block the client when the threshold is above 1 |
| Challenge.TimestampWithinSkew | internal/security/challenge.go:128-135 | the corrected skew check accepts exactly the timestamps in `[now - skew, now + skew]`; a difference equal to the skew is accepted |
| Challenge.SaturatingSub | internal/security/challenge.go:128 | `time.Time.Sub` returns a value in the 64-bit `Duration` range |
| Challenge.Wrap64 | internal/security/challenge.go:127 | two's-complement wrap into 64 bits: in range, in-range values are kept, and values just above the range lose 2^64 |
| Challenge.UnixInstant | internal/security/challenge.go:127 | `time.Unix(ts, 0)` is `ts` seconds for every timestamp up to `Int64Max - 62135596800`, and lies before every 64-bit nanosecond instant above that, where its internal seconds wrap |
| Challenge.SkewRejectsAsWritten | internal/security/challenge.go:127-135 | the check as written; wherever the timestamp does not wrap in `time.Unix` and the difference fits a `Duration` without hitting its minimum, it rejects exactly what the corrected check refuses |
| Challenge.WrappedTimestampRejectedAsWritten | internal/security/challenge.go:127-135 | every timestamp above `Int64Max - 62135596800` is rejected by the check as written (for a clock and skew in the 64-bit range) and by the corrected one |
| Challenge.FarFutureTimestampPassesAsWritten | internal/security/challenge.go:128-135 | the check as written accepts the timestamp 100000000000 at `now` = 1.7e18 ns with a 90 s skew; the intended check refuses it |
| RateLimit.FixedWindowLimiter.constructor | internal/security/ratelimit.go:19-21 | the limiter starts with an empty map |
| RateLimit.FixedWindowLimiter.Allow | internal/security/ratelimit.go:23-47 | the new map and the answer are those of `AllowStep` on the old map; every stored count stays at least 1 |
| RateLimit.FixedWindowLimiter.CleanupExpired | internal/security/ratelimit.go:49-56 | deletes exactly the keys whose window started at least `2 * window` before `now2` |
| RateLimit.NonPositiveLimitDenies | internal/security/ratelimit.go:24-26 | a limit of zero or less denies and leaves the map untouched |
| RateLimit.ResetRestartsWindow | internal/security/ratelimit.go:33-37 | a new or run-out key is allowed and restarted at `(now, 1)`; the sweep keeps exactly the keys whose window started less than two windows before `now2`, the restarted key included when `now2 - now < 2 * window` |
| RateLimit.WithinWindowCountsOrDenies | internal/security/ratelimit.go:40-46 | inside the window a call is allowed iff the count is below the limit; allowed adds exactly one, denied changes nothing, and no other key changes |
| RateLimit.CountStaysWithinLimit | internal/security/ratelimit.go:34-46 | for a fixed limit of at least 1, a key's count stays within `1..limit` |
| RateLimit.AllowKeepsCountsPositive | internal/security/ratelimit.go:23-47 | `Allow` never stores a count below 1 |
| RateLimit.RunWithinWindow | internal/security/ratelimit.go:40-46 | a run of calls inside one window allows exactly `min(calls, limit - count)` of them and ends at the matching count |
| RateLimit.AtMostLimitPerWindow | internal/security/ratelimit.go:23-47 | a run of calls starting a fresh window and staying inside it allows exactly `min(calls, limit)` of them |
| RateLimit.SixthAllowedSeventhDenied | internal/security/ratelimit.go:23-47 | with the default submit limit 6 and a 15-minute window, six calls at one instant are all allowed and a seventh is denied |
| Dedupe.DuplicateDetector.constructor | internal/security/dedupe.go:14-16 | the detector starts with an empty map |
| Dedupe.DuplicateDetector.SeenRecently | internal/security/dedupe.go:19-39 | the new map and the answer are those of `SeenStep` on the old map |
| Dedupe.HitKeepsExpiry | internal/security/dedupe.go:25-29 | a key with `now` before its expiry is seen and the map, its expiry included, is unchanged |
| Dedupe.MissRecordsExpiry | internal/security/dedupe.go:31-38 | otherwise (an expiry equal to `now` included) the answer is "not seen", the key expires at `now + window`, and the sweep deletes exactly the other entries that expired before `now` |
| Dedupe.SeenAgainExactlyWithinWindow | internal/security/dedupe.go:19-39 | after a miss at `now`, a later call on the key reports "seen" iff it comes before `now + window` |
| Dedupe.SameInstantTwice | internal/security/dedupe.go:25-31 | with a positive window, two calls on a new key at one instant answer "new", then "seen" |
| ApiTypes.BadRequest | internal/api/types.go:80-82 | the error carries the message and code 400 |
| ApiTypes.NormalizeLogsAppend | internal/api/types.go:45-52 | log normalisation works line by line: normalising a concatenation concatenates the results |
| ApiTypes.NormalizeLogsSingle | internal/api/types.go:46-51 | one line is kept, trimmed, exactly when it is non-empty after trimming |
| ApiTypes.NormalizeLogsKeepsOnlyKeptLines | internal/api/types.go:45-52 | every kept log line is non-empty and trimmed |
| ApiTypes.NormalizeLogsOfNormal | internal/api/types.go:45-52 | logs whose lines are all non-empty and trimmed are kept as they are |
| ApiTypes.NormalizedIsNormal | internal/api/types.go:29-53 | after normalisation the type and platform are trimmed and lower-case, every other field is trimmed, and every log line is non-empty and trimmed |
| ApiTypes.NormalizeFixesNormal | internal/api/types.go:29-53 | a request already in that form is left unchanged |
| ApiTypes.NormalizeIdempotent | internal/api/types.go:29-53 | normalising twice is normalising once |
| ApiTypes.NormalizeLogLines | internal/api/types.go:45-52 | the append loop computes the normalised logs |
| ApiTypes.Normalize | internal/api/types.go:29-53 | returns the normalised request: type and platform lower-cased then trimmed, other fields trimmed, logs normalised |
| ApiTypes.Validate | internal/api/types.go:55-69 | passes iff the type is "bug" or "suggestion", the title has 4 to 120 runes, the detail 10 to 4000, and there are at most 50 log lines; every error has code 400 and one of the four messages |
| ApiTypes.ValidateReportsFirstFailure | internal/api/types.go:55-67 | the checks run in the order type, title, detail, logs, and the first failing one decides the message |
| ApiServer.PlatformLabel | internal/api/server.go:286-296 | "platform/ios" iff the trimmed lower-case platform is "ios", "platform/watchos" iff it is "watchos", "platform/unknown" otherwise |
| ApiServer.PlatformLabelOfNormalized | internal/api/server.go:286-296 | the platform label is the same before and after request normalisation |
| ApiServer.VisibleLabelsIsSubsequence | internal/api/server.go:301-321 | the visible labels are an order-preserving subsequence of the input, in their original text |
| ApiServer.VisibleLabelsMembership | internal/api/server.go:299-317 | a label is kept iff it occurs in the input and its trimmed lower-case form is non-empty and starts with none of the four hidden prefixes |
| ApiServer.HiddenByPrefix | internal/api/server.go:308-314 | the prefix loop finds a hidden prefix iff the label starts with one of "internal/", "security/", "meta/", "source/" |
| ApiServer.FilterVisibleLabels | internal/api/server.go:298-322 | the loop returns the visible labels |
| ApiServer.ContainsLabel | internal/api/server.go:349-356 | true iff the target occurs in the list |
| ApiServer.LowerAll | internal/api/server.go:325-328 | each label lower-cased, position by position |
| ApiServer.IssueStatusCases | internal/api/server.go:324-347 | the first present label of status/triage, status/in-progress, status/blocked, status/resolved decides; without any, "closed" iff the state is "closed" in any case, else "in_progress" |
| ApiServer.NonAsciiLetters | internal/api/server.go:286-346 | Go's Unicode case rules apply: state "cloſed" (long s) maps to "closed", a label "status/blocKed" with the Kelvin sign to "blocked", and platform "İOS" to platform/ios |
| ApiServer.StatusMatchIsFoldedAndUntrimmed | internal/api/server.go:325-341 | label matching ignores case but not surrounding spaces |
| ApiServer.TriageBeatsClosed | internal/api/server.go:330-346 | a closed issue carrying status/triage reports "triage" |
| ApiServer.MapIssueStatus | internal/api/server.go:324-347 | the loop computes the status mapping |
| ApiServer.RateKey | internal/api/server.go:277 | the key is the action, a colon, then the client IP |
| ApiServer.RateKeyInjective | internal/api/server.go:277 | for actions without a colon, distinct (action, IP) pairs get distinct keys |
| ApiServer.IssueLabels | internal/api/server.go:165-170 | a new issue gets source/app-feedback, status/triage, its platform label, then type/bug iff the type is "bug" and type/feature otherwise |
| ApiServer.NewIssueIsTriage | internal/api/server.go:165-170 | a new issue's labels map to the status "triage" whatever the state |
| ApiServer.SourceLabelHidden | internal/api/server.go:299 | the source/app-feedback label is never shown |
| ApiServer.RandomToken | internal/api/server.go:358-368 | a length of zero or less gives the empty token |
| Renderer.PlatformTag | internal/api/renderer.go:9-13 | "UNKNOWN" for an empty platform, else the platform upper-cased character by character, same length; no character of the tag changes under upper-casing |
| Renderer.RenderIssueTitle | internal/api/renderer.go:8-14 | the title is "[App反馈][", the platform tag, "] ", then the title text, and has exactly their total length |
| Renderer.TitleTags | internal/api/renderer.go:9-13 | an empty platform gives "[App反馈][UNKNOWN] " and "ios" gives "[App反馈][IOS] " before the title |
| Renderer.TypeLine | internal/api/renderer.go:19-24 | the bug line iff the type is "bug", the feature line otherwise |
| Renderer.OptionalSection | internal/api/renderer.go:30-52 | an optional section is empty iff its text is empty; otherwise it starts with its heading |
| Renderer.LogLinesAppend | internal/api/renderer.go:67-71 | log lines render one by one: a concatenation renders as the concatenation |
| Renderer.LogLinesSingle | internal/api/renderer.go:68-70 | one log line renders as "- " + line + newline |
| Renderer.LogContentCases | internal/api/renderer.go:63-73 | no logs render as "- 无"; one log renders as its own bullet |
| Renderer.BodyOpensWithTypeAndDetail | internal/api/renderer.go:19-28 | the body opens with the type heading, the type line and then the detail section |
| Renderer.BodyWithoutOptionalSections | internal/api/renderer.go:26-54 | with all four optional fields empty, the environment section follows the detail section directly |
| Renderer.BodyHasMarker | internal/api/renderer.go:75-78 | the body always contains the auto-update marker |
| Renderer.BodyEndsWithHash | internal/api/renderer.go:78-80 | the body ends with "- 客户端IP哈希: ", the hash and a newline |
| Renderer.WriteLogLines | internal/api/renderer.go:67-71 | the log loop writes one bullet per log, in order |
| Renderer.RenderIssueBody | internal/api/renderer.go:16-81 | the builder produces the specified body |
| TicketStore.TicketStore.constructor | internal/store/ticket_store.go:28-31 | a new store holds no tokens |
| TicketStore.TicketStore.Set | internal/store/ticket_store.go:40-47 | the map takes the token under the issue's decimal key before saving; the save outcome is returned |
| TicketStore.TicketStore.Validate | internal/store/ticket_store.go:49-59 | true iff the issue has a token and it equals the given one; nothing changes |
| TicketStore.Key | internal/store/ticket_store.go:44 | the key of a 64-bit issue number parses back to that number |
| TicketStore.SetThenValidate | internal/store/ticket_store.go:44-58 | right after `Set(n, t)`, `Validate(n, t')` holds exactly for `t' == t` |
| TicketStore.SetLeavesOthers | internal/store/ticket_store.go:44-45 | `Set(n, t)` leaves the answer of `Validate(m, _)` unchanged for every other issue number `m` |
| TicketStore.UnsetNeverValidates | internal/store/ticket_store.go:53-57 | an issue number that was never set validates no token |
| Decimal.FormatNat | internal/store/ticket_store.go:44 | the decimal digits of a natural number, read back, give that number |
| Decimal.FormatInt | internal/store/ticket_store.go:44 | `%d` text: non-empty; the digits of the number when it is not negative, else a minus sign followed by the digits of its magnitude |
| Decimal.ParseInt64 | internal/security/challenge.go:123-126 | a parsed value lies in the 64-bit range |
| Decimal.ParseFormatRoundTrip | internal/config/config.go:76-86 | parsing the decimal text of a 64-bit integer gives it back |
| Decimal.FormatIntInjective | internal/store/ticket_store.go:44 | distinct integers have distinct decimal texts |
| Strings.TrimLeadingSpaceDropsSpace | internal/api/types.go:30-43 | the leading trim keeps a suffix that does not start with white space, and drops only white space |
| Strings.TrimTrailingSpaceDropsSpace | internal/api/types.go:30-43 | the trailing trim keeps a prefix that does not end with white space, and drops only white space |
| Strings.TrimSpace | internal/api/types.go:30-43 | trimming never lengthens a string; what is kept and dropped is stated by the next two rows |
| Strings.TrimSpaceIsTrimmed | internal/api/types.go:30-43 | the trimmed string has no white space at either end |
| Strings.TrimSpaceIsInfix | internal/api/types.go:30-43 | the trimmed string is an infix of the input, and everything dropped before and after it is white space |
| Strings.TrimSpaceOfTrimmed | internal/api/types.go:30-43 | a trimmed string is its own trim |
| Strings.TrimSpaceIdempotent | internal/api/types.go:30-43 | trimming twice is trimming once |
| Strings.ToLower | internal/api/types.go:30 | lower-casing keeps the length |
| Strings.ToUpper | internal/api/renderer.go:9-13 | upper-casing keeps the length |
| Strings.EqualFold | internal/api/server.go:343 | strings equal under case folding have the same length, and equal strings are equal under folding |
| Strings.EqualFoldClosed | internal/api/server.go:343 | a state folds to "closed" exactly when it is those six letters, each in either case, with the long s allowed for `s` |
| Strings.ToLowerIsLowered | internal/api/types.go:30 | a lower-cased string has no upper-case letter |
| Strings.ToLowerOfLowered | internal/api/types.go:30 | lower-casing a lower-case string changes nothing |
| Strings.TrimSpaceKeepsLowered | internal/api/types.go:30 | trimming keeps a string lower-case |
| Strings.LowerTrimIsCanonical | internal/api/types.go:30 | lower-case then trim gives a trimmed lower-case string |
| Strings.PrintableIsNotSpace | internal/api/server.go:302 | no printable ASCII character counts as white space |
| Strings.LowerTrimIdempotent | internal/api/types.go:30 | lower-case-then-trim twice is the same as once |
| Config.GetEnv | internal/config/config.go:69-74 | the fallback exactly when the variable is empty or unset, else its value |
| Config.GetEnvAsInt | internal/config/config.go:76-86 | the fallback when the variable is empty or not a 64-bit integer, else its parsed value |
| Config.GetEnvAsIntReadsFormatted | internal/config/config.go:76-86 | a variable holding the decimal text of an integer reads back as that integer |
| Config.ClampInt | internal/config/config.go:88-96 | `min` below the range, `max` above it, the value inside it; the result lies in `[min, max]` whenever `min <= max` |
| Config.ClampIdempotent | internal/config/config.go:88-96 | clamping twice to one range is clamping once |
| Config.Load | internal/config/config.go:37-67 | an error and a zero configuration iff GITHUB_TOKEN is empty; otherwise the fixed fields take their constants, the token is the variable's value, and the PoW difficulty lies in `[0, 30]` |
| Config.LoadDefaults | internal/config/config.go:38-60 | with only a token set, every field takes its documented default |
| Config.PowDifficultyClamped | internal/config/config.go:54 | a difficulty of 99 becomes 30 and one of -3 becomes 0 |

## Left out

- HTTP routing and handlers in internal/api/server.go (`NewServer`, `Run`, `registerRoutes`, the three `handle*` methods, `validateUA`, `writeError`): these are gin plumbing and body I/O. Only the label list and the rate key they build are modelled.
- `dedupeKey` and `hashString` in internal/api/server.go: these are hashing only. The client-IP hash is a parameter of `Renderer.RenderIssueBody`.
- internal/github/client.go is not part of this model: it is a network REST client.
- cmd/server/main.go is not part of this model: it is startup wiring.
- The Redis-backed limiter and detector (internal/security/redis_limiter.go, internal/security/redis_dedupe.go) are not part of this model. They are remote calls that fall back to the local limiter and detector modelled here.
- Proof-of-work: internal/security/challenge.go has no proof-of-work code, so none is modelled.
- Concurrency: each method is one atomic step, as its mutex makes it.
- SHA-256, HMAC-SHA256 and hex encoding are uninterpreted function values. Constant-time comparison is modelled as plain equality, because timing cannot be stated.
- Challenge.ChallengeManager.Issue: the random id, secret and nonce are parameters, so their uniqueness is not modelled. A colliding id overwrites the existing record, as the source does.
- ApiServer.RandomToken: for a positive length, the token is the supplied value. The random bytes and the fallback hash are not modelled.
- TicketStore persistence (`NewTicketStore`'s file loading, `load`, `save`): JSON file I/O. `TicketStore.TicketStore.Set` takes the outcome of `save` as a parameter, and the constructor models a store without a tokens file.
- Strings.ToLower, Strings.ToUpper: they map the ASCII letters and the four non-ASCII letters whose simple case mapping is ASCII (İ to `i` and the Kelvin sign to `k` when lower-casing; ı to `I` and ſ to `S` when upper-casing). Other non-ASCII letters, such as `é`, are kept as they are, while Go maps them. Every comparison the source makes against its ASCII constants (platform names, request types, label prefixes, status labels) therefore comes out as in Go; only the stored text of a non-ASCII type or platform, the title's platform tag, and the upper-cased HTTP method in `Challenge.SigningText` could differ. The one caller of the signing text passes `POST` (internal/api/server.go:122-130), so the last of these never shows.
- Renderer.PlatformTag: a platform holding a non-ASCII lower-case letter other than ı and ſ keeps that letter in the tag, where Go upper-cases it (see Strings.ToUpper).
- Strings.EqualFold: it folds the ASCII letters together with the Kelvin sign and the long s, the only non-ASCII letters that fold onto ASCII letters. Other Unicode case pairs (`É` and `é`) are not folded, so the result is Go's whenever one side is ASCII, as it is at the one call site.
- ApiServer.MapIssueStatus: the labels and the state are compared with ASCII constants, so under the case mapping above the status is Go's for every input; the lower-cased label text itself differs from Go's for non-ASCII letters other than İ and the Kelvin sign, which the status never shows.
- Challenge.ChallengeManager.VerifySubmission: it uses the corrected skew check `TimestampWithinSkew`, not the check as written; the written check, `SkewRejectsAsWritten`, also passes far-future timestamps whose difference from `now` saturates `now.Sub` at its minimum (see "## Findings"). Challenge.CheckSubmission and Challenge.VerifyStep apply the same corrected check.
- Challenge.VerifySucceedsIff: its "iff" names the corrected skew check `TimestampWithinSkew`, not the check as written; under the written check a far-future timestamp that saturates `now.Sub` would also succeed.
- Challenge.EarlyRejectionsKeepCounters: its out-of-skew case uses the corrected check `TimestampWithinSkew`, for the same reason.
- Title and detail lengths are counted as `|s|`. A Dafny string is a sequence of Unicode scalar values, so this is Go's rune count for valid UTF-8 input. Invalid UTF-8 is not modelled.
- RateLimit.FixedWindowLimiter.Allow: `Duration` arithmetic (`now.Sub`, `window * 2`) is exact here, with no 64-bit saturation or overflow. Window starts are earlier clock readings, so the differences stay small.
- `time.Time`'s monotonic clock reading is not modelled; every instant is one integer.

## Findings

| source | as written | input that shows it | evidently intended | confidence | as-written member | corrected member |
|---|---|---|---|---|---|---|
| internal/security/challenge.go:127-135 | `delta := now.Sub(timestamp)`, negated when negative, then compared with the skew. `Sub` saturates at the minimum `Duration`, and negating that minimum wraps back to itself, which stays negative and below the skew. This hits timestamps more than about 292 years ahead of `now`, up to `Int64Max - 62135596800`; above that, `time.Unix` wraps the timestamp to the far past and the check rejects it. | timestamp "100000000000" (year 5138) at `now` = 1.7e18 ns with a 90 s skew: the check passes | refuse every timestamp more than the skew away from `now` | not executed | Challenge.FarFutureTimestampPassesAsWritten | Challenge.TimestampWithinSkew |
