/**
  The feedback request of internal/api/types.go: its normalisation and its
  validation.

  The request is a value: Go's `Normalize` rewrites the fields of the
  request it is called on, which here is `Normalize` returning the rewritten
  request.
*/
module ApiTypes {
  import opened Wrappers
  import opened Strings

  /** `EnvironmentSnapshot`: what the client reports about itself. */
  datatype EnvironmentSnapshot = EnvironmentSnapshot(
    platform: string,
    appVersion: string,
    appBuild: string,
    osVersion: string,
    deviceModel: string,
    localeIdentifier: string,
    timezoneIdentifier: string)

  /** `SubmitIssueRequest`; `issueType` is the JSON field `type`. */
  datatype SubmitIssueRequest = SubmitIssueRequest(
    issueType: string,
    title: string,
    detail: string,
    reproductionSteps: string,
    expectedBehavior: string,
    actualBehavior: string,
    extraContext: string,
    environment: EnvironmentSnapshot,
    logs: seq<string>)

  /** `apiError`: a message and an HTTP status code. */
  datatype ApiError = ApiError(message: string, code: int)

  /** `errBadRequest`. */
  function BadRequest(message: string): (e: ApiError)
    ensures e.code == 400 && e.message == message
  {
    ApiError(message, 400)
  }

  // ---------------------------------------------------------------------------
  // Normalize

  /** A log line as `Normalize` keeps it: not empty and trimmed. */
  predicate IsKeptLine(line: string) {
    line != "" && IsTrimmed(line)
  }

  predicate AllKeptLines(logs: seq<string>) {
    forall i :: 0 <= i < |logs| ==> IsKeptLine(logs[i])
  }

  /** The log lines that are not blank, each trimmed, in their original order. */
  function NormalizeLogs(logs: seq<string>): seq<string>
    decreases |logs|
  {
    if logs == [] then [] else NormalizeLogs(logs[..|logs| - 1]) + NormalizeLine(logs[|logs| - 1])
  }

  /** One log line after `Normalize`: its trimmed form, or nothing when it is blank. */
  function NormalizeLine(line: string): seq<string> {
    var trimmed := TrimSpace(line);
    if trimmed != "" then [trimmed] else []
  }

  /** Normalising logs distributes over concatenation: it is an order-preserving filter of trimmed lines. */
  lemma {:induction false} NormalizeLogsAppend(a: seq<string>, b: seq<string>)
    ensures NormalizeLogs(a + b) == NormalizeLogs(a) + NormalizeLogs(b)
    decreases |b|
  {
    if b != [] {
      var ab, front, last := a + b, b[..|b| - 1], b[|b| - 1];
      assert ab[..|ab| - 1] == a + front;
      assert ab[|ab| - 1] == last;
      NormalizeLogsAppend(a, front);
      calc {
        NormalizeLogs(ab);
        NormalizeLogs(a + front) + NormalizeLine(last);
        (NormalizeLogs(a) + NormalizeLogs(front)) + NormalizeLine(last);
        NormalizeLogs(a) + (NormalizeLogs(front) + NormalizeLine(last));
        NormalizeLogs(a) + NormalizeLogs(b);
      }
    } else {
      assert a + b == a;
    }
  }

  /** Every line `Normalize` keeps is non-empty and trimmed. */
  lemma {:induction false} NormalizeLogsKeepsOnlyKeptLines(logs: seq<string>)
    ensures AllKeptLines(NormalizeLogs(logs))
    decreases |logs|
  {
    if logs != [] {
      var front := NormalizeLogs(logs[..|logs| - 1]);
      var line := NormalizeLine(logs[|logs| - 1]);
      NormalizeLogsKeepsOnlyKeptLines(logs[..|logs| - 1]);
      TrimSpaceIsTrimmed(logs[|logs| - 1]);
      forall i | 0 <= i < |front + line| ensures IsKeptLine((front + line)[i]) {
        if i >= |front| {
          assert (front + line)[i] == line[i - |front|];
        } else {
          assert (front + line)[i] == front[i];
        }
      }
    }
  }

  /** A single line is kept, trimmed, exactly when it is not blank. */
  lemma NormalizeLogsSingle(line: string)
    ensures NormalizeLogs([line]) == if TrimSpace(line) != "" then [TrimSpace(line)] else []
  {
    assert [line][..0] == [];
  }

  lemma SplitLast<T>(s: seq<T>)
    requires s != []
    ensures s == s[..|s| - 1] + [s[|s| - 1]]
  {
  }

  /** Lines that are already non-empty and trimmed are kept as they are. */
  lemma {:induction false} NormalizeLogsOfNormal(logs: seq<string>)
    requires AllKeptLines(logs)
    ensures NormalizeLogs(logs) == logs
    decreases |logs|
  {
    if logs != [] {
      var front, last := logs[..|logs| - 1], logs[|logs| - 1];
      assert AllKeptLines(front) by {
        forall i | 0 <= i < |front| ensures IsKeptLine(front[i]) {
          assert front[i] == logs[i];
        }
      }
      NormalizeLogsOfNormal(front);
      assert IsKeptLine(last);
      TrimSpaceOfTrimmed(last);
      assert NormalizeLine(last) == [last];
      SplitLast(logs);
    }
  }

  /** `Normalize` as a function: lower-case and trim the type and the platform, trim every other field, normalise the logs. */
  function Normalized(r: SubmitIssueRequest): SubmitIssueRequest {
    var env := r.environment;
    SubmitIssueRequest(
      LowerTrim(r.issueType),
      TrimSpace(r.title),
      TrimSpace(r.detail),
      TrimSpace(r.reproductionSteps),
      TrimSpace(r.expectedBehavior),
      TrimSpace(r.actualBehavior),
      TrimSpace(r.extraContext),
      EnvironmentSnapshot(
        LowerTrim(env.platform),
        TrimSpace(env.appVersion),
        TrimSpace(env.appBuild),
        TrimSpace(env.osVersion),
        TrimSpace(env.deviceModel),
        TrimSpace(env.localeIdentifier),
        TrimSpace(env.timezoneIdentifier)),
      NormalizeLogs(r.logs))
  }

  /** A request in normal form: every field trimmed, type and platform in lower case, no blank log lines. */
  ghost predicate IsNormal(r: SubmitIssueRequest) {
    var env := r.environment;
    && IsTrimmed(r.issueType) && IsLowered(r.issueType)
    && IsTrimmed(r.title) && IsTrimmed(r.detail) && IsTrimmed(r.reproductionSteps)
    && IsTrimmed(r.expectedBehavior) && IsTrimmed(r.actualBehavior) && IsTrimmed(r.extraContext)
    && IsTrimmed(env.platform) && IsLowered(env.platform)
    && IsTrimmed(env.appVersion) && IsTrimmed(env.appBuild) && IsTrimmed(env.osVersion)
    && IsTrimmed(env.deviceModel) && IsTrimmed(env.localeIdentifier) && IsTrimmed(env.timezoneIdentifier)
    && AllKeptLines(r.logs)
  }

  /** `Normalize` puts every request in normal form. */
  lemma NormalizedIsNormal(r: SubmitIssueRequest)
    ensures IsNormal(Normalized(r))
  {
    var env := r.environment;
    LowerTrimIsCanonical(r.issueType);
    LowerTrimIsCanonical(env.platform);
    TrimSpaceIsTrimmed(r.title);
    TrimSpaceIsTrimmed(r.detail);
    TrimSpaceIsTrimmed(r.reproductionSteps);
    TrimSpaceIsTrimmed(r.expectedBehavior);
    TrimSpaceIsTrimmed(r.actualBehavior);
    TrimSpaceIsTrimmed(r.extraContext);
    TrimSpaceIsTrimmed(env.appVersion);
    TrimSpaceIsTrimmed(env.appBuild);
    TrimSpaceIsTrimmed(env.osVersion);
    TrimSpaceIsTrimmed(env.deviceModel);
    TrimSpaceIsTrimmed(env.localeIdentifier);
    TrimSpaceIsTrimmed(env.timezoneIdentifier);
    NormalizeLogsKeepsOnlyKeptLines(r.logs);
  }

  /** A request already in normal form is left as it is. */
  lemma NormalizeFixesNormal(r: SubmitIssueRequest)
    requires IsNormal(r)
    ensures Normalized(r) == r
  {
    var env := r.environment;
    ToLowerOfLowered(r.issueType);
    ToLowerOfLowered(env.platform);
    TrimSpaceOfTrimmed(r.issueType);
    TrimSpaceOfTrimmed(r.title);
    TrimSpaceOfTrimmed(r.detail);
    TrimSpaceOfTrimmed(r.reproductionSteps);
    TrimSpaceOfTrimmed(r.expectedBehavior);
    TrimSpaceOfTrimmed(r.actualBehavior);
    TrimSpaceOfTrimmed(r.extraContext);
    TrimSpaceOfTrimmed(env.platform);
    TrimSpaceOfTrimmed(env.appVersion);
    TrimSpaceOfTrimmed(env.appBuild);
    TrimSpaceOfTrimmed(env.osVersion);
    TrimSpaceOfTrimmed(env.deviceModel);
    TrimSpaceOfTrimmed(env.localeIdentifier);
    TrimSpaceOfTrimmed(env.timezoneIdentifier);
    NormalizeLogsOfNormal(r.logs);
  }

  /** `Normalize` is idempotent. */
  lemma NormalizeIdempotent(r: SubmitIssueRequest)
    ensures Normalized(Normalized(r)) == Normalized(r)
  {
    NormalizedIsNormal(r);
    NormalizeFixesNormal(Normalized(r));
  }

  lemma NormalizeLogsStep(logs: seq<string>, i: nat)
    requires i < |logs|
    ensures NormalizeLogs(logs[..i + 1]) == NormalizeLogs(logs[..i]) + NormalizeLine(logs[i])
  {
    assert logs[..i + 1][..i] == logs[..i];
  }

  /** The loop of `Normalize` over the log lines. */
  method NormalizeLogLines(logs: seq<string>) returns (kept: seq<string>)
    ensures kept == NormalizeLogs(logs)
  {
    kept := [];
    for i := 0 to |logs|
      invariant kept == NormalizeLogs(logs[..i])
    {
      NormalizeLogsStep(logs, i);
      var trimmed := TrimSpace(logs[i]);
      if trimmed != "" {
        kept := kept + [trimmed];
      }
    }
    assert logs[..|logs|] == logs;
  }

  /** `Normalize`: the field rewrites, then the loop that keeps the non-blank trimmed log lines. */
  method Normalize(r: SubmitIssueRequest) returns (n: SubmitIssueRequest)
    ensures n == Normalized(r)
  {
    var logs := NormalizeLogLines(r.logs);
    var env := r.environment;
    n := SubmitIssueRequest(
      TrimSpace(ToLower(r.issueType)),
      TrimSpace(r.title),
      TrimSpace(r.detail),
      TrimSpace(r.reproductionSteps),
      TrimSpace(r.expectedBehavior),
      TrimSpace(r.actualBehavior),
      TrimSpace(r.extraContext),
      EnvironmentSnapshot(
        TrimSpace(ToLower(env.platform)),
        TrimSpace(env.appVersion),
        TrimSpace(env.appBuild),
        TrimSpace(env.osVersion),
        TrimSpace(env.deviceModel),
        TrimSpace(env.localeIdentifier),
        TrimSpace(env.timezoneIdentifier)),
      logs);
  }

  // ---------------------------------------------------------------------------
  // Validate

  const TypeMessage: string := "type 仅支持 bug 或 suggestion"
  const TitleMessage: string := "title 长度必须在 4 到 120 字符之间"
  const DetailMessage: string := "detail 长度必须在 10 到 4000 字符之间"
  const LogsMessage: string := "logs 条目过多"

  /**
    `Validate`: the type is `bug` or `suggestion`, the title has 4 to 120
    characters, the detail 10 to 4000, and there are at most 50 log lines.
    The first check that fails gives the error; every error is a 400.
  */
  function Validate(r: SubmitIssueRequest): (e: Outcome<ApiError>)
    ensures e == Pass <==>
      && (r.issueType == "bug" || r.issueType == "suggestion")
      && 4 <= |r.title| <= 120
      && 10 <= |r.detail| <= 4000
      && |r.logs| <= 50
    ensures e.Fail? ==> e.error.code == 400
    ensures e.Fail? ==> e.error.message in {TypeMessage, TitleMessage, DetailMessage, LogsMessage}
  {
    if r.issueType != "bug" && r.issueType != "suggestion" then Fail(BadRequest(TypeMessage))
    else if |r.title| < 4 || |r.title| > 120 then Fail(BadRequest(TitleMessage))
    else if |r.detail| < 10 || |r.detail| > 4000 then Fail(BadRequest(DetailMessage))
    else if |r.logs| > 50 then Fail(BadRequest(LogsMessage))
    else Pass
  }

  /**
    The checks run in order: an unsupported type is reported whatever else is
    wrong, a bad title is reported before a bad detail, and a bad detail
    before too many logs.
  */
  lemma ValidateReportsFirstFailure(r: SubmitIssueRequest)
    ensures r.issueType != "bug" && r.issueType != "suggestion" ==> Validate(r) == Fail(BadRequest(TypeMessage))
    ensures (r.issueType == "bug" || r.issueType == "suggestion") && !(4 <= |r.title| <= 120)
      ==> Validate(r) == Fail(BadRequest(TitleMessage))
    ensures (r.issueType == "bug" || r.issueType == "suggestion") && 4 <= |r.title| <= 120 && !(10 <= |r.detail| <= 4000)
      ==> Validate(r) == Fail(BadRequest(DetailMessage))
    ensures (r.issueType == "bug" || r.issueType == "suggestion") && 4 <= |r.title| <= 120 && 10 <= |r.detail| <= 4000
      && |r.logs| > 50
      ==> Validate(r) == Fail(BadRequest(LogsMessage))
  {
  }
}
