/**
  The Markdown rendering of a feedback request into a GitHub issue, as in
  internal/api/renderer.go: the title line and the body with its sections.
*/
module Renderer {
  import opened Strings
  import opened ApiTypes

  // ---------------------------------------------------------------------------
  // renderIssueTitle

  /** The platform tag of the title: the platform in upper case, `UNKNOWN` when it is empty. */
  function PlatformTag(platform: string): (tag: string)
    ensures platform == "" ==> tag == "UNKNOWN"
    ensures platform != "" ==> |tag| == |platform|
    ensures platform != "" ==> forall i :: 0 <= i < |tag| ==> tag[i] == UpperChar(platform[i])
    ensures forall i :: 0 <= i < |tag| ==> UpperChar(tag[i]) == tag[i]
  {
    ToUpper(if platform == "" then "unknown" else platform)
  }

  const TitlePrefix: string := "[App反馈]["

  /**
    `renderIssueTitle`: the title opens with `[App反馈][`, then the
    upper-cased platform tag and `] `, and ends with the request's title as
    it is.
  */
  function RenderIssueTitle(req: SubmitIssueRequest): (t: string)
    ensures var tag := PlatformTag(req.environment.platform);
      && |t| == |TitlePrefix| + |tag| + 2 + |req.title|
      && HasPrefix(t, TitlePrefix)
      && t[|TitlePrefix|..|TitlePrefix| + |tag|] == tag
      && t[|TitlePrefix| + |tag|..|TitlePrefix| + |tag| + 2] == "] "
      && t[|t| - |req.title|..] == req.title
  {
    TitlePrefix + PlatformTag(req.environment.platform) + "] " + req.title
  }

  /** A request without a platform gets the tag `UNKNOWN`; an `ios` one gets `IOS`. */
  lemma TitleTags(req: SubmitIssueRequest)
    ensures req.environment.platform == "" ==> RenderIssueTitle(req) == "[App反馈][UNKNOWN] " + req.title
    ensures req.environment.platform == "ios" ==> RenderIssueTitle(req) == "[App反馈][IOS] " + req.title
  {
    if req.environment.platform == "ios" {
      assert PlatformTag("ios") == "IOS";
    }
  }

  // ---------------------------------------------------------------------------
  // renderIssueBody, section by section

  const TypeHeading: string := "## 反馈类型\n"
  const BugLine: string := "- 问题反馈（Bug）\n\n"
  const FeatureLine: string := "- 功能建议（Feature）\n\n"

  /** The line under the type heading: the Bug line for `bug`, the Feature line for anything else. */
  function TypeLine(issueType: string): (line: string)
    ensures line == BugLine <==> issueType == "bug"
    ensures line == FeatureLine <==> issueType != "bug"
  {
    assert BugLine[2] != FeatureLine[2];
    if issueType == "bug" then BugLine else FeatureLine
  }

  const DetailHeading: string := "## 详细描述\n"

  /** The detail section, always present. */
  function DetailSection(detail: string): string {
    DetailHeading + detail + "\n\n"
  }

  const ReproductionHeading: string := "## 可复现步骤\n"
  const ExpectedHeading: string := "## 预期行为\n"
  const ActualHeading: string := "## 实际行为\n"
  const ExtraHeading: string := "## 补充信息\n"

  /** A section written only when its text is not empty: its heading, its text and a blank line. */
  function OptionalSection(heading: string, text: string): (r: string)
    ensures r == "" <==> text == ""
    ensures text != "" ==> HasPrefix(r, heading) && |r| == |heading| + |text| + 2
  {
    if text != "" then heading + text + "\n\n" else ""
  }

  /** The environment section, one line per field of the snapshot. */
  function EnvironmentSection(env: EnvironmentSnapshot): string {
    "## 环境信息\n"
    + "- 平台: " + env.platform + "\n"
    + "- App 版本: " + env.appVersion + " (Build " + env.appBuild + ")\n"
    + "- 系统版本: " + env.osVersion + "\n"
    + "- 设备型号: " + env.deviceModel + "\n"
    + "- 语言: " + env.localeIdentifier + "\n"
    + "- 时区: " + env.timezoneIdentifier + "\n"
    + "\n"
  }

  const LogHeading: string := "## 最小诊断日志\n"
  const NoLogs: string := "- 无\n"

  /** One bullet per log line, in order. */
  function LogLines(logs: seq<string>): string
    decreases |logs|
  {
    if logs == [] then "" else LogLines(logs[..|logs| - 1]) + LogLine(logs[|logs| - 1])
  }

  function LogLine(line: string): string {
    "- " + line + "\n"
  }

  /** Under the log heading: `- 无` when there are no logs, else the bullets. */
  function LogContent(logs: seq<string>): string {
    if |logs| == 0 then NoLogs else LogLines(logs)
  }

  const ServerNoteHead: string := "## 服务端附注\n- 来源: source/app-feedback\n- 同步标记: "
  const AutoUpdateMarker: string := "由用户提出自动更新的"

  function HashLine(clientIpHash: string): string {
    "- 客户端IP哈希: " + clientIpHash + "\n"
  }

  /** `renderIssueBody` as a function: the pieces the builder receives, in order. */
  function IssueBody(req: SubmitIssueRequest, clientIpHash: string): string {
    TypeHeading + TypeLine(req.issueType) + DetailSection(req.detail)
    + OptionalSection(ReproductionHeading, req.reproductionSteps)
    + OptionalSection(ExpectedHeading, req.expectedBehavior)
    + OptionalSection(ActualHeading, req.actualBehavior)
    + OptionalSection(ExtraHeading, req.extraContext)
    + EnvironmentSection(req.environment)
    + LogHeading + LogContent(req.logs) + "\n"
    + ServerNoteHead + AutoUpdateMarker + "\n"
    + HashLine(clientIpHash)
  }

  // ---------------------------------------------------------------------------
  // Properties of the body

  predicate Contains(s: string, part: string) {
    exists i :: 0 <= i <= |s| && HasPrefix(s[i..], part)
  }

  lemma PrefixExtend(p: string, a: string, b: string)
    requires HasPrefix(a, p)
    ensures HasPrefix(a + b, p)
  {
    assert (a + b)[..|p|] == a[..|p|];
  }

  lemma ContainsExtend(a: string, part: string, b: string)
    requires Contains(a, part)
    ensures Contains(a + b, part)
  {
    var i :| 0 <= i <= |a| && HasPrefix(a[i..], part);
    assert (a + b)[i..] == a[i..] + b;
    PrefixExtend(part, a[i..], b);
  }

  lemma ContainsAtEnd(a: string, part: string)
    ensures Contains(a + part, part)
  {
    assert (a + part)[|a|..] == part;
  }

  lemma Append3(x: string, a: string, b: string, c: string)
    ensures x + a + b + c == x + (a + b + c)
  {
  }

  /** Bullets distribute over concatenation: one bullet per line, in the lines' order. */
  lemma {:induction false} LogLinesAppend(a: seq<string>, b: seq<string>)
    ensures LogLines(a + b) == LogLines(a) + LogLines(b)
    decreases |b|
  {
    if b != [] {
      var ab, front, last := a + b, b[..|b| - 1], b[|b| - 1];
      assert ab[..|ab| - 1] == a + front;
      assert ab[|ab| - 1] == last;
      LogLinesAppend(a, front);
      calc {
        LogLines(ab);
        LogLines(a + front) + LogLine(last);
        (LogLines(a) + LogLines(front)) + LogLine(last);
        LogLines(a) + (LogLines(front) + LogLine(last));
        LogLines(a) + LogLines(b);
      }
    } else {
      assert a + b == a;
    }
  }

  /** A single log line renders as `- line`. */
  lemma LogLinesSingle(line: string)
    ensures LogLines([line]) == "- " + line + "\n"
  {
    assert [line][..0] == [];
  }

  /** Under the log heading: `- 无` without logs; for one line, its bullet. */
  lemma LogContentCases(logs: seq<string>)
    ensures logs == [] ==> LogContent(logs) == NoLogs
    ensures |logs| == 1 ==> LogContent(logs) == "- " + logs[0] + "\n"
  {
    if |logs| == 1 {
      assert logs == [logs[0]];
      LogLinesSingle(logs[0]);
    }
  }

  /**
    The body opens with the type heading, then the Bug line exactly for
    `bug` (the Feature line otherwise), and right after it the detail section.
  */
  lemma BodyOpensWithTypeAndDetail(req: SubmitIssueRequest, clientIpHash: string)
    ensures HasPrefix(IssueBody(req, clientIpHash), TypeHeading + TypeLine(req.issueType) + DetailSection(req.detail))
  {
    var p := TypeHeading + TypeLine(req.issueType) + DetailSection(req.detail);
    var b := p;
    assert HasPrefix(b, p);
    PrefixExtend(p, b, OptionalSection(ReproductionHeading, req.reproductionSteps));
    b := b + OptionalSection(ReproductionHeading, req.reproductionSteps);
    PrefixExtend(p, b, OptionalSection(ExpectedHeading, req.expectedBehavior));
    b := b + OptionalSection(ExpectedHeading, req.expectedBehavior);
    PrefixExtend(p, b, OptionalSection(ActualHeading, req.actualBehavior));
    b := b + OptionalSection(ActualHeading, req.actualBehavior);
    PrefixExtend(p, b, OptionalSection(ExtraHeading, req.extraContext));
    b := b + OptionalSection(ExtraHeading, req.extraContext);
    PrefixExtend(p, b, EnvironmentSection(req.environment));
    b := b + EnvironmentSection(req.environment);
    PrefixExtend(p, b, LogHeading);
    b := b + LogHeading;
    PrefixExtend(p, b, LogContent(req.logs));
    b := b + LogContent(req.logs);
    PrefixExtend(p, b, "\n");
    b := b + "\n";
    PrefixExtend(p, b, ServerNoteHead);
    b := b + ServerNoteHead;
    PrefixExtend(p, b, AutoUpdateMarker);
    b := b + AutoUpdateMarker;
    PrefixExtend(p, b, "\n");
    b := b + "\n";
    PrefixExtend(p, b, HashLine(clientIpHash));
  }

  /** The text before the server note's marker. */
  function BeforeMarker(req: SubmitIssueRequest): string {
    TypeHeading + TypeLine(req.issueType) + DetailSection(req.detail)
    + OptionalSection(ReproductionHeading, req.reproductionSteps)
    + OptionalSection(ExpectedHeading, req.expectedBehavior)
    + OptionalSection(ActualHeading, req.actualBehavior)
    + OptionalSection(ExtraHeading, req.extraContext)
    + EnvironmentSection(req.environment)
    + LogHeading + LogContent(req.logs) + "\n"
    + ServerNoteHead
  }

  /** The body always carries the auto-update marker, whatever the request. */
  lemma BodyHasMarker(req: SubmitIssueRequest, clientIpHash: string)
    ensures Contains(IssueBody(req, clientIpHash), AutoUpdateMarker)
  {
    var before := BeforeMarker(req);
    assert IssueBody(req, clientIpHash) == before + AutoUpdateMarker + "\n" + HashLine(clientIpHash);
    ContainsAtEnd(before, AutoUpdateMarker);
    ContainsExtend(before + AutoUpdateMarker, AutoUpdateMarker, "\n");
    ContainsExtend(before + AutoUpdateMarker + "\n", AutoUpdateMarker, HashLine(clientIpHash));
  }

  /** The body ends with the hash line of the client's address. */
  lemma BodyEndsWithHash(req: SubmitIssueRequest, clientIpHash: string)
    ensures var body := IssueBody(req, clientIpHash);
      |HashLine(clientIpHash)| <= |body| && body[|body| - |HashLine(clientIpHash)|..] == HashLine(clientIpHash)
  {
    var before := BeforeMarker(req) + AutoUpdateMarker + "\n";
    assert IssueBody(req, clientIpHash) == before + HashLine(clientIpHash);
  }

  /** With no optional field filled in, the environment section follows the detail section directly. */
  lemma BodyWithoutOptionalSections(req: SubmitIssueRequest, clientIpHash: string)
    requires req.reproductionSteps == "" && req.expectedBehavior == "" && req.actualBehavior == "" && req.extraContext == ""
    ensures HasPrefix(IssueBody(req, clientIpHash),
      TypeHeading + TypeLine(req.issueType) + DetailSection(req.detail) + EnvironmentSection(req.environment))
  {
    var p := TypeHeading + TypeLine(req.issueType) + DetailSection(req.detail);
    var q := p + EnvironmentSection(req.environment);
    var b := p
      + OptionalSection(ReproductionHeading, req.reproductionSteps)
      + OptionalSection(ExpectedHeading, req.expectedBehavior)
      + OptionalSection(ActualHeading, req.actualBehavior)
      + OptionalSection(ExtraHeading, req.extraContext)
      + EnvironmentSection(req.environment);
    assert b == q;
    assert HasPrefix(b, q);
    PrefixExtend(q, b, LogHeading);
    b := b + LogHeading;
    PrefixExtend(q, b, LogContent(req.logs));
    b := b + LogContent(req.logs);
    PrefixExtend(q, b, "\n");
    b := b + "\n";
    PrefixExtend(q, b, ServerNoteHead);
    b := b + ServerNoteHead;
    PrefixExtend(q, b, AutoUpdateMarker);
    b := b + AutoUpdateMarker;
    PrefixExtend(q, b, "\n");
    b := b + "\n";
    PrefixExtend(q, b, HashLine(clientIpHash));
  }

  // ---------------------------------------------------------------------------
  // renderIssueBody, step by step

  lemma LogLinesStep(logs: seq<string>, i: nat)
    requires i < |logs|
    ensures LogLines(logs[..i + 1]) == LogLines(logs[..i]) + LogLine(logs[i])
  {
    assert logs[..i + 1][..i] == logs[..i];
  }

  /** The loop over the log lines: each line becomes a bullet. */
  method WriteLogLines(logs: seq<string>) returns (text: string)
    ensures text == LogLines(logs)
  {
    text := "";
    for i := 0 to |logs|
      invariant text == LogLines(logs[..i])
    {
      LogLinesStep(logs, i);
      Append3(text, "- ", logs[i], "\n");
      text := text + "- ";
      text := text + logs[i];
      text := text + "\n";
    }
    assert logs[..|logs|] == logs;
  }

  /**
    `renderIssueBody`: the builder's writes, in order. The three literal
    writes of the server note are grouped here as its head, the marker and
    the line break.
  */
  method RenderIssueBody(req: SubmitIssueRequest, clientIpHash: string) returns (body: string)
    ensures body == IssueBody(req, clientIpHash)
  {
    body := TypeHeading;
    if req.issueType == "bug" {
      body := body + BugLine;
    } else {
      body := body + FeatureLine;
    }
    assert body == TypeHeading + TypeLine(req.issueType);

    Append3(body, DetailHeading, req.detail, "\n\n");
    body := body + DetailHeading + req.detail + "\n\n";
    assert body == TypeHeading + TypeLine(req.issueType) + DetailSection(req.detail);

    ghost var before := body;
    if req.reproductionSteps != "" {
      Append3(body, ReproductionHeading, req.reproductionSteps, "\n\n");
      body := body + ReproductionHeading + req.reproductionSteps + "\n\n";
    }
    assert body == before + OptionalSection(ReproductionHeading, req.reproductionSteps);
    before := body;
    if req.expectedBehavior != "" {
      Append3(body, ExpectedHeading, req.expectedBehavior, "\n\n");
      body := body + ExpectedHeading + req.expectedBehavior + "\n\n";
    }
    assert body == before + OptionalSection(ExpectedHeading, req.expectedBehavior);
    before := body;
    if req.actualBehavior != "" {
      Append3(body, ActualHeading, req.actualBehavior, "\n\n");
      body := body + ActualHeading + req.actualBehavior + "\n\n";
    }
    assert body == before + OptionalSection(ActualHeading, req.actualBehavior);
    before := body;
    if req.extraContext != "" {
      Append3(body, ExtraHeading, req.extraContext, "\n\n");
      body := body + ExtraHeading + req.extraContext + "\n\n";
    }
    assert body == before + OptionalSection(ExtraHeading, req.extraContext);

    body := body + EnvironmentSection(req.environment);

    body := body + LogHeading;
    before := body;
    if |req.logs| == 0 {
      body := body + NoLogs;
    } else {
      var bullets := WriteLogLines(req.logs);
      body := body + bullets;
    }
    assert body == before + LogContent(req.logs);
    body := body + "\n";

    body := body + ServerNoteHead;
    body := body + AutoUpdateMarker;
    body := body + "\n";
    Append3(body, "- 客户端IP哈希: ", clientIpHash, "\n");
    body := body + "- 客户端IP哈希: " + clientIpHash + "\n";
  }
}
