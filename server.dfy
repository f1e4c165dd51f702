/**
  The request-shaping helpers of internal/api/server.go: the platform label,
  the visible-label filter, the issue-status mapping, the rate-limit key, the
  labels of a created issue and the empty case of the ticket token.
*/
module ApiServer {
  import opened Strings
  import opened ApiTypes

  // ---------------------------------------------------------------------------
  // platformLabel

  /** `platformLabel`: the label for the lower-cased, trimmed platform name. */
  function PlatformLabel(platform: string): (item: string)
    ensures item == "platform/ios" <==> LowerTrim(platform) == "ios"
    ensures item == "platform/watchos" <==> LowerTrim(platform) == "watchos"
    ensures item == "platform/unknown" <==> LowerTrim(platform) != "ios" && LowerTrim(platform) != "watchos"
  {
    var normalized := TrimSpace(ToLower(platform));
    if normalized == "ios" then "platform/ios"
    else if normalized == "watchos" then "platform/watchos"
    else "platform/unknown"
  }

  /** The label does not change when the platform has already been through `Normalize`. */
  lemma PlatformLabelOfNormalized(r: SubmitIssueRequest)
    ensures PlatformLabel(Normalized(r).environment.platform) == PlatformLabel(r.environment.platform)
  {
    LowerTrimIdempotent(r.environment.platform);
  }

  // ---------------------------------------------------------------------------
  // filterVisibleLabels

  /** The prefixes of labels kept from clients. */
  const HiddenPrefixes: seq<string> := ["internal/", "security/", "meta/", "source/"]

  predicate HasHiddenPrefix(normalized: string) {
    exists i :: 0 <= i < |HiddenPrefixes| && HasPrefix(normalized, HiddenPrefixes[i])
  }

  /** A label is shown when its trimmed, lower-cased form is neither empty nor under a hidden prefix. */
  predicate Visible(item: string) {
    var normalized := ToLower(TrimSpace(item));
    normalized != "" && !HasHiddenPrefix(normalized)
  }

  /** The shown labels, as the client sent them, in their order. */
  function VisibleLabels(labels: seq<string>): seq<string>
    decreases |labels|
  {
    if labels == [] then []
    else VisibleLabels(labels[..|labels| - 1]) + KeepVisible(labels[|labels| - 1])
  }

  function KeepVisible(item: string): seq<string> {
    if Visible(item) then [item] else []
  }

  /** `a` is `b` with some elements deleted. */
  ghost predicate IsSubsequence<T>(a: seq<T>, b: seq<T>)
    decreases |b|
  {
    if a == [] then true
    else if b == [] then false
    else if a[|a| - 1] == b[|b| - 1] then IsSubsequence(a[..|a| - 1], b[..|b| - 1])
    else IsSubsequence(a, b[..|b| - 1])
  }

  lemma {:induction false} IsSubsequenceExtend<T>(a: seq<T>, b: seq<T>, x: T)
    requires IsSubsequence(a, b)
    ensures IsSubsequence(a, b + [x])
    decreases |b|, 1
  {
    var bx := b + [x];
    assert bx[..|bx| - 1] == b;
    if a != [] && a[|a| - 1] == x {
      // the last element of `a` may be matched with `x` instead
      IsSubsequenceDropLast(a, b);
    }
  }

  lemma {:induction false} IsSubsequenceDropLast<T>(a: seq<T>, b: seq<T>)
    requires a != [] && IsSubsequence(a, b)
    ensures IsSubsequence(a[..|a| - 1], b)
    decreases |b|, 0
  {
    var front := b[..|b| - 1];
    if a[|a| - 1] == b[|b| - 1] {
      if a[..|a| - 1] != [] {
        IsSubsequenceDropLast(a[..|a| - 1], front);
        IsSubsequenceExtend(a[..|a| - 1][..|a| - 2], front, b[|b| - 1]);
        assert b == front + [b[|b| - 1]];
      }
    } else {
      IsSubsequenceDropLast(a, front);
      IsSubsequenceExtend(a[..|a| - 1], front, b[|b| - 1]);
      assert b == front + [b[|b| - 1]];
    }
  }

  /** The shown labels are a subsequence of the labels: nothing is rewritten, added or reordered. */
  lemma {:induction false} VisibleLabelsIsSubsequence(labels: seq<string>)
    ensures IsSubsequence(VisibleLabels(labels), labels)
    decreases |labels|
  {
    if labels != [] {
      var front, last := labels[..|labels| - 1], labels[|labels| - 1];
      VisibleLabelsIsSubsequence(front);
      var kept := VisibleLabels(front);
      if Visible(last) {
        var r := kept + [last];
        assert r[..|r| - 1] == kept;
        assert labels[..|labels| - 1] == front;
      } else {
        assert VisibleLabels(labels) == kept;
        IsSubsequenceExtend(kept, front, last);
        assert labels == front + [last];
      }
    }
  }

  /** A label is among the shown labels exactly when it was sent and is visible. */
  lemma {:induction false} VisibleLabelsMembership(labels: seq<string>, item: string)
    ensures item in VisibleLabels(labels) <==> item in labels && Visible(item)
    decreases |labels|
  {
    if labels != [] {
      var front, last := labels[..|labels| - 1], labels[|labels| - 1];
      VisibleLabelsMembership(front, item);
      assert labels == front + [last];
      assert item in labels <==> item in front || item == last;
    }
  }

  lemma VisibleLabelsStep(labels: seq<string>, i: nat)
    requires i < |labels|
    ensures VisibleLabels(labels[..i + 1]) == VisibleLabels(labels[..i]) + KeepVisible(labels[i])
  {
    assert labels[..i + 1][..i] == labels[..i];
  }

  /** The inner loop of `filterVisibleLabels`: is the normalised label under one of the hidden prefixes? */
  method HiddenByPrefix(normalized: string) returns (hidden: bool)
    ensures hidden <==> HasHiddenPrefix(normalized)
  {
    hidden := false;
    for j := 0 to |HiddenPrefixes|
      invariant !hidden
      invariant forall k :: 0 <= k < j ==> !HasPrefix(normalized, HiddenPrefixes[k])
    {
      if HasPrefix(normalized, HiddenPrefixes[j]) {
        hidden := true;
        break;
      }
    }
  }

  /** `filterVisibleLabels`: the outer loop over the labels and the inner loop over the hidden prefixes. */
  method FilterVisibleLabels(labels: seq<string>) returns (result: seq<string>)
    ensures result == VisibleLabels(labels)
  {
    result := [];
    for i := 0 to |labels|
      invariant result == VisibleLabels(labels[..i])
    {
      VisibleLabelsStep(labels, i);
      var item := labels[i];
      var normalized := ToLower(TrimSpace(item));
      if normalized == "" {
        continue;
      }

      var hidden := HiddenByPrefix(normalized);
      if hidden {
        continue;
      }

      result := result + [item];
    }
    assert labels[..|labels|] == labels;
  }

  // ---------------------------------------------------------------------------
  // containsLabel and mapIssueStatus

  /** `containsLabel`: exact, case-sensitive membership. */
  method ContainsLabel(labels: seq<string>, target: string) returns (found: bool)
    ensures found <==> target in labels
  {
    for i := 0 to |labels|
      invariant target !in labels[..i]
    {
      if labels[i] == target {
        return true;
      }
    }
    assert labels[..|labels|] == labels;
    return false;
  }

  /** The labels in lower case, as `mapIssueStatus` matches them. */
  function LowerAll(labels: seq<string>): (r: seq<string>)
    ensures |r| == |labels|
    ensures forall i :: 0 <= i < |r| ==> r[i] == ToLower(labels[i])
  {
    seq(|labels|, i requires 0 <= i < |labels| => ToLower(labels[i]))
  }

  /** Some label, lower-cased but not trimmed, is exactly `target`. */
  predicate HasLabelFolded(labels: seq<string>, target: string) {
    target in LowerAll(labels)
  }

  /** `mapIssueStatus` as a function. */
  function IssueStatus(state: string, labels: seq<string>): string {
    if HasLabelFolded(labels, "status/triage") then "triage"
    else if HasLabelFolded(labels, "status/in-progress") then "in_progress"
    else if HasLabelFolded(labels, "status/blocked") then "blocked"
    else if HasLabelFolded(labels, "status/resolved") then "resolved"
    else if EqualFold(state, "closed") then "closed"
    else "in_progress"
  }

  /**
    The first status label present, in the order triage, in-progress,
    blocked, resolved, decides; only without any of them does the state
    count, giving "closed" exactly when it is "closed" in any case.
  */
  lemma IssueStatusCases(state: string, labels: seq<string>)
    ensures var s := IssueStatus(state, labels);
      var triage := HasLabelFolded(labels, "status/triage");
      var progress := HasLabelFolded(labels, "status/in-progress");
      var blocked := HasLabelFolded(labels, "status/blocked");
      var resolved := HasLabelFolded(labels, "status/resolved");
      var none := !triage && !progress && !blocked && !resolved;
      && (s == "triage" <==> triage)
      && (s == "blocked" <==> !triage && !progress && blocked)
      && (s == "resolved" <==> !triage && !progress && !blocked && resolved)
      && (s == "closed" <==> none && EqualFold(state, "closed"))
      && (s == "in_progress" <==> (!triage && progress) || (none && !EqualFold(state, "closed")))
  {
  }

  /** A status label counts only when its lower-cased text matches exactly: `STATUS/Triage` does, ` status/triage` does not. */
  lemma StatusMatchIsFoldedAndUntrimmed()
    ensures IssueStatus("open", ["STATUS/Triage"]) == "triage"
    ensures IssueStatus("open", [" status/triage"]) == "in_progress"
  {
    var upper: string := "STATUS/Triage";
    assert LowerAll([upper])[0] == "status/triage";
    var spaced: string := " status/triage";
    var lowered := LowerAll([spaced]);
    assert lowered[0][0] == ' ';
    assert "status/triage" !in lowered;
    assert "status/in-progress" !in lowered;
    assert "status/blocked" !in lowered;
    assert "status/resolved" !in lowered;
    assert !EqualFold("open", "closed");
  }

  /**
    A closed issue that still carries `status/triage` reports "triage":
    the labels are looked at before the state.
  */
  lemma TriageBeatsClosed()
    ensures IssueStatus("closed", ["status/triage", "status/in-progress"]) == "triage"
  {
    assert LowerAll(["status/triage", "status/in-progress"])[0] == "status/triage";
  }

  /**
    The comparisons follow Go's Unicode case rules, not just ASCII: the long s
    folds with `s`, the Kelvin sign lower-cases to `k`, and the dotted
    capital I lower-cases to `i`.
  */
  lemma NonAsciiLetters()
    ensures IssueStatus("clo\U{017F}ed", []) == "closed"
    ensures IssueStatus("open", ["status/bloc\U{212A}ed"]) == "blocked"
    ensures PlatformLabel("\U{0130}OS") == "platform/ios"
  {
    EqualFoldClosed("clo\U{017F}ed");
    var lowered := LowerAll(["status/bloc\U{212A}ed"]);
    assert lowered[0] == "status/blocked";
    assert "status/triage" !in lowered && "status/in-progress" !in lowered;
    var ios: string := "ios";
    assert ToLower("\U{0130}OS") == ios;
    PrintableIsNotSpace(ios[0]);
    PrintableIsNotSpace(ios[2]);
    TrimSpaceOfTrimmed(ios);
  }

  /** `mapIssueStatus`: lower-case the labels in a loop, then probe them in order. */
  method MapIssueStatus(state: string, labels: seq<string>) returns (status: string)
    ensures status == IssueStatus(state, labels)
  {
    var lowered: seq<string> := [];
    for i := 0 to |labels|
      invariant lowered == LowerAll(labels[..i])
    {
      lowered := lowered + [ToLower(labels[i])];
    }
    assert labels[..|labels|] == labels;

    var found := ContainsLabel(lowered, "status/triage");
    if found {
      return "triage";
    }
    found := ContainsLabel(lowered, "status/in-progress");
    if found {
      return "in_progress";
    }
    found := ContainsLabel(lowered, "status/blocked");
    if found {
      return "blocked";
    }
    found := ContainsLabel(lowered, "status/resolved");
    if found {
      return "resolved";
    }
    if EqualFold(state, "closed") {
      return "closed";
    }
    return "in_progress";
  }

  // ---------------------------------------------------------------------------
  // Keys and labels built by the handlers

  /** The key `allowRate` gives the limiter: `action:clientIP`. */
  function RateKey(action: string, clientIp: string): (key: string)
    ensures |key| == |action| + 1 + |clientIp|
    ensures key[..|action|] == action && key[|action|] == ':' && key[|action| + 1..] == clientIp
  {
    action + ":" + clientIp
  }

  /**
    Actions without a colon (the handlers use `challenge`, `submit` and
    `query`) give distinct keys for distinct action/address pairs, so each
    pair has its own counter.
  */
  lemma RateKeyInjective(a1: string, ip1: string, a2: string, ip2: string)
    requires ':' !in a1 && ':' !in a2
    requires RateKey(a1, ip1) == RateKey(a2, ip2)
    ensures a1 == a2 && ip1 == ip2
  {
  }

  /**
    The labels `handleCreateIssue` puts on a new issue: three fixed ones, then
    `type/bug` exactly for bugs and `type/feature` otherwise.
  */
  function IssueLabels(req: SubmitIssueRequest): (labels: seq<string>)
    ensures |labels| == 4
    ensures labels[0] == "source/app-feedback" && labels[1] == "status/triage"
    ensures labels[2] == PlatformLabel(req.environment.platform)
    ensures labels[2] in {"platform/ios", "platform/watchos", "platform/unknown"}
    ensures labels[3] == "type/bug" <==> req.issueType == "bug"
    ensures labels[3] == "type/feature" <==> req.issueType != "bug"
  {
    ["source/app-feedback", "status/triage", PlatformLabel(req.environment.platform),
     if req.issueType == "bug" then "type/bug" else "type/feature"]
  }

  /** A freshly created issue reports the status "triage", whatever its state. */
  lemma NewIssueIsTriage(req: SubmitIssueRequest, state: string)
    ensures IssueStatus(state, IssueLabels(req)) == "triage"
  {
    assert LowerAll(IssueLabels(req))[1] == "status/triage";
  }

  /** The `source/app-feedback` label of a new issue is never shown to clients. */
  lemma SourceLabelHidden()
    ensures !Visible("source/app-feedback")
  {
    var item: string := "source/app-feedback";
    PrintableIsNotSpace(item[0]);
    PrintableIsNotSpace(item[|item| - 1]);
    TrimSpaceOfTrimmed(item);
    var normalized := ToLower(item);
    assert normalized == item;
    assert HasPrefix(normalized, HiddenPrefixes[3]);
  }

  // ---------------------------------------------------------------------------
  // randomToken

  /**
    `randomToken`: the empty token for a length of zero or less; otherwise
    `drawn`, the encoding of the random bytes (or the fallback hash) that the
    random source provides.
  */
  function RandomToken(length: int, drawn: string): (token: string)
    ensures length <= 0 ==> token == ""
    ensures 0 < length ==> token == drawn
  {
    if length <= 0 then "" else drawn
  }
}
