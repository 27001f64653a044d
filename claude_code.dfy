/** claude_code.py: the monitoring loop with an offline mode.  Every
    unhealthy pod is reported with its logs, its description and an analysis;
    missing logs and descriptions are replaced by fixed sentinels, and the
    model is asked only when the monitor is online and the model server is
    ready.  kubectl and the model are inputs: `logsOf` and `describe` stand
    for `get_pod_logs` and `get_pod_description` (None when kubectl fails),
    `serverReady` for the answer of `check_ollama_status` when a pod is
    handled, and `ollama` for the model's answer to a prompt. */
module ClaudeCode {
  import opened Maybe
  import opened PodRecord
  import opened Text
  import opened StatusDetails

  // ---------------------------------------------------------------------
  // is_pod_unhealthy
  // ---------------------------------------------------------------------

  /** A container that flags a Running pod: explicitly not ready, with a
      `waiting` or a `terminated` key in its state (a missing state reads as
      `{}`), whatever the exit code. */
  predicate ContainerFlags(c: ContainerStatus)
  {
    NotReady(c) && (StateOf(c).waiting.Some? || StateOf(c).terminated.Some?)
  }

  /** claude_code.py's classifier; a missing status reads as `{}`. */
  predicate IsPodUnhealthy(pod: Pod)
  {
    var status := StatusOf(pod);
    var phase := PhaseOf(status);
    var containers := ContainersOf(status);
    phase in ["Failed", "Unknown"]
    || (phase == "Pending" && HasUnscheduledCondition(status))
    || (phase == "Running" && exists k :: 0 <= k < |containers| && ContainerFlags(containers[k]))
  }

  /** The phase rules: a missing status is healthy (its phase is ""); Failed
      and Unknown are unhealthy; Pending is unhealthy exactly when
      unscheduled; any phase other than these and Running is healthy. */
  lemma PhaseRules(pod: Pod)
    ensures pod.status.None? ==> !IsPodUnhealthy(pod)
    ensures PhaseOf(StatusOf(pod)) in ["Failed", "Unknown"] ==> IsPodUnhealthy(pod)
    ensures PhaseOf(StatusOf(pod)) == "Pending" ==> (IsPodUnhealthy(pod) <==> HasUnscheduledCondition(StatusOf(pod)))
    ensures PhaseOf(StatusOf(pod)) !in ["Failed", "Unknown", "Pending", "Running"] ==> !IsPodUnhealthy(pod)
  {
  }

  /** The container rules: a missing `ready` never flags; a not-ready
      container flags exactly when its state has a `waiting` or `terminated`
      key, so a terminated state with exit code 0 flags too. */
  lemma ContainerRules(c: ContainerStatus)
    ensures c.ready.None? ==> !ContainerFlags(c)
    ensures NotReady(c) ==> (ContainerFlags(c) <==> c.state.Some? && (c.state.value.waiting.Some? || c.state.value.terminated.Some?))
    ensures (NotReady(c) && c.state.Some? && c.state.value.terminated.Some?
             && c.state.value.terminated.value.exitCode == Some(0)) ==> ContainerFlags(c)
  {
  }

  // ---------------------------------------------------------------------
  // Sentinels and excerpts
  // ---------------------------------------------------------------------

  const NoLogs := "No logs available"
  const NoDescription := "No description available"
  const ExcerptLimit: nat := 2000
  const DisplayLimit: nat := 500
  const OfflineText := "AI analysis disabled (offline mode). Please review logs and pod description manually."
  const ManualReviewText := "AI analysis not available. Manual review required."

  /** `fetched or sentinel`: kubectl's answer, or the sentinel when it failed
      or printed nothing. */
  function OrSentinel(fetched: Option<string>, sentinel: string): (r: string)
    ensures fetched.Some? && fetched.value != "" ==> r == fetched.value
    ensures fetched.None? || fetched.value == "" ==> r == sentinel
    ensures sentinel != "" ==> r != ""
    ensures r == sentinel || fetched == Some(r)
  {
    if fetched.Some? && fetched.value != "" then fetched.value else sentinel
  }

  /** `text[:2000] if text else sentinel`. */
  function Excerpt(text: string, sentinel: string): (r: string)
    ensures text == "" ==> r == sentinel
    ensures text != "" ==> r <= text && |r| == if |text| <= ExcerptLimit then |text| else ExcerptLimit
  {
    if text != "" then Take(text, ExcerptLimit) else sentinel
  }

  /** What reaches the prompt from a fetch: the sentinel when kubectl gave
      nothing, otherwise a non-empty prefix of what it gave of at most 2000
      characters.  Every excerpt is therefore the sentinel or such a prefix. */
  lemma FetchedExcerpt(fetched: Option<string>, sentinel: string)
    requires sentinel != ""
    ensures fetched.None? || fetched.value == "" ==> Excerpt(OrSentinel(fetched, sentinel), sentinel) == Take(sentinel, ExcerptLimit)
    ensures fetched.Some? && fetched.value != "" ==>
              var r := Excerpt(OrSentinel(fetched, sentinel), sentinel);
              r != "" && r <= fetched.value && |r| <= ExcerptLimit
    ensures |sentinel| <= ExcerptLimit ==>
              var r := Excerpt(OrSentinel(fetched, sentinel), sentinel);
              r == sentinel || (fetched.Some? && r <= fetched.value && |r| <= ExcerptLimit)
  {
  }

  // ---------------------------------------------------------------------
  // analyze_with_ollama and the offline gate
  // ---------------------------------------------------------------------

  datatype PodInfo = PodInfo(name: string, namespace: string, status: string)

  /** What the prompt is built from: the pod info and the two excerpts. */
  datatype Prompt = Prompt(info: PodInfo, logs: string, description: string)

  /** The answer of an analysis and the request it sent, if any. */
  datatype Analysis = Analysis(request: Option<Prompt>, text: string)

  /** `analyze_with_ollama`: offline gives the fixed text and sends nothing;
      otherwise the prompt carries the excerpts and the text is the model's
      answer (or the error text the call turned into). */
  function AnalyzeWithOllama(offline: bool, logs: string, description: string, info: PodInfo, ollama: Prompt -> string): (a: Analysis)
    ensures offline <==> a.request.None?
    ensures offline ==> a.text == OfflineText
    ensures !offline ==> a.request.value.info == info
                         && a.request.value.logs == Excerpt(logs, NoLogs)
                         && a.request.value.description == Excerpt(description, NoDescription)
                         && a.text == ollama(a.request.value)
  {
    if offline then Analysis(None, OfflineText)
    else
      var prompt := Prompt(info, Excerpt(logs, NoLogs), Excerpt(description, NoDescription));
      Analysis(Some(prompt), ollama(prompt))
  }

  /** The gate in the main loop: analyse only when online and the server is
      ready, otherwise the manual-review text. */
  function GatedAnalysis(offline: bool, serverReady: bool, logs: string, description: string, info: PodInfo, ollama: Prompt -> string): Analysis
  {
    if !offline && serverReady then AnalyzeWithOllama(offline, logs, description, info, ollama)
    else Analysis(None, ManualReviewText)
  }

  /** A request is sent exactly when online with a ready server; the offline
      text of `analyze_with_ollama` is never what the main loop shows unless
      the model itself answers with it. */
  lemma GateDecidesRequest(offline: bool, serverReady: bool, logs: string, description: string, info: PodInfo, ollama: Prompt -> string)
    ensures var a := GatedAnalysis(offline, serverReady, logs, description, info, ollama);
            (a.request.Some? <==> !offline && serverReady)
            && (a.request.None? ==> a.text == ManualReviewText)
            && (a.text == OfflineText ==> a.request.Some? && ollama(a.request.value) == OfflineText)
  {
  }

  // ---------------------------------------------------------------------
  // main_loop
  // ---------------------------------------------------------------------

  /** What one unhealthy pod leaves on the screen: its logs (or sentinel), its
      description (or sentinel), the analysis and the logs as shown. */
  datatype Report = Report(info: PodInfo, logs: string, description: string, analysis: Analysis, shownLogs: string)

  function NameOf(pod: Pod): string
  {
    if pod.metadata.Some? then pod.metadata.value.name.GetOr("unknown") else "unknown"
  }

  function NamespaceOf(pod: Pod): string
  {
    if pod.metadata.Some? then pod.metadata.value.namespace.GetOr("default") else "default"
  }

  function InfoOf(pod: Pod): PodInfo
  {
    PodInfo(NameOf(pod), NamespaceOf(pod), Render(LastDetail(ContainersOf(StatusOf(pod)))))
  }

  /** The status-detail loop, with a missing `state` read as `{}`. */
  method StatusDetailsOf(containers: seq<ContainerStatus>) returns (d: StatusDetail)
    ensures d == LastDetail(containers)
  {
    d := UnknownDetail;
    for i := 0 to |containers|
      invariant d == LastDetail(containers[..i])
    {
      var state := StateOf(containers[i]);
      if state.waiting.Some? {
        d := WaitingDetail(state.waiting.value.reason.GetOr(""), state.waiting.value.message.GetOr(""));
      } else if state.terminated.Some? {
        d := TerminatedDetail(state.terminated.value.reason.GetOr(""), state.terminated.value.exitCode);
      }
      assert containers[..i + 1][..i] == containers[..i];
    }
    assert containers[..|containers|] == containers;
  }

  /** The loop body for one pod: no output for a healthy pod, one report for
      an unhealthy one, whether or not kubectl returned anything. */
  function ReportFor(
    pod: Pod, offline: bool,
    logsOf: (string, string) -> Option<string>, describe: (string, string) -> Option<string>,
    serverReady: (string, string) -> bool, ollama: Prompt -> string): seq<Report>
  {
    if !IsPodUnhealthy(pod) then []
    else
      var name := NameOf(pod);
      var namespace := NamespaceOf(pod);
      var logs := OrSentinel(logsOf(namespace, name), NoLogs);
      var description := OrSentinel(describe(namespace, name), NoDescription);
      var info := InfoOf(pod);
      var analysis := GatedAnalysis(offline, serverReady(namespace, name), logs, description, info, ollama);
      [Report(info, logs, description, analysis, Ellipsize(logs, DisplayLimit))]
  }

  function Reports(
    pods: seq<Pod>, offline: bool,
    logsOf: (string, string) -> Option<string>, describe: (string, string) -> Option<string>,
    serverReady: (string, string) -> bool, ollama: Prompt -> string): seq<Report>
  {
    if pods == [] then []
    else Reports(pods[..|pods| - 1], offline, logsOf, describe, serverReady, ollama)
         + ReportFor(pods[|pods| - 1], offline, logsOf, describe, serverReady, ollama)
  }

  /** `r` is what the loop prints for `pod`: the pod is unhealthy, the
      logs and description are kubectl's or the sentinels, the analysis is
      the gated one for that pod, and the logs are shown cut to 500
      characters. */
  predicate IsReportOf(
    r: Report, pod: Pod, offline: bool,
    logsOf: (string, string) -> Option<string>, describe: (string, string) -> Option<string>,
    serverReady: (string, string) -> bool, ollama: Prompt -> string)
  {
    var name, namespace := NameOf(pod), NamespaceOf(pod);
    IsPodUnhealthy(pod)
    && r.info == InfoOf(pod)
    && r.logs == OrSentinel(logsOf(namespace, name), NoLogs)
    && r.description == OrSentinel(describe(namespace, name), NoDescription)
    && r.analysis == GatedAnalysis(offline, serverReady(namespace, name), r.logs, r.description, r.info, ollama)
    && r.shownLogs == Ellipsize(r.logs, DisplayLimit)
  }

  /** A report is printed exactly when it is the report of some pod of the
      scan: no healthy pod is reported, and every unhealthy one is. */
  lemma ReportsAreOfUnhealthyPods(
    pods: seq<Pod>, offline: bool,
    logsOf: (string, string) -> Option<string>, describe: (string, string) -> Option<string>,
    serverReady: (string, string) -> bool, ollama: Prompt -> string, r: Report)
    ensures r in Reports(pods, offline, logsOf, describe, serverReady, ollama) <==>
              exists k :: 0 <= k < |pods| && IsReportOf(r, pods[k], offline, logsOf, describe, serverReady, ollama)
  {
    if r in Reports(pods, offline, logsOf, describe, serverReady, ollama) {
      ReportIsOfSomePod(pods, offline, logsOf, describe, serverReady, ollama, r);
    }
    if exists k :: 0 <= k < |pods| && IsReportOf(r, pods[k], offline, logsOf, describe, serverReady, ollama) {
      var k :| 0 <= k < |pods| && IsReportOf(r, pods[k], offline, logsOf, describe, serverReady, ollama);
      UnhealthyPodIsReported(pods, offline, logsOf, describe, serverReady, ollama, k, r);
    }
  }

  /** The one report a pod can give is its own. */
  lemma ReportForIsReportOf(
    pod: Pod, offline: bool,
    logsOf: (string, string) -> Option<string>, describe: (string, string) -> Option<string>,
    serverReady: (string, string) -> bool, ollama: Prompt -> string, r: Report)
    ensures r in ReportFor(pod, offline, logsOf, describe, serverReady, ollama) <==> IsReportOf(r, pod, offline, logsOf, describe, serverReady, ollama)
  {
  }

  lemma {:induction false} ReportIsOfSomePod(
    pods: seq<Pod>, offline: bool,
    logsOf: (string, string) -> Option<string>, describe: (string, string) -> Option<string>,
    serverReady: (string, string) -> bool, ollama: Prompt -> string, r: Report)
    requires r in Reports(pods, offline, logsOf, describe, serverReady, ollama)
    ensures exists k :: 0 <= k < |pods| && IsReportOf(r, pods[k], offline, logsOf, describe, serverReady, ollama)
  {
    var n := |pods|;
    var init := pods[..n - 1];
    ReportsSnoc(pods, offline, logsOf, describe, serverReady, ollama);
    if r in Reports(init, offline, logsOf, describe, serverReady, ollama) {
      ReportIsOfSomePod(init, offline, logsOf, describe, serverReady, ollama, r);
      var k :| 0 <= k < |init| && IsReportOf(r, init[k], offline, logsOf, describe, serverReady, ollama);
      assert init[k] == pods[k];
    } else {
      ReportForIsReportOf(pods[n - 1], offline, logsOf, describe, serverReady, ollama, r);
    }
  }

  lemma {:induction false} UnhealthyPodIsReported(
    pods: seq<Pod>, offline: bool,
    logsOf: (string, string) -> Option<string>, describe: (string, string) -> Option<string>,
    serverReady: (string, string) -> bool, ollama: Prompt -> string, k: int, r: Report)
    requires 0 <= k < |pods| && IsReportOf(r, pods[k], offline, logsOf, describe, serverReady, ollama)
    ensures r in Reports(pods, offline, logsOf, describe, serverReady, ollama)
  {
    var n := |pods|;
    var init := pods[..n - 1];
    if k < n - 1 {
      assert init[k] == pods[k];
      UnhealthyPodIsReported(init, offline, logsOf, describe, serverReady, ollama, k, r);
    } else {
      ReportForIsReportOf(pods[k], offline, logsOf, describe, serverReady, ollama, r);
    }
    ReportsKept(pods, offline, logsOf, describe, serverReady, ollama, r);
  }

  /** Scanning one more pod keeps the reports made so far and adds its own. */
  lemma ReportsKept(
    pods: seq<Pod>, offline: bool,
    logsOf: (string, string) -> Option<string>, describe: (string, string) -> Option<string>,
    serverReady: (string, string) -> bool, ollama: Prompt -> string, r: Report)
    requires pods != []
    ensures r in Reports(pods[..|pods| - 1], offline, logsOf, describe, serverReady, ollama) ==> r in Reports(pods, offline, logsOf, describe, serverReady, ollama)
    ensures r in ReportFor(pods[|pods| - 1], offline, logsOf, describe, serverReady, ollama) ==> r in Reports(pods, offline, logsOf, describe, serverReady, ollama)
  {
    ReportsSnoc(pods, offline, logsOf, describe, serverReady, ollama);
  }

  /** A pod gives one report when it is unhealthy and none otherwise. */
  lemma ReportsOfOnePod(
    pod: Pod, offline: bool,
    logsOf: (string, string) -> Option<string>, describe: (string, string) -> Option<string>,
    serverReady: (string, string) -> bool, ollama: Prompt -> string)
    ensures Reports([pod], offline, logsOf, describe, serverReady, ollama) == ReportFor(pod, offline, logsOf, describe, serverReady, ollama)
    ensures |ReportFor(pod, offline, logsOf, describe, serverReady, ollama)| == if IsPodUnhealthy(pod) then 1 else 0
  {
    assert [pod][..0] == [];
  }

  lemma ReportsSnoc(
    pods: seq<Pod>, offline: bool,
    logsOf: (string, string) -> Option<string>, describe: (string, string) -> Option<string>,
    serverReady: (string, string) -> bool, ollama: Prompt -> string)
    requires pods != []
    ensures Reports(pods, offline, logsOf, describe, serverReady, ollama)
         == Reports(pods[..|pods| - 1], offline, logsOf, describe, serverReady, ollama)
            + ReportFor(pods[|pods| - 1], offline, logsOf, describe, serverReady, ollama)
  {
  }

  /** Scanning two batches of pods one after the other reports the first
      batch's pods and then the second's: reports keep pod order. */
  lemma {:induction false} ReportsAppend(
    a: seq<Pod>, b: seq<Pod>, offline: bool,
    logsOf: (string, string) -> Option<string>, describe: (string, string) -> Option<string>,
    serverReady: (string, string) -> bool, ollama: Prompt -> string)
    ensures Reports(a + b, offline, logsOf, describe, serverReady, ollama)
         == Reports(a, offline, logsOf, describe, serverReady, ollama) + Reports(b, offline, logsOf, describe, serverReady, ollama)
    decreases |b|
  {
    if b == [] {
      assert a + b == a;
    } else {
      var front := b[..|b| - 1];
      ReportsAppend(a, front, offline, logsOf, describe, serverReady, ollama);
      var ab := a + b;
      assert ab[..|ab| - 1] == a + front && ab[|ab| - 1] == b[|b| - 1];
      ReportsSnoc(ab, offline, logsOf, describe, serverReady, ollama);
      ReportsSnoc(b, offline, logsOf, describe, serverReady, ollama);
      ConcatAssoc(Reports(a, offline, logsOf, describe, serverReady, ollama),
                  Reports(front, offline, logsOf, describe, serverReady, ollama),
                  ReportFor(b[|b| - 1], offline, logsOf, describe, serverReady, ollama));
    }
  }

  /** Scanning one more pod adds its report, if any, and raises the flag
      when it is unhealthy. */
  lemma ScanGrows(
    pods: seq<Pod>, i: nat, offline: bool,
    logsOf: (string, string) -> Option<string>, describe: (string, string) -> Option<string>,
    serverReady: (string, string) -> bool, ollama: Prompt -> string)
    requires i < |pods|
    ensures Reports(pods[..i + 1], offline, logsOf, describe, serverReady, ollama)
         == Reports(pods[..i], offline, logsOf, describe, serverReady, ollama)
            + ReportFor(pods[i], offline, logsOf, describe, serverReady, ollama)
    ensures AnyUnhealthy(pods[..i + 1]) == (AnyUnhealthy(pods[..i]) || IsPodUnhealthy(pods[i]))
  {
    assert pods[..i + 1][..i] == pods[..i];
  }

  /** What every report shows: logs and description are never empty; the
      logs are shown whole up to 500 characters and cut to 500 plus "..."
      beyond; offline the analysis is always the manual-review message.
      There are never more reports than pods, and one per pod when all of
      them are unhealthy. */
  lemma {:induction false} ReportsFollowUnhealthyPods(
    pods: seq<Pod>, offline: bool,
    logsOf: (string, string) -> Option<string>, describe: (string, string) -> Option<string>,
    serverReady: (string, string) -> bool, ollama: Prompt -> string)
    ensures var rs := Reports(pods, offline, logsOf, describe, serverReady, ollama);
            |rs| <= |pods|
            && ((forall k :: 0 <= k < |pods| ==> IsPodUnhealthy(pods[k])) ==> |rs| == |pods|)
    ensures forall r :: r in Reports(pods, offline, logsOf, describe, serverReady, ollama) ==>
              r.logs != "" && r.description != ""
              && (|r.logs| <= DisplayLimit ==> r.shownLogs == r.logs)
              && (|r.logs| > DisplayLimit ==> r.shownLogs == r.logs[..DisplayLimit] + "...")
              && (offline ==> r.analysis == Analysis(None, ManualReviewText))
  {
    if pods != [] {
      var init := pods[..|pods| - 1];
      ReportsFollowUnhealthyPods(init, offline, logsOf, describe, serverReady, ollama);
      if forall k :: 0 <= k < |pods| ==> IsPodUnhealthy(pods[k]) {
        assert forall k :: 0 <= k < |init| ==> IsPodUnhealthy(init[k]) by {
          forall k | 0 <= k < |init| ensures IsPodUnhealthy(init[k]) {
            assert init[k] == pods[k];
          }
        }
        assert IsPodUnhealthy(pods[|pods| - 1]);
      }
    }
  }

  /** Whether the scan meets an unhealthy pod, pod by pod. */
  predicate AnyUnhealthy(pods: seq<Pod>)
  {
    pods != [] && (AnyUnhealthy(pods[..|pods| - 1]) || IsPodUnhealthy(pods[|pods| - 1]))
  }

  /** The flag is raised exactly when some pod is unhealthy. */
  lemma {:induction false} AnyUnhealthyMeansSome(pods: seq<Pod>)
    ensures AnyUnhealthy(pods) <==> exists k :: 0 <= k < |pods| && IsPodUnhealthy(pods[k])
  {
    if pods != [] {
      var init := pods[..|pods| - 1];
      AnyUnhealthyMeansSome(init);
      if exists k :: 0 <= k < |init| && IsPodUnhealthy(init[k]) {
        var k :| 0 <= k < |init| && IsPodUnhealthy(init[k]);
        assert pods[k] == init[k];
      }
      if exists k :: 0 <= k < |pods| && IsPodUnhealthy(pods[k]) {
        var k :| 0 <= k < |pods| && IsPodUnhealthy(pods[k]);
        if k < |init| {
          assert init[k] == pods[k];
        }
      }
    }
  }

  /** The monitor's one piece of state: the `OFFLINE_MODE` flag. */
  class Monitor {
    var offline: bool

    constructor()
      ensures !offline
    {
      offline := false;
    }

    /** The start of `main_loop`: when the status check fails (it always
        does once offline) the operator is asked, and an answer that
        lower-cases to "offline" switches the monitor offline for good. */
    method Start(serverReady: bool, answer: string)
      modifies this
      ensures offline == (old(offline) || (!serverReady && AsciiLower(answer) == "offline"))
    {
      var statusOk := !offline && serverReady;
      if !statusOk {
        if AsciiLower(answer) == "offline" {
          offline := true;
        }
      }
    }

    /** One pass of the `while True` loop: the `unhealthy_found` flag and the
        reports shown. */
    method ScanOnce(
      pods: seq<Pod>,
      logsOf: (string, string) -> Option<string>, describe: (string, string) -> Option<string>,
      serverReady: (string, string) -> bool, ollama: Prompt -> string)
      returns (found: bool, reports: seq<Report>)
      ensures found <==> exists k :: 0 <= k < |pods| && IsPodUnhealthy(pods[k])
      ensures reports == Reports(pods, offline, logsOf, describe, serverReady, ollama)
    {
      found := false;
      reports := [];
      for i := 0 to |pods|
        invariant found == AnyUnhealthy(pods[..i])
        invariant reports == Reports(pods[..i], offline, logsOf, describe, serverReady, ollama)
      {
        var pod := pods[i];
        ScanGrows(pods, i, offline, logsOf, describe, serverReady, ollama);
        if IsPodUnhealthy(pod) {
          found := true;
          var name := NameOf(pod);
          var namespace := NamespaceOf(pod);
          var logs := OrSentinel(logsOf(namespace, name), NoLogs);
          var description := OrSentinel(describe(namespace, name), NoDescription);
          var detail := StatusDetailsOf(ContainersOf(StatusOf(pod)));
          var info := PodInfo(name, namespace, Render(detail));
          var analysis;
          if !offline && serverReady(namespace, name) {
            analysis := AnalyzeWithOllama(offline, logs, description, info, ollama);
          } else {
            analysis := Analysis(None, ManualReviewText);
          }
          var shown := if |logs| > DisplayLimit then logs[..DisplayLimit] + "..." else logs;
          reports := reports + [Report(info, logs, description, analysis, shown)];
        }
      }
      assert pods[..|pods|] == pods;
      AnyUnhealthyMeansSome(pods);
    }
  }

  /** The operator's answer is compared case-insensitively. */
  /** The answers that switch the monitor offline are exactly the spellings
      of "offline" with any of its letters in upper case. */
  lemma AnswersThatSwitchOffline(answer: string)
    ensures AsciiLower(answer) == "offline" <==>
              |answer| == 7 && forall k :: 0 <= k < 7 ==> answer[k] == "offline"[k] || answer[k] == "OFFLINE"[k]
  {
    if |answer| == 7 && forall k :: 0 <= k < 7 ==> answer[k] == "offline"[k] || answer[k] == "OFFLINE"[k] {
      assert forall k :: 0 <= k < 7 ==> AsciiLower(answer)[k] == "offline"[k];
    }
  }

  lemma OfflineAnswers()
    ensures AsciiLower("OFFLINE") == "offline" && AsciiLower("Offline") == "offline"
    ensures AsciiLower("offline ") != "offline" && AsciiLower("yes") != "offline"
  {
  }
}
