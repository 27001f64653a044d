/** trial_1.py: the monitoring loop that classifies every pod, fetches the
    logs of each unhealthy one, asks the language model for an analysis,
    saves both and shows a short form of the analysis.  kubectl and the model
    are inputs: `logsOf` stands for `get_pod_logs` (None when kubectl fails)
    and `analyst` for the model's answer to a prompt. */
module TrialOne {
  import opened Maybe
  import opened PodRecord
  import opened Text
  import opened StatusDetails

  // ---------------------------------------------------------------------
  // is_pod_unhealthy
  // ---------------------------------------------------------------------

  /** A container that flags a Running pod: explicitly not ready, with a
      `waiting` key in its state, or a `terminated` key whose `exitCode`
      (missing reads as 0) is not 0. */
  predicate ContainerFlags(c: ContainerStatus)
  {
    NotReady(c) && c.state.Some?
    && (c.state.value.waiting.Some?
        || (c.state.value.terminated.Some? && c.state.value.terminated.value.exitCode.GetOr(0) != 0))
  }

  /** trial_1.py's classifier. */
  predicate IsPodUnhealthy(pod: Pod)
  {
    pod.status.Some?
    && var status := pod.status.value;
       var phase := PhaseOf(status);
       var containers := ContainersOf(status);
       (phase in ["Failed", "Unknown"]
        || (phase == "Pending" && HasUnscheduledCondition(status))
        || (phase == "Running" && exists k :: 0 <= k < |containers| && ContainerFlags(containers[k])))
  }

  /** The phase rules: no status is healthy; Failed and Unknown are
      unhealthy; Pending is unhealthy exactly when unscheduled; containers
      count only when Running, so any other phase is healthy. */
  lemma PhaseRules(pod: Pod)
    ensures pod.status.None? ==> !IsPodUnhealthy(pod)
    ensures pod.status.Some? && PhaseOf(pod.status.value) in ["Failed", "Unknown"] ==> IsPodUnhealthy(pod)
    ensures pod.status.Some? && PhaseOf(pod.status.value) == "Pending" ==>
              (IsPodUnhealthy(pod) <==> HasUnscheduledCondition(pod.status.value))
    ensures pod.status.Some? && PhaseOf(pod.status.value) !in ["Failed", "Unknown", "Pending", "Running"] ==>
              !IsPodUnhealthy(pod)
  {
  }

  /** The container rules: a missing `ready` never flags; a `waiting` key
      flags whatever its contents; a `terminated` state flags only with a
      nonzero exit code. */
  lemma ContainerRules(c: ContainerStatus)
    ensures c.ready.None? ==> !ContainerFlags(c)
    ensures NotReady(c) && c.state.Some? && c.state.value.waiting.Some? ==> ContainerFlags(c)
    ensures (c.state.Some? && c.state.value.waiting.None? && c.state.value.terminated.Some?
             && c.state.value.terminated.value.exitCode.GetOr(0) == 0) ==> !ContainerFlags(c)
  {
  }

  // ---------------------------------------------------------------------
  // main_loop
  // ---------------------------------------------------------------------

  const PromptLogLimit: nat := 4000
  const DisplayLimit: nat := 500

  /** The `pod_info` dictionary. */
  datatype PodInfo = PodInfo(name: string, namespace: string, status: string)

  /** What the prompt is built from: the pod info and `logs[:4000]`. */
  datatype Prompt = Prompt(info: PodInfo, logs: string)

  /** What one unhealthy pod leaves behind: the prompt sent, the logs and the
      analysis saved, and the analysis as shown. */
  datatype Report = Report(info: PodInfo, prompt: Prompt, savedLogs: string, analysis: string, shown: string)

  /** `metadata.get("name", "unknown")`. */
  function NameOf(pod: Pod): string
  {
    if pod.metadata.Some? then pod.metadata.value.name.GetOr("unknown") else "unknown"
  }

  /** `metadata.get("namespace", "default")`. */
  function NamespaceOf(pod: Pod): string
  {
    if pod.metadata.Some? then pod.metadata.value.namespace.GetOr("default") else "default"
  }

  /** The status-detail loop: every container whose state has a `waiting` or
      `terminated` key overwrites the summary, `waiting` first. */
  method StatusDetailsOf(containers: seq<ContainerStatus>) returns (d: StatusDetail)
    ensures d == LastDetail(containers)
  {
    d := UnknownDetail;
    var i := 0;
    while i < |containers|
      invariant 0 <= i <= |containers|
      invariant d == LastDetail(containers[..i])
    {
      var c := containers[i];
      if c.state.Some? {
        if c.state.value.waiting.Some? {
          var w := c.state.value.waiting.value;
          d := WaitingDetail(w.reason.GetOr(""), w.message.GetOr(""));
        } else if c.state.value.terminated.Some? {
          var t := c.state.value.terminated.value;
          d := TerminatedDetail(t.reason.GetOr(""), t.exitCode);
        }
      }
      assert containers[..i + 1][..i] == containers[..i];
      i := i + 1;
    }
    assert containers[..i] == containers;
  }

  function InfoOf(pod: Pod): PodInfo
  {
    PodInfo(NameOf(pod), NamespaceOf(pod), Render(LastDetail(ContainersOf(StatusOf(pod)))))
  }

  /** What the loop body leaves for one pod: nothing for a healthy pod or
      for an unhealthy one whose logs are missing or empty (`continue`). */
  function ReportFor(pod: Pod, logsOf: (string, string) -> Option<string>, analyst: Prompt -> string): seq<Report>
  {
    if !IsPodUnhealthy(pod) then []
    else
      var logs := logsOf(NamespaceOf(pod), NameOf(pod));
      if logs.None? || logs.value == "" then []
      else
        var info := InfoOf(pod);
        var prompt := Prompt(info, Take(logs.value, PromptLogLimit));
        var analysis := analyst(prompt);
        [Report(info, prompt, logs.value, analysis, Ellipsize(analysis, DisplayLimit))]
  }

  /** The reports of one scan, in pod order. */
  function Reports(pods: seq<Pod>, logsOf: (string, string) -> Option<string>, analyst: Prompt -> string): seq<Report>
  {
    if pods == [] then []
    else Reports(pods[..|pods| - 1], logsOf, analyst) + ReportFor(pods[|pods| - 1], logsOf, analyst)
  }

  /** Whether the scan meets an unhealthy pod, pod by pod. */
  predicate AnyUnhealthy(pods: seq<Pod>)
  {
    pods != [] && (AnyUnhealthy(pods[..|pods| - 1]) || IsPodUnhealthy(pods[|pods| - 1]))
  }

  /** The flag is raised exactly when some pod is unhealthy. */
  lemma {:induction false} AnyUnhealthyMeansSome(pods: seq<Pod>)
    ensures AnyUnhealthy(pods) <==> exists k :: 0 <= k < |pods| && IsPodUnhealthy(pods[k])
  {
    if pods != [] {
      var init := pods[..|pods| - 1];
      AnyUnhealthyMeansSome(init);
      if exists k :: 0 <= k < |init| && IsPodUnhealthy(init[k]) {
        var k :| 0 <= k < |init| && IsPodUnhealthy(init[k]);
        assert pods[k] == init[k];
      }
      if exists k :: 0 <= k < |pods| && IsPodUnhealthy(pods[k]) {
        var k :| 0 <= k < |pods| && IsPodUnhealthy(pods[k]);
        if k < |init| {
          assert init[k] == pods[k];
        }
      }
    }
  }

  /** One pass of the `while True` loop: the `unhealthy_pods_found` flag and
      what was saved and shown. */
  method ScanOnce(pods: seq<Pod>, logsOf: (string, string) -> Option<string>, analyst: Prompt -> string)
    returns (found: bool, reports: seq<Report>)
    ensures found <==> exists k :: 0 <= k < |pods| && IsPodUnhealthy(pods[k])
    ensures reports == Reports(pods, logsOf, analyst)
  {
    found := false;
    reports := [];
    var i := 0;
    while i < |pods|
      invariant 0 <= i <= |pods|
      invariant found == AnyUnhealthy(pods[..i])
      invariant reports == Reports(pods[..i], logsOf, analyst)
    {
      var pod := pods[i];
      var added: seq<Report> := [];
      if IsPodUnhealthy(pod) {
        found := true;
        var logs := logsOf(NamespaceOf(pod), NameOf(pod));
        if logs.Some? && logs.value != "" {
          var detail := StatusDetailsOf(ContainersOf(StatusOf(pod)));
          var info := PodInfo(NameOf(pod), NamespaceOf(pod), Render(detail));
          var prompt := Prompt(info, Take(logs.value, PromptLogLimit));
          var analysis := analyst(prompt);
          var shown := if |analysis| > DisplayLimit then analysis[..DisplayLimit] + "..." else analysis;
          assert info == InfoOf(pod) && shown == Ellipsize(analysis, DisplayLimit);
          added := [Report(info, prompt, logs.value, analysis, shown)];
        }
      }
      assert added == ReportFor(pod, logsOf, analyst);
      ScanGrows(pods, i, logsOf, analyst);
      reports := reports + added;
      i := i + 1;
    }
    assert pods[..i] == pods;
    AnyUnhealthyMeansSome(pods);
  }

  /** Scanning one more pod adds its report, if any, and raises the flag
      when it is unhealthy. */
  lemma ScanGrows(pods: seq<Pod>, i: nat, logsOf: (string, string) -> Option<string>, analyst: Prompt -> string)
    requires i < |pods|
    ensures Reports(pods[..i + 1], logsOf, analyst) == Reports(pods[..i], logsOf, analyst) + ReportFor(pods[i], logsOf, analyst)
    ensures AnyUnhealthy(pods[..i + 1]) == (AnyUnhealthy(pods[..i]) || IsPodUnhealthy(pods[i]))
  {
    assert pods[..i + 1][..i] == pods[..i];
  }

  /** Every report belongs to an unhealthy pod with non-empty logs; its prompt
      holds at most the first 4000 characters of those logs; what is shown is
      `analysis[:500] + "..."` beyond 500 characters and the whole analysis
      otherwise, so never more than 503 characters. */
  lemma {:induction false} ReportsAreOfUnhealthyPodsWithLogs(
    pods: seq<Pod>, logsOf: (string, string) -> Option<string>, analyst: Prompt -> string, r: Report)
    requires r in Reports(pods, logsOf, analyst)
    ensures exists k :: 0 <= k < |pods| && IsPodUnhealthy(pods[k])
              && logsOf(NamespaceOf(pods[k]), NameOf(pods[k])) == Some(r.savedLogs)
              && r.info == InfoOf(pods[k])
    ensures r.savedLogs != ""
    ensures |r.prompt.logs| <= PromptLogLimit && r.prompt.logs <= r.savedLogs
    ensures |r.savedLogs| <= PromptLogLimit ==> r.prompt.logs == r.savedLogs
    ensures r.prompt == Prompt(r.info, Take(r.savedLogs, PromptLogLimit))
    ensures r.analysis == analyst(r.prompt)
    ensures r.shown == Ellipsize(r.analysis, DisplayLimit)
    ensures |r.shown| <= DisplayLimit + 3
    ensures |r.analysis| <= DisplayLimit ==> r.shown == r.analysis
  {
    var n := |pods|;
    if r in Reports(pods[..n - 1], logsOf, analyst) {
      ReportsAreOfUnhealthyPodsWithLogs(pods[..n - 1], logsOf, analyst, r);
      var k :| 0 <= k < n - 1 && IsPodUnhealthy(pods[..n - 1][k])
              && logsOf(NamespaceOf(pods[..n - 1][k]), NameOf(pods[..n - 1][k])) == Some(r.savedLogs)
              && r.info == InfoOf(pods[..n - 1][k]);
      assert pods[..n - 1][k] == pods[k];
    } else {
      assert r in ReportFor(pods[n - 1], logsOf, analyst);
    }
  }

  /** The converse: every unhealthy pod whose logs are non-empty is
      reported. */
  lemma {:induction false} UnhealthyPodWithLogsIsReported(
    pods: seq<Pod>, logsOf: (string, string) -> Option<string>, analyst: Prompt -> string, k: int)
    requires 0 <= k < |pods| && IsPodUnhealthy(pods[k])
    requires logsOf(NamespaceOf(pods[k]), NameOf(pods[k])).Some? && logsOf(NamespaceOf(pods[k]), NameOf(pods[k])).value != ""
    ensures |ReportFor(pods[k], logsOf, analyst)| == 1
    ensures ReportFor(pods[k], logsOf, analyst)[0] in Reports(pods, logsOf, analyst)
  {
    var n := |pods|;
    var init := pods[..n - 1];
    if k < n - 1 {
      assert init[k] == pods[k];
      UnhealthyPodWithLogsIsReported(init, logsOf, analyst, k);
    }
    ReportsKept(pods, logsOf, analyst, ReportFor(pods[k], logsOf, analyst)[0]);
  }

  /** Scanning one more pod keeps the reports made so far and adds its own. */
  lemma ReportsKept(pods: seq<Pod>, logsOf: (string, string) -> Option<string>, analyst: Prompt -> string, r: Report)
    requires pods != []
    ensures r in Reports(pods[..|pods| - 1], logsOf, analyst) ==> r in Reports(pods, logsOf, analyst)
    ensures r in ReportFor(pods[|pods| - 1], logsOf, analyst) ==> r in Reports(pods, logsOf, analyst)
  {
    ReportsSnoc(pods, logsOf, analyst);
  }

  /** A pod gives at most one report, and one exactly when it is unhealthy
      and has non-empty logs. */
  lemma ReportsOfOnePod(pod: Pod, logsOf: (string, string) -> Option<string>, analyst: Prompt -> string)
    ensures Reports([pod], logsOf, analyst) == ReportFor(pod, logsOf, analyst)
    ensures |ReportFor(pod, logsOf, analyst)| <= 1
    ensures |ReportFor(pod, logsOf, analyst)| == 1 <==>
              IsPodUnhealthy(pod) && logsOf(NamespaceOf(pod), NameOf(pod)).Some?
              && logsOf(NamespaceOf(pod), NameOf(pod)).value != ""
  {
    assert [pod][..0] == [];
  }

  /** Scanning two batches of pods one after the other reports the first
      batch's pods and then the second's: reports keep pod order. */
  lemma {:induction false} ReportsAppend(
    a: seq<Pod>, b: seq<Pod>, logsOf: (string, string) -> Option<string>, analyst: Prompt -> string)
    ensures Reports(a + b, logsOf, analyst) == Reports(a, logsOf, analyst) + Reports(b, logsOf, analyst)
    decreases |b|
  {
    if b == [] {
      assert a + b == a;
    } else {
      var front := b[..|b| - 1];
      ReportsAppend(a, front, logsOf, analyst);
      ReportsAppendStep(a, b, front, logsOf, analyst);
    }
  }

  lemma ReportsAppendStep(
    a: seq<Pod>, b: seq<Pod>, front: seq<Pod>, logsOf: (string, string) -> Option<string>, analyst: Prompt -> string)
    requires b != [] && front == b[..|b| - 1]
    requires Reports(a + front, logsOf, analyst) == Reports(a, logsOf, analyst) + Reports(front, logsOf, analyst)
    ensures Reports(a + b, logsOf, analyst) == Reports(a, logsOf, analyst) + Reports(b, logsOf, analyst)
  {
    var ab := a + b;
    assert ab[..|ab| - 1] == a + front && ab[|ab| - 1] == b[|b| - 1];
    ReportsSnoc(ab, logsOf, analyst);
    ReportsSnoc(b, logsOf, analyst);
    ConcatAssoc(Reports(a, logsOf, analyst), Reports(front, logsOf, analyst), ReportFor(b[|b| - 1], logsOf, analyst));
  }

  lemma ReportsSnoc(pods: seq<Pod>, logsOf: (string, string) -> Option<string>, analyst: Prompt -> string)
    requires pods != []
    ensures Reports(pods, logsOf, analyst) == Reports(pods[..|pods| - 1], logsOf, analyst) + ReportFor(pods[|pods| - 1], logsOf, analyst)
  {
  }

  /** An unhealthy pod whose logs are missing or empty is skipped: it adds
      no report, although it still sets the found flag. */
  lemma PodWithoutLogsIsSkipped(pod: Pod, logsOf: (string, string) -> Option<string>, analyst: Prompt -> string)
    requires logsOf(NamespaceOf(pod), NameOf(pod)) in {None, Some("")}
    ensures ReportFor(pod, logsOf, analyst) == []
  {
  }

  /** The analysis sees only the first 4000 characters of the logs: two log
      texts that agree there give the same analysis. */
  lemma AnalysisSeesOnlyLogHead(
    pod: Pod, logsA: (string, string) -> Option<string>, logsB: (string, string) -> Option<string>,
    analyst: Prompt -> string, la: string, lb: string)
    requires IsPodUnhealthy(pod)
    requires logsA(NamespaceOf(pod), NameOf(pod)) == Some(la) && la != ""
    requires logsB(NamespaceOf(pod), NameOf(pod)) == Some(lb) && lb != ""
    requires Take(la, PromptLogLimit) == Take(lb, PromptLogLimit)
    ensures ReportFor(pod, logsA, analyst)[0].analysis == ReportFor(pod, logsB, analyst)[0].analysis
  {
  }
}
