/** k8s_log_checker.py: one pass over all pods that prints, for every pod
    whose status matches the error list, the first ten lines of its logs and
    the model's analysis of its logs and description.  kubectl and the model
    are inputs: `logsOf` and `describe` stand for `kubectl logs` and
    `kubectl describe pod` (their output, or the output of a failed run), and
    `gemma` for the model's answer to the logs and description it is sent,
    or the text of the exception the request raised. */
module LogChecker {
  import opened Maybe
  import opened PodRecord
  import opened Text

  // ---------------------------------------------------------------------
  // The ERROR_STATUSES detection
  // ---------------------------------------------------------------------

  /** The statuses that mark a pod as problematic; the same list is matched
      against the phase, the pod's reason and the containers' waiting
      reasons. */
  const ErrorStatuses: seq<string> := ["CrashLoopBackOff", "ImagePullBackOff", "ErrImagePull", "Pending", "Failed"]

  /** `waiting and waiting.get("reason") in ERROR_STATUSES`, with `waiting`
      read from `container.get("state", {}).get("waiting")`. */
  predicate WaitingInError(c: ContainerStatus)
  {
    var w := StateOf(c).waiting;
    WaitingTruthy(w) && w.value.reason.Some? && w.value.reason.value in ErrorStatuses
  }

  /** The value `found_error` should end with: the phase or the pod's reason
      is in the list, or some container or init container waits for a
      reason in the list. */
  predicate HasErrorStatus(status: PodStatus)
  {
    var containers := ContainersOf(status);
    var inits := InitContainersOf(status);
    PhaseOf(status) in ErrorStatuses
    || status.reason.GetOr("") in ErrorStatuses
    || (exists k :: 0 <= k < |containers| && WaitingInError(containers[k]))
    || (exists k :: 0 <= k < |inits| && WaitingInError(inits[k]))
  }

  /** The detection in `main`: a phase or reason test, else two nested loops
      over the container lists whose `break` leaves the inner loop only. */
  method FoundError(status: PodStatus) returns (found: bool)
    ensures found == HasErrorStatus(status)
  {
    var phase := PhaseOf(status);
    var reason := status.reason.GetOr("");
    var lists := [ContainersOf(status), InitContainersOf(status)];
    found := false;
    if phase in ErrorStatuses || reason in ErrorStatuses {
      found := true;
    } else {
      var i := 0;
      while i < |lists|
        invariant 0 <= i <= |lists|
        invariant found <==> exists a, k :: 0 <= a < i && 0 <= k < |lists[a]| && WaitingInError(lists[a][k])
      {
        var j := 0;
        while j < |lists[i]|
          invariant 0 <= j <= |lists[i]|
          invariant found <==> (exists a, k :: 0 <= a < i && 0 <= k < |lists[a]| && WaitingInError(lists[a][k]))
                               || (exists k :: 0 <= k < j && WaitingInError(lists[i][k]))
        {
          if WaitingInError(lists[i][j]) {
            found := true;
            break;
          }
          j := j + 1;
        }
        i := i + 1;
      }
      assert lists[0] == ContainersOf(status) && lists[1] == InitContainersOf(status);
    }
  }

  /** Every Pending pod is flagged, whatever its conditions. */
  lemma PendingIsAlwaysFlagged(status: PodStatus)
    requires PhaseOf(status) == "Pending"
    ensures HasErrorStatus(status)
  {
  }

  /** Neither the phase Unknown nor terminated containers flag a pod: with
      no container waiting, the phase and the reason alone decide, and
      Unknown is not in the list. */
  lemma WaitingIsTheOnlyContainerSignal(status: PodStatus)
    requires forall k :: 0 <= k < |ContainersOf(status)| ==> StateOf(ContainersOf(status)[k]).waiting.None?
    requires forall k :: 0 <= k < |InitContainersOf(status)| ==> StateOf(InitContainersOf(status)[k]).waiting.None?
    ensures HasErrorStatus(status) <==> PhaseOf(status) in ErrorStatuses || status.reason.GetOr("") in ErrorStatuses
    ensures PhaseOf(status) == "Unknown" && status.reason.GetOr("") !in ErrorStatuses ==> !HasErrorStatus(status)
  {
  }

  /** A waiting record flags exactly when its reason is in the list: an
      empty record or one without a reason never does. */
  lemma WaitingReasonDecides(c: ContainerStatus)
    ensures WaitingInError(c) <==> StateOf(c).waiting.Some? && StateOf(c).waiting.value.reason.Some?
                                   && StateOf(c).waiting.value.reason.value in ErrorStatuses
  {
  }

  // ---------------------------------------------------------------------
  // Fetching and print_log
  // ---------------------------------------------------------------------

  /** The outcome of one kubectl run: its output, or the output of a run that
      exited with an error. */
  datatype Fetch = Output(text: string) | ProcessError(output: string)

  /** `get_pod_logs`: a failed run becomes a message rather than an
      exception. */
  function FetchLogs(f: Fetch): (r: string)
    ensures f.ProcessError? ==> r == "Error fetching logs: " + f.output
    ensures f.Output? ==> r == f.text
  {
    match f
    case Output(text) => text
    case ProcessError(output) => "Error fetching logs: " + output
  }

  /** `get_pod_description`, likewise. */
  function FetchDescription(f: Fetch): (r: string)
    ensures f.ProcessError? ==> r == "Error fetching description: " + f.output
    ensures f.Output? ==> r == f.text
  {
    match f
    case Output(text) => text
    case ProcessError(output) => "Error fetching description: " + output
  }

  const HeadLines: nat := 10

  /** `"\n".join(text.splitlines()[:10])`. */
  function Head(text: string): (r: string)
    ensures text == "" ==> r == ""
  {
    FirstLines(text, HeadLines)
  }

  /** A log whose lines end with "\n" only: its first ten lines are a prefix
      of it, and a log of at most ten lines without a final newline comes
      back whole. */
  lemma HeadOfNewlineLog(text: string)
    requires OnlyNewlines(text)
    ensures Head(text) <= text
    ensures |SplitLines(text)| <= HeadLines && (text == "" || text[|text| - 1] != '\n') ==> Head(text) == text
  {
    FirstLinesArePrefix(text, HeadLines);
    if |SplitLines(text)| <= HeadLines && (text == "" || text[|text| - 1] != '\n') {
      JoinSplitLines(text);
      assert Take(SplitLines(text), HeadLines) == SplitLines(text);
    }
  }

  /** The head carries no line-break character other than the "\n" it joins
      with. */
  lemma HeadHasOnlyNewlines(text: string)
    ensures OnlyNewlines(Head(text))
  {
    SplitLinesHaveNoBreaks(text);
    JoinOfLinesHasOnlyNewlines(Take(SplitLines(text), HeadLines));
  }

  /** The head holds the first ten lines of the log (all of them when there
      are fewer), in order, whenever the last line kept is not empty. */
  lemma HeadHoldsFirstLines(text: string)
    requires var kept := Take(SplitLines(text), HeadLines);
             kept == [] || kept[|kept| - 1] != ""
    ensures SplitLines(Head(text)) == Take(SplitLines(text), HeadLines)
    ensures |SplitLines(Head(text))| == if |SplitLines(text)| <= HeadLines then |SplitLines(text)| else HeadLines
  {
    SplitLinesHaveNoBreaks(text);
    SplitJoinLines(Take(SplitLines(text), HeadLines));
  }

  lemma {:induction false} JoinOfLinesHasOnlyNewlines(lines: seq<string>)
    requires forall k :: 0 <= k < |lines| ==> NoLineBreak(lines[k])
    ensures OnlyNewlines(Join("\n", lines))
  {
    if |lines| > 1 {
      JoinOfLinesHasOnlyNewlines(lines[1..]);
      JoinCons("\n", lines[0], lines[1..]);
      assert lines == [lines[0]] + lines[1..];
    }
  }

  /** `print_log`: the first ten lines, or the logs error message. */
  function PrintLog(f: Fetch): (r: string)
    ensures f.ProcessError? ==> r == FetchLogs(f)
  {
    match f
    case Output(text) => Head(text)
    case ProcessError(output) => "Error fetching logs: " + output
  }

  /** What `print_log` shows of a log whose lines end with "\n" is a prefix
      of what `get_pod_logs` returns for the same run; a failed run shows the
      same message both ways. */
  lemma PrintLogShowsStartOfLogs(f: Fetch)
    ensures f.Output? && OnlyNewlines(f.text) ==> PrintLog(f) <= FetchLogs(f)
    ensures f.ProcessError? ==> PrintLog(f) == FetchLogs(f)
  {
    if f.Output? && OnlyNewlines(f.text) {
      HeadOfNewlineLog(f.text);
    }
  }

  // ---------------------------------------------------------------------
  // main
  // ---------------------------------------------------------------------

  /** The key whose absence raises `KeyError` for this item, if any, in the
      order `main` reads them. */
  function MissingKey(pod: Pod): (k: Option<string>)
    ensures k.None? <==> pod.status.Some? && pod.metadata.Some?
                         && pod.metadata.value.name.Some? && pod.metadata.value.namespace.Some?
  {
    if pod.status.None? then Some("status")
    else if pod.metadata.None? then Some("metadata")
    else if pod.metadata.value.name.None? then Some("name")
    else if pod.metadata.value.namespace.None? then Some("namespace")
    else None
  }

  /** What ends a run: the `KeyError` of an item, or the exception that
      `send_to_gemma` raised; nothing in the script catches either. */
  datatype Crash = KeyError(key: string) | RequestFailed(detail: string)

  /** The logs and description `main` sends for a readable item. */
  function LogsOf(pod: Pod, logsOf: (string, string) -> Fetch): string
    requires MissingKey(pod).None?
  {
    FetchLogs(logsOf(pod.metadata.value.namespace.value, pod.metadata.value.name.value))
  }

  function DescriptionOf(pod: Pod, describe: (string, string) -> Fetch): string
    requires MissingKey(pod).None?
  {
    FetchDescription(describe(pod.metadata.value.namespace.value, pod.metadata.value.name.value))
  }

  /** How handling one item ends the run, if it does: an unreadable item
      raises its `KeyError`; a flagged item whose request fails raises that
      failure; every other item lets the run go on. */
  function CrashOf(
    pod: Pod, logsOf: (string, string) -> Fetch, describe: (string, string) -> Fetch,
    gemma: (string, string) -> Result<string, string>): (c: Option<Crash>)
    ensures MissingKey(pod).Some? ==> c == Some(KeyError(MissingKey(pod).value))
    ensures c.Some? && c.value.RequestFailed? ==>
              MissingKey(pod).None? && HasErrorStatus(pod.status.value)
              && gemma(LogsOf(pod, logsOf), DescriptionOf(pod, describe)) == Failure(c.value.detail)
    ensures c.None? ==> MissingKey(pod).None?
                        && (HasErrorStatus(pod.status.value) ==> gemma(LogsOf(pod, logsOf), DescriptionOf(pod, describe)).Success?)
  {
    if MissingKey(pod).Some? then Some(KeyError(MissingKey(pod).value))
    else if !HasErrorStatus(pod.status.value) then None
    else
      match gemma(LogsOf(pod, logsOf), DescriptionOf(pod, describe))
      case Failure(e) => Some(RequestFailed(e))
      case Success(_) => None
  }

  /** What `main` prints for one flagged pod. */
  datatype Finding = Finding(pod: PodRef, head: string, logs: string, description: string, analysis: string)

  function FindingOf(
    pod: Pod, logsOf: (string, string) -> Fetch, describe: (string, string) -> Fetch,
    gemma: (string, string) -> Result<string, string>): Finding
    requires CrashOf(pod, logsOf, describe, gemma).None? && HasErrorStatus(pod.status.value)
  {
    var name := pod.metadata.value.name.value;
    var namespace := pod.metadata.value.namespace.value;
    var logs := LogsOf(pod, logsOf);
    var description := DescriptionOf(pod, describe);
    Finding(PodRef(name, namespace), PrintLog(logsOf(namespace, name)), logs, description, gemma(logs, description).value)
  }

  /** No item of `pods` ends the run. */
  predicate AllComplete(
    pods: seq<Pod>, logsOf: (string, string) -> Fetch, describe: (string, string) -> Fetch,
    gemma: (string, string) -> Result<string, string>)
  {
    forall k :: 0 <= k < |pods| ==> CrashOf(pods[k], logsOf, describe, gemma).None?
  }

  /** The findings of a run in which no item crashes, in item order. */
  function Findings(
    pods: seq<Pod>, logsOf: (string, string) -> Fetch, describe: (string, string) -> Fetch,
    gemma: (string, string) -> Result<string, string>): seq<Finding>
    requires AllComplete(pods, logsOf, describe, gemma)
  {
    if pods == [] then []
    else
      var init := pods[..|pods| - 1];
      var last := pods[|pods| - 1];
      Findings(init, logsOf, describe, gemma)
      + (if HasErrorStatus(last.status.value) then [FindingOf(last, logsOf, describe, gemma)] else [])
  }

  /** The index of the first item that ends the run, or the number of items
      when none does. */
  function FirstCrash(
    pods: seq<Pod>, logsOf: (string, string) -> Fetch, describe: (string, string) -> Fetch,
    gemma: (string, string) -> Result<string, string>): (n: nat)
    ensures n <= |pods|
    ensures AllComplete(pods[..n], logsOf, describe, gemma)
    ensures n < |pods| ==> CrashOf(pods[n], logsOf, describe, gemma).Some?
  {
    if pods == [] then 0
    else if CrashOf(pods[0], logsOf, describe, gemma).Some? then 0
    else
      var n := 1 + FirstCrash(pods[1..], logsOf, describe, gemma);
      assert forall k :: 1 <= k < n ==> pods[..n][k] == pods[1..][..n - 1][k - 1];
      n
  }

  /** `main`: the items are handled in order and the flagged ones reported,
      until an item raises: a missing key, or a failed request for a flagged
      pod, ends the run with that exception. */
  method Run(
    pods: seq<Pod>, logsOf: (string, string) -> Fetch, describe: (string, string) -> Fetch,
    gemma: (string, string) -> Result<string, string>)
    returns (findings: seq<Finding>, crash: Option<Crash>)
    ensures var n := FirstCrash(pods, logsOf, describe, gemma);
            findings == Findings(pods[..n], logsOf, describe, gemma)
            && (crash.None? <==> n == |pods|)
            && (n < |pods| ==> crash == CrashOf(pods[n], logsOf, describe, gemma))
  {
    findings := [];
    crash := None;
    var i := 0;
    while i < |pods|
      invariant 0 <= i <= |pods|
      invariant AllComplete(pods[..i], logsOf, describe, gemma)
      invariant i <= FirstCrash(pods, logsOf, describe, gemma)
      invariant findings == Findings(pods[..i], logsOf, describe, gemma)
    {
      var pod := pods[i];
      if MissingKey(pod).Some? {
        crash := Some(KeyError(MissingKey(pod).value));
        FirstCrashIsFirst(pods, i, logsOf, describe, gemma);
        return;
      }
      var found := FoundError(pod.status.value);
      if found {
        var name := pod.metadata.value.name.value;
        var namespace := pod.metadata.value.namespace.value;
        var head := PrintLog(logsOf(namespace, name));
        var logs := FetchLogs(logsOf(namespace, name));
        var description := FetchDescription(describe(namespace, name));
        var answer := gemma(logs, description);
        if answer.Failure? {
          crash := Some(RequestFailed(answer.error));
          FirstCrashIsFirst(pods, i, logsOf, describe, gemma);
          return;
        }
        FindingsGrow(pods, i, logsOf, describe, gemma);
        var finding := Finding(PodRef(name, namespace), head, logs, description, answer.value);
        assert finding == FindingOf(pod, logsOf, describe, gemma);
        findings := findings + [finding];
      } else {
        FindingsGrow(pods, i, logsOf, describe, gemma);
      }
      FirstCrashIsFirst(pods, i + 1, logsOf, describe, gemma);
      i := i + 1;
    }
    assert pods[..i] == pods;
  }

  /** Handling one more item that does not crash appends its finding when
      it is flagged, and nothing otherwise. */
  lemma FindingsGrow(
    pods: seq<Pod>, i: nat, logsOf: (string, string) -> Fetch, describe: (string, string) -> Fetch,
    gemma: (string, string) -> Result<string, string>)
    requires i < |pods| && AllComplete(pods[..i], logsOf, describe, gemma)
    requires CrashOf(pods[i], logsOf, describe, gemma).None?
    ensures AllComplete(pods[..i + 1], logsOf, describe, gemma)
    ensures Findings(pods[..i + 1], logsOf, describe, gemma)
         == Findings(pods[..i], logsOf, describe, gemma)
            + (if HasErrorStatus(pods[i].status.value) then [FindingOf(pods[i], logsOf, describe, gemma)] else [])
  {
    assert pods[..i + 1][..i] == pods[..i];
  }

  /** The first crashing item comes after every prefix of items that do not
      crash. */
  lemma {:induction false} FirstCrashIsFirst(
    pods: seq<Pod>, i: nat, logsOf: (string, string) -> Fetch, describe: (string, string) -> Fetch,
    gemma: (string, string) -> Result<string, string>)
    requires i <= |pods| && AllComplete(pods[..i], logsOf, describe, gemma)
    ensures i <= FirstCrash(pods, logsOf, describe, gemma)
    ensures i < |pods| && CrashOf(pods[i], logsOf, describe, gemma).Some? ==> FirstCrash(pods, logsOf, describe, gemma) == i
  {
    if i > 0 {
      assert pods[0] == pods[..i][0];
      var tail := pods[1..][..i - 1];
      assert AllComplete(tail, logsOf, describe, gemma) by {
        forall k | 0 <= k < |tail|
          ensures CrashOf(tail[k], logsOf, describe, gemma).None?
        {
          assert tail[k] == pods[..i][k + 1];
        }
      }
      FirstCrashIsFirst(pods[1..], i - 1, logsOf, describe, gemma);
    }
  }

  /** Item `k` is flagged and `f` is what `main` prints for it. */
  predicate ReportedAt(
    pods: seq<Pod>, k: int, f: Finding, logsOf: (string, string) -> Fetch,
    describe: (string, string) -> Fetch, gemma: (string, string) -> Result<string, string>)
    requires AllComplete(pods, logsOf, describe, gemma)
  {
    0 <= k < |pods| && HasErrorStatus(pods[k].status.value) && f == FindingOf(pods[k], logsOf, describe, gemma)
  }

  /** A finding is reported for exactly the flagged items of a run in which
      no item crashes. */
  lemma FindingsAreFlaggedPods(
    pods: seq<Pod>, logsOf: (string, string) -> Fetch, describe: (string, string) -> Fetch,
    gemma: (string, string) -> Result<string, string>, f: Finding)
    requires AllComplete(pods, logsOf, describe, gemma)
    ensures f in Findings(pods, logsOf, describe, gemma) <==>
              exists k :: ReportedAt(pods, k, f, logsOf, describe, gemma)
  {
    if f in Findings(pods, logsOf, describe, gemma) {
      FindingIsOfFlaggedPod(pods, logsOf, describe, gemma, f);
    }
    if exists k :: ReportedAt(pods, k, f, logsOf, describe, gemma) {
      var k :| ReportedAt(pods, k, f, logsOf, describe, gemma);
      FlaggedPodIsFound(pods, logsOf, describe, gemma, k);
    }
  }

  lemma FindingsSnoc(pods: seq<Pod>, logsOf: (string, string) -> Fetch, describe: (string, string) -> Fetch, gemma: (string, string) -> Result<string, string>)
    requires pods != [] && AllComplete(pods, logsOf, describe, gemma)
    ensures AllComplete(pods[..|pods| - 1], logsOf, describe, gemma)
    ensures var last := pods[|pods| - 1];
            Findings(pods, logsOf, describe, gemma) == Findings(pods[..|pods| - 1], logsOf, describe, gemma)
            + (if HasErrorStatus(last.status.value) then [FindingOf(last, logsOf, describe, gemma)] else [])
  {
    AllCompleteInit(pods, logsOf, describe, gemma);
  }

  lemma {:induction false} FindingIsOfFlaggedPod(
    pods: seq<Pod>, logsOf: (string, string) -> Fetch, describe: (string, string) -> Fetch, gemma: (string, string) -> Result<string, string>, f: Finding)
    requires AllComplete(pods, logsOf, describe, gemma) && f in Findings(pods, logsOf, describe, gemma)
    ensures exists k :: ReportedAt(pods, k, f, logsOf, describe, gemma)
  {
    var n := |pods|;
    var init := pods[..n - 1];
    FindingsSnoc(pods, logsOf, describe, gemma);
    if f in Findings(init, logsOf, describe, gemma) {
      FindingIsOfFlaggedPod(init, logsOf, describe, gemma, f);
      var k :| ReportedAt(init, k, f, logsOf, describe, gemma);
      assert init[k] == pods[k];
      assert ReportedAt(pods, k, f, logsOf, describe, gemma);
    } else {
      assert ReportedAt(pods, n - 1, f, logsOf, describe, gemma);
    }
  }

  lemma {:induction false} FlaggedPodIsFound(
    pods: seq<Pod>, logsOf: (string, string) -> Fetch, describe: (string, string) -> Fetch, gemma: (string, string) -> Result<string, string>, k: int)
    requires AllComplete(pods, logsOf, describe, gemma)
    requires 0 <= k < |pods| && HasErrorStatus(pods[k].status.value)
    ensures FindingOf(pods[k], logsOf, describe, gemma) in Findings(pods, logsOf, describe, gemma)
  {
    var n := |pods|;
    var init := pods[..n - 1];
    if k < n - 1 {
      AllCompleteInit(pods, logsOf, describe, gemma);
      assert init[k] == pods[k];
      FlaggedPodIsFound(init, logsOf, describe, gemma, k);
      FindingsKeepEarlier(pods, logsOf, describe, gemma, FindingOf(pods[k], logsOf, describe, gemma));
    } else {
      LastFlaggedIsFound(pods, logsOf, describe, gemma);
    }
  }

  /** A flagged last item that does not crash is reported. */
  lemma LastFlaggedIsFound(
    pods: seq<Pod>, logsOf: (string, string) -> Fetch, describe: (string, string) -> Fetch,
    gemma: (string, string) -> Result<string, string>)
    requires pods != [] && AllComplete(pods, logsOf, describe, gemma)
    requires HasErrorStatus(pods[|pods| - 1].status.value)
    ensures FindingOf(pods[|pods| - 1], logsOf, describe, gemma) in Findings(pods, logsOf, describe, gemma)
  {
    FindingsSnoc(pods, logsOf, describe, gemma);
  }

  lemma AllCompleteInit(pods: seq<Pod>, logsOf: (string, string) -> Fetch, describe: (string, string) -> Fetch, gemma: (string, string) -> Result<string, string>)
    requires pods != [] && AllComplete(pods, logsOf, describe, gemma)
    ensures AllComplete(pods[..|pods| - 1], logsOf, describe, gemma)
  {
    assert forall k :: 0 <= k < |pods| - 1 ==> pods[..|pods| - 1][k] == pods[k];
  }

  /** Handling one more item keeps every finding made before it. */
  lemma FindingsKeepEarlier(
    pods: seq<Pod>, logsOf: (string, string) -> Fetch, describe: (string, string) -> Fetch,
    gemma: (string, string) -> Result<string, string>, f: Finding)
    requires pods != [] && AllComplete(pods, logsOf, describe, gemma)
    requires AllComplete(pods[..|pods| - 1], logsOf, describe, gemma)
    requires f in Findings(pods[..|pods| - 1], logsOf, describe, gemma)
    ensures f in Findings(pods, logsOf, describe, gemma)
  {
    FindingsSnoc(pods, logsOf, describe, gemma);
  }
}
