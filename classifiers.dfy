/** How the four health classifiers relate.  They agree on the phases Failed
    and Unknown (except the log checker) and on unscheduled Pending pods,
    and part ways on containers: claude_code.py flags any not-ready container
    that is waiting or terminated, trial_1.py only a non-zero exit, main.py
    only a crash reason or a non-empty terminated record but in every phase,
    and k8s_log_checker.py only waiting reasons from its list, while it flags
    every Pending pod. */
module Classifiers {
  import opened Maybe
  import opened PodRecord
  import MainScript
  import TrialOne
  import ClaudeCode
  import LogChecker

  /** trial_1.py's classifier is the stricter of the two scripts that check
      containers only in Running pods: what it flags, claude_code.py flags. */
  lemma TrialImpliesClaude(pod: Pod)
    ensures TrialOne.IsPodUnhealthy(pod) ==> ClaudeCode.IsPodUnhealthy(pod)
  {
    if TrialOne.IsPodUnhealthy(pod) && PhaseOf(pod.status.value) == "Running" {
      var cs := ContainersOf(pod.status.value);
      if exists k :: 0 <= k < |cs| && TrialOne.ContainerFlags(cs[k]) {
        var k :| 0 <= k < |cs| && TrialOne.ContainerFlags(cs[k]);
        assert ClaudeCode.ContainerFlags(cs[k]);
      }
    }
  }

  /** A Running pod with one not-ready container that terminated with exit
      code 0. */
  const CleanExitPod := Pod(
    Some(Metadata(Some("job-1"), Some("default"))),
    Some(PodStatus(Some("Running"), None, None,
      Some([ContainerStatus(Some(false), Some(ContainerState(None, Some(Terminated(Some(0), Some("Completed"), {})))))]),
      None)))

  /** The converse fails: a clean exit flags the pod for claude_code.py and
      main.py but not for trial_1.py nor for the log checker. */
  lemma CleanExitSplitsClassifiers()
    ensures ClaudeCode.IsPodUnhealthy(CleanExitPod)
    ensures MainScript.IsPodUnhealthy(CleanExitPod)
    ensures !TrialOne.IsPodUnhealthy(CleanExitPod)
    ensures !LogChecker.HasErrorStatus(CleanExitPod.status.value)
  {
    var c := ContainersOf(CleanExitPod.status.value)[0];
    assert ClaudeCode.ContainerFlags(c);
    assert MainScript.ContainerFlags(c);
  }

  /** In the phases where claude_code.py looks at containers or needs none,
      what main.py flags claude_code.py flags too. */
  lemma MainImpliesClaudeOutsidePending(pod: Pod)
    requires PhaseOf(StatusOf(pod)) in ["Running", "Failed", "Unknown"]
    ensures MainScript.IsPodUnhealthy(pod) ==> ClaudeCode.IsPodUnhealthy(pod)
  {
    var cs := ContainersOf(StatusOf(pod));
    if PhaseOf(StatusOf(pod)) == "Running" && exists k :: 0 <= k < |cs| && MainScript.ContainerFlags(cs[k]) {
      var k :| 0 <= k < |cs| && MainScript.ContainerFlags(cs[k]);
      assert ClaudeCode.ContainerFlags(cs[k]);
    }
  }

  /** A Pending pod that was scheduled but whose container keeps crashing. */
  const CrashingPendingPod := Pod(
    Some(Metadata(Some("api-0"), Some("prod"))),
    Some(PodStatus(Some("Pending"), None, Some([Condition(Some("PodScheduled"), Some("True"))]),
      Some([ContainerStatus(Some(false), Some(ContainerState(Some(Waiting(Some("CrashLoopBackOff"), None)), None)))]),
      None)))

  /** main.py checks containers in every phase, so it flags this pod; the
      two Running-only scripts do not; the log checker flags every Pending
      pod. */
  lemma PendingCrashSplitsClassifiers()
    ensures MainScript.IsPodUnhealthy(CrashingPendingPod)
    ensures !ClaudeCode.IsPodUnhealthy(CrashingPendingPod)
    ensures !TrialOne.IsPodUnhealthy(CrashingPendingPod)
    ensures LogChecker.HasErrorStatus(CrashingPendingPod.status.value)
  {
    var status := CrashingPendingPod.status.value;
    assert !HasUnscheduledCondition(status) by {
      assert status.conditions.GetOr([]) == [Condition(Some("PodScheduled"), Some("True"))];
    }
    assert MainScript.ContainerFlags(ContainersOf(status)[0]);
  }

  /** A Running pod whose container is still being created. */
  const CreatingPod := Pod(
    Some(Metadata(Some("web-0"), Some("default"))),
    Some(PodStatus(Some("Running"), None, None,
      Some([ContainerStatus(Some(false), Some(ContainerState(Some(Waiting(Some("ContainerCreating"), None)), None)))]),
      None)))

  /** A waiting reason outside main.py's crash list: the Running-only
      scripts flag it on the key alone, main.py and the log checker do not. */
  lemma WaitingReasonSplitsClassifiers()
    ensures TrialOne.IsPodUnhealthy(CreatingPod)
    ensures ClaudeCode.IsPodUnhealthy(CreatingPod)
    ensures !MainScript.IsPodUnhealthy(CreatingPod)
    ensures !LogChecker.HasErrorStatus(CreatingPod.status.value)
  {
    var c := ContainersOf(CreatingPod.status.value)[0];
    assert TrialOne.ContainerFlags(c);
    assert ClaudeCode.ContainerFlags(c);
  }

  /** The phase Unknown: three scripts flag it, the log checker does not
      when nothing else points at an error. */
  lemma UnknownPhaseSplitsClassifiers(pod: Pod)
    requires pod.status.Some? && PhaseOf(pod.status.value) == "Unknown"
    requires pod.status.value.reason.None?
    requires ContainersOf(pod.status.value) == [] && InitContainersOf(pod.status.value) == []
    ensures MainScript.IsPodUnhealthy(pod) && TrialOne.IsPodUnhealthy(pod) && ClaudeCode.IsPodUnhealthy(pod)
    ensures !LogChecker.HasErrorStatus(pod.status.value)
  {
  }
}
