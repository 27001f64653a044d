/** The status summary the monitoring loops attach to an unhealthy pod: they
    walk the pod's container statuses and overwrite the summary with every
    container that is waiting or terminated, so the last such container wins.
    This module is the specification both loops are proved against. */
module StatusDetails {
  import opened Maybe
  import opened PodRecord
  import Text

  datatype StatusDetail =
    | UnknownDetail
    | WaitingDetail(reason: string, message: string)
    | TerminatedDetail(reason: string, exitCode: Option<int>)

  /** What one container contributes: its `waiting` record when its state has
      that key, else its `terminated` record when it has that key, else
      nothing.  Missing `reason` and `message` read as "", a missing
      `exitCode` stays missing (it is rendered as ""). */
  function ContainerDetail(c: ContainerStatus): (d: Option<StatusDetail>)
    ensures d.None? <==> StateOf(c).waiting.None? && StateOf(c).terminated.None?
    ensures StateOf(c).waiting.Some? ==> d.Some? && d.value.WaitingDetail?
    ensures StateOf(c).waiting.None? && StateOf(c).terminated.Some? ==> d.Some? && d.value.TerminatedDetail?
  {
    var state := StateOf(c);
    if state.waiting.Some? then
      Some(WaitingDetail(state.waiting.value.reason.GetOr(""), state.waiting.value.message.GetOr("")))
    else if state.terminated.Some? then
      Some(TerminatedDetail(state.terminated.value.reason.GetOr(""), state.terminated.value.exitCode))
    else
      None
  }

  predicate HasDetail(c: ContainerStatus)
  {
    ContainerDetail(c).Some?
  }

  /** The summary after visiting all of `cs` in order. */
  function LastDetail(cs: seq<ContainerStatus>): StatusDetail
  {
    if cs == [] then UnknownDetail
    else
      match ContainerDetail(cs[|cs| - 1])
      case Some(d) => d
      case None => LastDetail(cs[..|cs| - 1])
  }

  /** `k` is the last container of `cs` that is waiting or terminated. */
  predicate IsLastWithDetail(cs: seq<ContainerStatus>, k: int)
  {
    0 <= k < |cs| && HasDetail(cs[k]) && forall j :: k < j < |cs| ==> !HasDetail(cs[j])
  }

  /** The summary is "Unknown" exactly when no container is waiting or
      terminated; otherwise it is the detail of the last container that is. */
  lemma {:induction false} LastDetailWins(cs: seq<ContainerStatus>)
    ensures LastDetail(cs) == UnknownDetail <==> forall k :: 0 <= k < |cs| ==> !HasDetail(cs[k])
    ensures forall k :: IsLastWithDetail(cs, k) ==> LastDetail(cs) == ContainerDetail(cs[k]).value
  {
    if cs != [] {
      var n := |cs|;
      var init := cs[..n - 1];
      LastDetailWins(init);
      if !HasDetail(cs[n - 1]) {
        forall k | IsLastWithDetail(cs, k)
          ensures IsLastWithDetail(init, k)
        {
        }
        if forall k :: 0 <= k < |init| ==> !HasDetail(init[k]) {
          assert forall k :: 0 <= k < n ==> !HasDetail(cs[k]) by {
            forall k | 0 <= k < n
              ensures !HasDetail(cs[k])
            {
              if k < n - 1 {
                assert cs[k] == init[k];
              }
            }
          }
        }
      }
    }
  }

  /** The text the loops store: `Waiting: {reason} - {message}`,
      `Terminated: {reason} (Exit code: {exit_code})` or `Unknown`. */
  function Render(d: StatusDetail): string
  {
    match d
    case UnknownDetail => "Unknown"
    case WaitingDetail(reason, message) => "Waiting: " + reason + " - " + message
    case TerminatedDetail(reason, code) =>
      "Terminated: " + reason + " (Exit code: " + (if code.Some? then Text.IntToString(code.value) else "") + ")"
  }

  /** The rendered text tells which kind of summary it is. */
  lemma RenderKeepsKind(d: StatusDetail)
    ensures d.UnknownDetail? <==> Render(d) == "Unknown"
    ensures d.WaitingDetail? <==> "Waiting: " <= Render(d)
    ensures d.TerminatedDetail? <==> "Terminated: " <= Render(d)
  {
    match d
    case UnknownDetail =>
    case WaitingDetail(reason, message) =>
      assert Render(d)[..9] == "Waiting: ";
      assert Render(d)[0] != "Terminated: "[0];
    case TerminatedDetail(reason, code) =>
      assert Render(d)[..12] == "Terminated: ";
      assert Render(d)[0] != "Waiting: "[0];
  }
}
