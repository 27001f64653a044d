/** A pod as the scripts see it: the JSON object that
    `kubectl get pods -o json` returns per item, reduced to the keys the
    scripts consult.  Every key is an `Option`: `None` when the key is absent.
    A present `waiting` or `terminated` record may still be empty (`{}`), so
    "key present" (`"waiting" in state`) and "present and non-empty" (Python
    truthiness of `state.get("waiting")`) stay two different questions. */
module PodRecord {
  import opened Maybe

  datatype Pod = Pod(metadata: Option<Metadata>, status: Option<PodStatus>)

  datatype Metadata = Metadata(name: Option<string>, namespace: Option<string>)

  datatype PodStatus = PodStatus(
    phase: Option<string>,
    reason: Option<string>,
    conditions: Option<seq<Condition>>,
    containerStatuses: Option<seq<ContainerStatus>>,
    initContainerStatuses: Option<seq<ContainerStatus>>)

  /** One entry of `status.conditions`: its `type` and `status` keys. */
  datatype Condition = Condition(kind: Option<string>, status: Option<string>)

  datatype ContainerStatus = ContainerStatus(ready: Option<bool>, state: Option<ContainerState>)

  /** The `state` record of a container; its `running` key is never consulted. */
  datatype ContainerState = ContainerState(waiting: Option<Waiting>, terminated: Option<Terminated>)

  datatype Waiting = Waiting(reason: Option<string>, message: Option<string>)

  /** `otherKeys` names the further keys present (`startedAt`, `finishedAt`,
      `containerID`, `signal`, `message`); only their presence matters here. */
  datatype Terminated = Terminated(exitCode: Option<int>, reason: Option<string>, otherKeys: set<string>)

  /** A `{name, namespace}` pair naming a pod. */
  datatype PodRef = PodRef(name: string, namespace: string)

  // `.get(key, default)` on the records above.

  /** `status.get("phase", "")`. */
  function PhaseOf(status: PodStatus): string
  {
    status.phase.GetOr("")
  }

  /** `status.get("containerStatuses", [])`. */
  function ContainersOf(status: PodStatus): seq<ContainerStatus>
  {
    status.containerStatuses.GetOr([])
  }

  /** `status.get("initContainerStatuses", [])`. */
  function InitContainersOf(status: PodStatus): seq<ContainerStatus>
  {
    status.initContainerStatuses.GetOr([])
  }

  /** `container.get("state", {})`. */
  function StateOf(c: ContainerStatus): ContainerState
  {
    c.state.GetOr(ContainerState(None, None))
  }

  /** `not container.get("ready", True)`: only an explicit `false` counts. */
  predicate NotReady(c: ContainerStatus)
  {
    c.ready == Some(false)
  }

  /** A condition with `type == "PodScheduled"` and `status == "False"`. */
  predicate IsUnscheduled(cond: Condition)
  {
    cond.kind == Some("PodScheduled") && cond.status == Some("False")
  }

  /** Some entry of `status.conditions` (absent reads as `[]`) says the pod
      could not be scheduled. */
  predicate HasUnscheduledCondition(status: PodStatus)
  {
    var conditions := status.conditions.GetOr([]);
    exists k :: 0 <= k < |conditions| && IsUnscheduled(conditions[k])
  }

  /** Python truthiness of a `waiting` value: present and not `{}`. */
  predicate WaitingTruthy(w: Option<Waiting>)
  {
    w.Some? && (w.value.reason.Some? || w.value.message.Some?)
  }

  /** Python truthiness of a `terminated` value: present and not `{}`. */
  predicate TerminatedTruthy(t: Option<Terminated>)
  {
    t.Some? && (t.value.exitCode.Some? || t.value.reason.Some? || t.value.otherKeys != {})
  }

  /** The status of a pod with no `status` key, as `pod.get("status", {})`
      gives it. */
  const EmptyStatus := PodStatus(None, None, None, None, None)

  /** `pod.get("status", {})`. */
  function StatusOf(pod: Pod): PodStatus
  {
    pod.status.GetOr(EmptyStatus)
  }
}
