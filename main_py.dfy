/** main.py: one pass over the cluster.  It lists the unhealthy pods, asks the
    language model for a JSON recommendation per pod, cuts the JSON object
    out of the free-text answer, and maps the recommended action to a cluster
    command.  kubectl and the model are inputs here: `responseOf` is the
    outcome of the HTTP call (the `response` field of the answer, or the
    text of the exception `requests.post` or `.json()` raised), `decode` stands for `json.loads`, and `ownersOf` for
    `kubectl get pod -o json` followed by the read of `ownerReferences`. */
module MainScript {
  import opened Maybe
  import opened PodRecord
  import opened Text

  // ---------------------------------------------------------------------
  // is_pod_unhealthy
  // ---------------------------------------------------------------------

  /** The waiting reasons that make a not-ready container a failure. */
  const CrashReasons: seq<string> := ["CrashLoopBackOff", "ErrImagePull", "ImagePullBackOff", "RunContainerError"]

  /** A container that flags its pod, in any phase: explicitly not ready,
      and either waiting (non-empty record) for one of `CrashReasons`, or
      holding a non-empty `terminated` record. */
  predicate ContainerFlags(c: ContainerStatus)
  {
    var state := StateOf(c);
    NotReady(c)
    && ((WaitingTruthy(state.waiting) && state.waiting.value.reason.Some?
         && state.waiting.value.reason.value in CrashReasons)
        || TerminatedTruthy(state.terminated))
  }

  /** main.py's classifier. */
  predicate IsPodUnhealthy(pod: Pod)
  {
    var status := StatusOf(pod);
    var phase := PhaseOf(status);
    var containers := ContainersOf(status);
    phase in ["Failed", "Unknown"]
    || (phase == "Pending" && HasUnscheduledCondition(status))
    || exists k :: 0 <= k < |containers| && ContainerFlags(containers[k])
  }

  /** The phase rules and the container rule, one by one. */
  lemma ClassifierRules(pod: Pod)
    ensures PhaseOf(StatusOf(pod)) in ["Failed", "Unknown"] ==> IsPodUnhealthy(pod)
    ensures PhaseOf(StatusOf(pod)) == "Pending" && HasUnscheduledCondition(StatusOf(pod)) ==> IsPodUnhealthy(pod)
    ensures forall k :: 0 <= k < |ContainersOf(StatusOf(pod))| && ContainerFlags(ContainersOf(StatusOf(pod))[k]) ==> IsPodUnhealthy(pod)
    ensures IsPodUnhealthy(pod) && PhaseOf(StatusOf(pod)) !in ["Failed", "Unknown", "Pending"] ==>
              exists k :: 0 <= k < |ContainersOf(StatusOf(pod))| && ContainerFlags(ContainersOf(StatusOf(pod))[k])
  {
  }

  /** A container whose `ready` key is missing never flags, nor does one
      waiting for a reason outside `CrashReasons` with no `terminated`
      record. */
  lemma ContainerRuleLimits(c: ContainerStatus)
    ensures c.ready.None? ==> !ContainerFlags(c)
    ensures (StateOf(c).waiting.Some? && StateOf(c).waiting.value.reason.Some?
             && StateOf(c).waiting.value.reason.value !in CrashReasons
             && StateOf(c).terminated.None?) ==> !ContainerFlags(c)
  {
  }

  // ---------------------------------------------------------------------
  // get_failed_pods
  // ---------------------------------------------------------------------

  /** Failures the script raises; `main` catches those of one pod and goes
      on with the next. */
  datatype Failure =
    | NoJsonFound
    | JsonDecodeError(detail: string)
    | MissingKey(key: string)
    | OwnerLookupFailed(detail: string)
    | RequestFailed(detail: string)

  /** `item['metadata']['namespace']` and `item['metadata']['name']` exist. */
  predicate HasIdentity(item: Pod)
  {
    item.metadata.Some? && item.metadata.value.namespace.Some? && item.metadata.value.name.Some?
  }

  function RefOf(item: Pod): PodRef
    requires HasIdentity(item)
  {
    PodRef(item.metadata.value.name.value, item.metadata.value.namespace.value)
  }

  /** The `KeyError` reading the identity of `item` raises. */
  function IdentityError(item: Pod): Failure
  {
    if item.metadata.None? then MissingKey("metadata")
    else if item.metadata.value.namespace.None? then MissingKey("namespace")
    else MissingKey("name")
  }

  predicate AllHaveIdentity(items: seq<Pod>)
  {
    forall k :: 0 <= k < |items| ==> HasIdentity(items[k])
  }

  /** Item `k` is the first one whose identity cannot be read. */
  predicate FirstWithoutIdentity(items: seq<Pod>, k: int)
  {
    0 <= k < |items| && AllHaveIdentity(items[..k]) && !HasIdentity(items[k])
  }

  /** The identities of the items the classifier flags, in input order. */
  function Flagged(items: seq<Pod>): seq<PodRef>
    requires AllHaveIdentity(items)
  {
    if items == [] then []
    else
      var last := items[|items| - 1];
      Flagged(items[..|items| - 1]) + (if IsPodUnhealthy(last) then [RefOf(last)] else [])
  }

  /** `get_failed_pods`: the loop that appends `{name, namespace}` for every
      unhealthy item.  The first item without a name or namespace raises. */
  method GetFailedPods(items: seq<Pod>) returns (r: Result<seq<PodRef>, Failure>)
    ensures r.Success? <==> AllHaveIdentity(items)
    ensures r.Success? ==> r.value == Flagged(items)
    ensures r.Failure? ==> exists k :: FirstWithoutIdentity(items, k) && r.error == IdentityError(items[k])
  {
    var failed: seq<PodRef> := [];
    var i := 0;
    while i < |items|
      invariant 0 <= i <= |items|
      invariant AllHaveIdentity(items[..i])
      invariant failed == Flagged(items[..i])
    {
      var item := items[i];
      if !HasIdentity(item) {
        assert FirstWithoutIdentity(items, i);
        return Failure(IdentityError(item));
      }
      if IsPodUnhealthy(item) {
        failed := failed + [RefOf(item)];
      }
      assert items[..i + 1][..i] == items[..i];
      i := i + 1;
    }
    assert items[..i] == items;
    return Success(failed);
  }

  /** A pod is listed exactly when some item with its identity is unhealthy. */
  lemma {:induction false} FlaggedMembers(items: seq<Pod>, ref: PodRef)
    requires AllHaveIdentity(items)
    ensures ref in Flagged(items) <==> exists k :: 0 <= k < |items| && IsPodUnhealthy(items[k]) && RefOf(items[k]) == ref
  {
    if items != [] {
      var n := |items|;
      var init := items[..n - 1];
      FlaggedMembers(init, ref);
      if exists k :: 0 <= k < n && IsPodUnhealthy(items[k]) && RefOf(items[k]) == ref {
        var k :| 0 <= k < n && IsPodUnhealthy(items[k]) && RefOf(items[k]) == ref;
        if k < n - 1 {
          assert init[k] == items[k];
        }
      }
    }
  }

  /** The listing keeps input order: listing two batches one after the other
      gives the two listings one after the other. */
  lemma {:induction false} FlaggedAppend(a: seq<Pod>, b: seq<Pod>)
    requires AllHaveIdentity(a) && AllHaveIdentity(b)
    ensures AllHaveIdentity(a + b)
    ensures Flagged(a + b) == Flagged(a) + Flagged(b)
    decreases |b|
  {
    assert AllHaveIdentity(a + b) by {
      forall k | 0 <= k < |a + b|
        ensures HasIdentity((a + b)[k])
      {
        if k >= |a| {
          assert (a + b)[k] == b[k - |a|];
        }
      }
    }
    if b == [] {
      assert a + b == a;
    } else {
      var n := |b|;
      FlaggedAppend(a, b[..n - 1]);
      assert (a + b)[..|a + b| - 1] == a + b[..n - 1];
    }
  }

  // ---------------------------------------------------------------------
  // query_gemma: cutting the JSON object out of the answer
  // ---------------------------------------------------------------------

  /** Some `{` is followed, later in the text, by some `}`. */
  predicate HasBracePair(s: string)
  {
    exists i, j :: 0 <= i < j < |s| && s[i] == '{' && s[j] == '}'
  }

  /** `m` sits in `s` at `lo`, with no `{` before it and no `}` after it:
      the leftmost, longest match of the pattern. */
  predicate LeftmostLongestAt(s: string, lo: int, m: string)
  {
    0 <= lo && lo + |m| <= |s| && s[lo..lo + |m|] == m
    && (forall k :: 0 <= k < lo ==> s[k] != '{')
    && (forall k :: lo + |m| <= k < |s| ==> s[k] != '}')
  }

  /** `re.search(r'{.*}', s, re.DOTALL)`: the text from the first `{` through
      the last `}`, if a `}` follows the first `{`. */
  function ExtractJson(s: string): (r: Option<string>)
    ensures r.Some? <==> HasBracePair(s)
    ensures r.Some? ==> 2 <= |r.value| && r.value[0] == '{' && r.value[|r.value| - 1] == '}'
  {
    var i := IndexOf(s, '{');
    var j := LastIndexOf(s, '}');
    if i < j then Some(s[i..j + 1]) else None
  }

  /** The extracted text is the leftmost, longest match: it sits at the
      first `{`, with no `}` after it. */
  lemma ExtractIsLeftmostLongest(s: string)
    ensures ExtractJson(s).Some? ==> LeftmostLongestAt(s, IndexOf(s, '{'), ExtractJson(s).value)
  {
  }

  /** At most one text sits leftmost and longest in `s`. */
  lemma MatchIsUnique(s: string, lo1: int, m1: string, lo2: int, m2: string)
    requires LeftmostLongestAt(s, lo1, m1) && 2 <= |m1| && m1[0] == '{' && m1[|m1| - 1] == '}'
    requires LeftmostLongestAt(s, lo2, m2) && 2 <= |m2| && m2[0] == '{' && m2[|m2| - 1] == '}'
    ensures m1 == m2
  {
    assert s[lo1] == '{' && s[lo2] == '{';
    assert lo1 == lo2;
    assert s[lo1 + |m1| - 1] == '}' && s[lo2 + |m2| - 1] == '}';
    assert |m1| == |m2|;
  }

  predicate BraceFreeOutside(s: string, a: nat, b: nat)
    requires a <= b <= |s|
  {
    && (forall k :: 0 <= k < a ==> s[k] != '{' && s[k] != '}')
    && (forall k :: b <= k < |s| ==> s[k] != '{' && s[k] != '}')
  }

  lemma BracePairInside(s: string, a: nat, b: nat)
    requires a <= b <= |s| && BraceFreeOutside(s, a, b)
    ensures HasBracePair(s[a..b]) <==> HasBracePair(s)
  {
    var t := s[a..b];
    if HasBracePair(s) {
      var i, j :| 0 <= i < j < |s| && s[i] == '{' && s[j] == '}';
      assert t[i - a] == '{' && t[j - a] == '}';
    }
    if HasBracePair(t) {
      var i, j :| 0 <= i < j < |t| && t[i] == '{' && t[j] == '}';
      assert s[a + i] == '{' && s[a + j] == '}';
    }
  }

  /** The extraction, given where the first `{` and the last `}` are. */
  lemma ExtractBetween(s: string, i: nat, j: int)
    requires i == IndexOf(s, '{') && j == LastIndexOf(s, '}') && i < j
    ensures ExtractJson(s) == Some(s[i..j + 1])
  {
  }

  /** Cutting brace-free text off both ends does not change the extraction:
      the first `{` and the last `}` lie inside the kept part. */
  lemma ExtractIgnoresBraceFreeEdges(s: string, a: nat, b: nat)
    requires a <= b <= |s| && BraceFreeOutside(s, a, b)
    ensures ExtractJson(s[a..b]) == ExtractJson(s)
  {
    BracePairInside(s, a, b);
    if HasBracePair(s) {
      BracesInside(s, a, b);
      ExtractInside(s, a, b);
    }
  }

  /** When the first `{` and the last `}` lie in `s[a..b]`, so does the
      extracted object. */
  lemma ExtractInside(s: string, a: nat, b: nat)
    requires a <= b <= |s| && a <= IndexOf(s, '{') < LastIndexOf(s, '}') < b
    ensures ExtractJson(s[a..b]) == ExtractJson(s)
  {
    var i, j := IndexOf(s, '{'), LastIndexOf(s, '}');
    IndexOfInside(s, a, b, '{');
    LastIndexOfInside(s, a, b, '}');
    ExtractShifted(s, a, b, i, j);
    ExtractBetween(s, i, j);
    SliceShift(s, a, b, i, j);
  }

  /** The extraction from `s[a..b]`, given where its braces are in `s`. */
  lemma ExtractShifted(s: string, a: nat, b: nat, i: nat, j: nat)
    requires a <= i < j < b <= |s|
    requires IndexOf(s[a..b], '{') == i - a && LastIndexOf(s[a..b], '}') == j - a
    ensures ExtractJson(s[a..b]) == Some(s[a..b][i - a..j - a + 1])
  {
    ExtractBetween(s[a..b], i - a, j - a);
  }

  /** The slice of `s[a..b]` from `i - a` through `j - a`, in the
      coordinates of `s`. */
  lemma SliceShift(s: string, a: nat, b: nat, i: nat, j: nat)
    requires a <= i <= j < b <= |s|
    ensures s[a..b][i - a..j - a + 1] == s[i..j + 1]
  {
    var t, u := s[a..b][i - a..j - a + 1], s[i..j + 1];
    assert |t| == |u|;
    forall k | 0 <= k < |t|
      ensures t[k] == u[k]
    {
      assert t[k] == s[a..b][i - a + k] == s[i + k];
    }
  }

  /** With brace-free edges, the first `{` and the last `}` are inside. */
  lemma BracesInside(s: string, a: nat, b: nat)
    requires a <= b <= |s| && BraceFreeOutside(s, a, b) && HasBracePair(s)
    ensures a <= IndexOf(s, '{') < LastIndexOf(s, '}') < b
  {
    var i0, j0 :| 0 <= i0 < j0 < |s| && s[i0] == '{' && s[j0] == '}';
    assert IndexOf(s, '{') <= i0 < j0 <= LastIndexOf(s, '}');
  }

  /** A first occurrence inside `s[a..b]` is found there, shifted by `a`. */
  lemma IndexOfInside(s: string, a: nat, b: nat, c: char)
    requires a <= b <= |s| && a <= IndexOf(s, c) < b
    ensures IndexOf(s[a..b], c) == IndexOf(s, c) - a
  {
    var t, i := s[a..b], IndexOf(s, c);
    forall k | 0 <= k < i - a
      ensures t[k] != c
    {
      assert t[k] == s[a + k];
    }
    IndexOfIs(t, c, i - a);
  }

  /** A last occurrence inside `s[a..b]` is found there, shifted by `a`. */
  lemma LastIndexOfInside(s: string, a: nat, b: nat, c: char)
    requires a <= b <= |s| && a <= LastIndexOf(s, c) < b
    ensures LastIndexOf(s[a..b], c) == LastIndexOf(s, c) - a
  {
    var t, j := s[a..b], LastIndexOf(s, c);
    forall k | j - a < k < |t|
      ensures t[k] != c
    {
      assert t[k] == s[a + k];
    }
    LastIndexOfIs(t, c, j - a);
  }

  /** The `.strip()` before the search does not change what is found. */
  lemma ExtractAfterStrip(s: string)
    ensures ExtractJson(Strip(s)) == ExtractJson(s)
  {
    ExtractIgnoresBraceFreeEdges(s, StripStart(s), StripEnd(s));
  }

  /** The keys of the decoded recommendation that `take_action` reads with
      `action_json[...]`. */
  datatype Recommendation = Recommendation(action: Option<string>, pod: Option<string>, namespace: Option<string>)

  /** What the HTTP call of `query_gemma` gives: the `response` field of
      the answer (None when the key is absent), or the text of the exception
      that `requests.post` or `response.json()` raised. */
  type Reply = Result<Option<string>, string>

  /** `query_gemma`: a failed call raises; otherwise strip the `response`
      field (absent reads as ""), cut out the JSON object, decode it. */
  function QueryGemma(reply: Reply, decode: string -> Result<Recommendation, string>): (r: Result<Recommendation, Failure>)
    ensures reply.Failure? ==> r == Failure(RequestFailed(reply.error))
    ensures r == Failure(NoJsonFound) <==> reply.Success? && !HasBracePair(reply.value.GetOr(""))
    ensures reply.Success? && HasBracePair(reply.value.GetOr("")) ==>
              var candidate := ExtractJson(reply.value.GetOr("")).value;
              match decode(candidate)
              case Success(rec) => r == Success(rec)
              case Failure(e) => r == Failure(JsonDecodeError(e))
  {
    match reply
    case Failure(e) => Failure(RequestFailed(e))
    case Success(response) =>
      ExtractAfterStrip(response.GetOr(""));
      match ExtractJson(Strip(response.GetOr("")))
      case None => Failure(NoJsonFound)
      case Some(candidate) =>
        match decode(candidate)
        case Success(rec) => Success(rec)
        case Failure(e) => Failure(JsonDecodeError(e))
  }

  // ---------------------------------------------------------------------
  // take_action
  // ---------------------------------------------------------------------

  /** One entry of `metadata.ownerReferences`: its `kind` and `name` keys. */
  datatype Owner = Owner(kind: Option<string>, name: Option<string>)

  /** What `take_action` does to the cluster, or the advice it prints. */
  datatype Command =
    | RolloutRestart(deployment: string, namespace: string)
    | DeletePod(pod: string, namespace: string)
    | Advise(advice: string)
    | NoOperation(action: string)
  {
    predicate TouchesCluster()
    {
      RolloutRestart? || DeletePod?
    }
  }

  const RevertImageAdvice := "\U{1F519} Action 'revert_image' not automated. Consider using 'kubectl rollout undo'."
  const IncreaseResourcesAdvice := "\U{1F4C8} Action 'increase_resources': Adjust resources in deployment YAML."
  const CheckConfigAdvice := "\U{1F50D} Action 'check_config': Check config maps, environment vars, or secrets."

  /** `"-".join(rs_name.split("-")[:-1])`. */
  function DeploymentName(rsName: string): string
  {
    var parts := Split(rsName, '-');
    Join("-", parts[..|parts| - 1])
  }

  /** The piece after the last `-` (the whole name when there is none). */
  function LastSegment(rsName: string): string
  {
    var parts := Split(rsName, '-');
    parts[|parts| - 1]
  }

  /** The deployment name is the ReplicaSet name with its last `-`-separated
      piece removed, and "" for a name without `-`. */
  lemma DeploymentNameDropsLastSegment(rsName: string)
    ensures '-' !in rsName ==> DeploymentName(rsName) == ""
    ensures '-' in rsName ==> rsName == DeploymentName(rsName) + "-" + LastSegment(rsName)
    ensures '-' !in LastSegment(rsName)
  {
    var parts := Split(rsName, '-');
    SplitPieces(rsName, '-');
    if '-' in rsName {
      JoinSplit(rsName, '-');
      JoinSnoc("-", parts);
    }
  }

  /** The deployment name is the text before the last `-`. */
  lemma DeploymentNameBeforeLastDash(rsName: string, i: int)
    requires 0 <= i < |rsName| && rsName[i] == '-'
    requires forall k :: i < k < |rsName| ==> rsName[k] != '-'
    ensures DeploymentName(rsName) == rsName[..i]
  {
    DeploymentNameDropsLastSegment(rsName);
    var d, l := DeploymentName(rsName), LastSegment(rsName);
    assert rsName[|d|] == '-';
  }

  /** The ReplicaSet of deployment `myapp`. */
  lemma DeploymentNameExample(rsName: string)
    requires rsName == "myapp-7d9f8c6b5"
    ensures DeploymentName(rsName) == "myapp"
  {
    assert rsName[5] == '-';
    assert forall k :: 5 < k < |rsName| ==> rsName[k] != '-';
    DeploymentNameBeforeLastDash(rsName, 5);
    assert rsName[..5] == "myapp";
  }

  /** The command the owner scan of a `restart` settles on: a rollout
      restart of the first ReplicaSet owner's deployment, else a pod delete.
      It acts in the pod's own namespace and deletes no other pod; it raises
      only the `KeyError` of a missing `kind` or `name`. */
  function RestartCommand(owners: seq<Owner>, pod: string, ns: string): (r: Result<Command, Failure>)
    ensures r.Success? ==> (r.value.RolloutRestart? || r.value == DeletePod(pod, ns)) && r.value.namespace == ns
    ensures r.Failure? ==> r.error == MissingKey("kind") || r.error == MissingKey("name")
  {
    if owners == [] then Success(DeletePod(pod, ns))
    else
      match owners[0].kind
      case None => Failure(MissingKey("kind"))
      case Some(kind) =>
        if kind == "ReplicaSet" then
          match owners[0].name
          case None => Failure(MissingKey("name"))
          case Some(name) => Success(RolloutRestart(DeploymentName(name), ns))
        else
          RestartCommand(owners[1..], pod, ns)
  }

  /** The whole of `take_action` as one value.  It raises only a `KeyError`
      or the failure of the owner lookup; a cluster command acts in the
      recommended namespace. */
  function Dispatch(rec: Recommendation, ownersOf: (string, string) -> Result<seq<Owner>, string>): (r: Result<Command, Failure>)
    ensures r.Failure? ==> (r.error.MissingKey? && r.error.key in ["action", "pod", "namespace", "kind", "name"])
                           || (r.error.OwnerLookupFailed? && rec.action == Some("restart"))
    ensures r.Success? && r.value.TouchesCluster() ==> rec.namespace.Some? && r.value.namespace == rec.namespace.value
  {
    if rec.action.None? then Failure(MissingKey("action"))
    else if rec.pod.None? then Failure(MissingKey("pod"))
    else if rec.namespace.None? then Failure(MissingKey("namespace"))
    else
      var action, pod, ns := rec.action.value, rec.pod.value, rec.namespace.value;
      if action == "restart" then
        match ownersOf(pod, ns)
        case Failure(e) => Failure(OwnerLookupFailed(e))
        case Success(owners) => RestartCommand(owners, pod, ns)
      else if action == "revert_image" then Success(Advise(RevertImageAdvice))
      else if action == "increase_resources" then Success(Advise(IncreaseResourcesAdvice))
      else if action == "check_config" then Success(Advise(CheckConfigAdvice))
      else Success(NoOperation(action))
  }

  /** `take_action`: the owner loop returns at the first ReplicaSet. */
  method TakeAction(rec: Recommendation, ownersOf: (string, string) -> Result<seq<Owner>, string>)
    returns (r: Result<Command, Failure>)
    ensures r == Dispatch(rec, ownersOf)
  {
    if rec.action.None? {
      return Failure(MissingKey("action"));
    }
    if rec.pod.None? {
      return Failure(MissingKey("pod"));
    }
    if rec.namespace.None? {
      return Failure(MissingKey("namespace"));
    }
    var action, pod, ns := rec.action.value, rec.pod.value, rec.namespace.value;
    if action == "restart" {
      var lookup := ownersOf(pod, ns);
      if lookup.Failure? {
        return Failure(OwnerLookupFailed(lookup.error));
      }
      var owners := lookup.value;
      var i := 0;
      while i < |owners|
        invariant 0 <= i <= |owners|
        invariant RestartCommand(owners[i..], pod, ns) == RestartCommand(owners, pod, ns)
      {
        var owner := owners[i];
        if owner.kind.None? {
          return Failure(MissingKey("kind"));
        }
        if owner.kind.value == "ReplicaSet" {
          if owner.name.None? {
            return Failure(MissingKey("name"));
          }
          return Success(RolloutRestart(DeploymentName(owner.name.value), ns));
        }
        assert owners[i..][1..] == owners[i + 1..];
        i := i + 1;
      }
      return Success(DeletePod(pod, ns));
    } else if action == "revert_image" {
      return Success(Advise(RevertImageAdvice));
    } else if action == "increase_resources" {
      return Success(Advise(IncreaseResourcesAdvice));
    } else if action == "check_config" {
      return Success(Advise(CheckConfigAdvice));
    } else {
      return Success(NoOperation(action));
    }
  }

  /** `k` is the first ReplicaSet among the owners, and every owner before it
      has a `kind`. */
  predicate IsFirstReplicaSet(owners: seq<Owner>, k: int)
  {
    0 <= k < |owners| && owners[k].kind == Some("ReplicaSet")
    && forall j :: 0 <= j < k ==> owners[j].kind.Some? && owners[j].kind.value != "ReplicaSet"
  }

  /** A restart of a pod owned by a ReplicaSet restarts the deployment of the
      first ReplicaSet owner only, and deletes nothing. */
  lemma {:induction false} RestartUsesFirstReplicaSet(owners: seq<Owner>, pod: string, ns: string, k: int)
    requires IsFirstReplicaSet(owners, k) && owners[k].name.Some?
    ensures RestartCommand(owners, pod, ns) == Success(RolloutRestart(DeploymentName(owners[k].name.value), ns))
  {
    if k > 0 {
      assert IsFirstReplicaSet(owners[1..], k - 1) by {
        forall j | 0 <= j < k - 1
          ensures owners[1..][j].kind.Some? && owners[1..][j].kind.value != "ReplicaSet"
        {
          assert owners[1..][j] == owners[j + 1];
        }
      }
      RestartUsesFirstReplicaSet(owners[1..], pod, ns, k - 1);
    }
  }

  /** A restart of a pod with no ReplicaSet owner deletes the pod in its
      namespace. */
  lemma {:induction false} RestartWithoutReplicaSetDeletesPod(owners: seq<Owner>, pod: string, ns: string)
    requires forall j :: 0 <= j < |owners| ==> owners[j].kind.Some? && owners[j].kind.value != "ReplicaSet"
    ensures RestartCommand(owners, pod, ns) == Success(DeletePod(pod, ns))
  {
    if owners != [] {
      assert forall j :: 0 <= j < |owners[1..]| ==> owners[1..][j] == owners[j + 1];
      RestartWithoutReplicaSetDeletesPod(owners[1..], pod, ns);
    }
  }

  /** An owner the scan passes over: it has a `kind`, and not ReplicaSet. */
  predicate PassedOver(owner: Owner)
  {
    owner.kind.Some? && owner.kind.value != "ReplicaSet"
  }

  /** The scan stops with an error at owner `k`: every owner before it is
      passed over, and `k` lacks `kind` or is a ReplicaSet that lacks `name`. */
  predicate MalformedAt(owners: seq<Owner>, k: int)
  {
    0 <= k < |owners|
    && (forall j :: 0 <= j < k ==> PassedOver(owners[j]))
    && (owners[k].kind.None? || (owners[k].kind == Some("ReplicaSet") && owners[k].name.None?))
  }

  /** Past an owner that is passed over, the scan of the rest stops where
      the scan of the whole does, one place earlier. */
  lemma MalformedAtShift(owners: seq<Owner>, k: int)
    requires owners != [] && PassedOver(owners[0])
    ensures MalformedAt(owners, k + 1) <==> MalformedAt(owners[1..], k)
  {
    assert forall j :: 0 <= j < |owners| - 1 ==> owners[1..][j] == owners[j + 1];
  }

  /** The owner scan raises only on an owner entry that lacks `kind`, or on a
      first ReplicaSet entry that lacks `name`. */
  lemma {:induction false} RestartFailsOnlyOnMalformedOwner(owners: seq<Owner>, pod: string, ns: string)
    ensures RestartCommand(owners, pod, ns).Failure? <==> exists k :: MalformedAt(owners, k)
  {
    if owners != [] && PassedOver(owners[0]) {
      var rest := owners[1..];
      RestartFailsOnlyOnMalformedOwner(rest, pod, ns);
      if RestartCommand(rest, pod, ns).Failure? {
        var k :| MalformedAt(rest, k);
        MalformedAtShift(owners, k);
      } else if exists k :: MalformedAt(owners, k) {
        var k :| MalformedAt(owners, k);
        MalformedAtShift(owners, k - 1);
        assert false;
      }
    } else if owners != [] && RestartCommand(owners, pod, ns).Failure? {
      assert MalformedAt(owners, 0);
    }
  }

  /** Only "restart" may touch the cluster; the three advisory actions only
      print advice; any other action string is reported and nothing is done. */
  lemma DispatchByAction(rec: Recommendation, ownersOf: (string, string) -> Result<seq<Owner>, string>)
    ensures Dispatch(rec, ownersOf).Success? && Dispatch(rec, ownersOf).value.TouchesCluster() ==> rec.action == Some("restart")
    ensures rec.pod.Some? && rec.namespace.Some? && rec.action.Some?
            && rec.action.value in ["revert_image", "increase_resources", "check_config"] ==>
              Dispatch(rec, ownersOf).Success? && Dispatch(rec, ownersOf).value.Advise?
    ensures rec.pod.Some? && rec.namespace.Some? && rec.action.Some?
            && rec.action.value !in ["restart", "revert_image", "increase_resources", "check_config"] ==>
              Dispatch(rec, ownersOf) == Success(NoOperation(rec.action.value))
    ensures rec.action.None? ==> Dispatch(rec, ownersOf) == Failure(MissingKey("action"))
  {
    if Dispatch(rec, ownersOf).Success? && Dispatch(rec, ownersOf).value.TouchesCluster() && rec.action != Some("restart") {
      assert false;
    }
  }

  // ---------------------------------------------------------------------
  // main
  // ---------------------------------------------------------------------

  /** What becomes of one detected pod: the recommendation is fetched and
      acted on; whatever raises is caught and reported for that pod. */
  function HandlePod(
    ref: PodRef,
    responseOf: PodRef -> Reply,
    decode: string -> Result<Recommendation, string>,
    ownersOf: (string, string) -> Result<seq<Owner>, string>): Result<Command, Failure>
  {
    match QueryGemma(responseOf(ref), decode)
    case Failure(e) => Failure(e)
    case Success(rec) => Dispatch(rec, ownersOf)
  }

  /** A failed call is the pod's own failure; a command is only ever taken
      from a JSON object found in the model's answer, and "No valid JSON
      object" is reported exactly when the answer holds none. */
  lemma HandlePodOutcome(
    ref: PodRef,
    responseOf: PodRef -> Reply,
    decode: string -> Result<Recommendation, string>,
    ownersOf: (string, string) -> Result<seq<Owner>, string>)
    ensures var r := HandlePod(ref, responseOf, decode, ownersOf);
            (responseOf(ref).Failure? ==> r == Failure(RequestFailed(responseOf(ref).error)))
            && (r.Success? ==> responseOf(ref).Success? && HasBracePair(responseOf(ref).value.GetOr("")))
            && (r == Failure(NoJsonFound) <==> responseOf(ref).Success? && !HasBracePair(responseOf(ref).value.GetOr("")))
  {
  }

  /** The outcomes of handling the detected pods one after another. */
  function Outcomes(
    pods: seq<PodRef>,
    responseOf: PodRef -> Reply,
    decode: string -> Result<Recommendation, string>,
    ownersOf: (string, string) -> Result<seq<Owner>, string>): (r: seq<Result<Command, Failure>>)
    ensures |r| == |pods|
  {
    if pods == [] then []
    else Outcomes(pods[..|pods| - 1], responseOf, decode, ownersOf)
         + [HandlePod(pods[|pods| - 1], responseOf, decode, ownersOf)]
  }

  /** The outcome in place `k` is that of pod `k` alone: what the other pods
      raise does not reach it. */
  lemma {:induction false} OutcomeIsPodsOwn(
    pods: seq<PodRef>, k: nat,
    responseOf: PodRef -> Reply,
    decode: string -> Result<Recommendation, string>,
    ownersOf: (string, string) -> Result<seq<Owner>, string>)
    requires k < |pods|
    ensures Outcomes(pods, responseOf, decode, ownersOf)[k] == HandlePod(pods[k], responseOf, decode, ownersOf)
  {
    var init := pods[..|pods| - 1];
    var last := HandlePod(pods[|pods| - 1], responseOf, decode, ownersOf);
    assert Outcomes(pods, responseOf, decode, ownersOf) == Outcomes(init, responseOf, decode, ownersOf) + [last];
    if k < |init| {
      OutcomeIsPodsOwn(init, k, responseOf, decode, ownersOf);
      assert init[k] == pods[k];
    }
  }

  /** Handling one more pod appends its outcome. */
  lemma OutcomesGrow(
    pods: seq<PodRef>, i: nat,
    responseOf: PodRef -> Reply,
    decode: string -> Result<Recommendation, string>,
    ownersOf: (string, string) -> Result<seq<Owner>, string>)
    requires i < |pods|
    ensures Outcomes(pods[..i + 1], responseOf, decode, ownersOf)
         == Outcomes(pods[..i], responseOf, decode, ownersOf) + [HandlePod(pods[i], responseOf, decode, ownersOf)]
  {
    assert pods[..i + 1][..i] == pods[..i];
  }

  /** `main`: one outcome for every detected pod, in order; a failure for
      one pod does not stop the others.  A pod item without a name or
      namespace aborts the whole run before any pod is handled. */
  method ProcessFailedPods(
    items: seq<Pod>,
    responseOf: PodRef -> Reply,
    decode: string -> Result<Recommendation, string>,
    ownersOf: (string, string) -> Result<seq<Owner>, string>)
    returns (run: Result<seq<Result<Command, Failure>>, Failure>)
    ensures run.Success? <==> AllHaveIdentity(items)
    ensures run.Success? ==> run.value == Outcomes(Flagged(items), responseOf, decode, ownersOf)
    ensures run.Failure? ==> exists k :: FirstWithoutIdentity(items, k) && run.error == IdentityError(items[k])
  {
    var listed := GetFailedPods(items);
    if listed.Failure? {
      return Failure(listed.error);
    }
    var pods := listed.value;
    var outcomes: seq<Result<Command, Failure>> := [];
    var i := 0;
    while i < |pods|
      invariant 0 <= i <= |pods|
      invariant outcomes == Outcomes(pods[..i], responseOf, decode, ownersOf)
    {
      var outcome: Result<Command, Failure>;
      var query := QueryGemma(responseOf(pods[i]), decode);
      if query.Failure? {
        outcome := Failure(query.error);
      } else {
        outcome := TakeAction(query.value, ownersOf);
      }
      assert outcome == HandlePod(pods[i], responseOf, decode, ownersOf);
      OutcomesGrow(pods, i, responseOf, decode, ownersOf);
      outcomes := outcomes + [outcome];
      i := i + 1;
    }
    assert pods[..i] == pods;
    return Success(outcomes);
  }
}
