# Pod health monitors, modelled in Dafny

The repository holds four Python scripts that watch a Kubernetes cluster.
Each one lists the pods, decides which are unhealthy, gathers what kubectl
says about them, and asks a local language model (Ollama, `gemma:2b`) what
went wrong. Three of them fetch a pod's logs and its description;
`trial_1.py` fetches the logs only.

- `main.py` also asks the model for a JSON recommendation, cuts the JSON
  object out of the answer and acts on it: it restarts the owning
  deployment, deletes the pod, or prints advice.
- `trial_1.py` runs this in a loop. It saves the logs and the analysis and
  prints a short form of the analysis.
- `claude_code.py` runs the same kind of loop with an offline mode, in which
  no analysis is requested.
- `k8s_log_checker.py` makes one pass. It matches statuses against a fixed
  error list and prints the first ten lines of each flagged pod's logs.

Each script has its own health classifier, and the classifiers disagree. The
model keeps one Dafny predicate per script and proves how they relate.

## Layout

- `maybe.dfy`: `Option` and `Result`.
- `text.dfy` (module `Text`): the Python string operations the scripts use:
  - slicing (`s[:n]`) and the `s[:n] + "..."` display cut;
  - `split` and `join`;
  - `splitlines`, with all of its line boundaries;
  - `strip`, with the characters `isspace` accepts;
  - `lower` on ASCII;
  - `str(int)`.
- `pod.dfy` (module `PodRecord`): the pod JSON as datatypes.
  - Every key is an `Option`: `None` means the key is absent.
  - A present `waiting` or `terminated` record may be empty. This keeps "key
    present" (`"waiting" in state`) apart from Python truthiness
    (`state.get("waiting")`).
- `status_detail.dfy` (module `StatusDetails`): the status summary. The last
  waiting or terminated container wins. Both scripts' loops are proved
  against this one definition.
- `main_py.dfy` (module `MainScript`), `trial_one.dfy` (module `TrialOne`),
  `claude_code.dfy` (module `ClaudeCode`) and `log_checker.dfy` (module
  `LogChecker`): one module per script.
- `classifiers.dfy` (module `Classifiers`): how the four classifiers relate,
  with one concrete pod for each disagreement.

kubectl, the HTTP calls and the model's answers become parameters of the
model: functions from a pod's name and namespace, or from a prompt, to what
the outside world answered. The loops that build a result or change state
step by step are methods with loop invariants: the scans, the status
summary loops, `get_failed_pods`, the owner loop of `take_action`, the
error search of `k8s_log_checker.py` and its `main`. Each of them is proved
equal to a specification function, recursive where the result is built
item by item (`LogChecker.FoundError` is proved equal to the predicate
`HasErrorStatus`), and the properties are proved as lemmas about those
functions. The classifiers' condition and container loops, which only
return `True` at the first match, are `exists` quantifiers.
`OFFLINE_MODE`, the one global the scripts change, is the field of the
`ClaudeCode.Monitor` class.

### How the scripts differ

- **The container rule.** Only `trial_1.py` lets a terminated container flag
  its pod only when the exit code is nonzero.
  - `claude_code.py` flags any terminated container.
  - `main.py` flags any non-empty terminated record, in every phase.
  - `Classifiers.CleanExitSplitsClassifiers` shows a pod on which the
    scripts disagree.
- **JSON extraction.** `main.py` searches the answer with the greedy `{.*}`
  and DOTALL, so the match runs from the first `{` to the last `}`, whether
  or not the braces between them balance. `MainScript.ExtractJson` models
  this greedy match.
- **Failures.** None of the scripts retries a failed call or remembers a pod
  between passes. `main.py` catches what one pod's handling raises and goes
  on with the next pod. `k8s_log_checker.py` catches nothing in `main`, so a
  missing key or a failed request ends its run.

## Model

| member | source | states |
|---|---|---|
| MainScript.ClassifierRules | main.py:6-30 | Failed or Unknown is unhealthy; Pending with a PodScheduled=False condition is unhealthy; any flagging container makes the pod unhealthy in any phase; outside those phases only a flagging container does |
| MainScript.ContainerRuleLimits | main.py:19-28 | a container without `ready` never flags; a waiting reason outside CrashLoopBackOff/ErrImagePull/ImagePullBackOff/RunContainerError without a terminated record never flags |
| MainScript.GetFailedPods | main.py:32-50 | succeeds exactly when every item has a name and namespace, and then returns the flagged items' `{name, namespace}` in input order; otherwise fails with the KeyError of the first item lacking one, all items before it having both |
| MainScript.FlaggedMembers | main.py:40-48 | a pod is listed exactly when some unhealthy item carries its name and namespace |
| MainScript.FlaggedAppend | main.py:40-48 | the listing preserves order: listing two batches in turn gives the two listings in turn |
| MainScript.ExtractJson | main.py:96-97 | a match exists exactly when a `}` follows some `{`; it starts with `{` and ends with `}` |
| MainScript.ExtractIsLeftmostLongest | main.py:96 | the match is a contiguous slice starting at the first `{`, with no `{` before it and no `}` after it |
| MainScript.MatchIsUnique | main.py:96 | at most one slice satisfies the leftmost-longest description, so it pins the match down |
| MainScript.ExtractInside | main.py:96 | searching only a stretch of the text that still holds the first `{` and the last `}` extracts the same object |
| MainScript.ExtractIgnoresBraceFreeEdges | main.py:95-96 | removing brace-free text from either end does not change the extracted object |
| MainScript.ExtractAfterStrip | main.py:95-96 | the `.strip()` before the search does not change what is extracted |
| MainScript.QueryGemma | main.py:92-103 | a failed HTTP call or `.json()` raises its own error; "No valid JSON object found" is raised exactly when the call succeeded and the answer (missing reads as "") has no `{`…`}` pair; otherwise the result is the decode of the extracted object, or "Failed to parse JSON" with the decoder's message |
| MainScript.DeploymentNameDropsLastSegment | main.py:127 | a ReplicaSet name without `-` gives ""; otherwise the name is the deployment name, `-`, and a last segment without `-` |
| MainScript.DeploymentNameBeforeLastDash | main.py:127 | the deployment name is the text before the last `-` |
| MainScript.DeploymentNameExample | main.py:127 | the ReplicaSet name `myapp-7d9f8c6b5` gives the deployment `myapp` |
| MainScript.TakeAction | main.py:105-142 | the owner loop with its early return computes the same command as the dispatch specification, including every KeyError it raises |
| MainScript.RestartCommand | main.py:124-133 | a restart either rolls out a deployment or deletes the pod itself, always in the pod's namespace; it fails only with the KeyError of a missing `kind` or `name` |
| MainScript.Dispatch | main.py:105-142 | `take_action` fails only with the KeyError of one of `action`, `pod`, `namespace`, `kind`, `name`, or, for "restart", with the failed owner lookup; a command that touches the cluster acts in the recommended namespace |
| MainScript.RestartUsesFirstReplicaSet | main.py:116-130 | for "restart", the first ReplicaSet owner's deployment is restarted and no pod is deleted |
| MainScript.RestartWithoutReplicaSetDeletesPod | main.py:124-133 | for "restart" with no ReplicaSet owner, the pod is deleted in its namespace |
| MainScript.RestartFailsOnlyOnMalformedOwner | main.py:124-126 | the owner scan raises exactly when an owner before the first ReplicaSet lacks `kind`, or that ReplicaSet lacks `name` |
| MainScript.DispatchByAction | main.py:105-142 | only "restart" can restart or delete; the three advisory actions only advise; any other action is a no-op; a missing `action` raises KeyError |
| MainScript.Outcomes | main.py:146-153 | one outcome per detected pod |
| MainScript.OutcomeIsPodsOwn | main.py:146-153 | the k-th outcome is the k-th pod's own query-and-act result, whatever the other pods' outcomes |
| MainScript.HandlePodOutcome | main.py:92-153 | a failed call is caught as that pod's error; a command is acted on only when the call succeeded and its answer holds a `{`…`}` pair; "No valid JSON object" is that pod's outcome exactly when the call succeeded with no such pair |
| MainScript.ProcessFailedPods | main.py:144-153 | the run aborts exactly when an item lacks a name or namespace, with the KeyError of the first such item; otherwise the outcomes are those of the listed pods in order, each the pod's own query-and-act result, so one pod's failure leaves the others' outcomes unaffected |
| StatusDetails.ContainerDetail | trial_1.py:202-210 | a container contributes a summary exactly when its state has `waiting` or `terminated`, and `waiting` takes precedence |
| StatusDetails.LastDetailWins | trial_1.py:199-210 | the summary is "Unknown" exactly when no container is waiting or terminated; otherwise it comes from the last such container |
| StatusDetails.RenderKeepsKind | trial_1.py:206-210 | the rendered summary starts with "Waiting: " or "Terminated: ", or is "Unknown", according to its kind |
| TrialOne.PhaseRules | trial_1.py:58-88 | no status is healthy; Failed/Unknown are unhealthy; Pending is unhealthy iff unscheduled; phases other than these and Running are healthy |
| TrialOne.ContainerRules | trial_1.py:79-86 | a missing `ready` never flags; a `waiting` key flags; a terminated state with exit code 0 or none does not flag |
| TrialOne.StatusDetailsOf | trial_1.py:199-210 | the loop that overwrites `status_details` computes the last-container-wins summary |
| TrialOne.ScanOnce | trial_1.py:179-196 | `unhealthy_pods_found` ends true exactly when some pod is unhealthy; the reports are the specified ones, in pod order |
| TrialOne.AnyUnhealthyMeansSome | trial_1.py:179-189 | the flag the scan raises pod by pod is set exactly when some pod is unhealthy by `trial_1.py`'s classifier (the same statement as for `claude_code.py`, with a different classifier) |
| TrialOne.ReportsAreOfUnhealthyPodsWithLogs | trial_1.py:188-233 | every report is for an unhealthy pod whose fetched logs are non-empty, and carries that pod's info and logs; its prompt is exactly that info with `logs[:4000]`; the analysis is the model's answer to that prompt; the shown analysis is `analysis[:500] + "..."` beyond 500 characters and the whole text otherwise |
| TrialOne.UnhealthyPodWithLogsIsReported | trial_1.py:188-196 | the converse: every unhealthy pod whose logs are non-empty gives exactly one report, and it is among the scan's reports |
| TrialOne.ReportsOfOnePod | trial_1.py:188-196 | a pod gives at most one report, and one exactly when it is unhealthy with non-empty logs |
| TrialOne.ReportsAppend | trial_1.py:181-196 | scanning two batches in turn gives the first batch's reports, then the second's: reports keep pod order |
| TrialOne.PodWithoutLogsIsSkipped | trial_1.py:193-196 | an unhealthy pod whose logs are missing or empty yields no analysis and no report |
| TrialOne.AnalysisSeesOnlyLogHead | trial_1.py:109 | two logs that agree in their first 4000 characters get the same analysis |
| ClaudeCode.PhaseRules | claude_code.py:50-68 | a missing status is healthy; Failed/Unknown are unhealthy; Pending is unhealthy iff unscheduled; other phases than Running are healthy |
| ClaudeCode.ContainerRules | claude_code.py:62-67 | a missing `ready` never flags; a not-ready container flags iff its state has `waiting` or `terminated`, exit code 0 included |
| ClaudeCode.OrSentinel | claude_code.py:180-181 | `fetched or sentinel` is never empty when the sentinel is not, and is either the sentinel or exactly what kubectl answered |
| ClaudeCode.Excerpt | claude_code.py:108-109 | the sentinel for empty text, otherwise a prefix of exactly min(length, 2000) characters |
| ClaudeCode.FetchedExcerpt | claude_code.py:108-109 | what reaches the prompt is the sentinel or a non-empty prefix of the fetched text of at most 2000 characters |
| ClaudeCode.AnalyzeWithOllama | claude_code.py:101-152 | offline sends no request and returns the fixed offline text; online sends exactly one prompt with the two excerpts, and returns the model's answer |
| ClaudeCode.GateDecidesRequest | claude_code.py:202-205 | a request is sent exactly when online with a ready server; otherwise the text is the manual-review message, and the offline text can only come from the model itself |
| ClaudeCode.StatusDetailsOf | claude_code.py:183-194 | the loop (missing `state` read as `{}`) computes the same last-container-wins summary |
| ClaudeCode.ReportsAreOfUnhealthyPods | claude_code.py:170-216 | a report is printed exactly when it is the report of some unhealthy pod of the scan: that pod's info, kubectl's logs and description or the sentinels, the gated analysis for that pod, and the logs cut for display |
| ClaudeCode.ReportsOfOnePod | claude_code.py:176-216 | a pod gives one report when it is unhealthy and none otherwise |
| ClaudeCode.ReportsAppend | claude_code.py:170-216 | scanning two batches in turn gives the first batch's reports, then the second's: reports keep pod order |
| ClaudeCode.ReportsFollowUnhealthyPods | claude_code.py:170-216 | never more reports than pods, exactly one per pod when all are unhealthy; logs and description are never empty; the shown logs are the whole logs up to 500 characters, else the first 500 plus "..."; offline every analysis is the manual-review message |
| ClaudeCode.Monitor.constructor | claude_code.py:21 | the monitor starts online |
| ClaudeCode.Monitor.Start | claude_code.py:159-162 | the monitor goes offline when the status check fails and the answer lower-cases to "offline", and stays offline once it is |
| ClaudeCode.Monitor.ScanOnce | claude_code.py:166-216 | `unhealthy_found` ends true exactly when some pod is unhealthy; the reports are the specified ones, in pod order |
| ClaudeCode.AnyUnhealthyMeansSome | claude_code.py:168-177 | the flag the scan raises pod by pod is set exactly when some pod is unhealthy by `claude_code.py`'s classifier |
| ClaudeCode.AnswersThatSwitchOffline | claude_code.py:160 | an answer lower-cases to "offline" exactly when it is the seven letters of "offline", each in either case |
| ClaudeCode.OfflineAnswers | claude_code.py:160 | "OFFLINE" and "Offline" switch offline; "offline " and "yes" do not |
| LogChecker.FoundError | k8s_log_checker.py:71-89 | the nested loops, whose `break` leaves only the inner loop, end with `found_error` equal to the error-status check over phase, reason, containers and init containers |
| LogChecker.PendingIsAlwaysFlagged | k8s_log_checker.py:6-8 | every Pending pod is flagged, whatever its conditions |
| LogChecker.WaitingIsTheOnlyContainerSignal | k8s_log_checker.py:81-89 | without waiting containers only phase and reason decide, so terminated containers never flag; phase Unknown alone never flags |
| LogChecker.WaitingReasonDecides | k8s_log_checker.py:86-87 | a container flags exactly when its waiting record has a reason in the error list |
| LogChecker.HeadOfNewlineLog | k8s_log_checker.py:60 | for a log using `\n` only, the ten-line head is a prefix of it, and a log of at most ten lines without a final newline is returned whole |
| LogChecker.HeadHoldsFirstLines | k8s_log_checker.py:60 | the head's lines are the first min(10, n) lines of the log, in order, when the last line kept is not empty |
| LogChecker.HeadHasOnlyNewlines | k8s_log_checker.py:60 | the head contains no line boundary other than the `\n` that joins its lines |
| LogChecker.PrintLog | k8s_log_checker.py:56-62 | a failed run gives the same "Error fetching logs: " message as `get_pod_logs` |
| LogChecker.PrintLogShowsStartOfLogs | k8s_log_checker.py:56-62 | what `print_log` shows of a `\n`-only log is a prefix of what `get_pod_logs` returns |
| LogChecker.MissingKey | k8s_log_checker.py:67-69 | no KeyError exactly when the item has a status, a metadata record, a name and a namespace |
| LogChecker.CrashOf | k8s_log_checker.py:48-99 | an item ends the run with the KeyError of its first missing key; otherwise a flagged item whose request to the model fails ends it with that failure; any other item lets the run go on |
| LogChecker.FirstCrash | k8s_log_checker.py:66-99 | the first item that ends the run: no item before it does, and it does |
| LogChecker.Run | k8s_log_checker.py:64-99 | the findings of the items before the first crashing one, in order, then that item's exception (a KeyError or a failed request), and no exception exactly when no item crashes |
| LogChecker.FindingsAreFlaggedPods | k8s_log_checker.py:91-99 | in a run that does not crash, a finding is reported exactly for each item whose status is flagged |
| Classifiers.TrialImpliesClaude | trial_1.py:58-88 | every pod trial_1.py flags, claude_code.py flags |
| Classifiers.CleanExitSplitsClassifiers | claude_code.py:62-67 | a Running pod with a not-ready container that exited with code 0 is flagged by claude_code.py and main.py, not by trial_1.py or the log checker |
| Classifiers.MainImpliesClaudeOutsidePending | main.py:19-28 | in phases Running, Failed and Unknown, every pod main.py flags claude_code.py flags |
| Classifiers.PendingCrashSplitsClassifiers | main.py:19-28 | a scheduled Pending pod with a crashing container is flagged by main.py and the log checker, not by the Running-only scripts |
| Classifiers.WaitingReasonSplitsClassifiers | trial_1.py:81-82 | a ContainerCreating wait flags in trial_1.py and claude_code.py, not in main.py or the log checker |
| Classifiers.UnknownPhaseSplitsClassifiers | k8s_log_checker.py:81 | phase Unknown with nothing else is flagged by the three other scripts, not by the log checker |
| Text.Take | trial_1.py:109 | `s[:n]`: a prefix of length min(len(s), n) |
| Text.Ellipsize | trial_1.py:233 | `s[:n] + "..." if len(s) > n else s`: the whole text up to n characters, at most n + 3 characters, and starts with `s[:n]` |
| Text.EllipsizeShape | claude_code.py:212 | the result is the text, or its first n characters followed by exactly "..." |
| Text.Split | main.py:127 | `split("-")`: at least one piece |
| Text.SplitPieces | main.py:127 | exactly one piece iff the text has no `-`, and no piece contains `-` |
| Text.JoinSplit | main.py:127 | joining the pieces of a split with the separator gives the text back |
| Text.SplitLines | k8s_log_checker.py:60 | `splitlines()` gives no lines exactly for the empty text |
| Text.SplitLinesHaveNoBreaks | k8s_log_checker.py:60 | no line contains a line boundary |
| Text.JoinSplitLines | k8s_log_checker.py:60 | for a `\n`-only text without a final newline, joining its lines with `\n` gives it back |
| Text.SplitJoinLines | k8s_log_checker.py:60 | lines without boundaries, the last not empty, joined with `\n` split back into the same lines |
| Text.FirstLinesArePrefix | k8s_log_checker.py:60 | for a `\n`-only text, its first n lines joined with `\n` are a prefix of it |
| Text.Strip | main.py:95 | `strip()`: the result is a slice of the text with only white space before and after it, and it neither starts nor ends with white space |
| Text.IntToString | trial_1.py:209-210 | `str(exit_code)`: non-empty, starting with `-` exactly for negatives |
| Text.NatToStringRoundTrip | trial_1.py:209-210 | the decimal digits read back as the number |

## Left out

- kubectl is not modelled. Logs, descriptions, owner references and the
  pod list are inputs.
  - `LogChecker.Run` reads both `print_log` and `get_pod_logs` from one
    `logsOf` answer per pod, although the script runs `kubectl logs` twice.
- The HTTP calls to Ollama are not modelled as network traffic. What each
  call gives back is a parameter, and its failures are part of that answer:
  - `main.py`: `responseOf` answers either the `response` field or the
    error that `requests.post` or `.json()` raised. `MainScript.HandlePod`
    turns that error into the pod's own outcome, as the `except` around
    `query_gemma` does.
  - `k8s_log_checker.py`: `gemma` answers the model's text or the error
    `send_to_gemma` raised. `LogChecker.Run` ends with that error, since
    `main` does not catch it.
  - `trial_1.py` and `claude_code.py` catch their request errors inside
    `analyze_with_ollama` and return a text. The `analyst` and `ollama`
    parameters answer that text, error texts included.
  - `ClaudeCode.GatedAnalysis` and `ClaudeCode.Monitor.ScanOnce` read
    `check_ollama_status` as the `serverReady` parameter.
- LogChecker.Run: what `main` prints for a flagged item before its request
  fails (the banner and the ten-line head) is not part of its result. Only
  the findings of completed items and the exception are.
- `json.loads` is an opaque, possibly failing `decode` parameter. JSON
  `null` values are not modelled: a key is either absent or holds a value
  of the expected type.
- The exact prompt texts are not modelled. Prompts are the records of what
  they are built from. In `trial_1.py:109` the prompt also carries the text
  of a `#` comment, because the comment sits inside the f-string.
- Not modelled, because they decide nothing:
  - logging and `print` formatting (banners, emojis);
  - the files and timestamps `save_analysis` writes;
  - `time.sleep`;
  - the endless `while True` loops, of which one pass is modelled
    (`ScanOnce`);
  - `KeyboardInterrupt`;
  - the scan-wide `except Exception` in the two loops.
- The interactive `input()` is not modelled. The answer is a parameter of
  `ClaudeCode.Monitor.Start`.
- UTF-8 decoding of kubectl output in `k8s_log_checker.py` is not modelled.
  Output is text, so a decode error, which would be raised, is not covered.
- `pods["items"]` is an input. A missing `items` key in `main.py` and
  `k8s_log_checker.py` is not modelled.
- Text.AsciiLower: lowers only A to Z, where Python's `lower()` covers all
  of Unicode. For comparison against "offline" the two agree, since no
  other character lower-cases to a single one of its letters.
- LogChecker.HeadOfNewlineLog: the prefix property is stated for logs whose
  only line boundary is `\n`. With `\r\n` or other boundaries, the joined
  head is not a prefix of the log.
- LogChecker.HeadHoldsFirstLines: requires the last kept line to be
  non-empty. `"\n".join` cannot show a trailing empty line, so without it
  the head splits into one line fewer.
