/**
 * The Lambda function that starts the training pipeline when new data is
 * uploaded. `IsPipelineRunning` is the best-effort deduplication check (scan
 * the five newest executions for an active one, report "not running" on any
 * error); `Handler` validates its inputs, skips when the check says running,
 * and otherwise sends exactly one start request. The environment variable
 * PIPELINE_NAME and the clock are inputs; the SageMaker client is the stub of
 * module SageMaker.
 */
module PipelineTrigger {
  import opened Wrappers
  import opened Json
  import opened SageMaker
  import opened ExecutionName

  const ACTIVE_STATUSES: set<string> := {"Executing", "Stopping"}
  const MAX_RESULTS: nat := 5

  const CONFIG_ERROR: string := "PIPELINE_NAME environment variable not set"
  const INVALID_EVENT_PREFIX: string := "Invalid event structure: "
  const START_ERROR_PREFIX: string := "Error starting pipelinel: "
  const SKIPPED_MESSAGE: string := "Skipped - pipeline already executing"
  const STARTED_MESSAGE: string := "Pipeline execution started"
  const PIPELINE_PARAMETERS: seq<Parameter> := [Parameter("InstanceType", "ml.m5.large")]

  /** The list query: newest first by creation time, at most five results. */
  function ListRequestFor(pipelineName: string): ListRequest {
    ListRequest(pipelineName, "CreationTime", "Descending", MAX_RESULTS)
  }

  /** A missing status reads as "", which is not active. */
  predicate IsActive(e: ExecutionSummary) {
    e.status.GetOr("") in ACTIVE_STATUSES
  }

  /** The position the scan stops at: the first active summary, if any. */
  function FirstActive(summaries: seq<ExecutionSummary>): (r: Option<nat>)
    ensures r.Some? ==> r.value < |summaries| && IsActive(summaries[r.value])
    ensures r.Some? ==> forall j :: 0 <= j < r.value ==> !IsActive(summaries[j])
    ensures r.None? <==> forall j :: 0 <= j < |summaries| ==> !IsActive(summaries[j])
  {
    if summaries == [] then None
    else if IsActive(summaries[0]) then Some(0)
    else match FirstActive(summaries[1..])
      case None => None
      case Some(k) => Some(k + 1)
  }

  /**
   * The answer of the check for a given list reply. A failed list call, and a
   * first active summary without `PipelineExecutionArn` (whose log line raises
   * KeyError), are both caught and answered with "not running".
   */
  function RunningVerdict(reply: ListReply): bool {
    match reply
    case ListFailed(_) => false
    case Listed(summaries) =>
      match FirstActive(summaries)
      case None => false
      case Some(k) => summaries[k].arn.Some?
  }

  /** The verdict the check reaches against a service holding `executions`. */
  function RunningAgainst(executions: seq<ExecutionSummary>, listFailure: Option<PyError>, pipelineName: string): bool {
    RunningVerdict(ListReplyOf(executions, listFailure, ListRequestFor(pipelineName)))
  }

  method IsPipelineRunning(client: SageMakerStub, pipelineName: string) returns (running: bool)
    modifies client
    ensures client.lists == old(client.lists) + [ListRequestFor(pipelineName)]
    ensures client.executions == old(client.executions) && client.listFailure == old(client.listFailure)
    ensures client.startReply == old(client.startReply) && client.starts == old(client.starts)
    ensures running == RunningAgainst(client.executions, client.listFailure, pipelineName)
    ensures running ==> client.listFailure.None?
    ensures running ==> exists k :: 0 <= k < |client.executions| && k < MAX_RESULTS && IsActive(client.executions[k])
  {
    var reply := client.ListPipelineExecutions(ListRequestFor(pipelineName));
    if reply.ListFailed? {
      return false;
    }
    var summaries := reply.summaries;
    var i := 0;
    while i < |summaries|
      invariant 0 <= i <= |summaries|
      invariant forall j :: 0 <= j < i ==> !IsActive(summaries[j])
    {
      if IsActive(summaries[i]) {
        // the log line subscripts PipelineExecutionArn; a KeyError there is caught
        return summaries[i].arn.Some?;
      }
      i := i + 1;
    }
    return false;
  }

  datatype Body =
    | ErrorBody(error: string)
    /** the skipped and the started answers; only the latter carries an ARN */
    | TriggerBody(message: string, pipelineName: string, executionArn: Option<string>, bucket: Json, key: Json)

  datatype Response = Response(statusCode: int, body: Body)

  /** What one invocation answers, and the list and start requests it sends, if any. */
  datatype Decision = Decision(response: Response, query: Option<ListRequest>, start: Option<StartRequest>)

  /** The two except clauses: KeyError is a malformed event (400), anything else 500. */
  function ErrorResponse(e: PyError): (r: Response)
    ensures r.statusCode == 400 <==> e.KeyError?
    ensures r.statusCode == 500 <==> !e.KeyError?
  {
    match e
    case KeyError(_) => Response(400, ErrorBody(INVALID_EVENT_PREFIX + ErrorText(e)))
    case _ => Response(500, ErrorBody(START_ERROR_PREFIX + ErrorText(e)))
  }

  /** `event['detail']['bucket']['name']` and `event['detail']['object']['key']` both exist. */
  predicate WellFormedEvent(event: Json) {
    && event.JObject? && "detail" in event.fields
    && event.fields["detail"].JObject?
    && "bucket" in event.fields["detail"].fields && "object" in event.fields["detail"].fields
    && event.fields["detail"].fields["bucket"].JObject?
    && "name" in event.fields["detail"].fields["bucket"].fields
    && event.fields["detail"].fields["object"].JObject?
    && "key" in event.fields["detail"].fields["object"].fields
  }

  /**
   * Every value the reads subscript is a dict: the event, its `detail`, and
   * `detail.bucket` and `detail.object` where present. Then a failed read can
   * only be a missing key.
   */
  predicate DictsOnPath(event: Json) {
    && event.JObject?
    && ("detail" in event.fields ==>
          && event.fields["detail"].JObject?
          && ("bucket" in event.fields["detail"].fields ==> event.fields["detail"].fields["bucket"].JObject?)
          && ("object" in event.fields["detail"].fields ==> event.fields["detail"].fields["object"].JObject?))
  }

  /** Reads the bucket name, then the object key, raising as Python would. */
  function ExtractTrigger(event: Json): (r: Result<(Json, Json), PyError>)
    ensures r.Success? <==> WellFormedEvent(event)
    ensures r.Success? ==> r.value == (event.fields["detail"].fields["bucket"].fields["name"],
                                       event.fields["detail"].fields["object"].fields["key"])
    ensures r.Failure? ==> r.error in {KeyError("detail"), KeyError("bucket"), KeyError("name"),
                                       KeyError("object"), KeyError("key"), TypeError}
    ensures r.Failure? && DictsOnPath(event) ==> r.error.KeyError?
    ensures r == Failure(KeyError("detail")) <==> event.JObject? && "detail" !in event.fields
    ensures r == Failure(TypeError) ==> !DictsOnPath(event)
  {
    var detail :- Subscript(event, "detail");
    var bucket :- Subscript(detail, "bucket");
    var name :- Subscript(bucket, "name");
    var obj :- Subscript(detail, "object");
    var key :- Subscript(obj, "key");
    Success((name, key))
  }

  /** The request sent to `start_pipeline_execution`. */
  function StartRequestFor(pipelineName: string, bucket: Json, key: Json, now: DateTime): StartRequest
    requires ValidClock(now)
  {
    StartRequest(pipelineName, DisplayName(now), UploadDescription(bucket, key), PIPELINE_PARAMETERS)
  }

  /** PIPELINE_NAME unset or empty */
  predicate MissingName(pipelineNameEnv: Option<string>) {
    pipelineNameEnv.None? || pipelineNameEnv.value == ""
  }

  /** The response to a start, given the service's reply. */
  function StartResponse(pipelineName: string, bucket: Json, key: Json, reply: StartReply): Response {
    match reply
    case StartFailed(e) => ErrorResponse(e)
    case StartReplied(arn, arnInResponse) =>
      if arnInResponse then Response(200, TriggerBody(STARTED_MESSAGE, pipelineName, Some(arn), bucket, key))
      else ErrorResponse(KeyError("PipelineExecutionArn"))
  }

  /**
   * The whole decision of one invocation against a service holding
   * `executions`, whose list call raises `listFailure` if present and whose
   * start call answers `startReply`.
   */
  function HandlerSpec(pipelineNameEnv: Option<string>, event: Json, executions: seq<ExecutionSummary>,
                       listFailure: Option<PyError>, startReply: StartReply, now: DateTime): (d: Decision)
    requires ValidClock(now)
    ensures d.response.statusCode in {200, 400, 500}
    ensures d.query.Some? <==> !MissingName(pipelineNameEnv) && WellFormedEvent(event)
    ensures d.query.Some? ==> d.query.value == ListRequestFor(pipelineNameEnv.value)
    ensures d.start.Some? <==> && !MissingName(pipelineNameEnv) && WellFormedEvent(event)
                               && !RunningAgainst(executions, listFailure, pipelineNameEnv.value)
    ensures d.start.Some? ==> d.start.value.pipelineName == pipelineNameEnv.value
                              && d.start.value.displayName == DisplayName(now)
                              && d.start.value.parameters == PIPELINE_PARAMETERS
  {
    if MissingName(pipelineNameEnv) then
      Decision(Response(500, ErrorBody(CONFIG_ERROR)), None, None)
    else
      var name := pipelineNameEnv.value;
      match ExtractTrigger(event)
      case Failure(e) => Decision(ErrorResponse(e), None, None)
      case Success((bucket, key)) =>
        var query := Some(ListRequestFor(name));
        if RunningAgainst(executions, listFailure, name) then
          Decision(Response(200, TriggerBody(SKIPPED_MESSAGE, name, None, bucket, key)), query, None)
        else
          Decision(StartResponse(name, bucket, key, startReply), query, Some(StartRequestFor(name, bucket, key, now)))
  }

  /** `handler(event, context)`: the service is contacted through `client` only. */
  method Handler(pipelineNameEnv: Option<string>, event: Json, client: SageMakerStub, now: DateTime)
    returns (response: Response)
    requires ValidClock(now)
    modifies client
    ensures var d := HandlerSpec(pipelineNameEnv, event, old(client.executions), old(client.listFailure),
                                 old(client.startReply), now);
            && response == d.response
            && client.lists == old(client.lists) + (if d.query.Some? then [d.query.value] else [])
            && client.starts == old(client.starts) + (if d.start.Some? then [d.start.value] else [])
            && client.executions == (if d.start.Some? then AfterStart(old(client.executions), old(client.startReply))
                                     else old(client.executions))
    ensures client.listFailure == old(client.listFailure) && client.startReply == old(client.startReply)
  {
    if MissingName(pipelineNameEnv) {
      return Response(500, ErrorBody(CONFIG_ERROR));
    }
    var name := pipelineNameEnv.value;
    var extracted := ExtractTrigger(event);
    if extracted.Failure? {
      return ErrorResponse(extracted.error);
    }
    var (bucket, key) := extracted.value;
    var running := IsPipelineRunning(client, name);
    if running {
      return Response(200, TriggerBody(SKIPPED_MESSAGE, name, None, bucket, key));
    }
    var reply := client.StartPipelineExecution(StartRequestFor(name, bucket, key, now));
    response := StartResponse(name, bucket, key, reply);
  }

  // ---------------------------------------------------------------------------
  // The deduplication check

  /** Succeeded, Failed, Stopped and a missing status never count as active. */
  lemma TerminalStatusesInactive(e: ExecutionSummary)
    requires e.status in {None, Some("Succeeded"), Some("Failed"), Some("Stopped")}
    ensures !IsActive(e)
  {
  }

  /** With every ARN present, the check says running iff one of the five newest is active. */
  lemma RunningIffActiveInWindow(executions: seq<ExecutionSummary>, pipelineName: string)
    requires forall k :: 0 <= k < |executions| ==> executions[k].arn.Some?
    ensures RunningAgainst(executions, None, pipelineName)
            <==> exists k :: 0 <= k < |executions| && k < MAX_RESULTS && IsActive(executions[k])
  {
    var window := Take(executions, MAX_RESULTS);
    if exists k :: 0 <= k < |executions| && k < MAX_RESULTS && IsActive(executions[k]) {
      var k :| 0 <= k < |executions| && k < MAX_RESULTS && IsActive(executions[k]);
      assert IsActive(window[k]);
    }
  }

  /** An active execution older than the five newest is not seen. */
  lemma ActiveBeyondWindowUnseen(executions: seq<ExecutionSummary>, pipelineName: string)
    requires forall k :: 0 <= k < |executions| && k < MAX_RESULTS ==> !IsActive(executions[k])
    ensures !RunningAgainst(executions, None, pipelineName)
  {
    var window := Take(executions, MAX_RESULTS);
    assert forall j :: 0 <= j < |window| ==> !IsActive(window[j]);
  }

  /** Five finished executions hide a sixth, older one that is still executing. */
  lemma SixthActiveExecutionUnseen(pipelineName: string)
    ensures var done := ExecutionSummary(Some("Succeeded"), Some("arn-done"));
            var executions := [done, done, done, done, done, ExecutionSummary(Some("Executing"), Some("arn-old"))];
            !RunningAgainst(executions, None, pipelineName)
  {
    var done := ExecutionSummary(Some("Succeeded"), Some("arn-done"));
    var executions := [done, done, done, done, done, ExecutionSummary(Some("Executing"), Some("arn-old"))];
    ActiveBeyondWindowUnseen(executions, pipelineName);
  }

  /** Fail-open: a list call that raises makes the check answer "not running". */
  lemma ListFailureFailsOpen(executions: seq<ExecutionSummary>, e: PyError, pipelineName: string)
    ensures !RunningAgainst(executions, Some(e), pipelineName)
  {
  }

  /**
   * Fail-open: when the newest active execution has no ARN the check answers
   * "not running", however many active executions follow it.
   */
  lemma MissingArnFailsOpen(executions: seq<ExecutionSummary>, i: nat, pipelineName: string)
    requires i < |executions| && i < MAX_RESULTS
    requires IsActive(executions[i]) && executions[i].arn.None?
    requires forall j :: 0 <= j < i ==> !IsActive(executions[j])
    ensures !RunningAgainst(executions, None, pipelineName)
  {
    var window := Take(executions, MAX_RESULTS);
    assert window[i] == executions[i];
    assert FirstActive(window) == Some(i);
  }

  // ---------------------------------------------------------------------------
  // The handler

  /** An unset or empty PIPELINE_NAME is answered with 500 before the event is read or the service contacted. */
  lemma MissingNameAnswered500(pipelineNameEnv: Option<string>, event: Json, executions: seq<ExecutionSummary>,
                               listFailure: Option<PyError>, startReply: StartReply, now: DateTime)
    requires ValidClock(now) && MissingName(pipelineNameEnv)
    ensures HandlerSpec(pipelineNameEnv, event, executions, listFailure, startReply, now)
            == Decision(Response(500, ErrorBody(CONFIG_ERROR)), None, None)
  {
  }

  /** A malformed event never leads to a start; a missing key answers 400, any other subscript error 500. */
  lemma MalformedEventRejected(pipelineNameEnv: Option<string>, event: Json, executions: seq<ExecutionSummary>,
                               listFailure: Option<PyError>, startReply: StartReply, now: DateTime)
    requires ValidClock(now) && !MissingName(pipelineNameEnv) && !WellFormedEvent(event)
    ensures var d := HandlerSpec(pipelineNameEnv, event, executions, listFailure, startReply, now);
            && d.query.None? && d.start.None?
            && d.response == ErrorResponse(ExtractTrigger(event).error)
            && (d.response.statusCode == 400 <==> ExtractTrigger(event).error.KeyError?)
  {
  }

  /**
   * An event whose dicts are all in place but which lacks `detail`,
   * `detail.bucket`, `detail.bucket.name`, `detail.object` or
   * `detail.object.key` is answered 400; the service is not contacted.
   */
  lemma MissingKeyAnswered400(pipelineNameEnv: Option<string>, event: Json, executions: seq<ExecutionSummary>,
                              listFailure: Option<PyError>, startReply: StartReply, now: DateTime)
    requires ValidClock(now) && !MissingName(pipelineNameEnv)
    requires DictsOnPath(event) && !WellFormedEvent(event)
    ensures var d := HandlerSpec(pipelineNameEnv, event, executions, listFailure, startReply, now);
            && d.query.None? && d.start.None?
            && d.response.statusCode == 400
            && d.response.body == ErrorBody(INVALID_EVENT_PREFIX + ErrorText(ExtractTrigger(event).error))
  {
  }

  /**
   * The bucket is read before the object: an event whose `detail` lacks
   * `bucket` is a KeyError even when its `object` is not a dict.
   */
  lemma BucketReadBeforeObject()
    ensures var event := JObject(map["detail" := JObject(map["object" := JLeaf("data/train/new.csv")])]);
            ExtractTrigger(event) == Failure(KeyError("bucket")) && !DictsOnPath(event)
  {
  }

  /** A `detail` that is not a dict raises TypeError, answered 500. */
  lemma NonDictDetailAnswered500(pipelineName: string, text: string, executions: seq<ExecutionSummary>,
                                 listFailure: Option<PyError>, startReply: StartReply, now: DateTime)
    requires ValidClock(now) && pipelineName != ""
    ensures var event := JObject(map["detail" := JLeaf(text)]);
            var d := HandlerSpec(Some(pipelineName), event, executions, listFailure, startReply, now);
            d.response.statusCode == 500 && d.query.None? && d.start.None?
  {
    var event := JObject(map["detail" := JLeaf(text)]);
    assert ExtractTrigger(event) == Failure(TypeError);
  }

  /** An event without `detail.object.key` is answered 400, naming the missing key. */
  lemma MissingObjectKeyAnswered400(pipelineName: string, bucket: Json, executions: seq<ExecutionSummary>,
                                    listFailure: Option<PyError>, startReply: StartReply, now: DateTime)
    requires ValidClock(now) && pipelineName != ""
    ensures var event := JObject(map["detail" := JObject(map["bucket" := JObject(map["name" := bucket]),
                                                              "object" := JObject(map[])])]);
            HandlerSpec(Some(pipelineName), event, executions, listFailure, startReply, now)
            == Decision(ErrorResponse(KeyError("key")), None, None)
  {
    var event := JObject(map["detail" := JObject(map["bucket" := JObject(map["name" := bucket]),
                                                      "object" := JObject(map[])])]);
    assert ExtractTrigger(event) == Failure(KeyError("key"));
  }

  /** When the check says running, the answer is 200 "Skipped" and nothing is started. */
  lemma RunningSkips(pipelineName: string, event: Json, executions: seq<ExecutionSummary>,
                     listFailure: Option<PyError>, startReply: StartReply, now: DateTime)
    requires ValidClock(now) && pipelineName != "" && WellFormedEvent(event)
    requires RunningAgainst(executions, listFailure, pipelineName)
    ensures var d := HandlerSpec(Some(pipelineName), event, executions, listFailure, startReply, now);
            var (bucket, key) := ExtractTrigger(event).value;
            d == Decision(Response(200, TriggerBody(SKIPPED_MESSAGE, pipelineName, None, bucket, key)),
                          Some(ListRequestFor(pipelineName)), None)
  {
  }

  /**
   * Otherwise exactly one start is sent, with the fixed display name format
   * ("auto-trigger-" and a 15-character timestamp) and the one parameter.
   */
  lemma IdleStartsOnce(pipelineName: string, event: Json, executions: seq<ExecutionSummary>,
                       listFailure: Option<PyError>, startReply: StartReply, now: DateTime)
    requires ValidClock(now) && pipelineName != "" && WellFormedEvent(event)
    requires !RunningAgainst(executions, listFailure, pipelineName)
    ensures var d := HandlerSpec(Some(pipelineName), event, executions, listFailure, startReply, now);
            var (bucket, key) := ExtractTrigger(event).value;
            && d.start == Some(StartRequest(pipelineName, PREFIX + Timestamp(now), UploadDescription(bucket, key),
                                            [Parameter("InstanceType", "ml.m5.large")]))
            && |d.start.value.displayName| == 28
  {
  }

  /**
   * After that start, its reply decides the answer: 200 with the ARN, 400 when
   * the reply lacks `PipelineExecutionArn`, 500 when the call raised.
   */
  lemma IdleAnswerFollowsReply(pipelineName: string, event: Json, executions: seq<ExecutionSummary>,
                               listFailure: Option<PyError>, startReply: StartReply, now: DateTime)
    requires ValidClock(now) && pipelineName != "" && WellFormedEvent(event)
    requires !RunningAgainst(executions, listFailure, pipelineName)
    ensures var d := HandlerSpec(Some(pipelineName), event, executions, listFailure, startReply, now);
            var (bucket, key) := ExtractTrigger(event).value;
            && (startReply.StartFailed? ==> d.response == ErrorResponse(startReply.cause))
            && (startReply.StartFailed? && !startReply.cause.KeyError? ==> d.response.statusCode == 500)
            && (startReply.StartReplied? && !startReply.arnInResponse ==>
                  d.response == ErrorResponse(KeyError("PipelineExecutionArn")) && d.response.statusCode == 400)
            && (startReply.StartReplied? && startReply.arnInResponse ==>
                  d.response == Response(200, TriggerBody(STARTED_MESSAGE, pipelineName, Some(startReply.arn), bucket, key)))
  {
    var (bucket, key) := ExtractTrigger(event).value;
    assert HandlerSpec(Some(pipelineName), event, executions, listFailure, startReply, now).response
        == StartResponse(pipelineName, bucket, key, startReply);
  }

  /**
   * Replaying an event after its execution started, with the list call
   * working, starts nothing more: the new execution is the newest and is
   * active. This holds whether or not the start response carried the ARN.
   */
  lemma ReplayAfterStartSkipped(pipelineName: string, event: Json, executions: seq<ExecutionSummary>,
                                reply: StartReply, now: DateTime, later: DateTime)
    requires ValidClock(now) && ValidClock(later) && reply.StartReplied?
    requires HandlerSpec(Some(pipelineName), event, executions, None, reply, now).start.Some?
    ensures var again := HandlerSpec(Some(pipelineName), event, AfterStart(executions, reply), None, reply, later);
            again.start.None? && again.response.statusCode == 200
  {
    var after := AfterStart(executions, reply);
    var window := Take(after, MAX_RESULTS);
    assert window[0] == NewExecution(reply.arn);
    assert FirstActive(window) == Some(0);
  }

  /**
   * The deduplication is best-effort: when the list call fails, a replay of the
   * same event starts a second execution while the first is still executing.
   */
  lemma ReplayWithFailingListStartsTwice(pipelineName: string, event: Json, executions: seq<ExecutionSummary>,
                                         e: PyError, reply: StartReply, now: DateTime, later: DateTime)
    requires ValidClock(now) && ValidClock(later) && pipelineName != "" && WellFormedEvent(event)
    requires reply.StartReplied?
    ensures var first := HandlerSpec(Some(pipelineName), event, executions, Some(e), reply, now);
            var after := AfterStart(executions, reply);
            var again := HandlerSpec(Some(pipelineName), event, after, Some(e), reply, later);
            && first.start.Some? && again.start.Some?
            && IsActive(after[0])
  {
  }

  /**
   * The check and the start are not one atomic step. Two invocations that both
   * list the executions before either has started anything both find the
   * pipeline idle, so both start, and two executions end up executing side by side.
   */
  lemma ConcurrentIdleChecksBothStart(pipelineName: string, event1: Json, event2: Json,
                                      executions: seq<ExecutionSummary>, reply1: StartReply, reply2: StartReply,
                                      now1: DateTime, now2: DateTime)
    requires ValidClock(now1) && ValidClock(now2) && pipelineName != ""
    requires WellFormedEvent(event1) && WellFormedEvent(event2)
    requires !RunningAgainst(executions, None, pipelineName)
    requires reply1.StartReplied? && reply2.StartReplied?
    ensures var first := HandlerSpec(Some(pipelineName), event1, executions, None, reply1, now1);
            var second := HandlerSpec(Some(pipelineName), event2, executions, None, reply2, now2);
            var after := AfterStart(AfterStart(executions, reply1), reply2);
            && first.start.Some? && second.start.Some?
            && |after| == |executions| + 2 && IsActive(after[0]) && IsActive(after[1])
  {
  }
}
