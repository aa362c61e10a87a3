/**
 * The part of the SageMaker API the trigger uses, as a stub: one pipeline whose
 * executions are kept newest first, a switch that makes listing fail, the reply
 * the next start will get, and logs of every list request and every start
 * request received.
 */
module SageMaker {
  import opened Wrappers
  import opened Json

  /** One entry of `PipelineExecutionSummaries`; either key may be absent. */
  datatype ExecutionSummary = ExecutionSummary(status: Option<string>, arn: Option<string>)

  datatype ListRequest = ListRequest(pipelineName: string, sortBy: string, sortOrder: string, maxResults: nat)

  datatype ListReply =
    | ListFailed(cause: PyError)
    | Listed(summaries: seq<ExecutionSummary>)

  datatype Parameter = Parameter(name: string, value: string)

  /**
   * `PipelineExecutionDescription` is the text
   * " Auto Triggered by S3 upload at s3://{bucket}/{key}"; it is kept here as
   * the two values it is formatted from.
   */
  datatype Description = UploadDescription(bucket: Json, key: Json)

  datatype StartRequest = StartRequest(
    pipelineName: string,
    displayName: string,
    description: Description,
    parameters: seq<Parameter>)

  datatype StartReply =
    | StartFailed(cause: PyError)
    /**
     * The execution was created with ARN `arn`; `arnInResponse` says whether
     * the response dictionary carries it under `PipelineExecutionArn`.
     */
    | StartReplied(arn: string, arnInResponse: bool)

  /** The first `n` elements of `s` (all of them when there are fewer). */
  function Take<T>(s: seq<T>, n: nat): (r: seq<T>)
    ensures |r| == if n < |s| then n else |s|
    ensures r == s[..|r|]
  {
    if n < |s| then s[..n] else s
  }

  /** What the service answers to a list request, sorted by creation time, newest first. */
  function ListReplyOf(executions: seq<ExecutionSummary>, listFailure: Option<PyError>, req: ListRequest): ListReply {
    match listFailure
    case Some(e) => ListFailed(e)
    case None => Listed(Take(executions, req.maxResults))
  }

  /** The summary a started execution shows until it ends; list summaries always carry the ARN. */
  function NewExecution(arn: string): ExecutionSummary {
    ExecutionSummary(Some("Executing"), Some(arn))
  }

  /** The executions after a start that got `reply`. */
  function AfterStart(executions: seq<ExecutionSummary>, reply: StartReply): seq<ExecutionSummary> {
    match reply
    case StartFailed(_) => executions
    case StartReplied(arn, _) => [NewExecution(arn)] + executions
  }

  class SageMakerStub {
    /** newest first */
    var executions: seq<ExecutionSummary>
    /** when present, every list call raises it */
    var listFailure: Option<PyError>
    /** the reply every start call gets */
    var startReply: StartReply
    /** every list request received, oldest first */
    var lists: seq<ListRequest>
    /** every start request received, oldest first */
    var starts: seq<StartRequest>

    constructor (executions: seq<ExecutionSummary>, listFailure: Option<PyError>, startReply: StartReply)
      ensures this.executions == executions && this.listFailure == listFailure
      ensures this.startReply == startReply && lists == [] && starts == []
    {
      this.executions := executions;
      this.listFailure := listFailure;
      this.startReply := startReply;
      lists := [];
      starts := [];
    }

    /** `list_pipeline_executions`: logs the request and changes nothing else. */
    method ListPipelineExecutions(req: ListRequest) returns (reply: ListReply)
      modifies this
      ensures lists == old(lists) + [req]
      ensures executions == old(executions) && listFailure == old(listFailure)
      ensures startReply == old(startReply) && starts == old(starts)
      ensures reply.Listed? <==> listFailure.None?
      ensures reply.Listed? ==> |reply.summaries| <= req.maxResults
      ensures reply == ListReplyOf(executions, listFailure, req)
    {
      lists := lists + [req];
      match listFailure
      case Some(e) =>
        reply := ListFailed(e);
      case None =>
        reply := Listed(Take(executions, req.maxResults));
    }

    /** `start_pipeline_execution`: logs the request; a started execution becomes the newest. */
    method StartPipelineExecution(req: StartRequest) returns (reply: StartReply)
      modifies this
      ensures reply == startReply == old(startReply) && listFailure == old(listFailure)
      ensures starts == old(starts) + [req] && lists == old(lists)
      ensures executions == AfterStart(old(executions), reply)
    {
      reply := startReply;
      starts := starts + [req];
      executions := AfterStart(executions, reply);
    }
  }
}
