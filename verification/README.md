# Upload-triggered pipeline start and Iris label shaping, in Dafny

This project models the two parts of the Terraform/SageMaker/XGBoost repository that make
decisions of their own:

* **The pipeline trigger Lambda** (`lambda/pipeline_trigger.py`). When new training data is
  uploaded, `handler` reads `PIPELINE_NAME` from the environment and the bucket and key from
  the EventBridge event. It asks `is_pipeline_running` whether one of the five newest executions
  is `Executing` or `Stopping`. It then either skips (200) or sends exactly one
  `start_pipeline_execution` named `auto-trigger-YYYYmmdd-HHMMSS` with `InstanceType=ml.m5.large`.
  A missing name is answered 500. A `KeyError` is answered 400, and that includes a start
  response without `PipelineExecutionArn`. Any other exception is answered 500. The running
  check fails open: a failed list call, or a missing ARN on the first active summary, reads as
  "not running".
* **The column shaping of data preparation** (`ml/prepare_data.py`, lines 35-60). This covers the
  `Species` check, the `Id` drop, the three-entry species table (an unknown label raises), and
  the reorder that puts `Species` first. Around it, the run is kept as its list of actions. A
  missing input file ends the run right after the output directory is created. Whether the
  split, a CSV write or an upload raises afterwards is a parameter of the run.

The SageMaker client is a stub class (`SageMaker.SageMakerStub`):
* it holds the pipeline's executions, newest first;
* it can be set to make list calls fail;
* it holds the reply the next start will get;
* it logs every list request and every start request it receives.
A start that gets a reply adds an `Executing` execution, with its ARN, as the newest one.
`PIPELINE_NAME`, `S3_BUCKET` and the UTC clock are parameters. `PipelineTrigger.HandlerSpec` is
the pure statement of one invocation, and `PipelineTrigger.Handler` is proved to follow it.

Modules: `Wrappers` (Option, Result), `Json` (event values and the Python exceptions that
drive control flow), `ExecutionName`, `SageMaker`, `PipelineTrigger`, `PrepareData`.

Four facts about the trigger code:
* It has no key-prefix filter, so uploads under any prefix are treated alike.
* It gives a start that conflicts with a running execution no special treatment; a failed start
  is a 500.
* The check-then-start sequence is not atomic. `PipelineTrigger.ConcurrentIdleChecksBothStart`
  shows two invocations that both check before either starts, so both start.
* The check fails open. `PipelineTrigger.ReplayWithFailingListStartsTwice` shows that a failed
  list call lets a replay of the same event start a second execution.

## Model

| member | source | states |
|---|---|---|
| `ExecutionName.Timestamp` | lambda/pipeline_trigger.py:87 | the `%Y%m%d-%H%M%S` text is 15 characters: zero-padded digits with `-` at position 8 |
| `ExecutionName.DisplayName` | lambda/pipeline_trigger.py:88 | the display name is 28 characters and starts with `auto-trigger-` |
| `ExecutionName.DisplayNameRoundTrip` | lambda/pipeline_trigger.py:87-88 | the instant can be parsed back out of the display name |
| `ExecutionName.DisplayNameInjective` | lambda/pipeline_trigger.py:87-88 | two instants get the same display name iff they are equal |
| `ExecutionName.ParseDecimalRoundTrip` | lambda/pipeline_trigger.py:87 | reading a zero-padded field back gives the number it was written from |
| `SageMaker.SageMakerStub.ListPipelineExecutions` | lambda/pipeline_trigger.py:18-23 | the list call is logged and changes nothing else; it fails iff the service is set to fail, and otherwise returns at most `MaxResults` of the newest executions |
| `SageMaker.SageMakerStub.StartPipelineExecution` | lambda/pipeline_trigger.py:93-103 | a start logs exactly its request; when it gets a reply, the new execution is the newest, is `Executing` and carries its ARN |
| `PipelineTrigger.FirstActive` | lambda/pipeline_trigger.py:27-34 | the scan stops at the first `Executing`/`Stopping` summary; None iff there is none |
| `PipelineTrigger.IsPipelineRunning` | lambda/pipeline_trigger.py:16-40 | one list request is sent for the five newest executions; the loop answers the fail-open verdict: "running" only if the list call succeeded and one of those executions is active |
| `PipelineTrigger.TerminalStatusesInactive` | lambda/pipeline_trigger.py:25-29 | `Succeeded`, `Failed`, `Stopped` and a missing status are never active |
| `PipelineTrigger.RunningIffActiveInWindow` | lambda/pipeline_trigger.py:17-36 | when every ARN is present: running iff some execution among the five newest is active (both directions) |
| `PipelineTrigger.ActiveBeyondWindowUnseen` | lambda/pipeline_trigger.py:18-23 | an active execution older than the five newest is not seen |
| `PipelineTrigger.SixthActiveExecutionUnseen` | lambda/pipeline_trigger.py:18-23 | five succeeded executions hide a sixth, older one that is executing |
| `PipelineTrigger.ListFailureFailsOpen` | lambda/pipeline_trigger.py:38-40 | a list call that raises makes the check answer "not running" |
| `PipelineTrigger.MissingArnFailsOpen` | lambda/pipeline_trigger.py:29-40 | when the first active summary lacks its ARN, the `KeyError` is caught and the check answers "not running" |
| `PipelineTrigger.ErrorResponse` | lambda/pipeline_trigger.py:123-137 | a `KeyError` is answered 400 and every other exception 500 |
| `PipelineTrigger.ExtractTrigger` | lambda/pipeline_trigger.py:67-68 | bucket and key are read iff `detail.bucket.name` and `detail.object.key` exist; otherwise the error is a `KeyError` on one of those keys or a `TypeError`; when every value on the path is a dict, it is always a `KeyError`; it is `KeyError('detail')` exactly when the event is a dict without `detail` |
| `PipelineTrigger.HandlerSpec` | lambda/pipeline_trigger.py:43-137 | every answer is 200, 400 or 500; the list request is sent iff the name is set and the event is well formed; a start is sent iff, in addition, the check says not running; that start has the fixed name format and parameters |
| `PipelineTrigger.Handler` | lambda/pipeline_trigger.py:43-137 | the handler answers as `HandlerSpec` says and sends the service exactly the list and start requests it names (at most one of each) |
| `PipelineTrigger.MissingNameAnswered500` | lambda/pipeline_trigger.py:57-63 | an unset or empty `PIPELINE_NAME` is answered 500 whatever the event is; the service is not contacted at all |
| `PipelineTrigger.MalformedEventRejected` | lambda/pipeline_trigger.py:123-137 | a malformed event sends no list or start request; it is answered 400 exactly when the reading raised `KeyError` |
| `PipelineTrigger.MissingKeyAnswered400` | lambda/pipeline_trigger.py:66-68 | an event whose dicts are in place but which lacks `detail`, `bucket`, `name`, `object` or `key` is answered 400 "Invalid event structure: '<key>'", and the service is not contacted |
| `PipelineTrigger.BucketReadBeforeObject` | lambda/pipeline_trigger.py:67-68 | the bucket name is read before the object key: a missing `bucket` is a `KeyError` even when `object` is not a dict |
| `PipelineTrigger.NonDictDetailAnswered500` | lambda/pipeline_trigger.py:131-137 | a `detail` that is not a dict raises `TypeError`, which is answered 500 with no request sent |
| `PipelineTrigger.MissingObjectKeyAnswered400` | lambda/pipeline_trigger.py:66-68 | an event without `detail.object.key` is answered 400 with the error text naming `'key'` |
| `PipelineTrigger.RunningSkips` | lambda/pipeline_trigger.py:73-85 | when the check says running, the answer is 200 "Skipped - pipeline already executing" with the trigger; the list request was sent and nothing is started |
| `PipelineTrigger.IdleStartsOnce` | lambda/pipeline_trigger.py:87-103 | otherwise exactly one start is sent: display name `auto-trigger-` + timestamp (28 characters), description from the bucket and key, parameters `[InstanceType=ml.m5.large]` |
| `PipelineTrigger.IdleAnswerFollowsReply` | lambda/pipeline_trigger.py:105-137 | after that start: 200 with the returned ARN and the trigger; 400 when the reply lacks `PipelineExecutionArn`; 500 when the call raised something other than `KeyError` |
| `PipelineTrigger.ReplayAfterStartSkipped` | lambda/pipeline_trigger.py:72-85 | replaying an event after its execution started, with the list call working, starts nothing more, whether or not the start response carried the ARN |
| `PipelineTrigger.ConcurrentIdleChecksBothStart` | lambda/pipeline_trigger.py:73-100 | two invocations that both list before either starts both find the pipeline idle and both start, leaving two executing executions |
| `PipelineTrigger.ReplayWithFailingListStartsTwice` | lambda/pipeline_trigger.py:38-40 | with the list call failing, a replay starts a second execution while the first is executing |
| `PrepareData.Without` | ml/prepare_data.py:59 | the filtered header no longer holds the name, and holds nothing the input did not |
| `PrepareData.WithoutMultiset` | ml/prepare_data.py:59 | filtering removes exactly the occurrences of the name; every other column keeps its count |
| `PrepareData.WithoutAbsent` | ml/prepare_data.py:59 | filtering out an absent name changes nothing |
| `PrepareData.WithoutConcat` | ml/prepare_data.py:59 | filtering works piecewise, so the kept columns stay in their relative order |
| `PrepareData.WithoutUnique` | ml/prepare_data.py:43-44 | on a header without repeats, dropping a column cuts it out and leaves the rest in order |
| `PrepareData.DropId` | ml/prepare_data.py:43-44 | the result has no `Id`, and every other column keeps its count |
| `PrepareData.MapLabels` | ml/prepare_data.py:53 | each label maps to its class index, or to a missing value when it is not in the table |
| `PrepareData.EncodeLabels` | ml/prepare_data.py:47-56 | succeeds iff every label is one of the three species; each code is the table's value, is in 0..2, and names its label back; otherwise `LabelMappingFailed` |
| `PrepareData.DecodeEncode` | ml/training/evaluate.py:59-63 | reading class indices back through the class names gives the original labels |
| `PrepareData.EncodeDecode` | ml/prepare_data.py:47-51 | every class index 0..2 is encoded back from its class name |
| `PrepareData.LabelFirst` | ml/prepare_data.py:59 | `Species` comes first and nowhere else; the other columns keep their counts |
| `PrepareData.LabelFirstPermutation` | ml/prepare_data.py:59-60 | with one `Species` column, the reorder is a permutation of the header |
| `PrepareData.LabelFirstMovesSpecies` | ml/prepare_data.py:59-60 | on a header without repeats, the reorder moves `Species` to the front and keeps the rest in order |
| `PrepareData.PrepareColumns` | ml/prepare_data.py:35-60 | fails with the `Species` error iff the column is missing, which is checked first; fails with the mapping error iff `Species` is present and some label is unknown; on success the header starts with `Species` and has no `Id` |
| `PrepareData.PreparedHeaderPermutation` | ml/prepare_data.py:43-60 | on a header without repeats, the shaped header holds exactly the input columns except `Id` |
| `PrepareData.IdFirstSpeciesLastShaped` | ml/prepare_data.py:43-60 | a header `Id`, features, `Species` (features without `Id` or `Species`) becomes `Species`, features |
| `PrepareData.IrisHeaderShaped` | ml/prepare_data.py:43-60 | the Kaggle header `Id, SepalLengthCm, ..., Species` becomes `Species, SepalLengthCm, ..., PetalWidthCm` |
| `PrepareData.PrepareThreeWaySplit` | ml/prepare_data.py:23-123 | the run first creates `split_data`, then performs a prefix of the three writes and three uploads; it writes or uploads only after shaping succeeded; it completes, with all six, iff shaping succeeded and no later call raised; every upload follows the write of its file |
| `PrepareData.UploadsFollowWritesInPrefix` | ml/prepare_data.py:97-123 | however early the run stops, each upload it made follows the write of that file |
| `PrepareData.MissingInputReturnsEarly` | ml/prepare_data.py:23-30 | a missing input file ends the run after the directory is created, with nothing written or uploaded |
| `PrepareData.RunOutcomes` | ml/prepare_data.py:36-123 | a run whose shaping raises does nothing after creating the directory; a run interrupted later keeps exactly the writes and uploads before the failing call; a completed run uploads the training split to `S3_BUCKET` (default `terraform-sagemaker-firstbucket`) under `data/train/iris.csv` |
| `PrepareData.SplitFailureWritesNothing` | ml/prepare_data.py:66-99 | when the split raises, nothing is written or uploaded, although shaping succeeded |

## Left out

- Logging and `print` calls are left out because they have no effect on any decision.
- The boto3 client is replaced by `SageMaker.SageMakerStub`, which serves a single pipeline and stores its executions already sorted newest first. The pipeline name in list and start requests is logged but not checked against anything.
- `SageMaker.SageMakerStub.StartPipelineExecution` gives every execution it creates an ARN that appears in later list summaries, even when the start response itself lacks `PipelineExecutionArn`.
- The SageMaker list response always carries `PipelineExecutionSummaries` in the model, so the `.get(..., [])` default never applies.
- The scheduling of concurrent Lambda invocations is left out. Each invocation is one sequential call on the stub; the race between two of them is stated by `PipelineTrigger.ConcurrentIdleChecksBothStart`, which has both check the same state before either start is applied.
- `ExecutionName.ValidClock` requires a four-digit year. Zero-padding of years before 1000 differs between C libraries, and the clock never gives such years.
- `SageMaker.Description` keeps the start description (" Auto Triggered by S3 upload at s3://{bucket}/{key}") as the two values it is built from. Python's `str()` rendering of arbitrary JSON values is not modelled.
- `Json.ErrorText` gives a `TypeError` (subscripting a value that is not a dict) a fixed text. Python's exact wording, which depends on the value's type, is not modelled.
- In `ml/prepare_data.py`, the floating-point ratio check (line 20) is left out: with the fixed ratios it never raises. `val_ratio_adjusted` (line 73) is left out for the same floating-point reason.
- In `ml/prepare_data.py`, `train_test_split` (random, stratified), CSV parsing and CSV writing are left out. The model records which files are written and uploaded, but not what they contain.
- `PrepareData.PrepareThreeWaySplit` does not decide when the split, a write or an upload raises: that is the `failAfter` parameter. For example, a stratified split raises on a table with no rows or one row, but the model does not derive this from the table.
- The model keeps the header and the `Species` column, not the whole data frame. Feature values are not modelled.
- `ml/pipeline_terraform.py`, `ml/training/train.py`, `ml/training/evaluate.py` and `ml/launch_training.py` are not part of this model. They are declarative SDK configuration, library calls and floating-point metrics. Only the class-name table of `evaluate.py` is used, as the inverse of the label mapping.
