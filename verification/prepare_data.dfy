/**
 * The column shaping of the data-preparation script: the `Species` check, the
 * `Id` drop, the species-name to class-index table, and the reorder that puts
 * the label first, over the table's header and its `Species` column. The
 * surrounding run is kept as the sequence of file-system and upload actions it
 * performs, so that the early return on a missing input file can be stated;
 * what the split files contain is not modelled.
 */
module PrepareData {
  import opened Wrappers

  const SPECIES: string := "Species"
  const ID: string := "Id"

  /** `label_mapping` */
  const LABEL_MAPPING: map<string, int> := map["Iris-setosa" := 0, "Iris-versicolor" := 1, "Iris-virginica" := 2]

  /** The evaluation script's class names, indexed by class. */
  const CLASS_NAMES: seq<string> := ["Iris-setosa", "Iris-versicolor", "Iris-virginica"]

  /** The two ValueErrors of the column shaping. */
  datatype PrepError =
    | SpeciesColumnMissing  // "'Species' Column not found"
    | LabelMappingFailed    // "Label mapping failed. Unexpected Species values found."

  predicate NoDuplicates(cols: seq<string>) {
    forall i, j :: 0 <= i < j < |cols| ==> cols[i] != cols[j]
  }

  // ---------------------------------------------------------------------------
  // Removing a column name, and what that keeps

  /** `[c for c in cols if c != name]` */
  function Without(cols: seq<string>, name: string): (r: seq<string>)
    ensures name !in r
    ensures |r| <= |cols|
    ensures forall c :: c in r ==> c in cols
  {
    if cols == [] then []
    else (if cols[0] == name then [] else [cols[0]]) + Without(cols[1..], name)
  }

  /** Exactly the occurrences of `name` go; every other column keeps its multiplicity. */
  lemma {:induction false} WithoutMultiset(cols: seq<string>, name: string)
    ensures multiset(Without(cols, name)) == multiset(cols)[name := 0]
  {
    if cols != [] {
      WithoutMultiset(cols[1..], name);
      assert cols == [cols[0]] + cols[1..];
    }
  }

  /** Removing an absent name changes nothing. */
  lemma {:induction false} WithoutAbsent(cols: seq<string>, name: string)
    requires name !in cols
    ensures Without(cols, name) == cols
  {
    if cols != [] {
      WithoutAbsent(cols[1..], name);
    }
  }

  /** The filter works piecewise, so the kept columns stay in their relative order. */
  lemma {:induction false} WithoutConcat(a: seq<string>, b: seq<string>, name: string)
    ensures Without(a + b, name) == Without(a, name) + Without(b, name)
  {
    if a != [] {
      var head := if a[0] == name then [] else [a[0]];
      assert (a + b)[0] == a[0];
      assert (a + b)[1..] == a[1..] + b;
      WithoutConcat(a[1..], b, name);
      calc {
        Without(a + b, name);
        head + Without(a[1..] + b, name);
        head + (Without(a[1..], name) + Without(b, name));
        (head + Without(a[1..], name)) + Without(b, name);
        Without(a, name) + Without(b, name);
      }
    } else {
      assert a + b == b;
    }
  }

  /** In a header without repeats, the name at `i` occurs nowhere else. */
  lemma UniqueAt(cols: seq<string>, i: nat)
    requires i < |cols| && NoDuplicates(cols)
    ensures cols == cols[..i] + [cols[i]] + cols[i + 1..]
    ensures cols[i] !in cols[..i] && cols[i] !in cols[i + 1..]
    ensures multiset(cols)[cols[i]] == 1
  {
    var name := cols[i];
    assert cols == cols[..i] + [name] + cols[i + 1..];
    forall j | 0 <= j < i ensures cols[..i][j] != name {
      assert cols[..i][j] == cols[j];
    }
    forall j | i < j < |cols| ensures cols[j] != name {
    }
    assert multiset(cols) == multiset(cols[..i]) + multiset{name} + multiset(cols[i + 1..]);
  }

  /** On a header without repeated names, removing the column at `i` is cutting it out. */
  lemma WithoutUnique(cols: seq<string>, i: nat)
    requires i < |cols| && NoDuplicates(cols)
    ensures Without(cols, cols[i]) == cols[..i] + cols[i + 1..]
  {
    var name := cols[i];
    UniqueAt(cols, i);
    WithoutConcat(cols[..i] + [name], cols[i + 1..], name);
    WithoutConcat(cols[..i], [name], name);
    WithoutAbsent(cols[..i], name);
    WithoutAbsent(cols[i + 1..], name);
    assert Without([name], name) == [];
    calc {
      Without(cols, name);
      Without(cols[..i] + [name], name) + Without(cols[i + 1..], name);
      Without(cols[..i], name) + Without([name], name) + Without(cols[i + 1..], name);
      cols[..i] + [] + cols[i + 1..];
    }
    assert cols[..i] + [] == cols[..i];
  }

  // ---------------------------------------------------------------------------
  // The three steps

  /** `df.drop(columns="Id")` when the column exists */
  function DropId(header: seq<string>): (r: seq<string>)
    ensures ID !in r
    ensures multiset(r) == multiset(header)[ID := 0]
  {
    WithoutMultiset(header, ID);
    if ID in header then Without(header, ID) else header
  }

  /** `df["Species"].map(label_mapping)`: unknown names become missing values. */
  function MapLabels(labels: seq<string>): (r: seq<Option<int>>)
    ensures |r| == |labels|
    ensures forall i :: 0 <= i < |labels| ==> (r[i].Some? <==> labels[i] in LABEL_MAPPING)
    ensures forall i :: 0 <= i < |labels| && labels[i] in LABEL_MAPPING ==> r[i] == Some(LABEL_MAPPING[labels[i]])
  {
    seq(|labels|, i requires 0 <= i < |labels| =>
      if labels[i] in LABEL_MAPPING then Some(LABEL_MAPPING[labels[i]]) else None)
  }

  /** The mapped column, or the ValueError raised when any mapped value is missing. */
  function EncodeLabels(labels: seq<string>): (r: Result<seq<int>, PrepError>)
    ensures r.Success? <==> forall i :: 0 <= i < |labels| ==> labels[i] in LABEL_MAPPING
    ensures r.Failure? ==> r.error == LabelMappingFailed
    ensures r.Success? ==> |r.value| == |labels|
    ensures r.Success? ==> forall i :: 0 <= i < |labels| ==> r.value[i] == LABEL_MAPPING[labels[i]]
    ensures r.Success? ==> forall i :: 0 <= i < |labels| ==> 0 <= r.value[i] < 3 && CLASS_NAMES[r.value[i]] == labels[i]
  {
    var mapped := MapLabels(labels);
    if exists i :: 0 <= i < |mapped| && mapped[i].None? then
      Failure(LabelMappingFailed)
    else
      Success(seq(|mapped|, i requires 0 <= i < |mapped| => mapped[i].value))
  }

  /** Class indices back to species names. */
  function DecodeLabels(codes: seq<int>): (r: seq<string>)
    requires forall i :: 0 <= i < |codes| ==> 0 <= codes[i] < 3
    ensures |r| == |codes|
  {
    seq(|codes|, i requires 0 <= i < |codes| => CLASS_NAMES[codes[i]])
  }

  /** Decoding undoes a successful encoding. */
  lemma DecodeEncode(labels: seq<string>)
    requires EncodeLabels(labels).Success?
    ensures DecodeLabels(EncodeLabels(labels).value) == labels
  {
  }

  /** Every class index is encoded back from its name. */
  lemma EncodeDecode(codes: seq<int>)
    requires forall i :: 0 <= i < |codes| ==> 0 <= codes[i] < 3
    ensures EncodeLabels(DecodeLabels(codes)) == Success(codes)
  {
    var names := DecodeLabels(codes);
    forall i | 0 <= i < |names|
      ensures names[i] in LABEL_MAPPING && LABEL_MAPPING[names[i]] == codes[i]
    {
      assert names[i] == CLASS_NAMES[codes[i]];
    }
    var r := EncodeLabels(names);
    assert r.Success?;
    assert forall i :: 0 <= i < |codes| ==> r.value[i] == codes[i];
    assert r.value == codes;
  }

  /** `["Species"] + [col for col in cols if col != "Species"]` */
  function LabelFirst(cols: seq<string>): (r: seq<string>)
    requires SPECIES in cols
    ensures |r| >= 1 && r[0] == SPECIES && SPECIES !in r[1..]
    ensures multiset(r) == multiset(cols)[SPECIES := 1]
  {
    WithoutMultiset(cols, SPECIES);
    [SPECIES] + Without(cols, SPECIES)
  }

  /** With a single `Species` column, the reorder is a permutation of the header. */
  lemma LabelFirstPermutation(cols: seq<string>)
    requires multiset(cols)[SPECIES] == 1
    ensures SPECIES in cols && multiset(LabelFirst(cols)) == multiset(cols)
  {
  }

  /** On a header without repeats, the reorder moves `Species` to the front and leaves the rest in order. */
  lemma LabelFirstMovesSpecies(cols: seq<string>, i: nat)
    requires i < |cols| && cols[i] == SPECIES && NoDuplicates(cols)
    ensures LabelFirst(cols) == [SPECIES] + cols[..i] + cols[i + 1..]
  {
    WithoutUnique(cols, i);
  }

  // ---------------------------------------------------------------------------
  // Lines 35-60 together

  /** The shaped header and the encoded label column. */
  datatype Prepared = Prepared(header: seq<string>, labels: seq<int>)

  function PrepareColumns(header: seq<string>, labels: seq<string>): (r: Result<Prepared, PrepError>)
    ensures r == Failure(SpeciesColumnMissing) <==> SPECIES !in header
    ensures r == Failure(LabelMappingFailed) <==>
              SPECIES in header && exists i :: 0 <= i < |labels| && labels[i] !in LABEL_MAPPING
    ensures r.Success? ==> && |r.value.header| >= 1 && r.value.header[0] == SPECIES
                           && ID !in r.value.header
                           && r.value.labels == EncodeLabels(labels).value
  {
    if SPECIES !in header then
      Failure(SpeciesColumnMissing)
    else
      var cols := DropId(header);
      assert multiset(cols)[SPECIES] == multiset(header)[SPECIES];
      match EncodeLabels(labels)
      case Failure(e) => Failure(e)
      case Success(codes) => Success(Prepared(LabelFirst(cols), codes))
  }

  /**
   * On a header without repeated names (as read_csv produces), the result holds
   * every input column except `Id`, each once.
   */
  lemma PreparedHeaderPermutation(header: seq<string>, labels: seq<string>)
    requires NoDuplicates(header) && PrepareColumns(header, labels).Success?
    ensures multiset(PrepareColumns(header, labels).value.header) == multiset(header)[ID := 0]
  {
    var i :| 0 <= i < |header| && header[i] == SPECIES;
    UniqueAt(header, i);
  }

  /** The feature columns of the Kaggle Iris file. */
  const IRIS_FEATURES: seq<string> := ["SepalLengthCm", "SepalWidthCm", "PetalLengthCm", "PetalWidthCm"]

  /** A header laid out as `Id`, the features, `Species` comes out as `Species`, the features. */
  lemma IdFirstSpeciesLastShaped(features: seq<string>, labels: seq<string>)
    requires ID !in features && SPECIES !in features
    requires EncodeLabels(labels).Success?
    ensures PrepareColumns([ID] + features + [SPECIES], labels).value.header == [SPECIES] + features
  {
    var dropped := features + [SPECIES];
    var header := [ID] + dropped;
    assert [ID] + features + [SPECIES] == header;
    assert DropId(header) == dropped by {
      WithoutConcat([ID], dropped, ID);
      WithoutAbsent(dropped, ID);
      assert Without([ID], ID) == [];
    }
    assert LabelFirst(dropped) == [SPECIES] + features by {
      WithoutConcat(features, [SPECIES], SPECIES);
      WithoutAbsent(features, SPECIES);
      assert Without([SPECIES], SPECIES) == [];
    }
    assert PrepareColumns(header, labels).value.header == LabelFirst(DropId(header));
  }

  /** The header of the Kaggle Iris file comes out label first, without `Id`. */
  lemma IrisHeaderShaped(labels: seq<string>)
    requires EncodeLabels(labels).Success?
    ensures PrepareColumns([ID] + IRIS_FEATURES + [SPECIES], labels).value.header == [SPECIES] + IRIS_FEATURES
  {
    assert ID !in IRIS_FEATURES && SPECIES !in IRIS_FEATURES;
    IdFirstSpeciesLastShaped(IRIS_FEATURES, labels);
  }

  // ---------------------------------------------------------------------------
  // The surrounding run, as the actions it performs

  const OUTPUT_DIR: string := "split_data"
  const TRAIN_PATH: string := "split_data/iris_train.csv"
  const VALIDATION_PATH: string := "split_data/iris_validation.csv"
  const TEST_PATH: string := "split_data/iris_test.csv"
  const DEFAULT_BUCKET: string := "terraform-sagemaker-firstbucket"

  /** The parsed input table: its header and its `Species` column. */
  datatype Frame = Frame(header: seq<string>, labels: seq<string>)

  datatype Action =
    | MakeDirs(path: string)
    | WriteCsv(path: string)
    | UploadFile(localPath: string, bucket: string, key: string)

  datatype RunOutcome =
    | InputMissing           // FileNotFoundError: message printed, None returned
    | Raised(error: PrepError)
    /** a library call after the shaping raised: the split, a CSV write or an upload */
    | Interrupted(prepared: Prepared)
    | Completed(prepared: Prepared)

  datatype Run = Run(outcome: RunOutcome, actions: seq<Action>)

  /** The three split files written, then uploaded under their data prefixes. */
  function OutputActions(bucket: string): (r: seq<Action>)
    ensures |r| == 6
  {
    [WriteCsv(TRAIN_PATH), WriteCsv(VALIDATION_PATH), WriteCsv(TEST_PATH),
     UploadFile(TRAIN_PATH, bucket, "data/train/iris.csv"),
     UploadFile(VALIDATION_PATH, bucket, "data/validation/iris.csv"),
     UploadFile(TEST_PATH, bucket, "data/test/iris.csv")]
  }

  predicate Writes(a: Action) {
    a.WriteCsv? || a.UploadFile?
  }

  /** Every upload in `actions` is preceded by the write of the file it uploads. */
  predicate UploadsFollowWrites(actions: seq<Action>) {
    forall k :: 0 <= k < |actions| && actions[k].UploadFile? ==>
      exists j :: 0 <= j < k && actions[j] == WriteCsv(actions[k].localPath)
  }

  /** The full run's actions upload only files written before, and so does every prefix of them. */
  lemma UploadsFollowWritesInPrefix(bucket: string, n: nat)
    requires n <= 6
    ensures UploadsFollowWrites([MakeDirs(OUTPUT_DIR)] + OutputActions(bucket)[..n])
  {
    var all := [MakeDirs(OUTPUT_DIR)] + OutputActions(bucket);
    assert all[4].localPath == TRAIN_PATH && all[1] == WriteCsv(TRAIN_PATH);
    assert all[5].localPath == VALIDATION_PATH && all[2] == WriteCsv(VALIDATION_PATH);
    assert all[6].localPath == TEST_PATH && all[3] == WriteCsv(TEST_PATH);
    assert forall k :: 0 <= k < 4 ==> !all[k].UploadFile?;
    assert UploadsFollowWrites(all);
    var part := [MakeDirs(OUTPUT_DIR)] + OutputActions(bucket)[..n];
    assert part == all[..n + 1];
    forall k | 0 <= k < |part| && part[k].UploadFile?
      ensures exists j :: 0 <= j < k && part[j] == WriteCsv(part[k].localPath)
    {
      var j :| 0 <= j < k && all[j] == WriteCsv(all[k].localPath);
      assert part[j] == all[j];
    }
  }

  /** Shaping succeeded on an existing input file. */
  predicate Shaped(input: Option<Frame>) {
    input.Some? && PrepareColumns(input.value.header, input.value.labels).Success?
  }

  /**
   * `prepare_three_way_split` with the input file as `input` (None when it
   * does not exist) and the S3_BUCKET environment variable as `bucketEnv`.
   * `failAfter` says whether a library call after the shaping raises: None
   * when the split, the three writes and the three uploads all succeed;
   * Some(k) when the call following the first `k` output actions raises
   * (Some(0): the split or the first write).
   */
  function PrepareThreeWaySplit(input: Option<Frame>, bucketEnv: Option<string>, failAfter: Option<nat>): (run: Run)
    requires failAfter.Some? ==> failAfter.value < 6
    ensures 1 <= |run.actions| <= 7 && run.actions[0] == MakeDirs(OUTPUT_DIR)
    ensures run.actions[1..] == OutputActions(bucketEnv.GetOr(DEFAULT_BUCKET))[..|run.actions| - 1]
    ensures (run.outcome.Completed? || run.outcome.Interrupted?) <==> Shaped(input)
    ensures (exists k :: 0 <= k < |run.actions| && Writes(run.actions[k])) ==> Shaped(input)
    ensures run.outcome.Completed? <==> Shaped(input) && failAfter.None?
    ensures run.outcome.Completed? ==> |run.actions| == 7
    ensures UploadsFollowWrites(run.actions)
  {
    var made := [MakeDirs(OUTPUT_DIR)];
    match input
    case None => Run(InputMissing, made)
    case Some(frame) =>
      match PrepareColumns(frame.header, frame.labels)
      case Failure(e) => Run(Raised(e), made)
      case Success(p) =>
        var outputs := OutputActions(bucketEnv.GetOr(DEFAULT_BUCKET));
        var done := if failAfter.Some? then failAfter.value else |outputs|;
        var actions := made + outputs[..done];
        assert actions[1..] == outputs[..done];
        UploadsFollowWritesInPrefix(bucketEnv.GetOr(DEFAULT_BUCKET), done);
        Run(if failAfter.Some? then Interrupted(p) else Completed(p), actions)
  }

  /** A missing input file ends the run right after the output directory is created. */
  lemma MissingInputReturnsEarly(bucketEnv: Option<string>, failAfter: Option<nat>)
    requires failAfter.Some? ==> failAfter.value < 6
    ensures PrepareThreeWaySplit(None, bucketEnv, failAfter) == Run(InputMissing, [MakeDirs(OUTPUT_DIR)])
  {
  }

  /**
   * A run whose shaping raises writes and uploads nothing; a run interrupted
   * later keeps the writes and uploads made before the failing call; a
   * completed run uploads the training split to the configured bucket.
   */
  lemma RunOutcomes(frame: Frame, bucketEnv: Option<string>, failAfter: Option<nat>)
    requires failAfter.Some? ==> failAfter.value < 6
    ensures var run := PrepareThreeWaySplit(Some(frame), bucketEnv, failAfter);
            var r := PrepareColumns(frame.header, frame.labels);
            var outputs := OutputActions(bucketEnv.GetOr(DEFAULT_BUCKET));
            && (r.Failure? ==> run == Run(Raised(r.error), [MakeDirs(OUTPUT_DIR)]))
            && (r.Success? && failAfter.Some? ==>
                  run == Run(Interrupted(r.value), [MakeDirs(OUTPUT_DIR)] + outputs[..failAfter.value]))
            && (r.Success? && failAfter.None? ==>
                  && run.outcome == Completed(r.value)
                  && UploadFile(TRAIN_PATH, bucketEnv.GetOr(DEFAULT_BUCKET), "data/train/iris.csv") in run.actions)
  {
    if PrepareColumns(frame.header, frame.labels).Success? && failAfter.None? {
      var run := PrepareThreeWaySplit(Some(frame), bucketEnv, failAfter);
      assert run.actions[4] == UploadFile(TRAIN_PATH, bucketEnv.GetOr(DEFAULT_BUCKET), "data/train/iris.csv");
    }
  }

  /** When the split raises, the run writes and uploads nothing, though shaping succeeded. */
  lemma SplitFailureWritesNothing(frame: Frame, bucketEnv: Option<string>)
    requires PrepareColumns(frame.header, frame.labels).Success?
    ensures var run := PrepareThreeWaySplit(Some(frame), bucketEnv, Some(0));
            run.outcome.Interrupted? && run.actions == [MakeDirs(OUTPUT_DIR)]
  {
  }
}
