/** The script from start to end: the default plan, the command line, the
    plan files merged in order, the assertions, and then the pool that calls
    the model once per remaining sample and prints the answers. */
module Chorus {
  import opened Common
  import opened Pacing
  import opened Request
  import opened Dispatch
  import opened PlanModel

  /** Everything the script takes from outside: OPENAI_API_KEY, the files
      found in ~/.chorus, the command-line arguments, the file system's
      contents, the clock at start-up, and the exchanges each call meets. */
  datatype World = World(
    apiKey: Option<string>,
    chorusFiles: seq<string>,
    args: seq<string>,
    files: map<string, string>,
    start: real,
    trials: seq<seq<Exchange>>)

  /** The plan the script arrives at before any call, or the exception or
      failed assertion that ends it first. */
  function Prepared(world: World, decodeJson: string -> Result<Plan>): Result<Setup> {
    var parsed :- ApplyArguments(Defaults(world.apiKey), world.chorusFiles, world.args);
    var plans :- ReadPlans(parsed.filenames, world.files, decodeJson);
    Configure(MergeAll(parsed.plan, plans))
  }

  /** What the script prints, and the error that ends it, if any. */
  function Script(world: World, decodeJson: string -> Result<Plan>, jsonLine: (string, string) -> string): Transcript {
    match Prepared(world, decodeJson)
    case Failure(e) => Transcript([], Some(e))
    case Success(setup) => Emit(setup.format, Results(setup.call, setup.samples, world.trials), jsonLine)
  }

  /** The script, step by step, on a mutable plan and a rate gate. */
  method Run(world: World, decodeJson: string -> Result<Plan>, jsonLine: (string, string) -> string)
    returns (out: Transcript)
    ensures out == Script(world, decodeJson, jsonLine)
  {
    var plan := new PlanDict(world.apiKey);
    var parsed := plan.ParseArguments(world.args, world.chorusFiles);
    if parsed.Failure? {
      return Transcript([], Some(parsed.error));
    }
    var plans := ReadPlans(parsed.value, world.files, decodeJson);
    if plans.Failure? {
      return Transcript([], Some(plans.error));
    }
    ghost var initial := plan.Snapshot();
    for i := 0 to |plans.value|
      invariant plan.Snapshot() == MergeAll(initial, plans.value[..i])
    {
      assert plans.value[..i + 1][..i] == plans.value[..i];
      plan.Merge(plans.value[i]);
    }
    assert plans.value[..|plans.value|] == plans.value;
    var setup := Configure(plan.Snapshot());
    if setup.Failure? {
      return Transcript([], Some(setup.error));
    }
    var gate := new RateGate(world.start, setup.value.period);
    out := Pool(gate, setup.value.call, setup.value.format, setup.value.samples, world.trials, jsonLine);
  }

  /** The samples that are called are a non-empty tail of the "--sample"
      values followed by the samples of every plan file, those of ~/.chorus
      first and then those named on the command line, in order. */
  lemma SamplesInOrder(world: World, decodeJson: string -> Result<Plan>)
    requires Prepared(world, decodeJson).Success?
    ensures var filenames := world.chorusFiles + FileArgs(world.args);
      && ReadPlans(filenames, world.files, decodeJson).Success?
      && |Prepared(world, decodeJson).value.samples| >= 1
      && EndsWith(SampleArgs(world.args) + AllSamples(ReadPlans(filenames, world.files, decodeJson).value),
                  Prepared(world, decodeJson).value.samples)
  {
    PreparedSteps(world, decodeJson);
    CalledTail(Parse(world).plan, ReadPlans(world.chorusFiles + FileArgs(world.args), world.files, decodeJson).value);
  }

  /** Merging the plan files into a plan and checking the result: the called
      samples end the plan's samples followed by the files' samples. */
  lemma CalledTail(plan: Plan, plans: seq<Plan>)
    requires Configure(MergeAll(plan, plans)).Success?
    ensures |Configure(MergeAll(plan, plans)).value.samples| >= 1
    ensures EndsWith(plan.samples + AllSamples(plans), Configure(MergeAll(plan, plans)).value.samples)
  {
    var merged := MergeAll(plan, plans);
    MergeAllSamples(plan, plans);
    ConfigureSamples(merged);
    TailOf(merged.samples, Configure(merged).value.samples, merged.settings["skip"].ival);
  }

  /** A sequence that is a prefix of length k followed by `tail` ends in it. */
  lemma TailOf<T>(all: seq<T>, tail: seq<T>, k: nat)
    requires k <= |all| && all == all[..k] + tail
    ensures EndsWith(all, tail)
  {
  }

  /** The command line read into the default plan. */
  function Parse(world: World): Parsed
    requires ApplyArguments(Defaults(world.apiKey), world.chorusFiles, world.args).Success?
  {
    ApplyArguments(Defaults(world.apiKey), world.chorusFiles, world.args).value
  }

  /** A prepared run got past the command line and read every plan file. */
  lemma PreparedSteps(world: World, decodeJson: string -> Result<Plan>)
    requires Prepared(world, decodeJson).Success?
    ensures ApplyArguments(Defaults(world.apiKey), world.chorusFiles, world.args).Success?
    ensures Parse(world).plan.samples == SampleArgs(world.args)
    ensures Parse(world).filenames == world.chorusFiles + FileArgs(world.args)
    ensures ReadPlans(world.chorusFiles + FileArgs(world.args), world.files, decodeJson).Success?
    ensures Prepared(world, decodeJson)
      == Configure(MergeAll(Parse(world).plan, ReadPlans(world.chorusFiles + FileArgs(world.args), world.files, decodeJson).value))
  {
    ArgumentsInOrder(Defaults(world.apiKey), world.chorusFiles, world.args);
    assert [] + SampleArgs(world.args) == SampleArgs(world.args);
  }

  /** A csv run in which every call is answered prints the header and then,
      for each sample called and in the order called, one row that reads back
      as that sample and its answer. */
  lemma CsvRunPairsSamples(world: World, decodeJson: string -> Result<Plan>, jsonLine: (string, string) -> string)
    requires Prepared(world, decodeJson).Success?
    requires Prepared(world, decodeJson).value.format == CsvRows
    requires var setup := Prepared(world, decodeJson).value;
      forall i :: 0 <= i < |setup.samples| ==> Results(setup.call, setup.samples, world.trials)[i].Answered?
    ensures var setup := Prepared(world, decodeJson).value;
      var out := Script(world, decodeJson, jsonLine);
      var results := Results(setup.call, setup.samples, world.trials);
      && out.error == None
      && |out.lines| == |setup.samples| + 1
      && out.lines[0] == "sample,content"
      && forall k :: 0 <= k < |setup.samples| ==>
           Csv.ParseRecord(out.lines[k + 1]) == Some([setup.samples[k], results[k].content])
  {
    var setup := Prepared(world, decodeJson).value;
    CsvRowsPairSamples(setup.call, setup.samples, world.trials, jsonLine);
  }
}
