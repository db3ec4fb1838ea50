/** The plan dictionary: its defaults, the command-line walk that fills it,
    the plan files that are merged into it, and the assertions it must pass
    before any call is made. The "samples" entry is kept apart from the other
    keys, as the list every step appends to. */
module PlanModel {
  import opened Common
  import opened Text
  import Request
  import Dispatch

  datatype Plan = Plan(samples: seq<string>, settings: map<string, Value>)

  /** The plan before any argument or file, with OPENAI_API_KEY's value, if set. */
  function Defaults(apiKey: Option<string>): (p: Plan)
    ensures p.samples == []
    ensures "samples" !in p.settings
  {
    Plan([], map[
      "messages" := Messages([]),
      "model" := Text("gpt-4o-mini"),
      "temperature" := Num(1.0),
      "workers" := Int(16),
      "maxRetries" := Int(3),
      "baseUrl" := Text("https://api.openai.com/v1"),
      "apiKey" := (if apiKey.Some? then Text(apiKey.value) else Null),
      "skip" := Int(0),
      "output" := Text("csv"),
      "requestsPerSecond" := Int(128)])
  }

  /** The keys whose command-line value goes through `int(...)`. */
  predicate IntKey(key: string) {
    key == "skip" || key == "workers" || key == "maxRetries"
  }

  /** The value a `--key value` pair stores: `int(value)` for skip, workers
      and maxRetries, `float(value)` for temperature, the text otherwise. */
  function Convert(key: string, raw: string): Result<Value> {
    if IntKey(key) then
      match ParseInt(raw)
      case Some(n) => Success(Int(n))
      case None => Failure("ValueError: invalid literal for int()")
    else if key == "temperature" then
      match ParseReal(raw)
      case Some(x) => Success(Num(x))
      case None => Failure("ValueError: could not convert string to float")
    else Success(Text(raw))
  }

  /** A number written as `str(n)` is read back as that number: an integer
      for the integer keys, and the same value as a float for temperature. */
  lemma ConvertDecimal(key: string, n: int)
    ensures IntKey(key) ==> Convert(key, Decimal(n)) == Success(Int(n))
    ensures key == "temperature" ==> Convert(key, Decimal(n)) == Success(Num(n as real))
    ensures !IntKey(key) && key != "temperature" ==> Convert(key, Decimal(n)) == Success(Text(Decimal(n)))
  {
    ParseDecimal(n);
    ParseRealOfInt(Decimal(n), n);
  }

  /** One `--key value` pair: "sample" appends to the samples; any other key
      is set to the converted value. "samples" would replace the list by a
      string, which this model refuses. */
  function Assign(plan: Plan, key: string, raw: string): Result<Plan> {
    if key == "sample" then Success(plan.(samples := plan.samples + [raw]))
    else if key == "samples" then Failure("TypeError: the sample list replaced by a string")
    else
      var v :- Convert(key, raw);
      Success(plan.(settings := plan.settings[key := v]))
  }

  /** The plan and the plan files named after the command line is read. */
  datatype Parsed = Parsed(plan: Plan, filenames: seq<string>)

  /** The argument loop: an argument starting with "--" takes the next one as
      its value (there must be one); any other argument names a plan file. */
  function ApplyArguments(plan: Plan, filenames: seq<string>, args: seq<string>): Result<Parsed>
    decreases |args|
  {
    if args == [] then Success(Parsed(plan, filenames))
    else if StartsWith(args[0], "--") then
      if |args| < 2 then Failure("StopIteration")
      else
        var next :- Assign(plan, args[0][2..], args[1]);
        ApplyArguments(next, filenames, args[2..])
    else ApplyArguments(plan, filenames + [args[0]], args[1..])
  }

  /** The values given after "--sample", in argument order. */
  function SampleArgs(args: seq<string>): seq<string>
    decreases |args|
  {
    if args == [] then []
    else if StartsWith(args[0], "--") then
      if |args| < 2 then []
      else (if args[0][2..] == "sample" then [args[1]] else []) + SampleArgs(args[2..])
    else SampleArgs(args[1..])
  }

  /** The arguments that are not option names or option values, in order. */
  function FileArgs(args: seq<string>): seq<string>
    decreases |args|
  {
    if args == [] then []
    else if StartsWith(args[0], "--") then
      if |args| < 2 then [] else FileArgs(args[2..])
    else [args[0]] + FileArgs(args[1..])
  }

  /** The raw value of the last "--key" pair, if there is one. */
  function LastValue(args: seq<string>, key: string): Option<string>
    decreases |args|
  {
    if args == [] then None
    else if StartsWith(args[0], "--") then
      if |args| < 2 then None
      else if LastValue(args[2..], key).Some? then LastValue(args[2..], key)
      else if args[0][2..] == key then Some(args[1])
      else None
    else LastValue(args[1..], key)
  }

  /** What one `--key value` pair does to the samples and to the other keys. */
  lemma AssignEffect(plan: Plan, key: string, raw: string)
    requires Assign(plan, key, raw).Success?
    ensures var next := Assign(plan, key, raw).value;
      && key != "samples"
      && next.samples == plan.samples + (if key == "sample" then [raw] else [])
      && (key == "sample" ==> next.settings == plan.settings)
      && (key != "sample" ==> Convert(key, raw).Success? && next.settings == plan.settings[key := Convert(key, raw).value])
  {
  }

  /** The walk past one `--key value` pair, and past one file name. */
  lemma ApplyStep(plan: Plan, filenames: seq<string>, args: seq<string>)
    requires args != []
    ensures StartsWith(args[0], "--") && |args| >= 2 && Assign(plan, args[0][2..], args[1]).Success? ==>
      ApplyArguments(plan, filenames, args)
        == ApplyArguments(Assign(plan, args[0][2..], args[1]).value, filenames, args[2..])
    ensures StartsWith(args[0], "--") && ApplyArguments(plan, filenames, args).Success? ==>
      |args| >= 2 && Assign(plan, args[0][2..], args[1]).Success?
    ensures !StartsWith(args[0], "--") ==>
      ApplyArguments(plan, filenames, args) == ApplyArguments(plan, filenames + [args[0]], args[1..])
  {
  }

  /** Every "--sample" value is appended to the samples and every other plain
      argument to the file names, both in argument order. */
  lemma {:induction false} ArgumentsInOrder(plan: Plan, filenames: seq<string>, args: seq<string>)
    requires ApplyArguments(plan, filenames, args).Success?
    ensures ApplyArguments(plan, filenames, args).value.plan.samples == plan.samples + SampleArgs(args)
    ensures ApplyArguments(plan, filenames, args).value.filenames == filenames + FileArgs(args)
    decreases |args|
  {
    if args != [] {
      ApplyStep(plan, filenames, args);
      if StartsWith(args[0], "--") {
        var key := args[0][2..];
        var next := Assign(plan, key, args[1]).value;
        AssignEffect(plan, key, args[1]);
        ArgumentsInOrder(next, filenames, args[2..]);
        assert SampleArgs(args) == (if key == "sample" then [args[1]] else []) + SampleArgs(args[2..]);
        assert FileArgs(args) == FileArgs(args[2..]);
      } else {
        ArgumentsInOrder(plan, filenames + [args[0]], args[1..]);
        assert SampleArgs(args) == SampleArgs(args[1..]);
        assert FileArgs(args) == [args[0]] + FileArgs(args[1..]);
      }
    }
  }

  /** For any key other than "sample", the last "--key value" pair decides the
      stored value; a key that is never given keeps the value it had. */
  lemma {:induction false} LastValueWins(plan: Plan, filenames: seq<string>, args: seq<string>, key: string)
    requires ApplyArguments(plan, filenames, args).Success?
    requires key != "sample"
    ensures var after := ApplyArguments(plan, filenames, args).value.plan.settings;
      match LastValue(args, key)
      case Some(raw) => Convert(key, raw).Success? && key in after && after[key] == Convert(key, raw).value
      case None => (key in after <==> key in plan.settings) && (key in plan.settings ==> after[key] == plan.settings[key])
    decreases |args|
  {
    if args != [] {
      ApplyStep(plan, filenames, args);
      if StartsWith(args[0], "--") {
        var next := Assign(plan, args[0][2..], args[1]).value;
        AssignEffect(plan, args[0][2..], args[1]);
        LastValueWins(next, filenames, args[2..], key);
      } else {
        LastValueWins(plan, filenames + [args[0]], args[1..], key);
      }
    }
  }

  /** merge_plan: the new plan's samples follow the current ones, and every
      other key of the new plan overwrites the current value. */
  function MergedPlan(current: Plan, next: Plan): (r: Plan)
    ensures r.samples == current.samples + next.samples
    ensures forall k :: k in r.settings <==> k in current.settings || k in next.settings
    ensures forall k :: k in next.settings ==> r.settings[k] == next.settings[k]
    ensures forall k :: k in current.settings && k !in next.settings ==> r.settings[k] == current.settings[k]
  {
    Plan(current.samples + next.samples, current.settings + next.settings)
  }

  /** The plans merged one after another, in file order. */
  function MergeAll(plan: Plan, plans: seq<Plan>): Plan
    decreases |plans|
  {
    if plans == [] then plan else MergedPlan(MergeAll(plan, plans[..|plans| - 1]), plans[|plans| - 1])
  }

  /** The samples of every file, in file order. */
  function AllSamples(plans: seq<Plan>): seq<string>
    decreases |plans|
  {
    if plans == [] then [] else AllSamples(plans[..|plans| - 1]) + plans[|plans| - 1].samples
  }

  /** After all merges the samples are the starting ones followed by each
      file's samples in file order. */
  lemma {:induction false} MergeAllSamples(plan: Plan, plans: seq<Plan>)
    ensures MergeAll(plan, plans).samples == plan.samples + AllSamples(plans)
    decreases |plans|
  {
    if plans != [] {
      MergeAllSamples(plan, plans[..|plans| - 1]);
    }
  }

  /** read_file on a file's text: a JSON dictionary when its stripped text
      opens with '{' (`decodeJson` stands for json.loads), else the file's
      lines as samples. */
  function ReadFile(content: string, decodeJson: string -> Result<Plan>): Result<Plan> {
    if StartsWith(Strip(content), "{") then decodeJson(content) else Success(Plan(SplitLines(content), map[]))
  }

  /** Only the first character that is not whitespace decides the kind of file. */
  lemma ReadFileKind(content: string, decodeJson: string -> Result<Plan>)
    ensures ReadFile(content, decodeJson) ==
      if TrimLeft(content) != [] && TrimLeft(content)[0] == '{' then decodeJson(content)
      else Success(Plan(SplitLines(content), map[]))
  {
    StripStartsWith(content, '{');
  }

  /** A sample file, one sample per line, reads back as its samples. */
  lemma SampleFileReadsBack(lines: seq<string>, last: string, decodeJson: string -> Result<Plan>)
    requires forall i :: 0 <= i < |lines| ==> NoBreak(lines[i])
    requires NoBreak(last)
    requires TrimLeft(Terminated(lines) + last) == [] || TrimLeft(Terminated(lines) + last)[0] != '{'
    ensures ReadFile(Terminated(lines) + last, decodeJson)
      == Success(Plan(lines + (if last == [] then [] else [last]), map[]))
  {
    ReadFileKind(Terminated(lines) + last, decodeJson);
    SplitLinesRoundTrip(lines, last);
  }

  /** `[read_file(f) for f in filenames]`; `files` stands for the file system. */
  function ReadPlans(filenames: seq<string>, files: map<string, string>, decodeJson: string -> Result<Plan>): (r: Result<seq<Plan>>)
    ensures r.Success? ==> |r.value| == |filenames|
    decreases |filenames|
  {
    if filenames == [] then Success([])
    else
      var first := filenames[0];
      if first !in files then Failure("FileNotFoundError")
      else
        var plan :- ReadFile(files[first], decodeJson);
        var rest :- ReadPlans(filenames[1..], files, decodeJson);
        Success([plan] + rest)
  }

  /** The entry under `key`, as `plan[key]` reads it. */
  function Lookup(settings: map<string, Value>, key: string): (r: Result<Value>)
    ensures r.Success? <==> key in settings
    ensures r.Success? ==> r.value == settings[key]
  {
    if key in settings then Success(settings[key]) else Failure("KeyError: " + key)
  }

  /** A value compared with a number: ints and floats compare, others raise. */
  function Number(settings: map<string, Value>, key: string): (r: Result<real>)
    ensures r.Success? <==> key in settings && (settings[key].Int? || settings[key].Num?)
    ensures r.Success? && settings[key].Int? ==> r.value == settings[key].ival as real
    ensures r.Success? && settings[key].Num? ==> r.value == settings[key].rval
  {
    var v :- Lookup(settings, key);
    match v
    case Int(n) => Success(n as real)
    case Num(x) => Success(x)
    case _ => Failure("TypeError: '" + key + "' is not a number")
  }

  /** `float(plan['requestsPerSecond'])`, which also reads a string. */
  function Rate(settings: map<string, Value>): Result<real> {
    var v :- Lookup(settings, "requestsPerSecond");
    match v
    case Int(n) => Success(n as real)
    case Num(x) => Success(x)
    case Text(t) =>
      (match ParseReal(t)
       case Some(x) => Success(x)
       case None => Failure("ValueError: could not convert string to float"))
    case _ => Failure("TypeError: float() argument must be a string or a number")
  }

  /** What the rest of the script uses of the plan: the samples after the
      skipped ones, the settings of every call, the pacing period and the
      output format. */
  datatype Setup = Setup(samples: seq<string>, call: Request.CallConfig, period: real, format: Dispatch.Format)

  /** Assertions on the sample count, skip, workers and temperature hold. */
  predicate BoundsHold(plan: Plan) {
    var s := plan.settings;
    && |plan.samples| > 0
    && Number(s, "skip").Success? && |plan.samples| as real > Number(s, "skip").value
    && Number(s, "workers").Success? && Number(s, "workers").value > 0.0
    && Number(s, "temperature").Success? && 0.0 <= Number(s, "temperature").value <= 2.0
  }

  /** The first five assertions, in order, with their messages; on success
      the skip and the temperature they compared. */
  function CheckBounds(plan: Plan): (r: Result<(real, real)>)
    ensures r.Success? <==> BoundsHold(plan)
    ensures r.Success? ==> "skip" in plan.settings && "temperature" in plan.settings
    ensures r.Success? ==> r.value == (Number(plan.settings, "skip").value, Number(plan.settings, "temperature").value)
    ensures |plan.samples| == 0 ==> r == Failure("No samples provided")
  {
    var s := plan.settings;
    :- Need(|plan.samples| > 0, "No samples provided");
    var skip :- Number(s, "skip");
    :- Need(|plan.samples| as real > skip, "Skip is greater than the number of samples");
    var workers :- Number(s, "workers");
    :- Need(workers > 0.0, "Workers must be greater than 0");
    var temperature :- Number(s, "temperature");
    :- Need(temperature >= 0.0, "Temperature must be greater than or equal to 0");
    :- Need(temperature <= 2.0, "Temperature must be less than or equal to 2");
    Success((skip, temperature))
  }

  /** Assertions on the entries that must be present hold. */
  predicate EntriesHold(plan: Plan, skip: real) {
    var s := plan.settings;
    && "model" in s && "messages" in s && s["messages"].Messages? && |s["messages"].messages| > 0
    && "apiKey" in s && "baseUrl" in s && skip >= 0.0
    && Number(s, "maxRetries").Success? && Number(s, "maxRetries").value >= 0.0
  }

  /** The remaining assertions, in order, with their messages; on success
      the message list. */
  function CheckEntries(plan: Plan, skip: real): (r: Result<seq<Message>>)
    ensures r.Success? <==> EntriesHold(plan, skip)
    ensures r.Success? ==> "model" in plan.settings && "baseUrl" in plan.settings && skip >= 0.0
    ensures r.Success? ==> "messages" in plan.settings && plan.settings["messages"].Messages?
    ensures r.Success? ==> r.value == plan.settings["messages"].messages
  {
    var s := plan.settings;
    :- Need("model" in s, "Model must be provided");
    :- Need("messages" in s, "Messages must be provided");
    :- Need(s["messages"].Messages?, "TypeError: messages must be a list");
    var messages := s["messages"].messages;
    :- Need(|messages| > 0, "Messages must be provided");
    :- Need("apiKey" in s, "API key must be provided");
    :- Need("baseUrl" in s, "Base URL must be provided");
    :- Need(skip >= 0.0, "Skip must be greater than or equal to 0");
    var maxRetries :- Number(s, "maxRetries");
    :- Need(maxRetries >= 0.0, "Max retries must be greater than or equal to 0");
    Success(messages)
  }

  /** What follows the assertions: the period `1 / float(requestsPerSecond)`,
      the slice `samples[skip:]` and the output protocol. */
  function Prepare(plan: Plan, call: Request.CallConfig): (r: Result<Setup>)
    ensures r.Success? <==> PrepareHolds(plan)
    ensures r.Success? ==>
      var s := plan.settings;
      && r.value.samples == SliceFrom(plan.samples, s["skip"].ival)
      && r.value.call == call
      && r.value.period == 1.0 / Rate(s).value
      && r.value.format == Dispatch.FormatOf(s["output"])
  {
    var s := plan.settings;
    var rate :- Rate(s);
    :- Need(rate != 0.0, "ZeroDivisionError: float division by zero");
    var skip :- Lookup(s, "skip");
    :- Need(skip.Int?, "TypeError: slice indices must be integers");
    var output :- Lookup(s, "output");
    Success(Setup(SliceFrom(plan.samples, skip.ival), call, 1.0 / rate, Dispatch.FormatOf(output)))
  }

  /** The rate is a non-zero number, skip is a whole number, and there is an
      output entry. */
  predicate PrepareHolds(plan: Plan) {
    var s := plan.settings;
    Rate(s).Success? && Rate(s).value != 0.0 && "skip" in s && s["skip"].Int? && "output" in s
  }

  /** The assertions of the script, in their order and with their messages,
      then what follows them. */
  function Configure(plan: Plan): Result<Setup> {
    var s := plan.settings;
    var checked :- CheckBounds(plan);
    var messages :- CheckEntries(plan, checked.0);
    Prepare(plan, Request.CallConfig(s["model"], checked.1, messages, s["baseUrl"]))
  }

  /** A plan passes when every assertion holds and what follows them can be
      computed. */
  predicate Acceptable(plan: Plan) {
    BoundsHold(plan) && EntriesHold(plan, Number(plan.settings, "skip").value) && PrepareHolds(plan)
  }

  /** The script goes on exactly for acceptable plans, and a plan without
      samples fails the first assertion. */
  lemma ConfigurePasses(plan: Plan)
    ensures Configure(plan).Success? <==> Acceptable(plan)
    ensures |plan.samples| == 0 ==> Configure(plan) == Failure("No samples provided")
  {
  }

  /** An accepted plan calls with the samples after the first `skip` ones,
      and at least one is left. */
  lemma ConfigureSamples(plan: Plan)
    requires Configure(plan).Success?
    ensures var s := plan.settings;
      && "skip" in s && s["skip"].Int? && 0 <= s["skip"].ival < |plan.samples|
      && plan.samples == plan.samples[..s["skip"].ival] + Configure(plan).value.samples
      && |Configure(plan).value.samples| >= 1
  {
    var s := plan.settings;
    var bounds := CheckBounds(plan).value;
    var messages := CheckEntries(plan, bounds.0).value;
    var call := Request.CallConfig(s["model"], bounds.1, messages, s["baseUrl"]);
    assert Configure(plan) == Prepare(plan, call);
    var k := s["skip"].ival;
    assert k as real == bounds.0;
    assert 0 <= k < |plan.samples|;
  }

  /** Every call of an accepted plan uses a temperature in [0, 2] and the
      plan's non-empty messages, model and base URL. */
  lemma ConfigureCall(plan: Plan)
    requires Configure(plan).Success?
    ensures var call := Configure(plan).value.call;
      var s := plan.settings;
      && 0.0 <= call.temperature <= 2.0
      && "messages" in s && s["messages"].Messages?
      && call.messages == s["messages"].messages && |call.messages| >= 1
      && "model" in s && call.model == s["model"]
      && "baseUrl" in s && call.baseUrl == s["baseUrl"]
  {
    var s := plan.settings;
    var bounds := CheckBounds(plan).value;
    var messages := CheckEntries(plan, bounds.0).value;
    var call := Request.CallConfig(s["model"], bounds.1, messages, s["baseUrl"]);
    assert Configure(plan) == Prepare(plan, call);
  }

  /** An accepted plan paces its calls one period of 1 / rate apart, and
      writes in the format its output entry names. */
  lemma ConfigurePacing(plan: Plan)
    requires Configure(plan).Success?
    ensures var s := plan.settings;
      && Rate(s).Success? && Configure(plan).value.period == 1.0 / Rate(s).value
      && "output" in s && Configure(plan).value.format == Dispatch.FormatOf(s["output"])
  {
    var s := plan.settings;
    var bounds := CheckBounds(plan).value;
    var messages := CheckEntries(plan, bounds.0).value;
    var call := Request.CallConfig(s["model"], bounds.1, messages, s["baseUrl"]);
    assert Configure(plan) == Prepare(plan, call);
  }

  /** The plan dictionary as the script holds it: the sample list and the
      other entries, both updated in place. */
  class PlanDict {
    var samples: seq<string>
    var settings: map<string, Value>

    constructor (apiKey: Option<string>)
      ensures Snapshot() == Defaults(apiKey)
    {
      samples := [];
      settings := Defaults(apiKey).settings;
    }

    function Snapshot(): Plan
      reads this
    {
      Plan(samples, settings)
    }

    /** The `while` loop over sys.argv[1:]: fills this plan and the file
        names, or stops with the exception the loop raises. */
    method ParseArguments(args: seq<string>, found: seq<string>) returns (r: Result<seq<string>>)
      modifies this
      ensures var expected := ApplyArguments(old(Snapshot()), found, args);
        && r.Success? == expected.Success?
        && (r.Success? ==> Snapshot() == expected.value.plan && r.value == expected.value.filenames)
        && (r.Failure? ==> r.error == expected.error)
    {
      var filenames := found;
      var i := 0;
      while i < |args|
        invariant 0 <= i <= |args|
        invariant ApplyArguments(old(Snapshot()), found, args) == ApplyArguments(Snapshot(), filenames, args[i..])
        decreases |args| - i
      {
        var derp := args[i];
        assert args[i..][0] == derp;
        if StartsWith(derp, "--") {
          if i + 1 >= |args| {
            return Failure("StopIteration");
          }
          var key := derp[2..];
          var raw := args[i + 1];
          assert args[i..][1] == raw && args[i..][2..] == args[i + 2..];
          if key == "sample" {
            samples := samples + [raw];
          } else if key == "samples" {
            return Failure("TypeError: the sample list replaced by a string");
          } else {
            var value := Convert(key, raw);
            if value.Failure? {
              return Failure(value.error);
            }
            settings := settings[key := value.value];
          }
          i := i + 2;
        } else {
          assert args[i..][1..] == args[i + 1..];
          filenames := filenames + [derp];
          i := i + 1;
        }
      }
      assert args[i..] == [];
      r := Success(filenames);
    }

    /** merge_plan(plan, next): extend the samples, then set each other key. */
    method Merge(next: Plan)
      modifies this
      ensures Snapshot() == MergedPlan(old(Snapshot()), next)
    {
      samples := samples + next.samples;
      var pending := next.settings.Keys;
      while pending != {}
        invariant pending <= next.settings.Keys
        invariant samples == old(samples) + next.samples
        invariant forall k :: k in settings <==> k in old(settings) || (k in next.settings && k !in pending)
        invariant forall k :: k in settings ==>
          settings[k] == if k in next.settings && k !in pending then next.settings[k] else old(settings)[k]
        decreases pending
      {
        var key :| key in pending;
        settings := settings[key := next.settings[key]];
        pending := pending - {key};
      }
      assert settings == old(settings) + next.settings;
    }
  }
}
