/** The worker pool and the result writer. Every sample's call is submitted
    (all of them run), then the futures are read in submission order and each
    result is written in the chosen format, after a csv header. The first
    future whose call raised stops the script. The pool is modelled as one
    sequential schedule: the calls run one after another against the shared
    gate. */
module Dispatch {
  import opened Common
  import opened Pacing
  import opened Request
  import Csv

  /** `plan['output']`: jsonl, csv, asorted; any other value writes nothing. */
  datatype Format = JsonLines | CsvRows | Asorted | NoOutput

  function FormatOf(output: Value): Format {
    if output == Text("jsonl") then JsonLines
    else if output == Text("csv") then CsvRows
    else if output == Text("asorted") then Asorted
    else NoOutput
  }

  /** What the script prints, and the exception that stopped it, if any. */
  datatype Transcript = Transcript(lines: seq<string>, error: Option<string>)

  /** The oracle of the i-th call; a call without one meets no outcome. */
  function TrialAt(trials: seq<seq<Exchange>>, i: nat): seq<Exchange> {
    if i < |trials| then trials[i] else []
  }

  /** The futures' results, in submission order. */
  function Results(cfg: CallConfig, samples: seq<string>, trials: seq<seq<Exchange>>): (rs: seq<CallResult>)
    ensures |rs| == |samples|
  {
    seq(|samples|, i requires 0 <= i < |samples| => CallResultOf(cfg, samples[i], TrialAt(trials, i)))
  }

  /** The clock readings of the first n calls, in the order they ran. */
  function Readings(cfg: CallConfig, trials: seq<seq<Exchange>>, n: nat): seq<real>
    decreases n
  {
    if n == 0 then [] else Readings(cfg, trials, n - 1) + UsedClock(cfg, TrialAt(trials, n - 1))
  }

  /** The cursor after i + 1 calls is the cursor after i calls moved on by
      the readings of call i. */
  lemma ReadingsStep(start: real, period: real, cfg: CallConfig, trials: seq<seq<Exchange>>, i: nat)
    ensures CursorAfter(start, period, Readings(cfg, trials, i + 1))
      == CursorAfter(CursorAfter(start, period, Readings(cfg, trials, i)), period, UsedClock(cfg, TrialAt(trials, i)))
  {
    CursorAfterConcat(start, period, Readings(cfg, trials, i), UsedClock(cfg, TrialAt(trials, i)));
  }

  /** write_result for one answer. `jsonLine` stands for the json.dumps line. */
  function WriteResult(format: Format, sample: string, content: string, jsonLine: (string, string) -> string): seq<string> {
    match format
    case JsonLines => [jsonLine(sample, content)]
    case CsvRows => [Csv.Row(sample, content)]
    case Asorted => [content]
    case NoOutput => []
  }

  function Unsettled(r: CallResult): string {
    if r == Raised then "exception raised by call" else "call did not settle"
  }

  /** Reading the futures in order and writing each answer, until one raised. */
  function Written(format: Format, results: seq<CallResult>, jsonLine: (string, string) -> string): Transcript
    decreases |results|
  {
    if results == [] then Transcript([], None)
    else
      match results[0]
      case Answered(sample, content) =>
        var rest := Written(format, results[1..], jsonLine);
        Transcript(WriteResult(format, sample, content, jsonLine) + rest.lines, rest.error)
      case _ => Transcript([], Some(Unsettled(results[0])))
  }

  /** One step of Written from position k: an answer is written and reading
      goes on, anything else stops it with nothing more written. */
  lemma WrittenAt(format: Format, results: seq<CallResult>, jsonLine: (string, string) -> string, k: nat)
    requires k < |results|
    ensures var w := Written(format, results[k..], jsonLine);
      var rest := Written(format, results[k + 1..], jsonLine);
      if results[k].Answered? then
        w == Transcript(WriteResult(format, results[k].sample, results[k].content, jsonLine) + rest.lines, rest.error)
      else w == Transcript([], Some(Unsettled(results[k])))
  {
    assert results[k..][0] == results[k];
    assert results[k..][1..] == results[k + 1..];
  }

  function HeaderLines(format: Format): seq<string> {
    if format == CsvRows then [Csv.Header] else []
  }

  /** Everything the pool part of the script prints. */
  function Emit(format: Format, results: seq<CallResult>, jsonLine: (string, string) -> string): Transcript {
    var body := Written(format, results, jsonLine);
    Transcript(HeaderLines(format) + body.lines, body.error)
  }

  /** Each sample's result belongs to that sample, and there is one per sample. */
  lemma ResultsPairSamples(cfg: CallConfig, samples: seq<string>, trials: seq<seq<Exchange>>)
    ensures |Results(cfg, samples, trials)| == |samples|
    ensures forall i :: 0 <= i < |samples| && Results(cfg, samples, trials)[i].Answered? ==>
      Results(cfg, samples, trials)[i].sample == samples[i]
  {
    forall i | 0 <= i < |samples|
      ensures Results(cfg, samples, trials)[i].Answered? ==> Results(cfg, samples, trials)[i].sample == samples[i]
    {
      assert Results(cfg, samples, trials)[i] == CallResultOf(cfg, samples[i], TrialAt(trials, i));
    }
  }

  /** Output stops at the first result that is not an answer: with the first
      k results answered and the next one not (or none left), k results are
      written, and the script fails exactly when one is left. */
  lemma {:induction false} OutputStopsAtFirstUnsettled(format: Format, results: seq<CallResult>, jsonLine: (string, string) -> string, k: nat)
    requires k <= |results|
    requires forall j :: 0 <= j < k ==> results[j].Answered?
    requires k == |results| || !results[k].Answered?
    ensures Written(format, results, jsonLine).error.None? <==> k == |results|
    ensures format != NoOutput ==> |Written(format, results, jsonLine).lines| == k
    decreases k
  {
    if k > 0 {
      OutputStopsAtFirstUnsettled(format, results[1..], jsonLine, k - 1);
    } else if results != [] {
      assert !results[0].Answered?;
    }
  }

  /** In csv mode a run whose calls all answered prints the header and then one
      row per result, which reads back as that result's sample and content. */
  lemma {:induction false} CsvOutputReadsBack(results: seq<CallResult>, jsonLine: (string, string) -> string)
    requires forall j :: 0 <= j < |results| ==> results[j].Answered?
    ensures var body := Written(CsvRows, results, jsonLine);
      && body.error == None
      && |body.lines| == |results|
      && forall k :: 0 <= k < |results| ==>
           Csv.ParseRecord(body.lines[k]) == Some([results[k].sample, results[k].content])
    decreases |results|
  {
    if results != [] {
      var body := Written(CsvRows, results, jsonLine);
      var rest := Written(CsvRows, results[1..], jsonLine);
      CsvOutputReadsBack(results[1..], jsonLine);
      Csv.RowRoundTrip(results[0].sample, results[0].content);
      assert body.lines == [Csv.Row(results[0].sample, results[0].content)] + rest.lines;
      forall k | 0 <= k < |results|
        ensures Csv.ParseRecord(body.lines[k]) == Some([results[k].sample, results[k].content])
      {
        if k > 0 {
          assert body.lines[k] == rest.lines[k - 1];
        }
      }
    }
  }

  /** In asorted mode a run whose calls all answered prints exactly the contents. */
  lemma {:induction false} AsortedPrintsContents(results: seq<CallResult>, jsonLine: (string, string) -> string)
    requires forall j :: 0 <= j < |results| ==> results[j].Answered?
    ensures Emit(Asorted, results, jsonLine)
      == Transcript(seq(|results|, k requires 0 <= k < |results| => results[k].content), None)
    decreases |results|
  {
    if results != [] {
      AsortedPrintsContents(results[1..], jsonLine);
      var rest := Written(Asorted, results[1..], jsonLine);
      assert rest.lines == seq(|results| - 1, k requires 0 <= k < |results| - 1 => results[1..][k].content);
      assert Written(Asorted, results, jsonLine).lines == [results[0].content] + rest.lines;
    }
  }

  /** The csv run: if every sample is answered, the header is followed by one
      row per sample in submission order, pairing the sample with its answer. */
  lemma CsvRowsPairSamples(cfg: CallConfig, samples: seq<string>, trials: seq<seq<Exchange>>, jsonLine: (string, string) -> string)
    requires forall i :: 0 <= i < |samples| ==> Results(cfg, samples, trials)[i].Answered?
    ensures var out := Emit(CsvRows, Results(cfg, samples, trials), jsonLine);
      && out.error == None
      && |out.lines| == |samples| + 1
      && out.lines[0] == Csv.Header
      && forall k :: 0 <= k < |samples| ==>
           Csv.ParseRecord(out.lines[k + 1]) == Some([samples[k], Results(cfg, samples, trials)[k].content])
  {
    ResultsPairSamples(cfg, samples, trials);
    CsvRowsPair(samples, Results(cfg, samples, trials), jsonLine);
  }

  /** CsvRowsPairSamples for any results that answer their own samples. */
  lemma CsvRowsPair(samples: seq<string>, results: seq<CallResult>, jsonLine: (string, string) -> string)
    requires |results| == |samples|
    requires forall i :: 0 <= i < |samples| ==> results[i].Answered? && results[i].sample == samples[i]
    ensures var out := Emit(CsvRows, results, jsonLine);
      && out.error == None
      && |out.lines| == |samples| + 1
      && out.lines[0] == Csv.Header
      && forall k :: 0 <= k < |samples| ==>
           Csv.ParseRecord(out.lines[k + 1]) == Some([samples[k], results[k].content])
  {
    CsvOutputReadsBack(results, jsonLine);
    var out := Emit(CsvRows, results, jsonLine);
    var body := Written(CsvRows, results, jsonLine);
    assert out.lines == [Csv.Header] + body.lines;
    forall k | 0 <= k < |samples|
      ensures Csv.ParseRecord(out.lines[k + 1]) == Some([samples[k], results[k].content])
    {
      assert out.lines[k + 1] == body.lines[k];
    }
  }

  /** `[executor.submit(call, ...) for sample in samples]`, run on one
      schedule: every sample's call runs, in submission order, all against
      the same gate. */
  method Submit(gate: RateGate, cfg: CallConfig, samples: seq<string>, trials: seq<seq<Exchange>>)
    returns (results: seq<CallResult>)
    modifies gate
    ensures results == Results(cfg, samples, trials)
    ensures gate.cursor == CursorAfter(old(gate.cursor), gate.period, Readings(cfg, trials, |samples|))
  {
    results := [];
    ghost var all := Results(cfg, samples, trials);
    for i := 0 to |samples|
      invariant results == all[..i]
      invariant gate.cursor == CursorAfter(old(gate.cursor), gate.period, Readings(cfg, trials, i))
    {
      ReadingsStep(old(gate.cursor), gate.period, cfg, trials, i);
      var r, _ := Call(gate, cfg, samples[i], TrialAt(trials, i));
      assert all[i] == r;
      TakeOneMore(all, i);
      results := results + [r];
    }
    assert all[..|samples|] == all;
  }

  /** Printing the header (csv) and reading the futures in submission order,
      writing each result, until one raised. */
  method Collect(format: Format, results: seq<CallResult>, jsonLine: (string, string) -> string)
    returns (out: Transcript)
    ensures out == Emit(format, results, jsonLine)
  {
    var lines := HeaderLines(format);
    var k := 0;
    while k < |results|
      invariant 0 <= k <= |results|
      invariant Emit(format, results, jsonLine).lines == lines + Written(format, results[k..], jsonLine).lines
      invariant Emit(format, results, jsonLine).error == Written(format, results[k..], jsonLine).error
    {
      WrittenAt(format, results, jsonLine, k);
      if !results[k].Answered? {
        assert lines + [] == lines;
        out := Transcript(lines, Some(Unsettled(results[k])));
        return;
      }
      var written := WriteResult(format, results[k].sample, results[k].content, jsonLine);
      AppendAssoc(lines, written, Written(format, results[k + 1..], jsonLine).lines);
      lines := lines + written;
      k := k + 1;
    }
    assert results[k..] == [];
    assert lines + [] == lines;
    out := Transcript(lines, None);
  }

  /** The `with ThreadPoolExecutor` block: submit every call, then collect. */
  method Pool(gate: RateGate, cfg: CallConfig, format: Format, samples: seq<string>,
              trials: seq<seq<Exchange>>, jsonLine: (string, string) -> string)
    returns (out: Transcript)
    modifies gate
    ensures out == Emit(format, Results(cfg, samples, trials), jsonLine)
    ensures gate.cursor == CursorAfter(old(gate.cursor), gate.period, Readings(cfg, trials, |samples|))
  {
    var results := Submit(gate, cfg, samples, trials);
    out := Collect(format, results, jsonLine);
  }
}
