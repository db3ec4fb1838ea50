# chorus, modelled in Dafny

chorus is a one-file Python script. It sends each of a list of sample
strings to an OpenAI-compatible chat-completions endpoint and prints the
answers. The model covers the script's logic from start to end:

- the plan dictionary and how it is assembled. It starts from the defaults,
  then the command line is walked: `--sample v` appends a sample,
  `--key v` sets a key, and any other argument names a plan file. Plan files
  are read, either as JSON or as one sample per line, and merged in order.
- the assertions the plan must pass, the skip slice `samples[skip:]`, and the
  pacing period `1 / requestsPerSecond`.
- the shared pacing cursor (`touch_temporal_cursor` and `throttle`). It is a
  class `RateGate` whose `Acquire` moves the cursor.
- one `call`: the attempts, the retry temperature, the URL decomposition, the
  request body, and the self-recursion on `attempt`. A 429 calls
  `attempt + 1` from inside the frame's `try`, so that frame stays ready to
  catch. A failure inside the `try` re-raises on attempt 0 and otherwise
  calls `attempt - 1` from the `except`. An exception that leaves a frame is
  caught by the innermost frame still waiting on its 429 call, and that frame
  retries with its own attempt minus one. The recursion is modelled as a loop
  over the exchanges the attempts meet, carrying the live frames: the running
  attempt and the attempt numbers of the waiting 429 frames.
- the pool and the writer. Every sample's call is submitted. The results are
  then read in submission order and written as jsonl, as csv (escaped as in
  section 2, items 6 and 7, of RFC 4180, after a `sample,content` header), or
  as bare contents (`asorted`). Writing stops at the first call that raised.

The outside world is made of parameters:

- the environment variable `OPENAI_API_KEY`;
- the files found in `~/.chorus`;
- the command-line arguments;
- the file system, as a map from names to contents;
- the clock at start-up;
- for each call, a finite sequence of exchanges. Each exchange is the clock
  reading one attempt takes at the rate gate, and the outcome the server
  gives that attempt: `Ok(content)`, `NoContent` (a 200 whose JSON has no
  `choices[0].message.content`), `TooMany` (429) or `Fail` (anything else the
  `try` catches).

`json.loads` and `json.dumps` are function parameters (`decodeJson` and
`jsonLine`). Time is a real number of seconds.

Modules, one per file, in dependency order:

| file | module | what it holds |
|---|---|---|
| common.dfy | Common | Option, Result, the assertion verdict, message and plan value types, Python slicing |
| text.dfy | Text | `str.strip`, `str.splitlines`, `int(...)`, `float(...)` |
| pacing.dfy | Pacing | `touch_temporal_cursor`, the RateGate class, pacing of sends |
| url.dfy | Url | `split("/")`, the protocol test, the endpoint of a base URL |
| request.dfy | Request | temperature, payload, the attempt state machine, `call` as a method |
| csv.dfy | Csv | `escape_for_csv`, the csv row, a record reader and the round trip |
| dispatch.dfy | Dispatch | output formats, the writer, the pool (Submit, Collect, Pool) |
| plan.dfy | PlanModel | defaults, argument walk, `merge_plan`, `read_file`, assertions, the PlanDict class |
| chorus.dfy | Chorus | the whole script as a method (`Run`) and as a function (`Script`) |

How the code behaves, in points a reader might not expect:

- Results are written in submission order, because the futures are read in
  list order, not as they complete.
- `maxRetries` is checked to be non-negative and never used, so no retry
  budget exists. A call can go on forever: an endless run of 429s, or 429s
  and failures that never bring an exception out of a frame while every
  waiting 429 frame is on attempt 0. In the model its exchanges run out,
  which gives `Pending`. A call that keeps failing does end: after
  `[429, failure, failure]` the failure at attempt 0 finds only the waiting
  frame of attempt 0, which re-raises, and the call raises.
- A failure at attempt 0 is not always the end of the call. After two 429s
  and three failures the attempts run 0, 1, 2, 1, 0, and the last failure
  is caught by the frame of attempt 1, still waiting on its 429 call, which
  retries attempt 0.
- The content of a 200 is read after the `try` (chorus.py:173). A response
  without it raises out of its own frame at any attempt, and waiting 429
  frames catch it like any other failure.
- A call that raises stops the whole script at the point where its result is
  read. The results before it have been written and none after it are.
- The csv escaping also quotes fields that hold a carriage return.

## Model

| member | source | states |
|---|---|---|
| Common.SliceFrom | chorus.py:176 | Python's `s[k:]` for the non-negative k the assertion at chorus.py:99 lets through: for k within the length, the sequence is its first k elements followed by the result, and a k past the end gives nothing |
| Pacing.TouchTemporalCursor | chorus.py:104-110 | the pause is never negative; it is zero exactly when `now` has reached the cursor (burst after idle); the caller sends at the later of `now` and the cursor; the new cursor is one period after that send time and at least one period past the old cursor |
| Pacing.CursorAdvances | chorus.py:104-110 | after n acquires the cursor has moved on by at least n periods, whatever the clock says (the cursor is monotonic for a non-negative period) |
| Pacing.CursorAfterConcat | chorus.py:115-119 | acquiring for one run of times and then another leaves the cursor where acquiring for both runs in one go does |
| Pacing.ConsecutiveSendsArePaced | chorus.py:104-119 | neighbouring send times of successive acquires are at least one period apart |
| Pacing.SendsArePaced | chorus.py:104-119 | the i-th and j-th sends are at least (j - i) periods apart |
| Pacing.PacingWindow | chorus.py:113-119 | if sends i to j fall in a window of width w, then (j - i) periods fit in w, so a window holds at most w / period + 1 sends |
| Pacing.RateGate.constructor | chorus.py:112 | the gate starts with its cursor at the start time and keeps the period |
| Pacing.RateGate.Acquire | chorus.py:115-119 | throttle: the new cursor and the pause are those of touch_temporal_cursor at `now`; the pause is non-negative and zero exactly after idle; the cursor becomes `now + pause + period` |
| Url.Split | chorus.py:150 | `split(sep)` always has at least one part |
| Url.EndpointOf | chorus.py:148-153 | the protocol, host and request path `call` derives from a base URL, or none when `split("/")[2]` fails; its properties are EndpointShape and Decompose |
| Url.JoinSplit | chorus.py:150 | joining the parts of `split(sep)` with `sep` gives back the string |
| Url.SplitCount | chorus.py:150 | `split(sep)` has one more part than there are separators, and no part holds a separator |
| Url.Protocol | chorus.py:149 | the protocol is "https" exactly when the URL starts with "https", and "http" otherwise |
| Url.ProtocolOfScheme | chorus.py:149 | a URL written as `http://...` or `https://...` gets its own protocol back |
| Url.HostIsThirdPart | chorus.py:150 | in `scheme//host[/rest]` the third '/'-separated part is the host |
| Url.EndpointShape | chorus.py:148-153 | an endpoint can be derived exactly when the URL holds at least two '/'; its host then holds no '/' and its path ends in "/chat/completions" |
| Url.Decompose | chorus.py:148-153 | for `protocol://host[/rest]` the endpoint is that protocol, that host, and `rest + "/chat/completions"` |
| Request.Temperature | chorus.py:131-133 | attempt 0 uses the configured temperature; every other attempt uses the larger of 0.5 and the configured temperature, so never less than 0.5 |
| Request.Payload | chorus.py:134-142 | the posted messages are the plan's messages followed by one user message holding the sample, and the temperature is that of the attempt |
| Request.Target | chorus.py:146-150 | the endpoint `call` posts to: that of a string base URL, and none for any other value, which fails inside the `try` like a malformed URL |
| Request.NextStep | chorus.py:155-172 | one frame's decision: it returns exactly on a 200 with content, calls the next attempt from its `try` exactly on a 429, retries the previous attempt from its `except` exactly on a caught failure at a non-zero attempt, and lets the exception leave the frame exactly on a 200 without content or a failure at attempt 0 |
| Request.Catch | chorus.py:165-172 | an exception rising through the waiting 429 frames leaves the call exactly when all of them are on attempt 0; otherwise the innermost frame on another attempt b catches it, the frames above it are gone, and the call goes on at attempt b - 1 with the frames below it still waiting |
| Request.Advance | chorus.py:155-173 | one attempt with its waiting frames: it answers exactly on a 200 with content, and raises out of the call exactly when the exception leaves its frame and every waiting frame is on attempt 0 |
| Request.Settle | chorus.py:121-174 | what the recursive `call` settles to from given frames: an answer always carries the call's own sample, and with no exchanges left nothing is settled |
| Request.Trace | chorus.py:121-174 | the frames live at each attempt: at most one attempt per exchange, the first one being the starting frames |
| Request.Attempts | chorus.py:121-174 | the attempt numbers in order: at most one attempt per exchange, and the first is the starting attempt |
| Request.AttemptsOfTrace | chorus.py:121-174 | the attempt numbers are exactly those of the frames Trace lists, one for one |
| Request.AttemptsNeverNegative | chorus.py:159-172 | starting from non-negative frames, no attempt number and no waiting frame's number is ever negative |
| Request.AttemptBalance | chorus.py:159-172 | up to the first exception that leaves a frame, the k-th attempt number is the starting one plus the 429s and minus the failures met before it |
| Request.RaisedIffUncaught | chorus.py:165-173 | a call raises exactly when, at some attempt it makes, the exception leaves that attempt's frame (a failure at attempt 0, or a 200 without content) while every waiting 429 frame is on attempt 0 |
| Request.AnsweredIffSuccess | chorus.py:155-174 | a call answers with a given content exactly when one of its attempts meets a 200 with that content |
| Request.RateLimitedThenAnswered | chorus.py:159-165 | after any run of 429s, a 200 answers the call on attempt start + (number of 429s), with one more waiting frame per 429 |
| Request.NoHardFailureNeverRaises | chorus.py:159-173 | if no attempt meets a failure or a 200 without content, the call never raises |
| Request.CaughtFailureRetries | chorus.py:159-172 | after 429, 429, failure, failure, failure, 200 "x", the call answers the sample with "x" after the attempts 0, 1, 2, 1, 0, 0: the failure at the second attempt 0 is caught by the waiting frame of attempt 1 |
| Request.ZeroFramesReraise | chorus.py:165-170 | after 429, failure, failure the call raises after the attempts 0, 1, 0: the only waiting frame is on attempt 0 and re-raises |
| Request.UnreachableRaisesAtOnce | chorus.py:146-170 | a base URL that cannot be taken apart fails inside the try, so the call raises on its first and only attempt |
| Request.SettleStep | chorus.py:155-173 | one attempt of an unsettled call: when it continues, the rest of the call belongs to the next frames and the trace goes on from them; an answer or a raise settles it, with that attempt the last one |
| Request.CallResultOf | chorus.py:121-174 | what `call(plan, sample)` returns or raises: an answer always pairs the call's own sample with its content |
| Request.Call | chorus.py:121-174 | the call method, a loop carrying the running attempt and the waiting 429 frames, returns what the frame machine settles to; it posts one request per attempt, built by Payload at that attempt's temperature, or none when no endpoint can be derived; every attempt acquires the gate once, so the cursor ends where acquiring at the attempts' clock readings leaves it |
| Csv.Row | chorus.py:185-191 | the printed csv line: the escaped sample, a comma, the escaped content; RowRoundTrip reads it back |
| Csv.CollapseDoubled | chorus.py:188 | reading "" back as " undoes `replace('"', '""')` |
| Csv.Escape | chorus.py:185-190 | a field with none of , \n \r " is written unchanged; any other field is framed in quotes, and collapsing the doubled quotes inside gives the field back |
| Csv.EscapeReadsBack | chorus.py:185-190 | an escaped field, followed by the end of the line or a comma, is read back by a csv field reader as exactly the field |
| Csv.RowRoundTrip | chorus.py:185-191 | a csv row reads back as exactly the two fields it was made of, the sample and the content, whatever they hold |
| Dispatch.FormatOf | chorus.py:178-193 | the output protocol: "jsonl", "csv" and "asorted" each pick their writer, and any other value prints nothing |
| Dispatch.WriteResult | chorus.py:180-193 | `write_result` for one answer in each format: a json line, a csv row, the bare content, or nothing |
| Dispatch.Written | chorus.py:204-206 | the futures read in order, each answer written, until the first call that raised; OutputStopsAtFirstUnsettled states its effect |
| Dispatch.Emit | chorus.py:199-206 | the csv header, in csv mode, followed by Written |
| Dispatch.Results | chorus.py:203-205 | there is one result per sample |
| Dispatch.ResultsPairSamples | chorus.py:203-205 | there is one result per sample, and each answered result carries the sample it was submitted for |
| Dispatch.OutputStopsAtFirstUnsettled | chorus.py:204-206 | if the first k results are answers and the next one is not (or there is none), exactly k results are written (in any printing format), and the script fails exactly when one was left unread |
| Dispatch.CsvOutputReadsBack | chorus.py:184-206 | in csv mode, if every call answered, one row per result is printed with no error, and the k-th row reads back as the k-th result's sample and content |
| Dispatch.AsortedPrintsContents | chorus.py:192-206 | in asorted mode, if every call answered, exactly the contents are printed, in order, with no error |
| Dispatch.CsvRowsPairSamples | chorus.py:199-206 | in csv mode, if every sample is answered, the header comes first and then one row per sample, in submission order, each pairing that sample with its answer |
| Dispatch.Submit | chorus.py:202-203 | every sample's call runs, in submission order, against the one gate; the results are the calls' results, and the cursor ends where acquiring at every attempt's clock reading, call after call, leaves it |
| Dispatch.Collect | chorus.py:199-206 | prints the csv header when the format is csv, then writes each answered result in order, and stops with the error at the first result that is not an answer |
| Dispatch.Pool | chorus.py:199-206 | the pool prints what Collect prints for the results of Submit, and leaves the gate as Submit does |
| Text.Strip | chorus.py:69 | `str.strip`: the text between the leading and the trailing whitespace, as the contracts of TrimLeft and TrimRight give it |
| Text.SplitLines | chorus.py:73 | `str.splitlines` on every line boundary Python knows, "\r\n" counting as one, with no empty line after a final boundary; SplitLinesRoundTrip reads lines back from it |
| Text.ParseInt | chorus.py:49-55 | `int(s)` on a sign and digits, None where Python raises; ParseDecimal reads back `str(n)` |
| Text.ParseReal | chorus.py:51 | `float(s)` on a sign and digits with an optional point; ParseRealOfInt and PointedDecimal give its values |
| Text.TrimLeft | chorus.py:69 | `lstrip` drops exactly the leading whitespace: the result is a suffix, everything dropped is whitespace, and the result does not start with whitespace |
| Text.TrimRight | chorus.py:69 | `rstrip` drops exactly the trailing whitespace: the result is a prefix, everything dropped is whitespace, and the result does not end with whitespace |
| Text.StripStartsWith | chorus.py:69 | `s.strip().startswith(c)`, for a c that is not whitespace, holds exactly when the first non-whitespace character is c |
| Text.SplitLinesRoundTrip | chorus.py:73 | lines without line boundaries, each followed by "\n" and maybe a final unterminated line, come back from `splitlines`; an empty final piece adds no line |
| Text.ParseDecimal | chorus.py:48-55 | `int(str(n)) == n` for every integer n |
| Text.ParseRealOfInt | chorus.py:49-51 | every string `int` accepts is accepted by `float` with the same value |
| Text.PointedDecimal | chorus.py:51 | `float` of a whole number's decimal digits, a point, and any digits f is exactly the whole number plus f read as a number over 10 to the power of the length of f |
| PlanModel.Defaults | chorus.py:27-39 | the default plan has no samples and no "samples" entry among its other keys |
| PlanModel.Convert | chorus.py:48-55 | the value a `--key v` pair stores: `int(v)` for skip, workers and maxRetries, `float(v)` for temperature, v itself for any other key, and a ValueError where the conversion fails; ConvertDecimal states it on decimal input |
| PlanModel.Assign | chorus.py:56-59 | one accepted pair: "sample" appends to the samples, any other key stores the converted value; AssignEffect states its effect |
| PlanModel.ConvertDecimal | chorus.py:48-55 | a number written in decimal is stored as that int for skip, workers and maxRetries, as the same float for temperature, and as text for any other key |
| PlanModel.ApplyArguments | chorus.py:41-61 | the walk of the command line: `--key v` pairs applied in order, plain arguments appended to the file names, StopIteration for a `--key` with no value, and the first failing conversion as the error; ApplyStep and ArgumentsInOrder state it |
| PlanModel.AssignEffect | chorus.py:46-59 | a `--sample v` pair appends v and changes no other key; any other accepted `--key v` pair stores the converted value under key and leaves the samples alone |
| PlanModel.ApplyStep | chorus.py:44-61 | one step of the argument loop: a `--key v` pair is applied and walking goes on after v; a `--key` with no value, or a value that does not convert, stops the walk; a plain argument is appended to the file names |
| PlanModel.ArgumentsInOrder | chorus.py:44-61 | after the walk, the samples are the old ones followed by every `--sample` value in argument order, and the file names are the found ones followed by every plain argument in order |
| PlanModel.LastValueWins | chorus.py:46-59 | for any key other than "sample", the last `--key v` pair decides the stored value; a key never given keeps its old entry or stays absent |
| PlanModel.MergedPlan | chorus.py:76-82 | merging appends the new plan's samples after the current ones, sets every key of the new plan to its new value, and leaves every other key as it was |
| PlanModel.MergeAll | chorus.py:84-87 | `merge_plan` applied to each read plan in file order; MergeAllSamples states the samples |
| PlanModel.MergeAllSamples | chorus.py:84-87 | after all merges the samples are the starting ones followed by each file's samples, in file order |
| PlanModel.ReadFile | chorus.py:63-74 | read_file on a file's contents: JSON through the decoder when the stripped text starts with '{', otherwise one sample per line |
| PlanModel.ReadFileKind | chorus.py:69-74 | a file is decoded as JSON exactly when its first non-whitespace character is '{'; otherwise its lines are its samples |
| PlanModel.SampleFileReadsBack | chorus.py:69-74 | a file of samples, one per line, reads back as exactly those samples |
| PlanModel.ReadPlans | chorus.py:84 | a successful read gives one plan per file name |
| PlanModel.Number | chorus.py:89-100 | a plan entry the assertions compare as a number: it succeeds exactly when the entry is present and an int or a float, and then gives that value; an absent entry is a KeyError and any other value a TypeError |
| PlanModel.Rate | chorus.py:113 | `float(requestsPerSecond)`: an int or a float as its own value, a string through `float`, a ValueError for a string `float` refuses, and a TypeError for any other value, a JSON boolean among them (see Left out) |
| PlanModel.CheckBounds | chorus.py:89-93 | the first five assertions pass exactly when the plan has samples, skip is a number below their count, workers is a positive number and temperature is a number in [0, 2]; no samples fails with "No samples provided" |
| PlanModel.CheckEntries | chorus.py:94-100 | the remaining assertions pass exactly when model, a non-empty message list, apiKey and baseUrl are present, skip is at least 0 and maxRetries is a number of at least 0; on success the message list is returned |
| PlanModel.Prepare | chorus.py:113-178 | succeeds exactly when the rate is a non-zero number, skip is an int and there is an output entry; the samples are `samples[skip:]`, the period is `1 / rate` and the format is the one the output names |
| PlanModel.Configure | chorus.py:89-178 | the assertions in order, then the period, the skip slice and the output protocol; ConfigurePasses, ConfigureSamples, ConfigureCall and ConfigurePacing state what it accepts and gives |
| PlanModel.ConfigurePasses | chorus.py:89-100 | the script gets past its assertions exactly for acceptable plans, and a plan without samples stops at the first assertion |
| PlanModel.ConfigureSamples | chorus.py:89-176 | an accepted plan has an int skip with 0 <= skip < number of samples; the called samples are those after the first skip ones, and there is at least one |
| PlanModel.ConfigureCall | chorus.py:92-98 | every call of an accepted plan uses a temperature in [0, 2], the plan's non-empty message list, its model and its base URL |
| PlanModel.ConfigurePacing | chorus.py:113-178 | an accepted plan paces its calls with period `1 / rate` and writes in the format named by its output entry |
| PlanModel.PlanDict.constructor | chorus.py:27-39 | the plan dictionary starts as the default plan |
| PlanModel.PlanDict.ParseArguments | chorus.py:41-61 | the argument loop, run on the plan in place, ends with the plan and file names of the argument walk, or with the same exception |
| PlanModel.PlanDict.Merge | chorus.py:76-82 | merge_plan in place: the plan becomes the merge of the old plan and the new one |
| Chorus.Prepared | chorus.py:41-178 | the script up to the pool: the argument walk, reading every plan file, the merges, the assertions, the period, the skip slice and the output protocol, or the exception or failed assertion that stops it first; PreparedSteps, SamplesInOrder and CalledTail state its properties |
| Chorus.PreparedSteps | chorus.py:41-87 | a run that gets past its assertions parsed its command line, its samples so far being the `--sample` values in order and its file names the ~/.chorus files followed by the plain arguments; it read every plan file, and its setup is the check of the defaults merged with those plans in order |
| Chorus.Script | chorus.py:27-206 | the whole script as a function of the world: the lines it prints and the exception that stops it; SamplesInOrder and CsvRunPairsSamples state its properties |
| Chorus.Run | chorus.py:27-206 | the script, run on a mutable plan and a rate gate, prints exactly the lines the function Script gives for the same world (the defaults, the arguments, the plan files, the assertions, then the pool) and stops with the same error |
| Chorus.SamplesInOrder | chorus.py:44-176 | the samples called are a non-empty tail of the `--sample` values followed by the samples of every plan file, the ~/.chorus files first and then those named on the command line |
| Chorus.CalledTail | chorus.py:84-176 | after merging and checking, the called samples are a non-empty tail of the plan's samples followed by the files' samples |
| Chorus.CsvRunPairsSamples | chorus.py:199-206 | a csv run in which every call answers prints the header and then one row per called sample, in order, each reading back as that sample and its answer |

## Left out

- Network I/O: the HTTP connection, the request and the response body (chorus.py:151-158). Each attempt's outcome is an input.
- The Authorization and Content-Type headers (chorus.py:127-130) and the API key's use in them: they are sent but do not affect the logic.
- JSON: `json.loads` of plan files and of response bodies, and `json.dumps` of the body and of jsonl lines, are outside code. Plan decoding and the jsonl line are function parameters, and `choices[0].message.content` is the content inside `Ok`.
- Concurrency: the thread pool runs its calls in parallel and the gate's read and update of the cursor are not atomic. The model runs the calls one after another in submission order against one gate, so it does not capture interleavings.
- Time: `time.time()`, `time.sleep` and the random 100-1000 ms sleep after a 429 (chorus.py:105, 112, 119, 160-164). Clock readings are inputs and sleeps are dropped; Acquire returns the pause instead of sleeping.
- The file system: listing `~/.chorus` (chorus.py:10-15) and opening files (chorus.py:67-68). The found names and a name-to-contents map are inputs; a missing file gives FileNotFoundError.
- The Python version check (chorus.py:6-8), and the printing of the 429 notice on stderr. chorus.py:188 puts backslashes inside an f-string expression, which Python before 3.12 refuses when it compiles the script, so on those versions the check never runs; the model assumes a Python that runs the script.
- Floating point: times, temperatures and the period are real numbers, so rounding is not modelled.
- Text.ParseInt: accepts only an optional sign and decimal digits. Surrounding whitespace, underscores and other forms that Python's `int` also accepts are rejected.
- Text.ParseReal: accepts only an optional sign and digits with an optional point. Exponents, "inf", "nan" and surrounding whitespace, which Python's `float` also accepts, are rejected.
- PlanModel.Assign: `--samples v` would replace the sample list by a string in Python. The model stops with a TypeError there instead.
- PlanModel.CheckEntries: a "messages" entry that is not a list of messages is rejected with a TypeError at the message-count assertion (chorus.py:96). Python differs in two ways. A non-empty JSON list of other things passes that assertion and is posted as it is. A non-empty string or dictionary passes it too and then raises a TypeError at chorus.py:134, outside the `try`, when the first call builds its message list; by then the csv header has been printed (chorus.py:199-200), so Python prints `sample,content` where the model prints nothing.
- PlanModel.Rate: a boolean `requestsPerSecond` from a JSON plan file is refused with a TypeError, while Python's `float` reads it as 1.0 or 0.0 (and 0.0 then fails with ZeroDivisionError at chorus.py:113); Configure, Prepared and Script refuse such plans too.
- PlanModel.Number: booleans from JSON plan files are `Other` and do not compare as numbers, while Python treats them as 0 and 1.
- Request.Settle: Python's recursion limit is not modelled. Every attempt is one more frame, and past about a thousand frames Python raises RecursionError, which the waiting 429 frames catch like any other failure. The model has no depth bound, so RateLimitedThenAnswered and NoHardFailureNeverRaises describe Python only for calls that stay below that depth.
- Request.AttemptBalance: the count is stated only up to the first exception that leaves a frame. After a caught exception the attempt number jumps to the catching frame's attempt minus one, which Catch and SettleStep state instead.
- Request.Call: when a call's exchanges run out before it settles, the result is `Pending`. The script would go on retrying; the model ends there.
- workers: it is checked to be positive (chorus.py:91) and otherwise only sizes the pool, which the sequential model does not need.
- maxRetries: it is checked to be non-negative (chorus.py:100) and is never consulted, as in the script.
