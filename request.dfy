/** One logical request of `call`: each attempt waits at the rate gate, builds
    the payload (with the retry temperature), posts it, and then either
    returns the answer, retries, or raises. The HTTP exchange itself is an
    oracle: every attempt reads the clock and receives one outcome. */
module Request {
  import opened Common
  import opened Pacing
  import Url

  /** What the server did with one attempt: status 200 with the first choice's
      content; status 200 with a JSON body that has no first choice's content
      (read after the `try`, so no frame of the call catches it); status 429;
      or anything else the `try` catches (another status, a transport error,
      a 200 whose body is not JSON, a URL that cannot be taken apart). */
  datatype Outcome = Ok(content: string) | NoContent | TooMany | Fail

  /** One attempt as seen from outside: the clock reading taken by the rate
      gate, and the outcome the server would give. */
  datatype Exchange = Exchange(now: real, outcome: Outcome)

  /** The value `call` returns, the exception it raises, or Pending when the
      oracle ran out before the call settled (the source would go on). */
  datatype CallResult = Answered(sample: string, content: string) | Raised | Pending

  /** What one attempt does in its own frame: return, call itself again from
      inside its `try` (after a 429), call itself again from its `except`
      (a failure it catches), or let an exception leave the frame. */
  datatype Step = Done(content: string) | Deeper(attempt: int) | Retry(attempt: int) | Unwind

  /** The live frames of a call: the attempt number of the running frame, and
      the attempt numbers of the frames that made their nested call on a 429
      and so still wait inside their `try`, innermost last. A frame that
      retries from its `except` is outside its `try` and catches nothing more,
      so it is not among them. */
  datatype Stack = Stack(attempt: int, waiting: seq<int>)

  /** `call(plan, sample)`: attempt 0, no frame waiting. */
  const Start := Stack(0, [])

  /** After one attempt, the call continues with other frames, returns, or an
      exception leaves it. */
  datatype Next = Continue(next: Stack) | Answer(content: string) | Raise

  /** The plan entries `call` reads. */
  datatype CallConfig = CallConfig(model: Value, temperature: real, messages: seq<Message>, baseUrl: Value)

  /** The request one attempt posts: where to, and the JSON body's fields. */
  datatype HttpRequest = HttpRequest(
    protocol: string, host: string, path: string,
    model: Value, temperature: real, messages: seq<Message>)

  /** The temperature of an attempt: the configured one on attempt 0, and
      `max(0.5, temperature)` on every other attempt. */
  function Temperature(configured: real, attempt: int): (t: real)
    ensures attempt == 0 ==> t == configured
    ensures attempt != 0 ==> t >= 0.5 && t >= configured && (t == 0.5 || t == configured)
  {
    if attempt == 0 then configured
    else if 0.5 >= configured then 0.5 else configured
  }

  /** The endpoint of the configured base URL; a base URL that is not a string
      raises inside the `try` just as a malformed one does. */
  function Target(baseUrl: Value): Option<Url.Endpoint> {
    match baseUrl
    case Text(s) => Url.EndpointOf(s)
    case _ => None
  }

  /** The body an attempt posts: the plan's messages plus the sample as a user
      message, and the attempt's temperature. */
  function Payload(cfg: CallConfig, sample: string, endpoint: Url.Endpoint, attempt: int): (r: HttpRequest)
    ensures |r.messages| == |cfg.messages| + 1
    ensures r.messages[..|cfg.messages|] == cfg.messages
    ensures r.messages[|cfg.messages|..] == [Message("user", sample)]
    ensures r.temperature == Temperature(cfg.temperature, attempt)
  {
    HttpRequest(endpoint.protocol, endpoint.host, endpoint.path, cfg.model,
                Temperature(cfg.temperature, attempt), cfg.messages + [Message("user", sample)])
  }

  /** Whether an attempt's exception leaves its own frame: the content of a 200
      is read after the `try`, and a frame on attempt 0 re-raises what it
      catches. */
  predicate Unwinds(attempt: int, outcome: Outcome) {
    outcome == NoContent || (outcome == Fail && attempt == 0)
  }

  /** The decision one frame takes after its attempt: a success returns, a 429
      calls attempt + 1 from inside the `try`, any other failure the `try`
      catches calls attempt - 1 from the `except` unless the frame is on
      attempt 0, and everything else leaves the frame. */
  function NextStep(attempt: int, outcome: Outcome): (s: Step)
    ensures s.Done? <==> outcome.Ok?
    ensures s.Done? ==> s.content == outcome.content
    ensures s.Deeper? <==> outcome == TooMany
    ensures s.Retry? <==> outcome == Fail && attempt != 0
    ensures s.Unwind? <==> Unwinds(attempt, outcome)
    ensures s.Deeper? && attempt >= 0 ==> s.attempt >= 1
    ensures s.Retry? && attempt >= 0 ==> s.attempt >= 0
  {
    match outcome
    case Ok(content) => Done(content)
    case NoContent => Unwind
    case TooMany => Deeper(attempt + 1)
    case Fail => if attempt == 0 then Unwind else Retry(attempt - 1)
  }

  predicate AllZero(waiting: seq<int>) {
    forall j :: 0 <= j < |waiting| ==> waiting[j] == 0
  }

  predicate NonNegative(waiting: seq<int>) {
    forall j :: 0 <= j < |waiting| ==> waiting[j] >= 0
  }

  /** An exception rising through the waiting frames: each frame on attempt 0
      re-raises it, and the innermost frame on any other attempt b catches it
      and calls attempt b - 1 from its `except`. None when every waiting frame
      re-raises, so the exception leaves `call`. */
  function Catch(waiting: seq<int>): (r: Option<Stack>)
    ensures r.None? <==> AllZero(waiting)
    ensures r.Some? ==>
      var n := |r.value.waiting|;
      && n < |waiting| && r.value.waiting == waiting[..n]
      && waiting[n] != 0 && r.value.attempt == waiting[n] - 1
      && AllZero(waiting[n + 1..])
    decreases |waiting|
  {
    if waiting == [] then None
    else
      var n := |waiting| - 1;
      if waiting[n] == 0 then
        var r := Catch(waiting[..n]);
        assert r.Some? ==> waiting[|r.value.waiting| + 1..] == waiting[..n][|r.value.waiting| + 1..] + [waiting[n]];
        r
      else Some(Stack(waiting[n] - 1, waiting[..n]))
  }

  /** Whether the running frame's exception leaves the call: it leaves its
      own frame and every frame waiting above it re-raises it. */
  predicate Escapes(st: Stack, outcome: Outcome) {
    Unwinds(st.attempt, outcome) && AllZero(st.waiting)
  }

  /** One attempt of the running frame, with the frames that wait above it. */
  function Advance(st: Stack, outcome: Outcome): (r: Next)
    ensures r.Answer? <==> outcome.Ok?
    ensures r.Answer? ==> r.content == outcome.content
    ensures r.Raise? <==> Escapes(st, outcome)
  {
    match NextStep(st.attempt, outcome)
    case Done(content) => Answer(content)
    case Deeper(next) => Continue(Stack(next, st.waiting + [st.attempt]))
    case Retry(next) => Continue(Stack(next, st.waiting))
    case Unwind =>
      match Catch(st.waiting)
      case None => Raise
      case Some(caught) => Continue(caught)
  }

  /** What `call` settles to, from the frames `st`, when its attempts meet the
      given outcomes in order. */
  function Settle(sample: string, st: Stack, outcomes: seq<Outcome>): (r: CallResult)
    ensures r.Answered? ==> r.sample == sample
    ensures outcomes == [] ==> r == Pending
    decreases |outcomes|
  {
    if outcomes == [] then Pending
    else
      match Advance(st, outcomes[0])
      case Answer(content) => Answered(sample, content)
      case Raise => Raised
      case Continue(next) => Settle(sample, next, outcomes[1..])
  }

  /** The frames live at each attempt actually made, in order. */
  function Trace(st: Stack, outcomes: seq<Outcome>): (t: seq<Stack>)
    ensures |t| <= |outcomes|
    ensures outcomes != [] ==> |t| >= 1 && t[0] == st
    decreases |outcomes|
  {
    if outcomes == [] then []
    else
      match Advance(st, outcomes[0])
      case Continue(next) => [st] + Trace(next, outcomes[1..])
      case _ => [st]
  }

  /** The attempt numbers of the attempts actually made, in order. */
  function Attempts(st: Stack, outcomes: seq<Outcome>): (trace: seq<int>)
    ensures |trace| <= |outcomes|
    ensures outcomes != [] ==> |trace| >= 1 && trace[0] == st.attempt
    decreases |outcomes|
  {
    if outcomes == [] then []
    else
      match Advance(st, outcomes[0])
      case Continue(next) => [st.attempt] + Attempts(next, outcomes[1..])
      case _ => [st.attempt]
  }

  /** The attempt numbers are those of the frames Trace lists. */
  lemma {:induction false} AttemptsOfTrace(st: Stack, outcomes: seq<Outcome>)
    ensures |Attempts(st, outcomes)| == |Trace(st, outcomes)|
    ensures forall k :: 0 <= k < |Attempts(st, outcomes)| ==> Attempts(st, outcomes)[k] == Trace(st, outcomes)[k].attempt
    decreases |outcomes|
  {
    if outcomes != [] {
      var next := Advance(st, outcomes[0]);
      if next.Continue? {
        AttemptsOfTrace(next.next, outcomes[1..]);
        var a := Attempts(st, outcomes);
        var t := Trace(st, outcomes);
        assert a == [st.attempt] + Attempts(next.next, outcomes[1..]);
        assert t == [st] + Trace(next.next, outcomes[1..]);
        forall k | 0 <= k < |a| ensures a[k] == t[k].attempt {
          if k > 0 {
            assert a[k] == Attempts(next.next, outcomes[1..])[k - 1];
            assert t[k] == Trace(next.next, outcomes[1..])[k - 1];
          }
        }
      }
    }
  }

  /** The outcomes the attempts meet: the oracle's, or Fail throughout when no
      endpoint can be derived from the base URL. */
  function Outcomes(trial: seq<Exchange>, reachable: bool): (os: seq<Outcome>)
    ensures |os| == |trial|
  {
    seq(|trial|, i requires 0 <= i < |trial| => if reachable then trial[i].outcome else Fail)
  }

  /** The clock readings of a trial. */
  function Clock(trial: seq<Exchange>): (nows: seq<real>)
    ensures |nows| == |trial|
  {
    seq(|trial|, i requires 0 <= i < |trial| => trial[i].now)
  }

  /** The requests posted for the given attempt numbers. */
  function Requests(cfg: CallConfig, sample: string, endpoint: Url.Endpoint, trace: seq<int>): (rs: seq<HttpRequest>)
    ensures |rs| == |trace|
  {
    seq(|trace|, i requires 0 <= i < |trace| => Payload(cfg, sample, endpoint, trace[i]))
  }

  /** One attempt of a call that has not settled yet: when it continues, the
      rest of the call belongs to the next frames; otherwise it settles the
      call with this attempt as the last one. */
  lemma SettleStep(sample: string, st: Stack, outcomes: seq<Outcome>)
    requires outcomes != []
    ensures var next := Advance(st, outcomes[0]);
      && (next.Continue? ==> Settle(sample, st, outcomes) == Settle(sample, next.next, outcomes[1..])
                             && Trace(st, outcomes) == [st] + Trace(next.next, outcomes[1..])
                             && Attempts(st, outcomes) == [st.attempt] + Attempts(next.next, outcomes[1..]))
      && (next.Answer? ==> Settle(sample, st, outcomes) == Answered(sample, next.content)
                           && Attempts(st, outcomes) == [st.attempt])
      && (next.Raise? ==> Settle(sample, st, outcomes) == Raised && Attempts(st, outcomes) == [st.attempt])
  {
  }

  /** Starting from non-negative frames, no attempt number and no waiting
      frame's number is ever negative. */
  lemma {:induction false} AttemptsNeverNegative(st: Stack, outcomes: seq<Outcome>)
    requires st.attempt >= 0 && NonNegative(st.waiting)
    ensures forall k :: 0 <= k < |Trace(st, outcomes)| ==>
      Trace(st, outcomes)[k].attempt >= 0 && NonNegative(Trace(st, outcomes)[k].waiting)
    ensures forall k :: 0 <= k < |Attempts(st, outcomes)| ==> Attempts(st, outcomes)[k] >= 0
    decreases |outcomes|
  {
    if outcomes != [] {
      var next := Advance(st, outcomes[0]);
      if next.Continue? {
        assert next.next.attempt >= 0 && NonNegative(next.next.waiting);
        AttemptsNeverNegative(next.next, outcomes[1..]);
        var t := Trace(st, outcomes);
        var rest := Trace(next.next, outcomes[1..]);
        assert t == [st] + rest;
        forall k | 0 <= k < |t| ensures t[k].attempt >= 0 && NonNegative(t[k].waiting) {
          if k > 0 { assert t[k] == rest[k - 1]; }
        }
      }
    }
    AttemptsOfTrace(st, outcomes);
  }

  /** Up to the first exception that leaves a frame, the k-th attempt's number
      is the starting one plus the 429s minus the other failures met before it. */
  lemma {:induction false} AttemptBalance(st: Stack, outcomes: seq<Outcome>, k: nat)
    requires k < |Attempts(st, outcomes)|
    requires forall j :: 0 <= j < k ==> !Unwinds(Attempts(st, outcomes)[j], outcomes[j])
    ensures Attempts(st, outcomes)[k]
      == st.attempt + multiset(outcomes[..k])[TooMany] - multiset(outcomes[..k])[Fail]
    decreases k
  {
    if k > 0 {
      var next := Advance(st, outcomes[0]);
      assert next.Continue?;
      var rest := outcomes[1..];
      var a := Attempts(next.next, rest);
      assert Attempts(st, outcomes) == [st.attempt] + a;
      assert !Unwinds(st.attempt, outcomes[0]);
      forall j | 0 <= j < k - 1 ensures !Unwinds(a[j], rest[j]) {
        assert a[j] == Attempts(st, outcomes)[j + 1];
      }
      AttemptBalance(next.next, rest, k - 1);
      assert outcomes[..k] == [outcomes[0]] + rest[..k - 1];
      assert multiset(outcomes[..k]) == multiset{outcomes[0]} + multiset(rest[..k - 1]);
    }
  }

  /** A call raises exactly when some attempt's exception leaves its frame
      while every frame waiting above it is on attempt 0. */
  lemma {:induction false} RaisedIffUncaught(sample: string, st: Stack, outcomes: seq<Outcome>)
    ensures var t := Trace(st, outcomes);
      Settle(sample, st, outcomes) == Raised <==>
      exists k :: 0 <= k < |t| && Escapes(t[k], outcomes[k])
    decreases |outcomes|
  {
    if outcomes != [] {
      var t := Trace(st, outcomes);
      var next := Advance(st, outcomes[0]);
      if next.Continue? {
        var rest := Trace(next.next, outcomes[1..]);
        RaisedIffUncaught(sample, next.next, outcomes[1..]);
        assert t == [st] + rest;
        if exists k :: 0 <= k < |rest| && Escapes(rest[k], outcomes[1..][k]) {
          var k :| 0 <= k < |rest| && Escapes(rest[k], outcomes[1..][k]);
          assert t[k + 1] == rest[k] && outcomes[k + 1] == outcomes[1..][k];
        }
        if exists k :: 0 <= k < |t| && Escapes(t[k], outcomes[k]) {
          var k :| 0 <= k < |t| && Escapes(t[k], outcomes[k]);
          assert k > 0;
          assert t[k] == rest[k - 1] && outcomes[1..][k - 1] == outcomes[k];
        }
      } else {
        assert t == [st];
        if next.Raise? {
          assert Escapes(t[0], outcomes[0]);
        }
      }
    }
  }

  /** A call answers exactly when one of its attempts meets a 200 with
      content; the answer pairs the call's own sample with that content. */
  lemma {:induction false} AnsweredIffSuccess(sample: string, st: Stack, outcomes: seq<Outcome>, content: string)
    ensures var t := Trace(st, outcomes);
      Settle(sample, st, outcomes) == Answered(sample, content) <==>
      exists k :: 0 <= k < |t| && outcomes[k] == Ok(content)
    decreases |outcomes|
  {
    if outcomes != [] {
      var t := Trace(st, outcomes);
      var next := Advance(st, outcomes[0]);
      if next.Continue? {
        var rest := Trace(next.next, outcomes[1..]);
        AnsweredIffSuccess(sample, next.next, outcomes[1..], content);
        assert t == [st] + rest;
        if exists k :: 0 <= k < |rest| && outcomes[1..][k] == Ok(content) {
          var k :| 0 <= k < |rest| && outcomes[1..][k] == Ok(content);
          assert outcomes[k + 1] == Ok(content) && t[k + 1] == rest[k];
        }
        if exists k :: 0 <= k < |t| && outcomes[k] == Ok(content) {
          var k :| 0 <= k < |t| && outcomes[k] == Ok(content);
          assert k > 0;
          assert outcomes[1..][k - 1] == Ok(content);
        }
      } else {
        assert t == [st];
      }
    }
  }

  /** A 429 is a soft backoff: after any run of 429s, a 200 answers the call,
      on attempt start + (number of 429s), with every 429 frame waiting. */
  lemma {:induction false} RateLimitedThenAnswered(sample: string, st: Stack, outcomes: seq<Outcome>, k: nat, content: string)
    requires k < |outcomes| && outcomes[k] == Ok(content)
    requires forall j :: 0 <= j < k ==> outcomes[j] == TooMany
    ensures Settle(sample, st, outcomes) == Answered(sample, content)
    ensures |Attempts(st, outcomes)| == k + 1 && Attempts(st, outcomes)[k] == st.attempt + k
    ensures |Trace(st, outcomes)| == k + 1 && |Trace(st, outcomes)[k].waiting| == |st.waiting| + k
    decreases k
  {
    SettleStep(sample, st, outcomes);
    if k > 0 {
      var next := Stack(st.attempt + 1, st.waiting + [st.attempt]);
      assert Advance(st, outcomes[0]) == Continue(next);
      RateLimitedThenAnswered(sample, next, outcomes[1..], k - 1, content);
      assert Trace(st, outcomes)[k] == Trace(next, outcomes[1..])[k - 1];
    }
  }

  /** Without a failure among the outcomes, a call never raises. */
  lemma {:induction false} NoHardFailureNeverRaises(sample: string, st: Stack, outcomes: seq<Outcome>)
    requires Fail !in outcomes && NoContent !in outcomes
    ensures Settle(sample, st, outcomes) != Raised
    decreases |outcomes|
  {
    if outcomes != [] {
      assert outcomes[0] != Fail && outcomes[0] != NoContent;
      var next := Advance(st, outcomes[0]);
      if next.Continue? {
        assert forall o :: o in outcomes[1..] ==> o in outcomes;
        NoHardFailureNeverRaises(sample, next.next, outcomes[1..]);
      }
    }
  }

  /** A failure caught by a 429 frame: two 429s take the call to attempt 2,
      where failures step it back to 1 and to 0; the failure at 0 leaves that
      frame and is caught by the waiting frame of attempt 1, which retries
      attempt 0; that attempt answers. */
  lemma CaughtFailureRetries()
    ensures Settle("s", Start, [TooMany, TooMany, Fail, Fail, Fail, Ok("x")]) == Answered("s", "x")
    ensures Attempts(Start, [TooMany, TooMany, Fail, Fail, Fail, Ok("x")]) == [0, 1, 2, 1, 0, 0]
  {
  }

  /** Frames on attempt 0 catch nothing: after a 429 and a failure back to
      attempt 0, the next failure leaves the call. */
  lemma ZeroFramesReraise()
    ensures Settle("s", Start, [TooMany, Fail, Fail]) == Raised
    ensures Attempts(Start, [TooMany, Fail, Fail]) == [0, 1, 0]
  {
    SettleStep("s", Stack(0, [0]), [Fail]);
    SettleStep("s", Stack(1, [0]), [Fail, Fail]);
    assert [Fail, Fail][1..] == [Fail];
    SettleStep("s", Start, [TooMany, Fail, Fail]);
    assert [TooMany, Fail, Fail][1..] == [Fail, Fail];
  }

  /** An unusable base URL raises on the very first attempt: the first attempt
      is attempt 0 and meets a failure before any request is posted. */
  lemma UnreachableRaisesAtOnce(sample: string, trial: seq<Exchange>)
    requires trial != []
    ensures Settle(sample, Start, Outcomes(trial, false)) == Raised
    ensures Attempts(Start, Outcomes(trial, false)) == [0]
  {
    assert Outcomes(trial, false)[0] == Fail;
    SettleStep(sample, Start, Outcomes(trial, false));
  }

  /** The loop form of SettleStep: the i-th attempt of a call whose earlier
      attempts are `trace`. */
  lemma AttemptStep(sample: string, outcomes: seq<Outcome>, trace: seq<int>, st: Stack, i: nat)
    requires i < |outcomes|
    requires Settle(sample, Start, outcomes) == Settle(sample, st, outcomes[i..])
    requires Attempts(Start, outcomes) == trace + Attempts(st, outcomes[i..])
    ensures var next := Advance(st, outcomes[i]);
      && (next.Continue? ==> Settle(sample, Start, outcomes) == Settle(sample, next.next, outcomes[i + 1..])
                             && Attempts(Start, outcomes) == (trace + [st.attempt]) + Attempts(next.next, outcomes[i + 1..]))
      && (next.Answer? ==> Settle(sample, Start, outcomes) == Answered(sample, next.content)
                           && Attempts(Start, outcomes) == trace + [st.attempt])
      && (next.Raise? ==> Settle(sample, Start, outcomes) == Raised && Attempts(Start, outcomes) == trace + [st.attempt])
  {
    assert outcomes[i..][0] == outcomes[i];
    assert outcomes[i..][1..] == outcomes[i + 1..];
    SettleStep(sample, st, outcomes[i..]);
  }

  lemma RequestsSnoc(cfg: CallConfig, sample: string, endpoint: Url.Endpoint, trace: seq<int>, attempt: int)
    ensures Requests(cfg, sample, endpoint, trace + [attempt])
      == Requests(cfg, sample, endpoint, trace) + [Payload(cfg, sample, endpoint, attempt)]
  {
  }

  /** Acquiring the gate at the next reading moves the cursor on by one step. */
  lemma ClockStep(start: real, period: real, trial: seq<Exchange>, i: nat)
    requires i < |trial|
    ensures CursorAfter(start, period, Clock(trial)[..i + 1])
      == TouchTemporalCursor(CursorAfter(start, period, Clock(trial)[..i]), period, trial[i].now).0
  {
    CursorAfterConcat(start, period, Clock(trial)[..i], [trial[i].now]);
    assert Clock(trial)[..i + 1] == Clock(trial)[..i] + [trial[i].now];
  }

  function Reachable(cfg: CallConfig): bool {
    Target(cfg.baseUrl).Some?
  }

  /** What `call(plan, sample)` returns or raises when its attempts meet `trial`. */
  function CallResultOf(cfg: CallConfig, sample: string, trial: seq<Exchange>): (r: CallResult)
    ensures r.Answered? ==> r.sample == sample
  {
    Settle(sample, Start, Outcomes(trial, Reachable(cfg)))
  }

  /** The requests `call(plan, sample)` posts: one per attempt, none when the
      base URL cannot be taken apart. */
  function SentBy(cfg: CallConfig, sample: string, trial: seq<Exchange>): seq<HttpRequest> {
    match Target(cfg.baseUrl)
    case Some(endpoint) => Requests(cfg, sample, endpoint, Attempts(Start, Outcomes(trial, true)))
    case None => []
  }

  /** The clock readings one call consumes: one per attempt it makes. */
  function UsedClock(cfg: CallConfig, trial: seq<Exchange>): seq<real> {
    Clock(trial)[..|Attempts(Start, Outcomes(trial, Reachable(cfg)))|]
  }

  /** call(plan, sample): one attempt per exchange of the trial until the call
      settles. Every attempt first acquires the rate gate (throttle); when an
      endpoint can be derived, it posts one request at the attempt's
      temperature. The recursion of the source is kept as its live frames:
      the running attempt and the 429 frames waiting above it.
      `plan['maxRetries']` plays no part. */
  method Call(gate: RateGate, cfg: CallConfig, sample: string, trial: seq<Exchange>)
    returns (result: CallResult, sent: seq<HttpRequest>)
    modifies gate
    ensures result == CallResultOf(cfg, sample, trial)
    ensures sent == SentBy(cfg, sample, trial)
    ensures gate.cursor == CursorAfter(old(gate.cursor), gate.period, UsedClock(cfg, trial))
  {
    var endpoint := Target(cfg.baseUrl);
    ghost var outcomes := Outcomes(trial, Reachable(cfg));
    assert Reachable(cfg) == endpoint.Some?;
    ghost var trace: seq<int> := [];
    var attempt, waiting := 0, [];
    var i := 0;
    result, sent := Pending, [];
    while i < |trial|
      invariant 0 <= i <= |trial| && |trace| == i
      invariant Settle(sample, Start, outcomes) == Settle(sample, Stack(attempt, waiting), outcomes[i..])
      invariant Attempts(Start, outcomes) == trace + Attempts(Stack(attempt, waiting), outcomes[i..])
      invariant sent == if endpoint.Some? then Requests(cfg, sample, endpoint.value, trace) else []
      invariant gate.cursor == CursorAfter(old(gate.cursor), gate.period, Clock(trial)[..i])
    {
      ClockStep(old(gate.cursor), gate.period, trial, i);
      var _ := gate.Acquire(trial[i].now);
      var outcome := if endpoint.Some? then trial[i].outcome else Fail;
      assert outcome == outcomes[i];
      AttemptStep(sample, outcomes, trace, Stack(attempt, waiting), i);
      if endpoint.Some? {
        RequestsSnoc(cfg, sample, endpoint.value, trace, attempt);
        sent := sent + [Payload(cfg, sample, endpoint.value, attempt)];
      }
      trace := trace + [attempt];
      var next := Advance(Stack(attempt, waiting), outcome);
      match next
      case Answer(content) =>
        result := Answered(sample, content);
        return;
      case Raise =>
        result := Raised;
        return;
      case Continue(frames) =>
        attempt, waiting := frames.attempt, frames.waiting;
        i := i + 1;
    }
    assert outcomes[i..] == [];
  }
}
