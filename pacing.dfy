/** The pacing cursor shared by all workers: the earliest time at which the
    next request may be sent. Time is a real number of seconds, and the
    current time is passed in rather than read from a clock. */
module Pacing {

  /** touch_temporal_cursor: given the cursor, the period between requests and
      the current time, the new cursor and how long the caller must pause.
      The caller goes at the later of `now` and the reserved slot, and the next
      slot is one period after that. */
  function TouchTemporalCursor(cursor: real, period: real, now: real): (r: (real, real))
    ensures r.1 >= 0.0
    ensures r.1 == 0.0 <==> now >= cursor
    ensures now + r.1 == (if now >= cursor then now else cursor)
    ensures r.0 == now + r.1 + period
    ensures r.0 - cursor >= period
  {
    if now > cursor then (now + period, 0.0)
    else (cursor + period, cursor - now)
  }

  /** The cursor after one acquire per time in `nows`, in order. */
  function CursorAfter(cursor: real, period: real, nows: seq<real>): real
    decreases |nows|
  {
    if nows == [] then cursor
    else CursorAfter(TouchTemporalCursor(cursor, period, nows[0]).0, period, nows[1..])
  }

  /** The times at which the callers acquiring at `nows` actually send:
      each one's `now` plus the pause it was given. */
  function SendTimes(cursor: real, period: real, nows: seq<real>): (s: seq<real>)
    ensures |s| == |nows|
    ensures forall i :: 0 <= i < |s| ==> s[i] >= nows[i]
    ensures |s| > 0 ==> s[0] >= cursor
    decreases |nows|
  {
    if nows == [] then []
    else
      var next := TouchTemporalCursor(cursor, period, nows[0]);
      [nows[0] + next.1] + SendTimes(next.0, period, nows[1..])
  }

  /** Acquiring at `a` and then at `b` leaves the cursor where acquiring at
      `a + b` does. */
  lemma {:induction false} CursorAfterConcat(cursor: real, period: real, a: seq<real>, b: seq<real>)
    ensures CursorAfter(cursor, period, a + b) == CursorAfter(CursorAfter(cursor, period, a), period, b)
    decreases |a|
  {
    if a != [] {
      assert (a + b)[0] == a[0];
      assert (a + b)[1..] == a[1..] + b;
      CursorAfterConcat(TouchTemporalCursor(cursor, period, a[0]).0, period, a[1..], b);
    } else {
      assert a + b == b;
    }
  }

  /** The cursor moves forward by at least one period on every acquire, so for
      a positive period it strictly increases. */
  lemma {:induction false} CursorAdvances(cursor: real, period: real, nows: seq<real>)
    ensures CursorAfter(cursor, period, nows) - cursor >= |nows| as real * period
    decreases |nows|
  {
    if nows != [] {
      var next := TouchTemporalCursor(cursor, period, nows[0]).0;
      CursorAdvances(next, period, nows[1..]);
      assert (|nows| - 1) as real * period + period == |nows| as real * period;
    }
  }

  /** Neighbouring times of `s` are at least one period apart. */
  predicate Spaced(s: seq<real>, period: real) {
    forall k :: 0 <= k < |s| - 1 ==> s[k + 1] - s[k] >= period
  }

  /** Consecutive sends are at least one period apart. */
  lemma {:induction false} ConsecutiveSendsArePaced(cursor: real, period: real, nows: seq<real>)
    ensures Spaced(SendTimes(cursor, period, nows), period)
    decreases |nows|
  {
    if nows != [] {
      var next := TouchTemporalCursor(cursor, period, nows[0]);
      var s := SendTimes(cursor, period, nows);
      var rest := SendTimes(next.0, period, nows[1..]);
      assert s == [nows[0] + next.1] + rest;
      ConsecutiveSendsArePaced(next.0, period, nows[1..]);
      forall k | 0 <= k < |s| - 1
        ensures s[k + 1] - s[k] >= period
      {
        if k > 0 {
          assert s[k] == rest[k - 1] && s[k + 1] == rest[k];
          assert rest[(k - 1) + 1] - rest[k - 1] >= period;
        } else {
          assert s[1] == rest[0] >= next.0;
          assert next.0 == s[0] + period;
        }
      }
    }
  }

  /** Spacing of one period between neighbours adds up over a stretch. */
  lemma {:induction false} SpacingAddsUp(s: seq<real>, period: real, i: nat, j: nat)
    requires i <= j < |s|
    requires Spaced(s, period)
    ensures s[j] - s[i] >= (j - i) as real * period
    decreases j - i
  {
    if i < j {
      SpacingAddsUp(s, period, i, j - 1);
      assert s[(j - 1) + 1] - s[j - 1] >= period;
      assert (j - 1 - i) as real * period + period == (j - i) as real * period;
    }
  }

  /** Whatever the callers' clocks say, the i-th and j-th sends are at least
      (j - i) periods apart. */
  lemma SendsArePaced(cursor: real, period: real, nows: seq<real>)
    ensures var s := SendTimes(cursor, period, nows);
      forall i, j :: 0 <= i <= j < |s| ==> s[j] - s[i] >= (j - i) as real * period
  {
    var s := SendTimes(cursor, period, nows);
    ConsecutiveSendsArePaced(cursor, period, nows);
    forall i, j | 0 <= i <= j < |s|
      ensures s[j] - s[i] >= (j - i) as real * period
    {
      SpacingAddsUp(s, period, i, j);
    }
  }

  /** The rate ceiling: if the i-th to j-th sends all fall in a window of the
      given width, then (j - i) periods fit in it, so at most width / period + 1
      requests are sent in any such window. */
  lemma PacingWindow(cursor: real, period: real, nows: seq<real>, i: nat, j: nat, from: real, width: real)
    requires i <= j < |nows|
    requires from <= SendTimes(cursor, period, nows)[i]
    requires SendTimes(cursor, period, nows)[j] <= from + width
    ensures (j - i) as real * period <= width
  {
    SendsArePaced(cursor, period, nows);
  }

  /** The module-level `temporal_cursor` together with `throttle`: one shared
      gate whose cursor every request attempt moves. */
  class RateGate {
    var cursor: real
    const period: real

    /** The cursor starts at the time the script starts. */
    constructor (start: real, period: real)
      ensures cursor == start && this.period == period
    {
      cursor := start;
      this.period := period;
    }

    /** throttle(): reserve the next slot at time `now` and return how long the
        caller must sleep before sending (the sleep itself is not modelled). */
    method Acquire(now: real) returns (pause: real)
      modifies this
      ensures (cursor, pause) == TouchTemporalCursor(old(cursor), period, now)
      ensures pause >= 0.0 && cursor == now + pause + period
      ensures pause == 0.0 <==> now >= old(cursor)
    {
      var next := TouchTemporalCursor(cursor, period, now);
      cursor := next.0;
      pause := next.1;
    }
  }
}
