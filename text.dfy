/** The string operations of Python that the script leans on: `str.strip`,
    `str.splitlines`, and the `int(...)` and `float(...)` conversions of
    command-line values. */
module Text {
  import opened Common

  /** The characters Python's `str.isspace` accepts. */
  predicate IsSpace(c: char) {
    var n := c as int;
    (0x09 <= n <= 0x0d) || (0x1c <= n <= 0x20) || n == 0x85 || n == 0xa0 || n == 0x1680
    || (0x2000 <= n <= 0x200a) || n == 0x2028 || n == 0x2029 || n == 0x202f || n == 0x205f || n == 0x3000
  }

  /** `s.lstrip()`: the suffix left after the leading whitespace. */
  function TrimLeft(s: string): (r: string)
    ensures |r| <= |s| && r == s[|s| - |r|..]
    ensures forall i :: 0 <= i < |s| - |r| ==> IsSpace(s[i])
    ensures r == [] || !IsSpace(r[0])
    decreases |s|
  {
    if s != [] && IsSpace(s[0]) then TrimLeft(s[1..]) else s
  }

  /** `s.rstrip()`: the prefix left before the trailing whitespace. */
  function TrimRight(s: string): (r: string)
    ensures |r| <= |s| && r == s[..|r|]
    ensures forall i :: |r| <= i < |s| ==> IsSpace(s[i])
    ensures r == [] || !IsSpace(r[|r| - 1])
    decreases |s|
  {
    if s != [] && IsSpace(s[|s| - 1]) then TrimRight(s[..|s| - 1]) else s
  }

  /** `s.strip()`. */
  function Strip(s: string): string {
    TrimRight(TrimLeft(s))
  }

  /** `s.strip().startswith(c)` for a character that is not whitespace looks
      only at the first character that is not whitespace. */
  lemma StripStartsWith(s: string, c: char)
    requires !IsSpace(c)
    ensures StartsWith(Strip(s), [c]) <==> TrimLeft(s) != [] && TrimLeft(s)[0] == c
  {
    var t := TrimLeft(s);
    var r := TrimRight(t);
    assert Strip(s) == r;
    if t != [] {
      assert !IsSpace(t[0]);
      assert |r| > 0;
      assert r[0] == t[0];
      assert StartsWith(r, [c]) <==> r[0] == c;
    } else {
      assert r == [];
    }
  }

  /** The line boundaries of Python's `str.splitlines`; "\r\n" counts as one. */
  predicate IsLineBreak(c: char) {
    var n := c as int;
    (0x0a <= n <= 0x0d) || (0x1c <= n <= 0x1e) || n == 0x85 || n == 0x2028 || n == 0x2029
  }

  predicate NoBreak(line: string) {
    forall i :: 0 <= i < |line| ==> !IsLineBreak(line[i])
  }

  /** The first line of `s` and what follows its line boundary. */
  function CutLine(s: string): (r: (string, string))
    ensures s != [] ==> |r.1| < |s|
    decreases |s|
  {
    if s == [] then ([], [])
    else if IsLineBreak(s[0]) then
      ([], if s[0] == '\r' && |s| >= 2 && s[1] == '\n' then s[2..] else s[1..])
    else
      var r := CutLine(s[1..]);
      ([s[0]] + r.0, r.1)
  }

  /** `s.splitlines()`: the lines without their boundaries; a final boundary
      does not start another line. */
  function SplitLines(s: string): seq<string>
    decreases |s|
  {
    if s == [] then []
    else
      var r := CutLine(s);
      [r.0] + SplitLines(r.1)
  }

  /** Lines written one per line, each followed by "\n". */
  function Terminated(lines: seq<string>): string
    decreases |lines|
  {
    if lines == [] then [] else lines[0] + "\n" + Terminated(lines[1..])
  }

  lemma {:induction false} CutBrokenLine(line: string, rest: string)
    requires NoBreak(line)
    ensures CutLine(line + "\n" + rest) == (line, rest)
    decreases |line|
  {
    if line == [] {
      assert [] + "\n" + rest == "\n" + rest;
      assert ("\n" + rest)[1..] == rest;
    } else {
      CutBrokenLine(line[1..], rest);
      assert (line + "\n" + rest)[1..] == line[1..] + "\n" + rest;
      assert [line[0]] + line[1..] == line;
    }
  }

  lemma {:induction false} CutLastLine(line: string)
    requires NoBreak(line)
    ensures CutLine(line) == (line, [])
    decreases |line|
  {
    if line != [] {
      CutLastLine(line[1..]);
      assert [line[0]] + line[1..] == line;
    }
  }

  /** A line without boundaries, then "\n": it is the first line. */
  lemma SplitLinesCons(line: string, rest: string)
    requires NoBreak(line)
    ensures SplitLines(line + "\n" + rest) == [line] + SplitLines(rest)
  {
    CutBrokenLine(line, rest);
    assert |line + "\n" + rest| > 0;
  }

  /** Reading back lines that hold no line boundary: every terminated line
      comes back, and so does a final line without a boundary unless it is
      empty. */
  lemma {:induction false} SplitLinesRoundTrip(lines: seq<string>, last: string)
    requires forall i :: 0 <= i < |lines| ==> NoBreak(lines[i])
    requires NoBreak(last)
    ensures SplitLines(Terminated(lines) + last) == lines + (if last == [] then [] else [last])
    decreases |lines|
  {
    if lines == [] {
      assert Terminated(lines) + last == last;
      if last != [] {
        CutLastLine(last);
      }
    } else {
      var rest := Terminated(lines[1..]) + last;
      assert Terminated(lines) + last == lines[0] + "\n" + rest;
      SplitLinesCons(lines[0], rest);
      SplitLinesRoundTrip(lines[1..], last);
      assert lines == [lines[0]] + lines[1..];
    }
  }

  predicate IsDigit(c: char) {
    '0' <= c <= '9'
  }

  predicate AllDigits(s: string) {
    forall i :: 0 <= i < |s| ==> IsDigit(s[i])
  }

  /** The number a string of decimal digits denotes. */
  function DigitsValue(s: string): nat
    requires AllDigits(s)
    decreases |s|
  {
    if s == [] then 0
    else DigitsValue(s[..|s| - 1]) * 10 + ((s[|s| - 1] as int) - ('0' as int))
  }

  function Pow10(k: nat): (p: nat)
    ensures p >= 1
  {
    if k == 0 then 1 else 10 * Pow10(k - 1)
  }

  /** The decimal digits of n, without leading zeros. */
  function Digits(n: nat): (s: string)
    ensures s != [] && AllDigits(s)
    decreases n
  {
    if n < 10 then [('0' as int + n) as char] else Digits(n / 10) + [('0' as int + n % 10) as char]
  }

  lemma {:induction false} DigitsValueOfDigits(n: nat)
    ensures DigitsValue(Digits(n)) == n
    decreases n
  {
    if n >= 10 {
      DigitsValueOfDigits(n / 10);
      var s := Digits(n);
      assert s[..|s| - 1] == Digits(n / 10);
    }
  }

  /** The decimal form of an integer, as `str(n)` writes it. */
  function Decimal(n: int): string {
    if n < 0 then "-" + Digits(-n) else Digits(n)
  }

  /** An optional leading sign, and the rest. */
  function Sign(s: string): (bool, string) {
    if s != [] && (s[0] == '-' || s[0] == '+') then (s[0] == '-', s[1..]) else (false, s)
  }

  /** `int(s)` on a sign followed by decimal digits; anything else raises. */
  function ParseInt(s: string): Option<int> {
    var (negative, body) := Sign(s);
    if body != [] && AllDigits(body) then
      var magnitude: int := DigitsValue(body);
      Some(if negative then -magnitude else magnitude)
    else None
  }

  /** `int(str(n)) == n`. */
  lemma ParseDecimal(n: int)
    ensures ParseInt(Decimal(n)) == Some(n)
  {
    DigitsValueOfDigits(if n < 0 then -n else n);
    if n < 0 {
      assert ("-" + Digits(-n))[1..] == Digits(-n);
    }
  }

  /** `s` cut at the first `c`, if there is one. */
  function CutAt(s: string, c: char): (r: (string, Option<string>))
    ensures r.1.None? ==> r.0 == s && c !in s
    ensures r.1.Some? ==> s == r.0 + [c] + r.1.value && c !in r.0
    decreases |s|
  {
    if s == [] then ([], None)
    else if s[0] == c then ([], Some(s[1..]))
    else
      var r := CutAt(s[1..], c);
      ([s[0]] + r.0, r.1)
  }

  /** `float(s)` on a sign, digits, and an optional point followed by digits,
      with at least one digit in all; anything else raises. */
  function ParseReal(s: string): Option<real> {
    var (negative, body) := Sign(s);
    var (whole, fraction) := CutAt(body, '.');
    var tail := if fraction.Some? then fraction.value else [];
    if AllDigits(whole) && AllDigits(tail) && |whole| + |tail| > 0 then
      var magnitude := Magnitude(whole, tail);
      Some(if negative then -magnitude else magnitude)
    else None
  }

  /** The value of the digits before and after a decimal point. */
  function Magnitude(whole: string, fraction: string): real
    requires AllDigits(whole) && AllDigits(fraction)
  {
    DigitsValue(whole) as real + Fraction(fraction)
  }

  /** The value of the digits after a decimal point. */
  function Fraction(fraction: string): real
    requires AllDigits(fraction)
  {
    DigitsValue(fraction) as real / Pow10(|fraction|) as real
  }

  lemma DigitsHaveNoPoint(s: string)
    requires AllDigits(s)
    ensures '.' !in s
  {
    assert forall i :: 0 <= i < |s| ==> s[i] != '.';
  }

  /** Whatever `int` accepts, `float` accepts too, with the same value. */
  lemma ParseRealOfInt(s: string, n: int)
    requires ParseInt(s) == Some(n)
    ensures ParseReal(s) == Some(n as real)
  {
    var (negative, body) := Sign(s);
    DigitsHaveNoPoint(body);
  }

  /** Cutting at the first `c` of a string whose first piece holds none. */
  lemma {:induction false} CutAtFirst(a: string, c: char, b: string)
    requires c !in a
    ensures CutAt(a + [c] + b, c) == (a, Some(b))
    decreases |a|
  {
    if a == [] {
      assert [] + [c] + b == [c] + b;
      assert ([c] + b)[1..] == b;
    } else {
      CutAtFirst(a[1..], c, b);
      assert (a + [c] + b)[1..] == a[1..] + [c] + b;
      assert [a[0]] + a[1..] == a;
    }
  }

  /** `float(str(w) + "." + fraction)`: the whole number w plus the fraction's
      digits read as a number of tenths, hundredths, and so on. */
  lemma PointedDecimal(w: nat, fraction: string)
    requires AllDigits(fraction)
    ensures ParseReal(Digits(w) + "." + fraction)
      == Some(w as real + Fraction(fraction))
  {
    PointedSplit(w, fraction);
    DigitsValueOfDigits(w);
  }

  /** PointedDecimal before the digits of w are read back. */
  lemma PointedSplit(w: nat, fraction: string)
    requires AllDigits(fraction)
    ensures ParseReal(Digits(w) + "." + fraction) == Some(Magnitude(Digits(w), fraction))
  {
    var whole := Digits(w);
    var s := whole + "." + fraction;
    DigitsHaveNoPoint(whole);
    assert s[0] == whole[0] && IsDigit(whole[0]);
    assert Sign(s) == (false, s);
    CutAtFirst(whole, '.', fraction);
    assert CutAt(s, '.') == (whole, Some(fraction));
  }
}
