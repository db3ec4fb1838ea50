/** The csv output of write_result: each field is escaped as section 2 of
    RFC 4180 describes (items 6 and 7), and a row is the escaped sample, a
    comma, and the escaped content. A small reader of such records shows that
    nothing is lost. */
module Csv {
  import opened Common

  const Header: string := "sample,content"

  /** A field must be quoted when it holds a comma, a line break or a quote. */
  predicate NeedsEscaping(s: string) {
    ',' in s || '\n' in s || '\r' in s || '"' in s
  }

  /** `s.replace('"', '""')`. */
  function DoubleQuotes(s: string): string
    decreases |s|
  {
    if s == [] then []
    else (if s[0] == '"' then "\"\"" else [s[0]]) + DoubleQuotes(s[1..])
  }

  /** Reads "" back as ". */
  function CollapseQuotes(s: string): string
    decreases |s|
  {
    if s == [] then []
    else if |s| >= 2 && s[0] == '"' && s[1] == '"' then "\"" + CollapseQuotes(s[2..])
    else [s[0]] + CollapseQuotes(s[1..])
  }

  lemma {:induction false} CollapseDoubled(s: string)
    ensures CollapseQuotes(DoubleQuotes(s)) == s
    decreases |s|
  {
    if s != [] {
      CollapseDoubled(s[1..]);
      var rest := DoubleQuotes(s[1..]);
      if s[0] == '"' {
        assert DoubleQuotes(s) == "\"\"" + rest;
        assert ("\"\"" + rest)[2..] == rest;
      } else {
        assert DoubleQuotes(s) == [s[0]] + rest;
        assert ([s[0]] + rest)[1..] == rest;
      }
      assert s == [s[0]] + s[1..];
    }
  }

  /** escape_for_csv: a field without any of , \n \r " is written as it is;
      any other field is quoted, with its quotes doubled, and collapsing the
      doubled quotes between the outer ones gives the field back. */
  function Escape(s: string): (r: string)
    ensures !NeedsEscaping(s) ==> r == s
    ensures NeedsEscaping(s) ==>
      |r| >= 2 && r[0] == '"' && r[|r| - 1] == '"' && CollapseQuotes(r[1..|r| - 1]) == s
  {
    if NeedsEscaping(s) then
      var r := "\"" + DoubleQuotes(s) + "\"";
      CollapseDoubled(s);
      assert r[1..|r| - 1] == DoubleQuotes(s);
      r
    else s
  }

  /** The line write_result prints for one result in csv mode. */
  function Row(sample: string, content: string): string {
    Escape(sample) + "," + Escape(content)
  }

  /** Reading a quoted field after its opening quote: "" stands for ", and a
      lone " closes the field. Gives the field and what follows the close. */
  function ReadQuoted(s: string): (r: Option<(string, string)>)
    ensures r.Some? ==> |r.value.1| < |s|
    decreases |s|
  {
    if s == [] then None
    else if s[0] == '"' then
      if |s| >= 2 && s[1] == '"' then
        match ReadQuoted(s[2..])
        case None => None
        case Some(r) => Some(("\"" + r.0, r.1))
      else Some(([], s[1..]))
    else
      match ReadQuoted(s[1..])
      case None => None
      case Some(r) => Some(([s[0]] + r.0, r.1))
  }

  /** Reading an unquoted field: everything up to the next comma. */
  function ReadBare(s: string): (r: (string, string))
    ensures |r.1| <= |s|
    decreases |s|
  {
    if s == [] || s[0] == ',' then ([], s)
    else var r := ReadBare(s[1..]); ([s[0]] + r.0, r.1)
  }

  function ReadField(s: string): (r: Option<(string, string)>)
    ensures r.Some? ==> |r.value.1| <= |s|
  {
    if s != [] && s[0] == '"' then ReadQuoted(s[1..]) else Some(ReadBare(s))
  }

  /** The fields of one record, or None when a quoted field is not closed
      or is followed by something other than a comma. */
  function ParseRecord(line: string): Option<seq<string>>
    decreases |line|
  {
    match ReadField(line)
    case None => None
    case Some(f) =>
      if f.1 == [] then Some([f.0])
      else if f.1[0] != ',' then None
      else
        match ParseRecord(f.1[1..])
        case None => None
        case Some(fields) => Some([f.0] + fields)
  }

  lemma {:induction false} ReadQuotedDoubled(s: string, t: string)
    requires t == [] || t[0] != '"'
    ensures ReadQuoted(DoubleQuotes(s) + "\"" + t) == Some((s, t))
    decreases |s|
  {
    var input := DoubleQuotes(s) + "\"" + t;
    if s == [] {
      assert input == "\"" + t;
      assert input[1..] == t;
    } else {
      var rest := DoubleQuotes(s[1..]) + "\"" + t;
      ReadQuotedDoubled(s[1..], t);
      if s[0] == '"' {
        assert input == "\"\"" + rest;
        assert input[2..] == rest;
      } else {
        assert input == [s[0]] + rest;
        assert input[1..] == rest;
      }
      assert s == [s[0]] + s[1..];
    }
  }

  lemma {:induction false} ReadBarePlain(s: string, t: string)
    requires ',' !in s
    requires t == [] || t[0] == ','
    ensures ReadBare(s + t) == (s, t)
    decreases |s|
  {
    if s == [] {
      assert s + t == t;
    } else {
      ReadBarePlain(s[1..], t);
      assert (s + t)[1..] == s[1..] + t;
      assert s == [s[0]] + s[1..];
    }
  }

  /** An escaped field, followed by the end of the line or a comma, is read
      back as the original field. */
  lemma EscapeReadsBack(s: string, t: string)
    requires t == [] || t[0] == ','
    ensures ReadField(Escape(s) + t) == Some((s, t))
  {
    if NeedsEscaping(s) {
      QuotedReadsBack(s, t);
    } else {
      BareReadsBack(s, t);
    }
  }

  lemma QuotedReadsBack(s: string, t: string)
    requires NeedsEscaping(s)
    requires t == [] || t[0] == ','
    ensures ReadField(Escape(s) + t) == Some((s, t))
  {
    var inner := DoubleQuotes(s) + ['"'] + t;
    var e := ['"'] + inner;
    EscapeQuoted(s);
    assert Escape(s) + t == e;
    assert e[1..] == inner;
    ReadQuotedDoubled(s, t);
    assert ReadField(e) == ReadQuoted(inner);
  }

  lemma EscapeQuoted(s: string)
    requires NeedsEscaping(s)
    ensures Escape(s) == ['"'] + DoubleQuotes(s) + ['"']
  {
  }

  lemma BareReadsBack(s: string, t: string)
    requires !NeedsEscaping(s)
    requires t == [] || t[0] == ','
    ensures ReadField(Escape(s) + t) == Some((s, t))
  {
    var e := s + t;
    ReadBarePlain(s, t);
    if s != [] {
      assert e[0] == s[0] && s[0] in s;
    }
  }

  /** A lone escaped field is a record of one field. */
  lemma FieldRecord(s: string)
    ensures ParseRecord(Escape(s)) == Some([s])
  {
    EscapeReadsBack(s, []);
    assert Escape(s) + [] == Escape(s);
  }

  /** A field followed by a comma starts a record of one more field. */
  lemma RecordAfterField(line: string, field: string, rest: string)
    requires ReadField(line) == Some((field, "," + rest))
    ensures ParseRecord(line) == match ParseRecord(rest)
      case None => None
      case Some(fields) => Some([field] + fields)
  {
    assert ("," + rest)[1..] == rest;
  }

  /** A csv row reads back as the two fields it was made of, whatever they hold. */
  lemma RowRoundTrip(sample: string, content: string)
    ensures ParseRecord(Row(sample, content)) == Some([sample, content])
  {
    var line := Row(sample, content);
    var tail := "," + Escape(content);
    assert line == Escape(sample) + tail;
    EscapeReadsBack(sample, tail);
    RecordAfterField(line, sample, Escape(content));
    FieldRecord(content);
    assert [sample] + [content] == [sample, content];
  }
}
