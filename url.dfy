/** How `call` takes the base URL apart to open a connection: the protocol,
    the host (the third '/'-separated part) and the request path. */
module Url {
  import opened Common

  /** Python's `s.split(sep)`: the pieces between occurrences of `sep`. */
  function Split(s: string, sep: char): (parts: seq<string>)
    ensures |parts| >= 1
    decreases |s|
  {
    if s == [] then [[]]
    else
      var tail := Split(s[1..], sep);
      if s[0] == sep then [[]] + tail else [[s[0]] + tail[0]] + tail[1..]
  }

  /** `sep.join(parts)`, the inverse of Split. */
  function Join(parts: seq<string>, sep: char): string
    decreases |parts|
  {
    if parts == [] then []
    else if |parts| == 1 then parts[0]
    else parts[0] + [sep] + Join(parts[1..], sep)
  }

  /** Splitting and joining again gives back the string. */
  lemma {:induction false} JoinSplit(s: string, sep: char)
    ensures Join(Split(s, sep), sep) == s
    decreases |s|
  {
    if s != [] {
      var tail := Split(s[1..], sep);
      JoinSplit(s[1..], sep);
      if s[0] == sep {
        assert Split(s, sep) == [[]] + tail;
        assert ([[]] + tail)[1..] == tail;
        assert s == [] + [sep] + s[1..];
      } else if |tail| == 1 {
        assert Split(s, sep) == [[s[0]] + tail[0]];
        assert s == [s[0]] + s[1..];
      } else {
        var parts := Split(s, sep);
        assert parts == [[s[0]] + tail[0]] + tail[1..];
        assert parts[1..] == tail[1..];
        assert Join(tail, sep) == tail[0] + [sep] + Join(tail[1..], sep);
        assert s == [s[0]] + s[1..];
      }
    }
  }

  /** There is one more piece than there are separators, and no piece holds one. */
  lemma {:induction false} SplitCount(s: string, sep: char)
    ensures |Split(s, sep)| == multiset(s)[sep] + 1
    ensures forall p :: p in Split(s, sep) ==> sep !in p
    decreases |s|
  {
    if s != [] {
      SplitCount(s[1..], sep);
      assert s == [s[0]] + s[1..];
      assert multiset(s) == multiset{s[0]} + multiset(s[1..]);
      var tail := Split(s[1..], sep);
      if s[0] != sep {
        var parts := Split(s, sep);
        assert parts == [[s[0]] + tail[0]] + tail[1..];
        forall p | p in parts ensures sep !in p {
          if p != [s[0]] + tail[0] {
            assert p in tail[1..];
          } else {
            assert tail[0] in tail;
          }
        }
      }
    }
  }

  /** A piece free of `sep` followed by a separator comes out as the first part. */
  lemma {:induction false} SplitAfterPiece(a: string, sep: char, b: string)
    requires sep !in a
    ensures Split(a + [sep] + b, sep) == [a] + Split(b, sep)
    decreases |a|
  {
    if a == [] {
      assert [] + [sep] + b == [sep] + b;
      assert ([sep] + b)[1..] == b;
    } else {
      SplitAfterPiece(a[1..], sep, b);
      assert (a + [sep] + b)[1..] == a[1..] + [sep] + b;
      assert [a[0]] + a[1..] == a;
    }
  }

  /** A piece free of `sep` ending the string or followed by `sep` is the first part. */
  lemma {:induction false} SplitFirstPiece(a: string, sep: char, b: string)
    requires sep !in a
    requires b == [] || b[0] == sep
    ensures Split(a + b, sep)[0] == a
    decreases |a|
  {
    if a == [] {
      if b != [] {
        assert Split(b, sep) == [[]] + Split(b[1..], sep);
      }
    } else {
      SplitFirstPiece(a[1..], sep, b);
      assert (a + b)[1..] == a[1..] + b;
      assert [a[0]] + a[1..] == a;
    }
  }

  /** `"https" if base_url.startswith("https") else "http"`. */
  function Protocol(baseUrl: string): (p: string)
    ensures p == "https" || p == "http"
    ensures p == "https" <==> StartsWith(baseUrl, "https")
  {
    if StartsWith(baseUrl, "https") then "https" else "http"
  }

  /** Where a request goes: connection protocol, host, and the POST path. */
  datatype Endpoint = Endpoint(protocol: string, host: string, path: string)

  const CompletionsPath: string := "/chat/completions"

  /** The endpoint `call` derives from the base URL, or None when
      `base_url.split("/")[2]` raises. The path is the URL with its first
      |protocol| + 3 + |host| characters cut off (whatever they are), followed
      by "/chat/completions". */
  function EndpointOf(baseUrl: string): Option<Endpoint> {
    var parts := Split(baseUrl, '/');
    if |parts| <= 2 then None
    else
      var protocol := Protocol(baseUrl);
      var host := parts[2];
      Some(Endpoint(protocol, host, Drop(baseUrl, |protocol| + 3 + |host|) + CompletionsPath))
  }

  /** A base URL yields an endpoint exactly when it holds at least two '/';
      the host then holds none, and the path ends in "/chat/completions". */
  lemma EndpointShape(baseUrl: string)
    ensures EndpointOf(baseUrl).Some? <==> multiset(baseUrl)['/'] >= 2
    ensures EndpointOf(baseUrl).Some? ==>
      var e := EndpointOf(baseUrl).value;
      '/' !in e.host && EndsWith(e.path, CompletionsPath)
  {
    var parts := Split(baseUrl, '/');
    SplitCount(baseUrl, '/');
    if |parts| > 2 {
      assert parts[2] in parts;
      var path := EndpointOf(baseUrl).value.path;
      assert path[|path| - |CompletionsPath|..] == CompletionsPath;
    }
  }

  /** The host of protocol://host[/rest] is its third '/'-separated part. */
  lemma HostIsThirdPart(scheme: string, host: string, rest: string)
    requires '/' !in scheme && '/' !in host
    requires rest == [] || rest[0] == '/'
    ensures |Split(scheme + "//" + host + rest, '/')| > 2
    ensures Split(scheme + "//" + host + rest, '/')[2] == host
  {
    var tail := host + rest;
    assert scheme + "//" + host + rest == scheme + ['/'] + ([] + ['/'] + tail);
    SplitAfterPiece(scheme, '/', [] + ['/'] + tail);
    SplitAfterPiece([], '/', tail);
    SplitFirstPiece(host, '/', rest);
  }

  /** The protocol test only looks at the first five characters. */
  lemma ProtocolOfScheme(protocol: string, tail: string)
    requires protocol == "http" || protocol == "https"
    ensures Protocol(protocol + "://" + tail) == protocol
  {
    var url := protocol + "://" + tail;
    if protocol == "http" {
      assert url[4] == ':';
      assert url[..5] != "https" by { assert url[..5][4] == ':'; }
    } else {
      assert url[..5] == "https";
    }
  }

  /** For a URL of the form protocol://host[/rest], `call` recovers exactly the
      protocol and the host, and posts to rest + "/chat/completions". */
  lemma Decompose(protocol: string, host: string, rest: string)
    requires protocol == "http" || protocol == "https"
    requires '/' !in host
    requires rest == [] || rest[0] == '/'
    ensures EndpointOf(protocol + "://" + host + rest) == Some(Endpoint(protocol, host, rest + CompletionsPath))
  {
    var url := protocol + "://" + host + rest;
    var scheme := protocol + ":";
    assert url == scheme + "//" + host + rest;
    assert '/' !in scheme;
    HostIsThirdPart(scheme, host, rest);
    assert url == protocol + "://" + (host + rest);
    ProtocolOfScheme(protocol, host + rest);
    assert Drop(url, |protocol| + 3 + |host|) == rest;
  }
}
