/**
  The domain key of an endpoint (check_and_update in main.py):
  `url.split('/')[2].split(':')[0]`, with the string operations of Python.
 */
module Domain {
  import opened Wrappers

  function Count(s: string, c: char): nat
  {
    if s == [] then 0 else (if s[0] == c then 1 else 0) + Count(s[1..], c)
  }

  /** str.split(c) with an explicit separator: the pieces between the
      occurrences of `c`, empty pieces included. */
  function Split(s: string, c: char): (parts: seq<string>)
    ensures |parts| == Count(s, c) + 1
    ensures forall i :: 0 <= i < |parts| ==> c !in parts[i]
  {
    if s == [] then [""]
    else
      var rest := Split(s[1..], c);
      if s[0] == c then [""] + rest else [[s[0]] + rest[0]] + rest[1..]
  }

  /** The pieces put back together with the separator. */
  function Join(parts: seq<string>, c: char): string
  {
    if parts == [] then "" else if |parts| == 1 then parts[0] else parts[0] + [c] + Join(parts[1..], c)
  }

  /** Splitting loses nothing: joining the pieces gives the string back. */
  lemma {:induction false} JoinSplit(s: string, c: char)
    ensures Join(Split(s, c), c) == s
  {
    if s != [] {
      var rest := Split(s[1..], c);
      JoinSplit(s[1..], c);
      if s[0] == c {
        assert Split(s, c) == [""] + rest;
        assert ([""] + rest)[1..] == rest;
      } else {
        if |rest| == 1 {
          assert Split(s, c) == [[s[0]] + rest[0]];
        } else {
          assert Split(s, c)[1..] == rest[1..];
          assert Join(rest, c) == rest[0] + [c] + Join(rest[1..], c);
        }
      }
    }
  }

  /** The domain key, or None where the source raises IndexError: a URL with
      fewer than two '/' has no third piece. */
  function DomainKey(url: string): (key: Option<string>)
    ensures key.Some? <==> Count(url, '/') >= 2
    ensures key.Some? ==> '/' !in key.value && ':' !in key.value
  {
    var parts := Split(url, '/');
    if |parts| < 3 then None
    else
      var host := Split(parts[2], ':');
      assert '/' !in parts[2];
      assert forall i :: 0 <= i < |host[0]| ==> host[0][i] in parts[2] by {
        SplitPiecesFromInput(parts[2], ':');
      }
      Some(host[0])
  }

  lemma {:induction false} SplitPiecesFromInput(s: string, c: char)
    ensures forall i, j :: 0 <= i < |Split(s, c)| && 0 <= j < |Split(s, c)[i]| ==> Split(s, c)[i][j] in s
  {
    if s != [] {
      SplitPiecesFromInput(s[1..], c);
    }
  }

  // A second reading of the same rule, by scanning instead of splitting:
  // skip past the second '/', then keep characters up to the next '/' or ':'.

  /** What follows the n-th occurrence of c, if there is one. */
  function After(s: string, c: char, n: nat): Option<string>
  {
    if n == 0 then Some(s)
    else if s == [] then None
    else if s[0] == c then After(s[1..], c, n - 1)
    else After(s[1..], c, n)
  }

  /** The longest prefix free of '/' and ':'. */
  function HostPrefix(s: string): (h: string)
    ensures h <= s
    ensures '/' !in h && ':' !in h
    ensures |h| < |s| ==> s[|h|] == '/' || s[|h|] == ':'
  {
    if s == [] || s[0] == '/' || s[0] == ':' then "" else [s[0]] + HostPrefix(s[1..])
  }

  function HostOf(url: string): Option<string>
  {
    match After(url, '/', 2)
    case None => None
    case Some(t) => Some(HostPrefix(t))
  }

  /** The longest prefix free of c is the first split piece. */
  lemma {:induction false} SplitFirst(s: string, c: char)
    ensures Split(s, c)[0] <= s
    ensures |Split(s, c)[0]| < |s| ==> s[|Split(s, c)[0]|] == c
  {
    if s != [] && s[0] != c {
      SplitFirst(s[1..], c);
    }
  }

  /** The n-th piece is the first piece of what follows the n-th separator. */
  lemma {:induction false} SplitNth(s: string, c: char, n: nat)
    requires n < |Split(s, c)|
    ensures After(s, c, n).Some?
    ensures Split(s, c)[n] == Split(After(s, c, n).value, c)[0]
  {
    if n > 0 && s != [] {
      var rest := Split(s[1..], c);
      if s[0] == c {
        assert Split(s, c)[n] == rest[n - 1];
        SplitNth(s[1..], c, n - 1);
      } else {
        if n < |rest| {
          assert Split(s, c)[n] == rest[n];
          SplitNth(s[1..], c, n);
        }
      }
    }
  }

  /** Cutting at the first '/' and then at the first ':' keeps the longest
      prefix free of both. */
  lemma {:induction false} HostPrefixOfPieces(t: string)
    ensures Split(Split(t, '/')[0], ':')[0] == HostPrefix(t)
  {
    if t != [] && t[0] != '/' && t[0] != ':' {
      HostPrefixOfPieces(t[1..]);
      var p := Split(t[1..], '/')[0];
      assert Split(t, '/')[0] == [t[0]] + p;
      assert ([t[0]] + p)[1..] == p;
    } else if t != [] && t[0] == '/' {
      assert Split(t, '/')[0] == "";
    }
  }

  /** The split-based key and the scan-based reading agree on every URL. */
  lemma DomainKeyIsHost(url: string)
    ensures DomainKey(url) == HostOf(url)
  {
    var parts := Split(url, '/');
    if |parts| >= 3 {
      SplitNth(url, '/', 2);
      HostPrefixOfPieces(After(url, '/', 2).value);
    } else {
      AfterPastCount(url, '/', 2);
    }
  }

  lemma {:induction false} AfterPastCount(s: string, c: char, n: nat)
    requires n > Count(s, c)
    ensures After(s, c, n).None?
  {
    if s != [] {
      AfterPastCount(s[1..], c, if s[0] == c then n - 1 else n);
    }
  }

  lemma {:induction false} AfterSkip(a: string, c: char, t: string, n: nat)
    requires c !in a
    ensures After(a + [c] + t, c, n + 1) == After(t, c, n)
  {
    if a != [] {
      assert (a + [c] + t)[1..] == a[1..] + [c] + t;
      AfterSkip(a[1..], c, t, n);
    }
  }

  lemma {:induction false} HostPrefixStops(h: string, rest: string)
    requires '/' !in h && ':' !in h
    requires rest == [] || rest[0] == '/' || rest[0] == ':'
    ensures HostPrefix(h + rest) == h
  {
    if h != [] {
      assert (h + rest)[1..] == h[1..] + rest;
      HostPrefixStops(h[1..], rest);
    }
  }

  /** A URL laid out as scheme '/' authority-prefix '/' host rest, where the
      host holds no '/' or ':' and the rest is empty or starts with a port or
      a path, has that host as its key. */
  lemma DomainKeyOfLayout(scheme: string, between: string, host: string, rest: string)
    requires '/' !in scheme && '/' !in between
    requires '/' !in host && ':' !in host
    requires rest == [] || rest[0] == '/' || rest[0] == ':'
    ensures DomainKey(scheme + "/" + between + "/" + host + rest) == Some(host)
  {
    var url := scheme + "/" + between + "/" + host + rest;
    assert url == scheme + ['/'] + (between + ['/'] + (host + rest));
    AfterSkip(scheme, '/', between + ['/'] + (host + rest), 1);
    AfterSkip(between, '/', host + rest, 0);
    HostPrefixStops(host, rest);
    DomainKeyIsHost(url);
  }

  lemma {:induction false} CountAbsent(s: string, c: char)
    requires c !in s
    ensures Count(s, c) == 0
  {
    if s != [] {
      CountAbsent(s[1..], c);
    }
  }

  /** Two endpoints on one host, one with a port, share a key. The URL is a
      parameter fixed by the requires, rather than a literal in the ensures,
      so that the verifier does not unfold Split over the literal character by
      character, which exceeds the resource limit. */
  lemma DomainKeyWithPath(url: string)
    requires url == "https://example.com/a"
    ensures DomainKey(url) == Some("example.com")
  {
    var scheme, host, rest := "https:", "example.com", "/a";
    assert '/' !in scheme && '/' !in host && ':' !in host;
    assert url == scheme + "/" + "" + "/" + host + rest;
    DomainKeyOfLayout(scheme, "", host, rest);
  }

  lemma DomainKeyWithPort(url: string)
    requires url == "https://example.com:8443/b"
    ensures DomainKey(url) == Some("example.com")
  {
    var scheme, host, rest := "https:", "example.com", ":8443/b";
    assert '/' !in scheme && '/' !in host && ':' !in host;
    assert url == scheme + "/" + "" + "/" + host + rest;
    DomainKeyOfLayout(scheme, "", host, rest);
  }

  lemma DomainKeyWithoutSlashes()
    ensures DomainKey("example.com") == None
  {
    CountAbsent("example.com", '/');
  }
}
