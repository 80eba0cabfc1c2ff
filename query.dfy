/** The query string sent to the metadata endpoint: the fixed api version, the resource, and
    exactly one identity selector, with every value percent-escaped for '/' and ':'. */
module Query {
  import opened Wrappers

  const ApiVersion: string := "2018-02-01"

  /** The three identity-selector settings of the client; null in the source is None here. */
  datatype Identity = Identity(objectId: Option<string>, clientId: Option<string>, resourceId: Option<string>)

  type Pair = (string, string)

  predicate IsSelectorKey(k: string) { k == "object_id" || k == "client_id" || k == "msi_res_id" }

  /** The query entries in insertion order, or None when no selector is set (the source then
      throws its configuration error). */
  function Entries(id: Identity, resource: string): Option<seq<Pair>>
  {
    var fixed := [("api-version", ApiVersion), ("resource", resource)];
    if id.objectId.Some? then Some(fixed + [("object_id", id.objectId.value)])
    else if id.clientId.Some? then Some(fixed + [("client_id", id.clientId.value)])
    else if id.resourceId.Some? then Some(fixed + [("msi_res_id", id.resourceId.value)])
    else None
  }

  /** The entries exist exactly when some selector is set; they are the two fixed entries and
      one selector entry, chosen object id first, then client id, then resource id. */
  lemma EntriesShape(id: Identity, resource: string)
    ensures Entries(id, resource).Some? <==> (id.objectId.Some? || id.clientId.Some? || id.resourceId.Some?)
    ensures Entries(id, resource).Some? ==>
      var q := Entries(id, resource).value;
      && |q| == 3
      && q[0] == ("api-version", ApiVersion)
      && q[1] == ("resource", resource)
      && IsSelectorKey(q[2].0)
      && (id.objectId.Some? ==> q[2] == ("object_id", id.objectId.value))
      && (id.objectId.None? && id.clientId.Some? ==> q[2] == ("client_id", id.clientId.value))
      && (id.objectId.None? && id.clientId.None? ==> q[2] == ("msi_res_id", id.resourceId.value))
  {
  }

  /** Exactly one entry carries a selector key, and no key occurs twice. */
  lemma ExactlyOneSelector(id: Identity, resource: string)
    requires Entries(id, resource).Some?
    ensures var q := Entries(id, resource).value;
      && (forall i, j :: 0 <= i < j < |q| ==> q[i].0 != q[j].0)
      && (forall i :: 0 <= i < |q| ==> (IsSelectorKey(q[i].0) <==> i == 2))
  {
    var q := Entries(id, resource).value;
    assert q[0].0 == "api-version" && q[1].0 == "resource";
    assert !IsSelectorKey(q[0].0) && !IsSelectorKey(q[1].0);
  }

  /** String.Replace with a one-character pattern: every occurrence of `c` becomes `sub`. */
  function ReplaceChar(s: string, c: char, sub: string): string
  {
    if |s| == 0 then "" else (if s[0] == c then sub else [s[0]]) + ReplaceChar(s[1..], c, sub)
  }

  /** The value escaping of the source: first '/' to "%2f", then ':' to "%3a". */
  function Escape(v: string): string
  {
    ReplaceChar(ReplaceChar(v, '/', "%2f"), ':', "%3a")
  }

  lemma {:induction false} ReplaceCharConcat(a: string, b: string, c: char, sub: string)
    ensures ReplaceChar(a + b, c, sub) == ReplaceChar(a, c, sub) + ReplaceChar(b, c, sub)
  {
    if |a| > 0 {
      assert (a + b)[1..] == a[1..] + b;
      ReplaceCharConcat(a[1..], b, c, sub);
    } else {
      assert a + b == b;
    }
  }

  lemma {:induction false} ReplaceCharAbsent(s: string, c: char, sub: string)
    requires c !in s
    ensures ReplaceChar(s, c, sub) == s
  {
    if |s| > 0 {
      ReplaceCharAbsent(s[1..], c, sub);
    }
  }

  /** A character that is neither in the input nor in the replacement is not in the output;
      in particular the replaced character is gone when the replacement lacks it. */
  lemma {:induction false} ReplaceCharOmits(s: string, c: char, sub: string, d: char)
    requires d !in sub && (d == c || d !in s)
    ensures d !in ReplaceChar(s, c, sub)
  {
    if |s| > 0 {
      assert s[0] != d || s[0] == c;
      ReplaceCharOmits(s[1..], c, sub, d);
    }
  }

  /** No escaped value contains '/' or ':'. */
  lemma EscapeRemovesReserved(v: string)
    ensures '/' !in Escape(v) && ':' !in Escape(v)
  {
    ReplaceCharOmits(v, '/', "%2f", '/');
    ReplaceCharOmits(ReplaceChar(v, '/', "%2f"), ':', "%3a", '/');
    ReplaceCharOmits(ReplaceChar(v, '/', "%2f"), ':', "%3a", ':');
  }

  /** Escaping introduces only '%', '2', 'f', '3' and 'a': any other character absent from the
      value stays absent. */
  lemma EscapeKeepsAbsent(v: string, d: char)
    requires d !in v && d !in "%2f%3a"
    ensures d !in Escape(v)
  {
    ReplaceCharOmits(v, '/', "%2f", d);
    ReplaceCharOmits(ReplaceChar(v, '/', "%2f"), ':', "%3a", d);
  }

  /** An idealised reading of an escaped value that decodes only the two escapes the client
      emits: "%2f" is '/', "%3a" is ':'. */
  function Unescape(s: string): string
  {
    if |s| >= 3 && s[..3] == "%2f" then "/" + Unescape(s[3..])
    else if |s| >= 3 && s[..3] == "%3a" then ":" + Unescape(s[3..])
    else if |s| == 0 then ""
    else [s[0]] + Unescape(s[1..])
  }

  /** The escaped form of one character. */
  function EscapeChar(x: char): string
  {
    if x == '/' then "%2f" else if x == ':' then "%3a" else [x]
  }

  lemma EscapeCons(x: char, rest: string)
    ensures Escape([x] + rest) == EscapeChar(x) + Escape(rest)
  {
    var first := if x == '/' then "%2f" else [x];
    assert ([x] + rest)[1..] == rest;
    assert ReplaceChar([x] + rest, '/', "%2f") == first + ReplaceChar(rest, '/', "%2f");
    ReplaceCharConcat(first, ReplaceChar(rest, '/', "%2f"), ':', "%3a");
    if x == '/' {
      ReplaceCharAbsent("%2f", ':', "%3a");
    } else {
      assert ReplaceChar([x], ':', "%3a") == EscapeChar(x) by {
        assert [x][1..] == "";
      }
    }
  }

  /** Escaping a value with no '%' is undone by `Unescape`. */
  lemma {:induction false} UnescapeEscape(v: string)
    requires '%' !in v
    ensures Unescape(Escape(v)) == v
  {
    if |v| == 0 {
      assert Escape(v) == "";
    } else {
      var x, rest := v[0], v[1..];
      assert v == [x] + rest;
      EscapeCons(x, rest);
      var tail := Escape(rest);
      UnescapeEscape(rest);
      var e := EscapeChar(x) + tail;
      if x == '/' || x == ':' {
        assert e[..3] == EscapeChar(x) && e[3..] == tail;
      } else {
        assert e[0] == x && e[1..] == tail;
        assert |e| >= 3 ==> e[..3][0] == x;
      }
    }
  }

  /** Pairs are rendered `key=value` (the value escaped) and joined with '&'. */
  function Render(p: Pair): string { p.0 + "=" + Escape(p.1) }

  function RenderAll(q: seq<Pair>): (r: seq<string>)
    ensures |r| == |q|
  {
    if |q| == 0 then [] else [Render(q[0])] + RenderAll(q[1..])
  }

  function Join(parts: seq<string>, sep: char): string
  {
    if |parts| == 0 then "" else if |parts| == 1 then parts[0] else parts[0] + [sep] + Join(parts[1..], sep)
  }

  /** The text assigned to the request's query. */
  function QueryString(q: seq<Pair>): string { Join(RenderAll(q), '&') }

  /** Splits at every occurrence of `sep`; there is always at least one part. */
  function Split(s: string, sep: char): (r: seq<string>)
    ensures |r| >= 1
  {
    if |s| == 0 then [""]
    else if s[0] == sep then [""] + Split(s[1..], sep)
    else var rest := Split(s[1..], sep); [[s[0]] + rest[0]] + rest[1..]
  }

  /** Splits at the first occurrence of `sep`; without one, the second part is empty. */
  function SplitFirst(s: string, sep: char): (string, string)
  {
    if |s| == 0 then ("", "")
    else if s[0] == sep then ("", s[1..])
    else var r := SplitFirst(s[1..], sep); ([s[0]] + r.0, r.1)
  }

  /** An idealised reading of a query string back into pairs (see `Unescape`). */
  function ParsePairs(parts: seq<string>): (q: seq<Pair>)
    ensures |q| == |parts|
  {
    if |parts| == 0 then []
    else var kv := SplitFirst(parts[0], '='); [(kv.0, Unescape(kv.1))] + ParsePairs(parts[1..])
  }

  function ParseQuery(s: string): seq<Pair> { ParsePairs(Split(s, '&')) }

  lemma {:induction false} SplitNoSep(a: string, sep: char)
    requires sep !in a
    ensures Split(a, sep) == [a]
  {
    if |a| > 0 {
      SplitNoSep(a[1..], sep);
      assert [a[0]] + a[1..] == a;
    }
  }

  lemma {:induction false} SplitSep(a: string, b: string, sep: char)
    requires sep !in a
    ensures Split(a + [sep] + b, sep) == [a] + Split(b, sep)
  {
    if |a| == 0 {
      assert a + [sep] + b == [sep] + b;
      assert ([sep] + b)[1..] == b;
    } else {
      assert (a + [sep] + b)[1..] == a[1..] + [sep] + b;
      SplitSep(a[1..], b, sep);
      assert [a[0]] + a[1..] == a;
    }
  }

  lemma {:induction false} SplitJoin(parts: seq<string>, sep: char)
    requires |parts| >= 1
    requires forall i :: 0 <= i < |parts| ==> sep !in parts[i]
    ensures Split(Join(parts, sep), sep) == parts
  {
    if |parts| == 1 {
      SplitNoSep(parts[0], sep);
    } else {
      SplitSep(parts[0], Join(parts[1..], sep), sep);
      SplitJoin(parts[1..], sep);
      assert [parts[0]] + parts[1..] == parts;
    }
  }

  lemma {:induction false} SplitFirstSep(a: string, b: string, sep: char)
    requires sep !in a
    ensures SplitFirst(a + [sep] + b, sep) == (a, b)
  {
    if |a| == 0 {
      assert a + [sep] + b == [sep] + b;
      assert ([sep] + b)[1..] == b;
    } else {
      assert (a + [sep] + b)[1..] == a[1..] + [sep] + b;
      SplitFirstSep(a[1..], b, sep);
      assert [a[0]] + a[1..] == a;
    }
  }

  /** Keys and values the rendering can carry without ambiguity. */
  predicate Transmissible(q: seq<Pair>)
  {
    forall i :: 0 <= i < |q| ==> '=' !in q[i].0 && '&' !in q[i].0 && '&' !in q[i].1 && '%' !in q[i].1
  }

  lemma {:induction false} RenderAllSeparable(q: seq<Pair>)
    requires Transmissible(q)
    ensures forall i :: 0 <= i < |q| ==> '&' !in RenderAll(q)[i]
    ensures ParsePairs(RenderAll(q)) == q
  {
    if |q| > 0 {
      var p := q[0];
      EscapeKeepsAbsent(p.1, '&');
      assert Render(p) == p.0 + ['='] + Escape(p.1);
      SplitFirstSep(p.0, Escape(p.1), '=');
      UnescapeEscape(p.1);
      assert Transmissible(q[1..]) by {
        forall i | 0 <= i < |q[1..]| ensures '=' !in q[1..][i].0 && '&' !in q[1..][i].0 && '&' !in q[1..][i].1 && '%' !in q[1..][i].1 {
          assert q[1..][i] == q[i + 1];
        }
      }
      RenderAllSeparable(q[1..]);
      assert RenderAll(q)[1..] == RenderAll(q[1..]);
      assert [p] + q[1..] == q;
    }
  }

  /** Reading a non-empty query string back yields the pairs it was built from. */
  lemma QueryRoundTrip(q: seq<Pair>)
    requires |q| >= 1 && Transmissible(q)
    ensures ParseQuery(QueryString(q)) == q
  {
    RenderAllSeparable(q);
    SplitJoin(RenderAll(q), '&');
  }

  /** A configuration with only a resource id, for a resource and a resource id free of `&`
      and `%`, has a query that reads back as exactly its entries. */
  lemma ResourceIdQueryRoundTrip(resource: string, resourceId: string)
    requires '&' !in resource && '%' !in resource
    requires '&' !in resourceId && '%' !in resourceId
    ensures Entries(Identity(None, None, Some(resourceId)), resource).Some?
    ensures ParseQuery(QueryString(Entries(Identity(None, None, Some(resourceId)), resource).value))
            == Entries(Identity(None, None, Some(resourceId)), resource).value
  {
    QueryRoundTrip(Entries(Identity(None, None, Some(resourceId)), resource).value);
  }
}
