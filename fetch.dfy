/** The slice of the WHATWG Fetch Standard that the service worker relies on:
    requests as the fetch event delivers them, responses, the "ok status"
    range, and the outcome of one network fetch. */
module Fetch {

  /** Cache key: the request URL relative to the worker's origin ("/", "/manifest.json", ...).
      Request matching details (Vary, URL normalisation) are abstracted into it. */
  type Key = string

  /** The request destinations of section 2.2.5 of the Fetch Standard ("" is `Empty`). */
  datatype Destination =
    | Empty | Audio | AudioWorklet | Document | Embed | Font | Frame | IFrame | Image
    | Json | Manifest | Object | PaintWorklet | Report | Script | ServiceWorker
    | SharedWorker | Style | Track | Video | Worker | Xslt

  datatype Mode = SameOrigin | NoCors | Cors | Navigate | WebSocket

  /** `url` is the cache key; `path` is `new URL(request.url).pathname`. */
  datatype Request = Request(httpMethod: string, url: Key, path: string, destination: Destination, mode: Mode)

  datatype Response = Response(status: int, headers: seq<(string, string)>, body: string)

  /** Section 2.2.3 of the Fetch Standard: an ok status is in the range 200 to 299. */
  predicate IsOk(r: Response)
  {
    200 <= r.status <= 299
  }

  /** ASCII case-insensitive comparison of a header name with "vary". */
  predicate IsVaryName(name: string)
  {
    |name| == 4
    && (name[0] == 'v' || name[0] == 'V') && (name[1] == 'a' || name[1] == 'A')
    && (name[2] == 'r' || name[2] == 'R') && (name[3] == 'y' || name[3] == 'Y')
  }

  /** The elements joined back together with a comma between neighbours. */
  function Join(parts: seq<string>): string
  {
    if parts == [] then ""
    else if |parts| == 1 then parts[0]
    else parts[0] + "," + Join(parts[1..])
  }

  /** The comma-separated elements of a header value, in order; none
      contains a comma, so a value with `n` commas has `n + 1` elements. */
  function SplitCommas(v: string): (r: seq<string>)
    ensures r != []
    ensures forall k :: 0 <= k < |r| ==> ',' !in r[k]
    ensures ',' !in v ==> r == [v]
  {
    if v == [] then [""]
    else
      var rest := SplitCommas(v[1..]);
      if v[0] == ',' then [""] + rest
      else
        assert ',' !in v ==> ',' !in v[1..] && rest == [v[1..]] && [v[0]] + v[1..] == v;
        [[v[0]] + rest[0]] + rest[1..]
  }

  /** Joining an element in front of at least one other puts a comma between them. */
  lemma JoinCons(x: string, rest: seq<string>)
    requires rest != []
    ensures Join([x] + rest) == x + "," + Join(rest)
  {
    assert ([x] + rest)[1..] == rest;
  }

  /** Extending the first element extends the joined value at the front. */
  lemma JoinExtendFirst(x: string, parts: seq<string>)
    requires parts != []
    ensures Join([x + parts[0]] + parts[1..]) == x + Join(parts)
  {
    var q := [x + parts[0]] + parts[1..];
    assert q[0] == x + parts[0] && q[1..] == parts[1..];
    if |parts| > 1 {
      assert Join(q) == (x + parts[0]) + "," + Join(parts[1..]);
      assert Join(parts) == parts[0] + "," + Join(parts[1..]);
    }
  }

  /** A value with `n` commas has `n + 1` elements. */
  lemma {:induction false} SplitCommasCount(v: string)
    ensures |SplitCommas(v)| == multiset(v)[','] + 1
  {
    if v != [] {
      SplitCommasCount(v[1..]);
      assert multiset(v) == multiset([v[0]]) + multiset(v[1..]) by {
        assert v == [v[0]] + v[1..];
      }
    }
  }

  /** Splitting loses nothing: joining the elements with commas gives the
      value back. */
  lemma {:induction false} SplitCommasJoin(v: string)
    ensures Join(SplitCommas(v)) == v
  {
    if v != [] {
      var rest := SplitCommas(v[1..]);
      SplitCommasJoin(v[1..]);
      if v[0] == ',' {
        assert SplitCommas(v) == [""] + rest;
        JoinCons("", rest);
      } else {
        assert SplitCommas(v) == [[v[0]] + rest[0]] + rest[1..];
        JoinExtendFirst([v[0]], rest);
      }
      assert v == [v[0]] + v[1..];
    }
  }

  predicate IsOws(c: char)
  {
    c == ' ' || c == '\t'
  }

  /** Drops the spaces and tabs at the start. */
  function StripOwsStart(s: string): (r: string)
    ensures |r| <= |s|
    ensures r != [] ==> !IsOws(r[0])
  {
    if s != [] && IsOws(s[0]) then StripOwsStart(s[1..]) else s
  }

  /** Drops the spaces and tabs at the end. */
  function StripOwsEnd(s: string): (r: string)
    ensures |r| <= |s| && r == s[..|r|]
    ensures r != [] ==> !IsOws(r[|r| - 1])
  {
    if s != [] && IsOws(s[|s| - 1]) then StripOwsEnd(s[..|s| - 1]) else s
  }

  /** An element with the optional white space (spaces and tabs) around it removed. */
  function StripOws(s: string): (r: string)
    ensures |r| <= |s|
    ensures r != [] ==> !IsOws(r[0]) && !IsOws(r[|r| - 1])
  {
    var t := StripOwsStart(s);
    var r := StripOwsEnd(t);
    assert r != [] ==> r[0] == t[0];
    r
  }

  /** StripOwsStart removes a prefix made only of spaces and tabs. */
  lemma {:induction false} StripOwsStartRemoves(s: string)
    ensures StripOwsStart(s) == s[|s| - |StripOwsStart(s)|..]
    ensures forall k :: 0 <= k < |s| - |StripOwsStart(s)| ==> IsOws(s[k])
  {
    if s != [] && IsOws(s[0]) {
      StripOwsStartRemoves(s[1..]);
      assert forall k :: 1 <= k < |s| ==> s[k] == s[1..][k - 1];
    }
  }

  /** StripOwsEnd removes only spaces and tabs. */
  lemma {:induction false} StripOwsEndRemoves(s: string)
    ensures forall k :: |StripOwsEnd(s)| <= k < |s| ==> IsOws(s[k])
  {
    if s != [] && IsOws(s[|s| - 1]) {
      StripOwsEndRemoves(s[..|s| - 1]);
    }
  }

  /** What StripOws keeps is the slice `s[i..j]` left after cutting off a
      prefix and a suffix made only of spaces and tabs. */
  lemma StripOwsSlice(s: string)
    ensures var i := |s| - |StripOwsStart(s)|;
            var j := i + |StripOws(s)|;
            && 0 <= i <= j <= |s| && StripOws(s) == s[i..j]
            && (forall k :: 0 <= k < i ==> IsOws(s[k]))
            && (forall k :: j <= k < |s| ==> IsOws(s[k]))
  {
    var t := StripOwsStart(s);
    var r := StripOwsEnd(t);
    assert r == StripOws(s);
    var i, j := |s| - |t|, |s| - |t| + |r|;
    StripOwsStartRemoves(s);
    StripOwsEndRemoves(t);
    assert r == s[i..j];
    forall k | j <= k < |s| ensures IsOws(s[k]) {
      assert s[k] == t[k - i];
    }
  }

  /** Some Vary header of the response lists `*` among its field values. */
  predicate VaryStar(r: Response)
  {
    exists i, k :: 0 <= i < |r.headers| && IsVaryName(r.headers[i].0)
                   && 0 <= k < |SplitCommas(r.headers[i].1)| && StripOws(SplitCommas(r.headers[i].1)[k]) == "*"
  }

  /** A response that `Cache.put` and `Cache.addAll` store rather than reject
      with a TypeError: not a partial response (206) and not varying on `*`
      (sections 5.4.4 and 5.4.5 of the W3C Service Workers specification). */
  predicate PutAccepts(r: Response)
  {
    r.status != 206 && !VaryStar(r)
  }

  /** A response without a Vary header is rejected exactly for status 206. */
  lemma PutAcceptsWithoutVary(r: Response)
    requires forall i :: 0 <= i < |r.headers| ==> !IsVaryName(r.headers[i].0)
    ensures PutAccepts(r) <==> r.status != 206
  {
  }

  /** A `Vary: *` header always makes `put` reject the response. */
  lemma VaryStarRejects(r: Response, i: nat)
    requires i < |r.headers| && r.headers[i] == ("Vary", "*")
    ensures !PutAccepts(r)
  {
    StarIsOneElement();
    assert IsVaryName(r.headers[i].0) && StripOws(SplitCommas(r.headers[i].1)[0]) == "*";
  }

  /** The value `*` is the single element `*`. */
  lemma StarIsOneElement()
    ensures SplitCommas("*") == ["*"] && StripOws("*") == "*"
  {
    assert StripOwsStart("*") == "*";
    assert StripOwsEnd("*") == "*";
  }

  /** What `fetch(request)` does: resolve with a response (of any status), or
      reject with a transport failure. */
  datatype FetchOutcome = Received(response: Response) | NetworkError
}
