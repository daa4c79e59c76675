/** What execRequest hands to OkHttp and gets back from it: the request it
    builds, the per-call client settings, the raw response, and the
    transport failure that may be raised instead of a response. Encoding
    of query strings and form bodies is OkHttp's and is not modelled: both
    are kept as lists of name/value pairs. */
module Http {
  import opened Wrappers
  import opened Exceptions

  newtype byte = x: int | 0 <= x < 256

  datatype Param = Param(name: string, value: string)

  predicate DistinctNames(ps: seq<Param>)
  {
    forall i, j :: 0 <= i < j < |ps| ==> ps[i].name != ps[j].name
  }

  /** A Java Map<String, String> in its iteration order: names are unique. */
  type Params = ps: seq<Param> | DistinctNames(ps)

  /** The map a pair list stands for (later pairs win, which never matters
      for Params). */
  function AsMap(ps: seq<Param>): (m: map<string, string>)
    ensures forall p :: p in ps ==> p.name in m
    ensures forall k :: k in m ==> exists p :: p in ps && p.name == k && m[k] == p.value
  {
    if ps == [] then map[]
    else AsMap(ps[..|ps| - 1])[ps[|ps| - 1].name := ps[|ps| - 1].value]
  }

  datatype HttpMethod = Get | Post

  datatype Request = Request(
    verb: HttpMethod,
    url: string,                  // the parsed target URL
    query: seq<Param>,            // query parameters added to the URL
    form: Option<seq<Param>>,     // the form body; None when there is no body
    headers: map<string, string>)

  /** The timeout settings of an OkHttpClient; None is OkHttp's own default. */
  datatype ClientSettings = ClientSettings(
    connectTimeoutMillis: nat,
    readTimeoutSeconds: Option<nat>,
    writeTimeoutSeconds: Option<nat>)

  datatype RawResponse = RawResponse(status: int, contentType: string, body: seq<byte>)

  /** The outcome of Call.execute including the reading of the body. */
  datatype Exchange = Received(response: RawResponse) | Raised(failure: IoFailure)

  /** Response.isSuccessful: the status is in the 2xx class. */
  predicate IsSuccessful(status: int)
  {
    200 <= status <= 299
  }

  predicate IsPrefix(t: string, s: string)
  {
    |t| <= |s| && s[..|t|] == t
  }

  /** `t` occurs in `s` starting at index `i`. */
  predicate OccursAt(s: string, t: string, i: int)
  {
    0 <= i <= |s| - |t| && s[i..i + |t|] == t
  }

  /** String.contains. */
  function Contains(s: string, t: string): (r: bool)
    ensures r <==> exists i :: OccursAt(s, t, i)
    decreases |s|
  {
    if IsPrefix(t, s) then
      assert OccursAt(s, t, 0);
      true
    else if |s| <= |t| then
      false
    else
      OccurrencesShift(s, t);
      Contains(s[1..], t)
  }

  /** An occurrence after the first character of `s` is an occurrence in `s[1..]`. */
  lemma OccurrencesShift(s: string, t: string)
    requires |s| > 0
    ensures (exists i :: OccursAt(s, t, i)) <==> OccursAt(s, t, 0) || exists j :: OccursAt(s[1..], t, j)
  {
    forall j | OccursAt(s[1..], t, j) ensures OccursAt(s, t, j + 1) {
      SliceOfTail(s, j, |t|);
    }
    forall i | 1 <= i && OccursAt(s, t, i) ensures OccursAt(s[1..], t, i - 1) {
      SliceOfTail(s, i - 1, |t|);
    }
  }

  lemma SliceOfTail(s: string, j: nat, n: nat)
    requires 0 < |s| && j + n <= |s| - 1
    ensures s[1..][j..j + n] == s[j + 1..j + 1 + n]
  {
  }
}
