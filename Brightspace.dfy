/** The Brightspace (D2L Valence) client: the conversion of an assignment to
    a task, the normalisation of the host, and the assembly of a signed
    request URL. HMAC-SHA256 with base64, `urlencode` and `quote` are
    supplied as a codec, and the clock as the timestamp string. */
module Brightspace {
  import opened Wrappers
  import opened Numerics
  import opened Tasks

  /** The `Instructions` object of an assignment. */
  datatype Instructions = Instructions(html: Option<string>, text: Option<string>)

  /** An assignment as the API returns it; None stands for an absent key. */
  datatype Assignment = Assignment(name: Option<string>, dueDate: Option<string>, instructions: Option<Instructions>)

  const DefaultMinutes: int := 120

  /** The instruction HTML, when the key is present and non-empty. */
  predicate HasHtml(a: Assignment) {
    a.instructions.Some? && a.instructions.value.html.Some? && a.instructions.value.html.value != ""
  }

  /** The time estimate: a default of two hours, or the HTML length in
      hundreds of characters, capped to [60, 300] minutes. */
  function EstimatedTime(a: Assignment): (m: int)
    ensures 60 <= m <= 300
    ensures !HasHtml(a) ==> m == DefaultMinutes
  {
    if HasHtml(a) then MinInt(300, MaxInt(60, |a.instructions.value.html.value| / 100))
    else DefaultMinutes
  }

  /** Every `'Z'` replaced by `"+00:00"`, as done before ISO parsing. */
  function ReplaceZ(s: string): (r: string)
    ensures 'Z' !in r
    ensures 'Z' !in s ==> r == s
  {
    if s == [] then []
    else (if s[0] == 'Z' then "+00:00" else [s[0]]) + ReplaceZ(s[1..])
  }

  /** The due date: absent when the key is absent or empty, or when the
      text does not parse. */
  function DueDateOf(a: Assignment, parseIso: string -> Option<Instant>): (d: Option<Instant>)
    ensures a.dueDate.None? || a.dueDate.value == "" ==> d.None?
    ensures a.dueDate.Some? && a.dueDate.value != "" ==> d == parseIso(ReplaceZ(a.dueDate.value))
  {
    if a.dueDate.Some? && a.dueDate.value != "" then parseIso(ReplaceZ(a.dueDate.value)) else None
  }

  /** The task title: the course name and `": "`, then the assignment's
      name or the placeholder. */
  function TitleOf(a: Assignment, courseName: string): (t: string)
    ensures |t| >= |courseName| + 2
    ensures t[..|courseName| + 2] == courseName + ": "
    ensures a.name.None? ==> t[|courseName| + 2..] == "Untitled Assignment"
    ensures a.name.Some? ==> t[|courseName| + 2..] == a.name.value
  {
    var t := courseName + ": " + a.name.GetOr("Untitled Assignment");
    assert t == (courseName + ": ") + a.name.GetOr("Untitled Assignment");
    t
  }

  function DescriptionOf(a: Assignment): (d: string)
    ensures a.instructions.None? || a.instructions.value.text.None? ==> d == ""
    ensures a.instructions.Some? && a.instructions.value.text.Some? ==> d == a.instructions.value.text.value
  {
    if a.instructions.Some? then a.instructions.value.text.GetOr("") else ""
  }

  /** `BrightspaceClient.assignment_to_task`. */
  function AssignmentToTask(a: Assignment, courseName: string, parseIso: string -> Option<Instant>): (t: TaskData)
    ensures t.source == BrightspaceSource && t.status == Pending
    ensures t.title == TitleOf(a, courseName) && t.description == DescriptionOf(a)
    ensures t.dueDate == DueDateOf(a, parseIso) && t.estimatedTime == EstimatedTime(a)
    ensures 60 <= t.estimatedTime <= 300
  {
    TaskData(TitleOf(a, courseName), DescriptionOf(a), DueDateOf(a, parseIso), EstimatedTime(a), BrightspaceSource, Pending)
  }

  /** `str.rstrip('/')`: drop every trailing slash. */
  function RStripSlash(s: string): (r: string)
    ensures r <= s
    ensures r == [] || r[|r| - 1] != '/'
    ensures forall k | |r| <= k < |s| :: s[k] == '/'
  {
    if s != [] && s[|s| - 1] == '/' then RStripSlash(s[..|s| - 1]) else s
  }

  /** The three foreign routines the signing uses. */
  datatype Codec = Codec(
    urlencode: seq<(string, string)> -> string,
    quote: string -> string,
    sign: (string, string) -> string)

  datatype SignedRequest = SignedRequest(url: string, headers: seq<(string, string)>)

  class BrightspaceClient {
    const appId: string
    const appKey: string
    const userId: string
    const userKey: string
    const host: string
    const apiVersion: string

    constructor(appId: string, appKey: string, userId: string, userKey: string, host: string)
      ensures this.appId == appId && this.appKey == appKey
      ensures this.userId == userId && this.userKey == userKey
      ensures this.host == RStripSlash(host) && this.apiVersion == "1.0"
    {
      this.appId := appId;
      this.appKey := appKey;
      this.userId := userId;
      this.userKey := userKey;
      this.host := RStripSlash(host);
      this.apiVersion := "1.0";
    }

    /** The route, followed by `'?'` and the encoded parameters when there are any. */
    function RouteWithParams(route: string, params: seq<(string, string)>, codec: Codec): string {
      if params != [] then route + "?" + codec.urlencode(params) else route
    }

    /** The authentication parameters appended to every request. */
    function SignedParams(signature: string, timestamp: string): seq<(string, string)> {
      [("x_a", appId), ("x_b", userId), ("x_c", signature), ("x_d", userKey), ("x_t", timestamp)]
    }

    /** The signature: the application key over method, quoted route and
        timestamp joined by `'&'`. */
    function Signature(verb: string, route: string, params: seq<(string, string)>, timestamp: string, codec: Codec): string {
      codec.sign(appKey, verb + "&" + codec.quote(RouteWithParams(route, params, codec)) + "&" + timestamp)
    }

    /** `_create_signed_request`. */
    function CreateSignedRequest(verb: string, route: string, params: seq<(string, string)>, timestamp: string, codec: Codec): (r: SignedRequest)
      ensures r.headers == [("Content-Type", "application/json")]
      ensures params != [] ==>
                r.url == host + route + "?" + codec.urlencode(params) + "&" +
                         codec.urlencode(SignedParams(Signature(verb, route, params, timestamp, codec), timestamp))
      ensures params == [] ==>
                r.url == host + route + "&" + codec.urlencode(SignedParams(Signature(verb, route, params, timestamp, codec), timestamp))
    {
      var signed := SignedParams(Signature(verb, route, params, timestamp, codec), timestamp);
      SignedRequest(host + RouteWithParams(route, params, codec) + "&" + codec.urlencode(signed),
                    [("Content-Type", "application/json")])
    }

    /** The URL the signing evidently intends: the authentication parameters
        join the query string, opened by `'?'` whether or not there are
        other parameters. */
    function IntendedSignedUrl(verb: string, route: string, params: seq<(string, string)>, timestamp: string, codec: Codec): (url: string)
      ensures url == host + route + "?" + QueryOf(params, SignedParams(Signature(verb, route, params, timestamp, codec), timestamp), codec)
    {
      var signed := SignedParams(Signature(verb, route, params, timestamp, codec), timestamp);
      if params != [] then host + route + "?" + codec.urlencode(params) + "&" + codec.urlencode(signed)
      else host + route + "?" + codec.urlencode(signed)
    }
  }

  /** The query string: the caller's parameters, then the signed ones. */
  function QueryOf(params: seq<(string, string)>, signed: seq<(string, string)>, codec: Codec): string {
    (if params != [] then codec.urlencode(params) + "&" else "") + codec.urlencode(signed)
  }

  // ---------------------------------------------------------------------
  // Properties

  /** Longer instruction HTML never lowers the estimate. */
  lemma EstimateMonotone(a: Assignment, b: Assignment)
    requires HasHtml(a) && HasHtml(b)
    requires |a.instructions.value.html.value| <= |b.instructions.value.html.value|
    ensures EstimatedTime(a) <= EstimatedTime(b)
  {
  }

  /** The three bands of the estimate for an assignment with instructions:
      any HTML shorter than 6000 characters gives 60 minutes, less than the
      120 given to an assignment without instructions. */
  lemma EstimateBands(a: Assignment)
    requires HasHtml(a)
    ensures var n := |a.instructions.value.html.value|;
            (n < 6000 ==> EstimatedTime(a) == 60) &&
            (6000 <= n < 30100 ==> EstimatedTime(a) == n / 100) &&
            (n >= 30000 ==> EstimatedTime(a) == 300)
  {
  }

  /** The stripped host is what the caller gave, less only trailing slashes;
      stripping again changes nothing. */
  lemma RStripIdempotent(s: string)
    ensures RStripSlash(RStripSlash(s)) == RStripSlash(s)
    ensures '/' !in s[|RStripSlash(s)|..] ==> RStripSlash(s) == s
  {
    var r := RStripSlash(s);
    if |r| < |s| {
      assert s[|r|] == '/' && s[|r|] == s[|r|..][0];
    }
  }

  lemma RStripExample()
    ensures RStripSlash("https://learn.example.edu//") == "https://learn.example.edu"
  {
    var h := "https://learn.example.edu";
    assert ("https://learn.example.edu//")[..|h| + 1] == h + "/";
    assert (h + "/")[..|h|] == h;
  }

  /** Without caller parameters and with no `'?'` in the host, the route or
      the encoded authentication parameters, the URL `_create_signed_request`
      builds contains no `'?'` at all: the authentication parameters are
      appended to the path with `'&'` instead of forming a query string. */
  lemma NoParamsUrlHasNoQuery(c: BrightspaceClient, verb: string, route: string, timestamp: string, codec: Codec)
    requires '?' !in c.host && '?' !in route
    requires '?' !in codec.urlencode(c.SignedParams(c.Signature(verb, route, [], timestamp, codec), timestamp))
    ensures '?' !in c.CreateSignedRequest(verb, route, [], timestamp, codec).url
    ensures var tail := "&" + codec.urlencode(c.SignedParams(c.Signature(verb, route, [], timestamp, codec), timestamp));
            c.CreateSignedRequest(verb, route, [], timestamp, codec).url == c.host + route + tail
  {
    var tail := "&" + codec.urlencode(c.SignedParams(c.Signature(verb, route, [], timestamp, codec), timestamp));
    NotInConcat(c.host, route, tail, '?');
  }

  lemma NotInConcat(a: string, b: string, d: string, ch: char)
    requires ch !in a && ch !in b && ch !in d
    ensures ch !in a + b + d
  {
    assert forall i | 0 <= i < |a + b + d| :: (a + b + d)[i] in a || (a + b + d)[i] in b || (a + b + d)[i] in d;
  }

  /** The intended URL always opens its query at the end of the route: when
      the host and route hold no `'?'`, the first `'?'` sits right after them
      and everything after it is the query string with the signed
      parameters last. */
  lemma IntendedUrlHasQuery(c: BrightspaceClient, verb: string, route: string, params: seq<(string, string)>, timestamp: string, codec: Codec)
    requires '?' !in c.host && '?' !in route
    ensures var url := c.IntendedSignedUrl(verb, route, params, timestamp, codec);
            var n := |c.host| + |route|;
            n < |url| && url[n] == '?' && '?' !in url[..n] && url[..n] == c.host + route &&
            url[n + 1..] == QueryOf(params, c.SignedParams(c.Signature(verb, route, params, timestamp, codec), timestamp), codec)
  {
    var url := c.IntendedSignedUrl(verb, route, params, timestamp, codec);
    var q := QueryOf(params, c.SignedParams(c.Signature(verb, route, params, timestamp, codec), timestamp), codec);
    var n := |c.host| + |route|;
    assert url == (c.host + route) + "?" + q;
    assert url[..n] == c.host + route;
    assert url[n + 1..] == q;
    forall i | 0 <= i < n
      ensures url[..n][i] != '?'
    {
      assert url[..n][i] in c.host || url[..n][i] in route;
    }
  }

  /** The title always begins with the course name and `": "`, and an
      assignment without a name gets the placeholder. */
  lemma TitleRule(a: Assignment, courseName: string, parseIso: string -> Option<Instant>)
    ensures var t := AssignmentToTask(a, courseName, parseIso).title;
            t[..|courseName| + 2] == courseName + ": " &&
            (a.name.None? ==> t[|courseName| + 2..] == "Untitled Assignment") &&
            (a.name.Some? ==> t[|courseName| + 2..] == a.name.value)
  {
    var t := AssignmentToTask(a, courseName, parseIso).title;
    assert t == (courseName + ": ") + a.name.GetOr("Untitled Assignment");
  }

  /** An assignment with a bare minimum of keys becomes a pending task with
      the defaults. */
  lemma EmptyAssignmentExample(parseIso: string -> Option<Instant>)
    ensures AssignmentToTask(Assignment(None, None, None), "CS 101", parseIso) ==
              TaskData("CS 101: Untitled Assignment", "", None, 120, BrightspaceSource, Pending)
  {
    var a := Assignment(None, None, None);
    var t := AssignmentToTask(a, "CS 101", parseIso);
    assert t.title == "CS 101" + ": " + "Untitled Assignment";
  }
}
