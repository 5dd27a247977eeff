/**
 * ApiRateLimiter: choosing a rate-limit policy for a route, building the
 * counter key, and answering either 429 or the downstream response with
 * rate-limit headers. Laravel's RateLimiter facade is not part of this model;
 * its three calls are answers supplied by the caller (a `Limiter` value).
 */
module RateLimiting {
  import opened Wrappers
  import opened Json

  /** `['attempts' => …, 'decay' => …]`: requests allowed per `decay` seconds. */
  datatype Policy = Policy(attempts: nat, decay: nat)

  const DefaultPolicy: Policy := Policy(30, 60)

  /** The policy table, in declaration order; the order decides which entry wins. */
  const Limits: seq<(string, Policy)> := [
    ("reviews/google", Policy(10, 60)),
    ("reviews/facebook", Policy(10, 60)),
    ("test", Policy(60, 60)),
    ("test-apis", Policy(20, 60))
  ]

  // ---------------------------------------------------------------------------
  // Substring search (PHP 8 str_contains)
  // ---------------------------------------------------------------------------

  /** `needle` occurs in `hay` starting at position `i`. */
  ghost predicate OccursAt(hay: string, needle: string, i: int)
  {
    0 <= i <= |hay| - |needle| && hay[i..i + |needle|] == needle
  }

  function StrContains(hay: string, needle: string): (r: bool)
    ensures r <==> exists i :: OccursAt(hay, needle, i)
    decreases |hay|
  {
    if needle <= hay then
      assert OccursAt(hay, needle, 0);
      true
    else if hay == [] then
      false
    else
      var r := StrContains(hay[1..], needle);
      assert forall i :: OccursAt(hay[1..], needle, i) ==> OccursAt(hay, needle, i + 1);
      assert forall i :: OccursAt(hay, needle, i) ==> i > 0 && OccursAt(hay[1..], needle, i - 1);
      r
  }

  /** A substring of a substring is a substring. */
  lemma ContainsTransitive(a: string, b: string, c: string)
    requires StrContains(a, b) && StrContains(b, c)
    ensures StrContains(a, c)
  {
  }

  /** Every character of a contained string is a character of the container. */
  lemma ContainsChar(hay: string, needle: string, ch: char)
    requires StrContains(hay, needle) && ch in needle
    ensures ch in hay
  {
  }

  // ---------------------------------------------------------------------------
  // getRouteLimit
  // ---------------------------------------------------------------------------

  /** Entry `i` is the first entry of `table` whose pattern occurs in `route`. */
  ghost predicate IsFirstMatch(route: string, table: seq<(string, Policy)>, i: int)
  {
    && 0 <= i < |table|
    && StrContains(route, table[i].0)
    && forall j :: 0 <= j < i ==> !StrContains(route, table[j].0)
  }

  /** First-match-wins lookup of `route` in `table`, falling back to the default. */
  function FirstMatch(route: string, table: seq<(string, Policy)>): (p: Policy)
    ensures forall i :: IsFirstMatch(route, table, i) ==> p == table[i].1
    ensures (forall i :: 0 <= i < |table| ==> !StrContains(route, table[i].0)) ==> p == DefaultPolicy
  {
    if table == [] then DefaultPolicy
    else if StrContains(route, table[0].0) then table[0].1
    else
      var p := FirstMatch(route, table[1..]);
      assert forall i :: IsFirstMatch(route, table, i) ==> i > 0 && IsFirstMatch(route, table[1..], i - 1);
      p
  }

  /** The policy getRouteLimit returns for `route`. */
  function RouteLimit(route: string): (p: Policy)
    ensures forall i :: IsFirstMatch(route, Limits, i) ==> p == Limits[i].1
    ensures (forall i :: 0 <= i < |Limits| ==> !StrContains(route, Limits[i].0)) ==> p == DefaultPolicy
  {
    FirstMatch(route, Limits)
  }

  /** getRouteLimit: the `foreach` with early return over the table. */
  method GetRouteLimit(route: string) returns (p: Policy)
    ensures p == RouteLimit(route)
  {
    var i := 0;
    while i < |Limits|
      invariant 0 <= i <= |Limits|
      invariant forall j :: 0 <= j < i ==> !StrContains(route, Limits[j].0)
    {
      var (pattern, limit) := Limits[i];
      if StrContains(route, pattern) {
        assert IsFirstMatch(route, Limits, i);
        return limit;
      }
      i := i + 1;
    }
    return DefaultPolicy;
  }

  /** A route that mentions either review provider gets the strict {10, 60} policy. */
  lemma ReviewRoutesAreStrict(route: string)
    requires StrContains(route, "reviews/google") || StrContains(route, "reviews/facebook")
    ensures RouteLimit(route) == Policy(10, 60)
  {
    if StrContains(route, "reviews/google") {
      assert IsFirstMatch(route, Limits, 0);
    } else {
      assert IsFirstMatch(route, Limits, 1);
    }
  }

  /** 'test' is listed before 'test-apis' and occurs in it, so the {20, 60}
      entry is never chosen: a route with 'test-apis' and no review pattern
      gets the {60, 60} policy of 'test'. */
  lemma TestApisGetsTestPolicy(route: string)
    requires StrContains(route, "test-apis")
    requires !StrContains(route, "reviews/google") && !StrContains(route, "reviews/facebook")
    ensures RouteLimit(route) == Policy(60, 60)
  {
    assert OccursAt("test-apis", "test", 0);
    ContainsTransitive(route, "test-apis", "test");
    assert IsFirstMatch(route, Limits, 2);
  }

  /** No route at all is given the policy of the 'test-apis' entry. */
  lemma TestApisEntryUnreachable(route: string)
    ensures RouteLimit(route) != Policy(20, 60)
  {
    if StrContains(route, "reviews/google") || StrContains(route, "reviews/facebook") {
      ReviewRoutesAreStrict(route);
    } else if StrContains(route, "test") {
      assert IsFirstMatch(route, Limits, 2);
    } else if StrContains(route, "test-apis") {
      assert OccursAt("test-apis", "test", 0);
      ContainsTransitive(route, "test-apis", "test");
    } else {
      assert IsFirstMatch(route, Limits, 3) ==> StrContains(route, "test-apis");
    }
  }

  /** Every policy handed out has a 60-second window and one of three positive ceilings. */
  lemma RouteLimitBounds(route: string)
    ensures RouteLimit(route).decay == 60
    ensures RouteLimit(route).attempts in {10, 30, 60}
  {
    TestApisEntryUnreachable(route);
    var p := RouteLimit(route);
    if exists i :: 0 <= i < |Limits| && StrContains(route, Limits[i].0) {
      var i := FirstIndex(route, Limits);
      assert p == Limits[i].1;
    }
  }

  /** The default policy is chosen exactly when no pattern of the table occurs in the route. */
  lemma DefaultIffNoPattern(route: string)
    ensures RouteLimit(route) == DefaultPolicy <==>
              forall i :: 0 <= i < |Limits| ==> !StrContains(route, Limits[i].0)
  {
  }

  /** When some pattern occurs, there is a first one. */
  lemma FirstIndex(route: string, table: seq<(string, Policy)>) returns (i: int)
    requires exists i :: 0 <= i < |table| && StrContains(route, table[i].0)
    ensures IsFirstMatch(route, table, i)
  {
    i := 0;
    while !StrContains(route, table[i].0)
      invariant 0 <= i < |table|
      invariant forall j :: 0 <= j < i ==> !StrContains(route, table[j].0)
      decreases |table| - i
    {
      i := i + 1;
    }
  }

  /** Every pattern holds a 'v' (the review ones) or a 't' (the test ones), so a
      route with neither letter falls through to the default policy. */
  lemma RouteWithoutPatternLettersUsesDefault(route: string)
    requires 'v' !in route && 't' !in route
    ensures RouteLimit(route) == DefaultPolicy
  {
    forall i | 0 <= i < |Limits|
      ensures !StrContains(route, Limits[i].0)
    {
      if StrContains(route, Limits[i].0) {
        ContainsChar(route, Limits[i].0, if i < 2 then 'v' else 't');
      }
    }
  }

  /** The review routes as routes/api.php declares them ('reseñas', not
      'reviews'), whether the path reaches the middleware decoded or
      percent-encoded, get the default {30, 60} policy, not the strict one. */
  lemma DeclaredReviewRoutesUseDefault(route: string)
    requires route in {"api/reseñas/google", "api/reseñas/facebook",
                       "api/rese%C3%B1as/google", "api/rese%C3%B1as/facebook"}
    ensures RouteLimit(route) == DefaultPolicy
  {
    RouteWithoutPatternLettersUsesDefault(route);
  }

  // ---------------------------------------------------------------------------
  // Keys
  // ---------------------------------------------------------------------------

  /** What handle reads from the request. `userId` is the authenticated
      user's id as PHP's string concatenation renders it, `routeName` the
      route's name when it has one. */
  datatype Request = Request(ip: string, userId: Option<string>, routeName: Option<string>, path: string)

  /** The caller part of the key: the IP, or `user_<id>_<ip>` when authenticated. */
  function CallerKey(req: Request): (k: string)
    ensures req.userId.None? ==> k == req.ip
    ensures req.userId.Some? ==>
              && |k| == 6 + |req.userId.value| + |req.ip|
              && k[..5] == "user_" && k[5..5 + |req.userId.value|] == req.userId.value
              && k[5 + |req.userId.value|] == '_' && k[6 + |req.userId.value|..] == req.ip
  {
    match req.userId
    case None => req.ip
    case Some(id) => "user_" + id + "_" + req.ip
  }

  /** `$request->route()->getName() ?? $request->path()`. */
  function RouteIdentifier(req: Request): (r: string)
    ensures req.routeName.Some? ==> r == req.routeName.value
    ensures req.routeName.None? ==> r == req.path
  {
    req.routeName.GetOr(req.path)
  }

  /** `'api:' . $routeName . ':' . $key`, the one key every limiter call uses. */
  function RateKey(req: Request): (r: string)
    ensures |r| == 5 + |RouteIdentifier(req)| + |CallerKey(req)|
    ensures r[..4] == "api:" && r[4 + |RouteIdentifier(req)|] == ':'
    ensures r[4..4 + |RouteIdentifier(req)|] == RouteIdentifier(req)
    ensures r[5 + |RouteIdentifier(req)|..] == CallerKey(req)
  {
    "api:" + RouteIdentifier(req) + ":" + CallerKey(req)
  }

  /** Requests on colon-free routes share a counter only when they have the
      same route identifier and the same caller key. */
  lemma RateKeyInjective(a: Request, b: Request)
    requires ':' !in RouteIdentifier(a) && ':' !in RouteIdentifier(b)
    requires RateKey(a) == RateKey(b)
    ensures RouteIdentifier(a) == RouteIdentifier(b) && CallerKey(a) == CallerKey(b)
  {
  }

  /** The colon-free condition is needed: a colon inside the route name lets
      two different (route, caller) pairs meet on one counter. */
  lemma RateKeyCollidesAcrossColon()
    ensures var a := Request("b:c", None, Some("a"), "/");
            var b := Request("c", None, Some("a:b"), "/");
            RouteIdentifier(a) != RouteIdentifier(b) && RateKey(a) == RateKey(b)
  {
  }

  /** Two authenticated callers whose ids hold no '_' share a caller key only
      when they have the same id and the same IP. */
  lemma CallerKeyInjective(a: Request, b: Request)
    requires a.userId.Some? && b.userId.Some?
    requires '_' !in a.userId.value && '_' !in b.userId.value
    requires CallerKey(a) == CallerKey(b)
    ensures a.userId == b.userId && a.ip == b.ip
  {
  }

  /** An anonymous caller whose IP does not begin with 'u' never shares a
      caller key with an authenticated one. */
  lemma AnonymousAndUserKeysDiffer(anon: Request, user: Request)
    requires anon.userId.None? && user.userId.Some?
    requires anon.ip == [] || anon.ip[0] != 'u'
    ensures CallerKey(anon) != CallerKey(user)
  {
  }

  // ---------------------------------------------------------------------------
  // handle
  // ---------------------------------------------------------------------------

  /** The answers of Laravel's RateLimiter for this request: `attempt(key,
      maxAttempts, decay)`, `availableIn(key)` and `remaining(key, maxAttempts)`. */
  datatype Limiter = Limiter(
    attempt: (string, nat, nat) -> bool,
    availableIn: string -> int,
    remaining: (string, nat) -> int)

  /** A Symfony response object; `add` on its header bag updates it in place. */
  class Response {
    var status: int
    var headers: map<string, int>

    constructor (status: int, headers: map<string, int>)
      ensures this.status == status && this.headers == headers
    {
      this.status := status;
      this.headers := headers;
    }

    /** `$response->headers->add($h)`: each given header replaces any older value. */
    method AddHeaders(h: map<string, int>)
      modifies this
      ensures headers == old(headers) + h && status == old(status)
    {
      headers := headers + h;
    }
  }

  /** What `$next($request)` returns: a Response object, or some other value. */
  datatype Downstream = HttpResponse(response: Response) | OtherValue(value: Json)

  /** The result of handle: the 429 answer, or what the downstream handler returned. */
  datatype Outcome = Throttled(status: int, body: Json) | Passed(result: Downstream)

  const TooManyRequests: int := 429
  const ThrottleMessage: string :=
    "Has excedido el límite de solicitudes. Por favor, inténtalo de nuevo más tarde."

  /** The JSON body of the 429 answer. */
  function ThrottledBody(retryAfter: int): (r: Json)
    ensures r.JObj? && r.fields.Keys == {"error", "message", "retry_after"}
    ensures r.fields["retry_after"] == JNum(retryAfter)
  {
    JObj(map[
      "error" := JStr("Too Many Requests"),
      "message" := JStr(ThrottleMessage),
      "retry_after" := JNum(retryAfter)
    ])
  }

  /** The headers added to a forwarded response. */
  function RateLimitHeaders(limit: Policy, key: string, limiter: Limiter): (h: map<string, int>)
    ensures h.Keys == {"X-RateLimit-Limit", "X-RateLimit-Remaining", "X-RateLimit-Reset"}
    ensures h["X-RateLimit-Limit"] == limit.attempts
    ensures h["X-RateLimit-Remaining"] == limiter.remaining(key, limit.attempts)
    ensures h["X-RateLimit-Reset"] == limiter.availableIn(key)
  {
    map[
      "X-RateLimit-Limit" := limit.attempts,
      "X-RateLimit-Remaining" := limiter.remaining(key, limit.attempts),
      "X-RateLimit-Reset" := limiter.availableIn(key)
    ]
  }

  /** ApiRateLimiter::handle. A refused attempt answers 429 and leaves the
      downstream handler's response untouched; an accepted one returns the
      downstream result and, when it is a Response, adds the three headers,
      all computed from the same rate key and the route's policy. */
  method Handle(req: Request, limiter: Limiter, next: Request -> Downstream) returns (out: Outcome)
    requires next(req).HttpResponse? ==> allocated(next(req).response)
    modifies if next(req).HttpResponse? then {next(req).response} else {}
    ensures var key := RateKey(req);
            var limit := RouteLimit(RouteIdentifier(req));
            if !limiter.attempt(key, limit.attempts, limit.decay) then
              && out == Throttled(TooManyRequests, ThrottledBody(limiter.availableIn(key)))
              && (next(req).HttpResponse? ==> unchanged(next(req).response))
            else
              && out == Passed(next(req))
              && (next(req).HttpResponse? ==>
                    && next(req).response.headers ==
                         old(next(req).response.headers) + RateLimitHeaders(limit, key, limiter)
                    && next(req).response.status == old(next(req).response.status))
  {
    var routeName := RouteIdentifier(req);
    var limit := GetRouteLimit(routeName);
    var key := "api:" + routeName + ":" + CallerKey(req);
    var allowed := limiter.attempt(key, limit.attempts, limit.decay);
    if !allowed {
      return Throttled(TooManyRequests, ThrottledBody(limiter.availableIn(key)));
    }
    var result := next(req);
    if result.HttpResponse? {
      result.response.AddHeaders(RateLimitHeaders(limit, key, limiter));
    }
    return Passed(result);
  }
}
