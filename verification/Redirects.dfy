/** Following redirects (internal/httpcheck/checker.go). The server is any function of the requests made so
    far, and parsing and resolving a reference is any partial function; the loop must behave whatever they do.
    The redirect statuses are those of section 15.4 of RFC 9110. */
module Redirects {
  import opened Text

  datatype Url = Url(scheme: string, hostname: string, port: string, path: string, query: string, hasUser: bool)

  datatype Code =
    | RedirectLimit | MalformedLocation | HttpsDowngrade | RedirectLoop | ClientError | ServerError
    | Transport(name: string) | Content(name: string)

  /** A response, with the verdict on its content; or a transport failure. */
  datatype Response =
    | Answer(status: int, location: string, contentError: Option<string>)
    | Failure(name: string, retryable: bool)

  datatype Hop = Hop(number: nat, source: Url, status: int, location: string, target: Option<Url>, downgrade: bool,
                     error: Option<Code>)

  datatype Attempt = Attempt(
    requestUrl: Url, effectiveUrl: Url, redirects: seq<Hop>, initialStatus: int, finalStatus: int,
    error: Option<Code>, retryable: bool)

  type Server = seq<Url> -> Response
  type Resolver = (Url, string) -> Option<Url>

  predicate IsRedirect(status: int)
    ensures IsRedirect(status) <==> status in {301, 302, 303, 307, 308}
  {
    status == 301 || status == 302 || status == 303 || status == 307 || status == 308
  }

  /** The statuses that count as errors, and which of them may be retried. */
  function ClassifyStatus(status: int): (r: (Option<Code>, bool))
    ensures r.0.None? <==> status < 400
    ensures (r.0 == Some(ClientError) <==> 400 <= status < 500) && (r.0 == Some(ServerError) <==> 500 <= status)
    ensures r.1 <==> status in {408, 425, 429, 502, 503, 504}
  {
    if 400 <= status <= 499 then (Some(ClientError), status == 408 || status == 425 || status == 429)
    else if status >= 500 then (Some(ServerError), status == 502 || status == 503 || status == 504)
    else (None, false)
  }

  function MaxRedirects(configured: int): (m: nat)
    ensures m >= 1 && (configured >= 1 ==> m == configured) && (configured < 1 ==> m == 10)
  {
    if configured <= 0 then 10 else configured
  }

  /** `canonicalURL`: case, the default port and an empty path do not distinguish targets. */
  function Canonical(u: Url): Url {
    var scheme := ToLower(u.scheme);
    var standard := (scheme == "http" && u.port == "80") || (scheme == "https" && u.port == "443");
    u.(scheme := scheme, hostname := ToLower(u.hostname), port := if standard then "" else u.port,
       path := if u.path == "" then "/" else u.path)
  }

  lemma {:induction false} ToLowerTwice(s: string)
    ensures ToLower(ToLower(s)) == ToLower(s)
  {
    if s != "" { ToLowerTwice(s[1..]); }
  }

  /** The port that is used: none for the scheme's own. */
  function EffectivePort(u: Url): string {
    match ToLower(u.scheme)
    case "http" => if u.port == "80" then "" else u.port
    case "https" => if u.port == "443" then "" else u.port
    case _ => u.port
  }

  /** Two targets are the same: scheme and host without regard to case, the port in use, the path with an empty one
      read as "/", the query and the credentials. */
  predicate SameTarget(u: Url, v: Url) {
    && ToLower(u.scheme) == ToLower(v.scheme) && ToLower(u.hostname) == ToLower(v.hostname)
    && EffectivePort(u) == EffectivePort(v)
    && (u.path == v.path || (u.path in {"", "/"} && v.path in {"", "/"}))
    && u.query == v.query && u.hasUser == v.hasUser
  }

  /** Canonical forms distinguish exactly the different targets. */
  lemma CanonicalIff(u: Url, v: Url)
    ensures Canonical(u) == Canonical(v) <==> SameTarget(u, v)
  {
  }

  /** Canonical forms are their own canonical form. */
  lemma CanonicalTwice(u: Url)
    ensures Canonical(Canonical(u)) == Canonical(u)
  {
    ToLowerTwice(u.scheme);
    ToLowerTwice(u.hostname);
  }

  predicate Allowed(u: Url) {
    (u.scheme == "http" || u.scheme == "https") && u.hostname != "" && !u.hasUser
  }

  /** `resolveRedirect`. */
  function ResolveRedirect(resolve: Resolver, source: Url, location: string): (r: Option<Url>)
    ensures r.Some? ==> Allowed(r.value) && r.value.path != ""
    ensures r.Some? <==>
              && TrimSpace(location) != "" && resolve(source, location).Some?
              && var t := resolve(source, location).value;
                 t.scheme in {"http", "https"} && t.hostname != "" && !t.hasUser
    ensures r.Some? ==>
              var t := resolve(source, location).value;
              r.value == Url(t.scheme, t.hostname, t.port, if t.path == "" then "/" else t.path, t.query, false)
  {
    if TrimSpace(location) == "" then None
    else
      match resolve(source, location)
      case None => None
      case Some(t) => if !Allowed(t) then None else Some(if t.path == "" then t.(path := "/") else t)
  }

  // ---- The chain ----------------------------------------------------------------------

  /** Hop `i` answers request `i`: its number, source, status, location and resolved target. */
  ghost predicate HopOk(server: Server, resolve: Resolver, requests: seq<Url>, redirects: seq<Hop>, i: nat)
    requires i < |redirects| && i < |requests|
  {
    var h := redirects[i];
    && h.number == i && h.source == requests[i]
    && server(requests[..i + 1]).Answer? && IsRedirect(server(requests[..i + 1]).status)
    && h.status == server(requests[..i + 1]).status && h.location == server(requests[..i + 1]).location
    && h.target == ResolveRedirect(resolve, h.source, h.location)
    && h.downgrade == (h.target.Some? && h.source.scheme == "https" && h.target.value.scheme == "http")
  }

  /** A hop that was followed: no error, and its target is the next request. */
  ghost predicate Followed(requests: seq<Url>, redirects: seq<Hop>, i: nat)
    requires i < |redirects| && i + 1 < |requests|
  {
    redirects[i].error.None? && redirects[i].target == Some(requests[i + 1])
  }

  ghost predicate Chain(server: Server, resolve: Resolver, requests: seq<Url>, redirects: seq<Hop>) {
    && |requests| >= 1 && |requests| - 1 <= |redirects| <= |requests|
    && (forall i :: 0 <= i < |redirects| ==> HopOk(server, resolve, requests, redirects, i))
    && (forall i :: 0 <= i < |requests| - 1 ==> Followed(requests, redirects, i))
  }

  /** No target is requested twice. */
  ghost predicate NoRepeat(requests: seq<Url>) {
    forall i, j :: 0 <= i < j < |requests| ==> !SameTarget(requests[i], requests[j])
  }

  /** Once on https, always on https. */
  ghost predicate NoDowngrade(requests: seq<Url>) {
    forall i, j :: 0 <= i < j < |requests| && requests[i].scheme == "https" ==> requests[j].scheme == "https"
  }

  /** How the walk ended: the last response, and the reason it was the last. */
  ghost predicate Ended(server: Server, max: nat, requests: seq<Url>, a: Attempt)
    requires |requests| >= 1
  {
    var last := requests[|requests| - 1];
    match server(requests)
    case Failure(name, retryable) =>
      && |a.redirects| == |requests| - 1
      && a.error == Some(Transport(name)) && a.retryable == retryable && a.finalStatus == 0 && a.effectiveUrl == last
    case Answer(status, location, contentError) =>
      if !IsRedirect(status) then
        && |a.redirects| == |requests| - 1
        && a.finalStatus == status && a.effectiveUrl == last && a.retryable == ClassifyStatus(status).1
        && a.error == (if ClassifyStatus(status).0.Some? then ClassifyStatus(status).0
                       else if contentError.Some? then Some(Content(contentError.value)) else None)
      else
        && a.finalStatus == 0 && !a.retryable
        && if |requests| > max then
             |a.redirects| == max == |requests| - 1 && a.error == Some(RedirectLimit) && a.effectiveUrl == last
           else
             |a.redirects| == |requests| && Refused(requests, a, a.redirects[|requests| - 1])
  }

  /** The last hop was not followed, for the reason the attempt reports. */
  ghost predicate Refused(requests: seq<Url>, a: Attempt, h: Hop) {
    && |requests| >= 1 && a.error == h.error
    && if h.target.None? then h.error == Some(MalformedLocation) && a.effectiveUrl == requests[|requests| - 1]
       else if h.downgrade then h.error == Some(HttpsDowngrade) && a.effectiveUrl == requests[|requests| - 1]
       else
         && h.error == Some(RedirectLoop) && a.effectiveUrl == h.target.value
         && exists i :: 0 <= i < |requests| && SameTarget(requests[i], h.target.value)
  }

  lemma NoRepeatSnoc(requests: seq<Url>, target: Url)
    requires NoRepeat(requests) && forall i :: 0 <= i < |requests| ==> !SameTarget(requests[i], target)
    ensures NoRepeat(requests + [target])
  {
  }

  lemma ChainSnoc(server: Server, resolve: Resolver, requests: seq<Url>, redirects: seq<Hop>, h: Hop)
    requires Chain(server, resolve, requests, redirects) && |redirects| == |requests| - 1
    requires HopOk(server, resolve, requests, redirects + [h], |redirects|)
    ensures Chain(server, resolve, requests, redirects + [h])
  {
    var rs := redirects + [h];
    forall i | 0 <= i < |rs| ensures HopOk(server, resolve, requests, rs, i) {
      if i < |redirects| { assert HopOk(server, resolve, requests, redirects, i); }
    }
    forall i | 0 <= i < |requests| - 1 ensures Followed(requests, rs, i) { assert Followed(requests, redirects, i); }
  }

  lemma ChainFollow(server: Server, resolve: Resolver, requests: seq<Url>, redirects: seq<Hop>, target: Url)
    requires Chain(server, resolve, requests, redirects) && |redirects| == |requests|
    requires redirects[|requests| - 1].error.None? && redirects[|requests| - 1].target == Some(target)
    ensures Chain(server, resolve, requests + [target], redirects)
  {
    var qs := requests + [target];
    forall i | 0 <= i < |redirects| ensures HopOk(server, resolve, qs, redirects, i) {
      assert HopOk(server, resolve, requests, redirects, i);
      assert qs[..i + 1] == requests[..i + 1];
    }
    forall i | 0 <= i < |qs| - 1 ensures Followed(qs, redirects, i) {
      if i < |requests| - 1 { assert Followed(requests, redirects, i); }
    }
  }

  /** The hops are contiguous, and only the last can carry an error. */
  lemma Contiguous(server: Server, resolve: Resolver, requests: seq<Url>, redirects: seq<Hop>, i: nat)
    requires Chain(server, resolve, requests, redirects) && i + 1 < |redirects|
    ensures redirects[i].error.None? && redirects[i].target == Some(redirects[i + 1].source)
    ensures redirects[i + 1].number == i + 1
  {
    assert Followed(requests, redirects, i) && HopOk(server, resolve, requests, redirects, i + 1);
  }

  /** A final status means that every hop was followed and that the last request got it. */
  lemma FinalIsClean(server: Server, resolve: Resolver, max: nat, requests: seq<Url>, a: Attempt)
    requires Chain(server, resolve, requests, a.redirects) && Ended(server, max, requests, a) && a.finalStatus != 0
    ensures forall i :: 0 <= i < |a.redirects| ==>
              a.redirects[i].error.None? && a.redirects[i].target == Some(requests[i + 1])
    ensures !IsRedirect(a.finalStatus) && a.effectiveUrl == requests[|requests| - 1] && server(requests).Answer?
  {
    forall i | 0 <= i < |a.redirects|
      ensures a.redirects[i].error.None? && a.redirects[i].target == Some(requests[i + 1])
    {
      assert Followed(requests, a.redirects, i);
    }
  }

  /** The canonical forms of the requests made. */
  ghost function CanonicalSet(requests: seq<Url>): set<Url> {
    set u | u in requests :: Canonical(u)
  }

  lemma SeenSnoc(requests: seq<Url>, target: Url)
    ensures CanonicalSet(requests + [target]) == CanonicalSet(requests) + {Canonical(target)}
  {
    assert forall u :: u in requests + [target] <==> u in requests || u == target;
  }

  lemma SeenIndex(requests: seq<Url>, c: Url) returns (i: nat)
    requires c in CanonicalSet(requests)
    ensures i < |requests| && Canonical(requests[i]) == c
  {
    var u :| u in requests && Canonical(u) == c;
    i :| i < |requests| && requests[i] == u;
  }

  lemma Unseen(requests: seq<Url>, target: Url)
    requires NoRepeat(requests) && Canonical(target) !in CanonicalSet(requests)
    ensures NoRepeat(requests + [target])
  {
    forall i | 0 <= i < |requests| ensures !SameTarget(requests[i], target) {
      assert requests[i] in requests;
      CanonicalIff(requests[i], target);
    }
    NoRepeatSnoc(requests, target);
  }

  lemma NoDowngradeSnoc(requests: seq<Url>, target: Url)
    requires |requests| >= 1 && NoDowngrade(requests) && Allowed(target)
    requires !(requests[|requests| - 1].scheme == "https" && target.scheme == "http")
    ensures NoDowngrade(requests + [target])
  {
  }

  /** The walk so far: every hop followed, nothing decided. */
  ghost predicate Underway(server: Server, resolve: Resolver, max: nat, requests: seq<Url>, a: Attempt) {
    && Chain(server, resolve, requests, a.redirects) && NoRepeat(requests) && NoDowngrade(requests)
    && |requests| == |a.redirects| + 1 <= max + 1
    && a.finalStatus == 0 && a.error == None && !a.retryable
  }

  /** One redirect response: the hop is recorded, and followed unless its target is malformed, a downgrade or a
      repeat. */
  method Redirect(server: Server, resolve: Resolver, requests: seq<Url>, a: Attempt, seen: set<Url>,
                  response: Response, ghost max: nat)
      returns (r: Attempt, next: Option<Url>)
    requires Underway(server, resolve, max, requests, a) && |a.redirects| < max && seen == CanonicalSet(requests)
    requires response == server(requests) && response.Answer? && IsRedirect(response.status)
    ensures r.requestUrl == a.requestUrl && r.initialStatus == a.initialStatus && |r.redirects| == |a.redirects| + 1
    ensures next.Some? ==> Underway(server, resolve, max, requests + [next.value], r) && Allowed(next.value)
    ensures next.None? ==> Chain(server, resolve, requests, r.redirects) && Ended(server, max, requests, r)
  {
    var current := requests[|requests| - 1];
    assert requests[..|requests|] == requests;
    var target := ResolveRedirect(resolve, current, response.location);
    var downgrade := target.Some? && current.scheme == "https" && target.value.scheme == "http";
    var hop := Hop(|a.redirects|, current, response.status, response.location, target, downgrade, None);
    next := None;
    if target.None? {
      hop := hop.(error := Some(MalformedLocation));
      r := a.(redirects := a.redirects + [hop], error := hop.error, effectiveUrl := current);
    } else if downgrade {
      hop := hop.(error := Some(HttpsDowngrade));
      r := a.(redirects := a.redirects + [hop], error := hop.error, effectiveUrl := current);
    } else if Canonical(target.value) in seen {
      hop := hop.(error := Some(RedirectLoop));
      r := a.(redirects := a.redirects + [hop], error := hop.error, effectiveUrl := target.value);
      var i := SeenIndex(requests, Canonical(target.value));
      CanonicalIff(requests[i], target.value);
    } else {
      r, next := a.(redirects := a.redirects + [hop]), target;
    }
    ChainSnoc(server, resolve, requests, a.redirects, hop);
    if next.Some? {
      ChainFollow(server, resolve, requests, r.redirects, next.value);
      Unseen(requests, next.value);
      NoDowngradeSnoc(requests, next.value);
    }
  }

  /** A response that is not a redirect ends the walk. */
  function Concluded(a: Attempt, current: Url, response: Response): Attempt
    requires response.Answer?
  {
    var (code, retryable) := ClassifyStatus(response.status);
    var done := a.(finalStatus := response.status, effectiveUrl := current);
    if code.Some? then done.(error := code, retryable := retryable)
    else if response.contentError.Some? then done.(error := Some(Content(response.contentError.value)))
    else done
  }

  /** `checkAttempt`, for any server and any resolver: bounded, contiguous, loop-free and never downgrading. */
  method CheckAttempt(server: Server, resolve: Resolver, initial: Url, configured: int)
      returns (a: Attempt, requests: seq<Url>)
    requires Allowed(initial)
    ensures |requests| >= 1 && requests[0] == initial && a.requestUrl == initial
    ensures |a.redirects| <= MaxRedirects(configured) && |requests| <= MaxRedirects(configured) + 1
    ensures Chain(server, resolve, requests, a.redirects) && NoRepeat(requests) && NoDowngrade(requests)
    ensures Ended(server, MaxRedirects(configured), requests, a)
    ensures a.initialStatus == if server([initial]).Answer? then server([initial]).status else 0
  {
    var max := MaxRedirects(configured);
    a := Attempt(initial, initial, [], 0, 0, None, false);
    requests := [initial];
    var seen := {Canonical(initial)};
    assert CanonicalSet([initial]) == {Canonical(initial)};
    while true
      invariant Underway(server, resolve, max, requests, a) && seen == CanonicalSet(requests)
      invariant requests[0] == initial && a.requestUrl == initial
      invariant |requests| == 1 ==> a.initialStatus == 0
      invariant |requests| > 1 ==>
                  a.initialStatus != 0 && server([initial]).Answer? && a.initialStatus == server([initial]).status
      decreases max - |a.redirects|
    {
      var current := requests[|requests| - 1];
      var response := server(requests);
      assert |requests| == 1 ==> requests == [initial];
      if response.Failure? {
        a := a.(error := Some(Transport(response.name)), retryable := response.retryable, effectiveUrl := current);
        return;
      }
      if a.initialStatus == 0 { a := a.(initialStatus := response.status); }
      if !IsRedirect(response.status) {
        a := Concluded(a, current, response);
        return;
      }
      if |a.redirects| >= max {
        a := a.(error := Some(RedirectLimit), effectiveUrl := current);
        return;
      }
      var next: Option<Url>;
      a, next := Redirect(server, resolve, requests, a, seen, response, max);
      if next.None? { return; }
      SeenSnoc(requests, next.value);
      seen := seen + {Canonical(next.value)};
      requests := requests + [next.value];
    }
  }
}
