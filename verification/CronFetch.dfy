/** The fetch wrapper that carries verified cron origin to managed endpoints. Redirects are
    followed by hand so that the metadata header never reaches an unrelated origin. The rules
    are those of "HTTP-redirect fetch" in the WHATWG Fetch Standard. */
module CronFetch {
  import opened Wrappers

  /** Header names the wrapper knows; CronOrigin is `x-butterbase-cron-origin`. */
  datatype Header =
    | Authorization | Cookie | ProxyAuthorization
    | ContentEncoding | ContentLanguage | ContentLocation | ContentType | ContentLength
    | CronOrigin
    | Custom(name: string)

  datatype Verb = Get | Head | Post | OtherVerb(name: string)

  const CREDENTIALS: set<Header> := {Authorization, Cookie, ProxyAuthorization}
  const BODY_HEADERS: set<Header> := {ContentEncoding, ContentLanguage, ContentLocation, ContentType, ContentLength}
  const MAX_HOPS := 20

  datatype Url = Url(origin: string, rest: string)

  datatype Request = Request(url: Url, verb: Verb, headers: map<Header, string>, body: Option<string>)

  datatype Response = Response(status: int, location: Option<string>)

  datatype RedirectMode = Follow | Manual | Error

  datatype Outcome = Answered(response: Response, redirected: bool) | Rejected | BadLocation

  /** Everything outside the wrapper: an arbitrary server, seen as its answer to the request of
      each hop, and URL resolution, which fails on a malformed Location. */
  datatype World = World(
    allowed: set<string>,
    token: string,
    mode: RedirectMode,
    respond: (nat, Request) -> Response,
    resolve: (string, Url) -> Option<Url>)

  predicate IsRedirect(r: Response) {
    r.status in {301, 302, 303, 307, 308} && r.location.Some?
  }

  predicate ChangesToGet(verb: Verb, status: int) {
    (status == 303 && !verb.Get? && !verb.Head?) || ((status == 301 || status == 302) && verb.Post?)
  }

  type Headers = map<Header, string>

  function StampHeaders(h: Headers, token: string, allowed: bool): Headers {
    if allowed then h[CronOrigin := token] else h - {CronOrigin}
  }

  /** The metadata header as it must be on the wire. */
  function Stamp(w: World, r: Request): Request {
    r.(headers := StampHeaders(r.headers, w.token, r.url.origin in w.allowed))
  }

  function RedirectHeaders(h: Headers, leaving: bool, toGet: bool): Headers {
    var kept := if leaving then h - (CREDENTIALS + {CronOrigin}) else h;
    if toGet then kept - BODY_HEADERS else kept
  }

  /** The request that follows a redirect to `url`. */
  function Redirected(r: Request, status: int, url: Url): Request {
    var toGet := ChangesToGet(r.verb, status);
    Request(url,
            if toGet then Get else r.verb,
            RedirectHeaders(r.headers, url.origin != r.url.origin, toGet),
            if toGet then None else r.body)
  }

  datatype Verdict = Stop(outcome: Outcome) | Continue(next: Request)

  /** What happens after the request of hop `hops` was answered. */
  function Decide(w: World, out: Request, hops: nat): Verdict {
    var response := w.respond(hops, out);
    if !IsRedirect(response) || w.mode.Manual? then Stop(Answered(response, hops > 0))
    else if w.mode.Error? || hops >= MAX_HOPS then Stop(Rejected)
    else
      match w.resolve(response.location.value, out.url)
      case None => Stop(BadLocation)
      case Some(url) => Continue(Redirected(out, response.status, url))
  }

  datatype Trace = Trace(sent: seq<Request>, outcome: Outcome)

  function Prepend(sent: seq<Request>, t: Trace): Trace {
    Trace(sent + t.sent, t.outcome)
  }

  /** The recursive specification: what is sent from hop `hops` on, and how it ends. */
  function Exchange(w: World, r: Request, hops: nat): (t: Trace)
    requires hops <= MAX_HOPS
    ensures 0 < |t.sent| <= MAX_HOPS + 1 - hops
    ensures t.sent[0] == Stamp(w, r)
    decreases MAX_HOPS - hops
  {
    var out := Stamp(w, r);
    match Decide(w, out, hops)
    case Stop(outcome) => Trace([out], outcome)
    case Continue(next) => Prepend([out], Exchange(w, next, hops + 1))
  }

  /** `total` is what was sent before this hop followed by what is still to come. */
  ghost predicate Pending(w: World, total: Trace, before: seq<Request>, r: Request, hops: nat) {
    hops <= MAX_HOPS && total == Prepend(before, Exchange(w, r, hops))
  }

  lemma HopTaken(w: World, total: Trace, before: seq<Request>, r: Request, hops: nat)
    requires Pending(w, total, before, r, hops)
    ensures match Decide(w, Stamp(w, r), hops)
            case Stop(outcome) => total == Trace(before + [Stamp(w, r)], outcome)
            case Continue(next) => hops < MAX_HOPS && Pending(w, total, before + [Stamp(w, r)], next, hops + 1)
  {
    var out := Stamp(w, r);
    match Decide(w, out, hops) {
      case Stop(_) =>
      case Continue(next) =>
        assert hops < MAX_HOPS;
        var rest := Exchange(w, next, hops + 1);
        assert before + ([out] + rest.sent) == before + [out] + rest.sent;
    }
  }

  method SetMetadata(w: World, request: Request) returns (r: Request)
    ensures r == Stamp(w, request)
  {
    var headers := request.headers;
    if request.url.origin in w.allowed {
      headers := headers[CronOrigin := w.token];
    } else {
      headers := headers - {CronOrigin};
    }
    r := request.(headers := headers);
  }

  method NextRequest(request: Request, status: int, nextUrl: Url) returns (r: Request)
    ensures r == Redirected(request, status, nextUrl)
  {
    var headers := request.headers;
    if nextUrl.origin != request.url.origin {
      headers := headers - (CREDENTIALS + {CronOrigin});
    }
    var changeToGet := ChangesToGet(request.verb, status);
    if changeToGet {
      headers := headers - BODY_HEADERS;
    }
    r := Request(nextUrl, if changeToGet then Get else request.verb, headers, if changeToGet then None else request.body);
  }

  /** One round of the loop: the request goes out, and its answer decides. `clones` counts request
      bodies teed for a replay that were neither cancelled nor handed to the next request;
      `responses` counts response bodies left open. */
  method OneHop(w: World, request: Request, hops: nat, redirected: bool)
    returns (out: Request, verdict: Verdict, clones: int, responses: int)
    requires redirected <==> hops > 0
    ensures out == Stamp(w, request) && verdict == Decide(w, out, hops)
    ensures clones == if verdict == Stop(BadLocation) && out.body.Some? then 1 else 0
    ensures responses == if verdict.Continue? || verdict == Stop(Rejected) then 0 else 1
  {
    out := SetMetadata(w, request);
    var replay := out.body;
    clones := if replay.Some? then 1 else 0;
    var response := w.respond(hops, out);
    responses := 1;
    if !IsRedirect(response) || w.mode.Manual? {
      return out, Stop(Answered(response, redirected)), if replay.Some? then clones - 1 else clones, responses;
    }
    if w.mode.Error? || hops >= MAX_HOPS {
      return out, Stop(Rejected), if replay.Some? then clones - 1 else clones, responses - 1;
    }
    var nextUrl := w.resolve(response.location.value, out.url);
    if nextUrl.None? {
      return out, Stop(BadLocation), clones, responses;
    }
    if replay.Some? {
      clones := clones - 1;
    }
    var next := NextRequest(out, response.status, nextUrl.value);
    verdict, responses := Continue(next), responses - 1;
  }

  /** The redirect loop. */
  method FollowRedirects(w: World, original: Request)
    returns (sent: seq<Request>, outcome: Outcome, clones: int, responses: int)
    ensures Trace(sent, outcome) == Exchange(w, original, 0)
    ensures sent != [] && clones == (if outcome.BadLocation? && sent[|sent| - 1].body.Some? then 1 else 0)
    ensures responses == (if outcome.Rejected? then 0 else 1)
  {
    var request := original;
    var redirected := false;
    var hops := 0;
    sent, clones, responses := [], 0, 0;
    ghost var total := Exchange(w, original, 0);
    while true
      invariant 0 <= hops <= MAX_HOPS && (redirected <==> hops > 0)
      invariant clones == 0 && responses == 0
      invariant Pending(w, total, sent, request, hops)
      decreases MAX_HOPS - hops
    {
      var out, verdict, teed, open := OneHop(w, request, hops, redirected);
      HopTaken(w, total, sent, request, hops);
      match verdict {
        case Stop(end) =>
          return sent + [out], end, clones + teed, responses + open;
        case Continue(next) =>
          sent, clones, responses := sent + [out], clones + teed, responses + open;
          request := next;
          redirected := true;
          hops := hops + 1;
      }
    }
  }

  datatype Fetched = Native | Managed(sent: seq<Request>, outcome: Outcome)

  /** The wrapper: requests to other origins go to the platform's own fetch untouched. */
  method Fetch(w: World, input: Request) returns (r: Fetched)
    ensures r.Native? <==> input.url.origin !in w.allowed
    ensures r.Managed? ==> Trace(r.sent, r.outcome) == Exchange(w, input, 0)
  {
    if input.url.origin !in w.allowed {
      return Native;
    }
    var sent, outcome, _, _ := FollowRedirects(w, input);
    r := Managed(sent, outcome);
  }

  // ---------- what the specification means, hop by hop ----------

  function Status(w: World, sent: seq<Request>, k: nat): int
    requires k < |sent|
  {
    w.respond(k, sent[k]).status
  }

  /** Some hop before k turned the request into a GET. */
  ghost predicate Changed(w: World, sent: seq<Request>, k: nat)
    requires k <= |sent|
  {
    exists j :: 0 <= j < k && ChangesToGet(sent[j].verb, Status(w, sent, j))
  }

  /** Some redirect before hop k left its origin. */
  ghost predicate Crossed(sent: seq<Request>, k: nat)
    requires k < |sent|
  {
    exists j :: 0 <= j < k && sent[j].url.origin != sent[j + 1].url.origin
  }

  /** `b` is the stamped redirect of `a` for the answer to hop `hop`. */
  ghost predicate Follows(w: World, hop: nat, a: Request, b: Request) {
    b == Stamp(w, Redirected(a, w.respond(hop, a).status, b.url))
  }

  /** The answer to `a` was a redirect, and `b` goes to the location it named. */
  predicate GoesWhereTold(w: World, hop: nat, a: Request, b: Request) {
    var answer := w.respond(hop, a);
    IsRedirect(answer) && w.resolve(answer.location.value, a.url) == Some(b.url)
  }

  lemma ContinueFollows(w: World, out: Request, hop: nat)
    requires Decide(w, out, hop).Continue?
    ensures hop < MAX_HOPS && Follows(w, hop, out, Stamp(w, Decide(w, out, hop).next))
    ensures GoesWhereTold(w, hop, out, Stamp(w, Decide(w, out, hop).next))
  {
  }

  /** Every request after the first is the redirect of its predecessor, stamped, and goes to the
      location that the answer to its predecessor named. */
  lemma {:induction false} Chain(w: World, r: Request, hops: nat, k: nat)
    requires hops <= MAX_HOPS && k + 1 < |Exchange(w, r, hops).sent|
    ensures Follows(w, hops + k, Exchange(w, r, hops).sent[k], Exchange(w, r, hops).sent[k + 1])
    ensures GoesWhereTold(w, hops + k, Exchange(w, r, hops).sent[k], Exchange(w, r, hops).sent[k + 1])
    decreases k
  {
    var out := Stamp(w, r);
    ContinueFollows(w, out, hops);
    var next := Decide(w, out, hops).next;
    var sent, rest := Exchange(w, r, hops).sent, Exchange(w, next, hops + 1).sent;
    assert sent == [out] + rest;
    assert sent[k + 1] == rest[k];
    if k > 0 {
      assert sent[k] == rest[k - 1] && hops + 1 + (k - 1) == hops + k;
      Chain(w, next, hops + 1, k - 1);
    }
  }

  /** The outcome is decided by the answer to the last request, and by no earlier one. */
  lemma {:induction false} LastDecides(w: World, r: Request, hops: nat)
    requires hops <= MAX_HOPS
    ensures var t := Exchange(w, r, hops); var last := |t.sent| - 1;
            hops + last <= MAX_HOPS && Decide(w, t.sent[last], hops + last) == Stop(t.outcome)
    decreases MAX_HOPS - hops
  {
    var out := Stamp(w, r);
    if Decide(w, out, hops).Continue? {
      var next := Decide(w, out, hops).next;
      ContinueFollows(w, out, hops);
      LastDecides(w, next, hops + 1);
      LastOfRest(out, Exchange(w, next, hops + 1).sent);
    }
  }

  lemma LastOfRest(out: Request, rest: seq<Request>)
    requires rest != []
    ensures var sent := [out] + rest; sent[|sent| - 1] == rest[|rest| - 1] && |sent| - 1 == 1 + (|rest| - 1)
  {
  }

  /** A clone and a response are left open exactly when, in follow mode and below the limit, the last
      answer is a redirect to a location that does not resolve. */
  lemma LeakIff(w: World, r: Request, hops: nat)
    requires hops <= MAX_HOPS
    ensures var t := Exchange(w, r, hops); var last := |t.sent| - 1;
            var answer := w.respond(hops + last, t.sent[last]);
            t.outcome.BadLocation? <==>
            && w.mode.Follow? && hops + last < MAX_HOPS && IsRedirect(answer)
            && w.resolve(answer.location.value, t.sent[last].url).None?
  {
    LastDecides(w, r, hops);
    var t := Exchange(w, r, hops);
    StopMeans(w, t.sent[|t.sent| - 1], hops + |t.sent| - 1, t.outcome);
  }

  lemma StopMeans(w: World, out: Request, hops: nat, outcome: Outcome)
    requires Decide(w, out, hops) == Stop(outcome)
    ensures var answer := w.respond(hops, out);
            outcome.BadLocation? <==>
            && w.mode.Follow? && hops < MAX_HOPS && IsRedirect(answer)
            && w.resolve(answer.location.value, out.url).None?
  {
  }

  /** A server that answers every request with a redirect to a malformed location: the request is
      the only one, and `FollowRedirects` leaves its clone and the response open. */
  lemma BadLocationExample(original: Request)
    requires original.body.Some?
    ensures var w := World({}, "", Follow, (hops, request) => Response(307, Some("http://[")), (location, base) => None);
            && Exchange(w, original, 0) == Trace([Stamp(w, original)], BadLocation)
            && Stamp(w, original).body.Some?
  {
    var w := World({}, "", Follow, (hops: nat, request: Request) => Response(307, Some("http://[")), (location: string, base: Url) => None);
    assert Decide(w, Stamp(w, original), 0) == Stop(BadLocation);
  }

  predicate Keeps(name: Header, changed: bool, crossed: bool) {
    name != CronOrigin && (crossed ==> name !in CREDENTIALS) && (changed ==> name !in BODY_HEADERS)
  }

  function KeptHeaders(h: Headers, changed: bool, crossed: bool): Headers {
    map name | name in h && Keeps(name, changed, crossed) :: h[name]
  }

  /** The request of a hop, from the original request and three facts about the hops before it. */
  function Expected(w: World, original: Request, url: Url, changed: bool, crossed: bool): Request {
    Request(url,
            if changed then Get else original.verb,
            StampHeaders(KeptHeaders(original.headers, changed, crossed), w.token, url.origin in w.allowed),
            if changed then None else original.body)
  }

  lemma {:induction false} HeadersStep(h: Headers, token: string, here: bool, there: bool, changed: bool, crossed: bool, toGet: bool, leaving: bool)
    ensures StampHeaders(RedirectHeaders(StampHeaders(KeptHeaders(h, changed, crossed), token, here), leaving, toGet), token, there)
         == StampHeaders(KeptHeaders(h, changed || toGet, crossed || leaving), token, there)
  {
    var stamped := StampHeaders(KeptHeaders(h, changed, crossed), token, here);
    var redirected := RedirectHeaders(stamped, leaving, toGet);
    var kept := KeptHeaders(h, changed || toGet, crossed || leaving);
    forall name | name != CronOrigin
      ensures name in redirected <==> name in kept
      ensures name in redirected ==> redirected[name] == kept[name]
    {
      RedirectedAt(stamped, leaving, toGet, name);
    }
    StampedEqual(redirected, kept, token, there);
  }

  lemma RedirectedAt(h: Headers, leaving: bool, toGet: bool, name: Header)
    requires name != CronOrigin
    ensures var r := RedirectHeaders(h, leaving, toGet);
            && (name in r <==> name in h && Keeps(name, toGet, leaving))
            && (name in r ==> r[name] == h[name])
  {
  }

  lemma StampedEqual(a: Headers, b: Headers, token: string, allowed: bool)
    requires forall name :: name != CronOrigin ==> (name in a <==> name in b) && (name in a ==> a[name] == b[name])
    ensures StampHeaders(a, token, allowed) == StampHeaders(b, token, allowed)
  {
  }

  lemma {:induction false} ExpectedStep(w: World, original: Request, url: Url, changed: bool, crossed: bool, status: int, next: Url)
    ensures var r := Expected(w, original, url, changed, crossed);
            Stamp(w, Redirected(r, status, next)) ==
            Expected(w, original, next, changed || ChangesToGet(r.verb, status), crossed || next.origin != url.origin)
  {
    var r := Expected(w, original, url, changed, crossed);
    HeadersStep(original.headers, w.token, url.origin in w.allowed, next.origin in w.allowed, changed, crossed,
                ChangesToGet(r.verb, status), next.origin != url.origin);
  }

  /** A sequence of requests each of which is the stamped redirect of the one before. */
  ghost predicate IsChain(w: World, original: Request, hops: nat, sent: seq<Request>) {
    && (sent != [] ==> sent[0] == Stamp(w, original))
    && forall i :: 0 <= i && i + 1 < |sent| ==> Follows(w, hops + i, sent[i], sent[i + 1])
  }

  lemma {:induction false} ChainRequest(w: World, original: Request, sent: seq<Request>, k: nat)
    requires IsChain(w, original, 0, sent) && k < |sent|
    ensures sent[k] == Expected(w, original, sent[k].url, Changed(w, sent, k), Crossed(sent, k))
  {
    if k == 0 {
      StampedEqual(original.headers, KeptHeaders(original.headers, false, false), w.token, original.url.origin in w.allowed);
    } else {
      var prev := sent[k - 1];
      ChainRequest(w, original, sent, k - 1);
      assert Follows(w, k - 1, sent[k - 1], sent[k - 1 + 1]);
      ExpectedStep(w, original, prev.url, Changed(w, sent, k - 1), Crossed(sent, k - 1),
                   Status(w, sent, k - 1), sent[k].url);
      FlagsStep(w, sent, k);
    }
  }

  /** Whatever the server answers, hop k is determined by the original request, by whether an
      earlier hop changed to GET, by whether an earlier redirect crossed origins and by its URL:
      credentials survive iff the original had them and no earlier step crossed origins, body and
      body headers iff no earlier step changed the method, the metadata header is present iff the
      hop's origin is allowed, and every other header is always kept. */
  lemma HopRequest(w: World, original: Request, k: nat)
    requires k < |Exchange(w, original, 0).sent|
    ensures var sent := Exchange(w, original, 0).sent;
            sent[k] == Expected(w, original, sent[k].url, Changed(w, sent, k), Crossed(sent, k))
  {
    ExchangeIsChain(w, original);
    ChainRequest(w, original, Exchange(w, original, 0).sent, k);
  }

  lemma ExchangeIsChain(w: World, original: Request)
    ensures IsChain(w, original, 0, Exchange(w, original, 0).sent)
  {
    ChainFrom(w, original, 0, Exchange(w, original, 0).sent);
  }

  lemma ChainFrom(w: World, r: Request, hops: nat, sent: seq<Request>)
    requires hops <= MAX_HOPS && sent == Exchange(w, r, hops).sent
    ensures IsChain(w, r, hops, sent)
  {
    forall i | 0 <= i && i + 1 < |sent|
      ensures Follows(w, hops + i, sent[i], sent[i + 1])
    {
      Chain(w, r, hops, i);
    }
  }

  lemma FlagsStep(w: World, sent: seq<Request>, k: nat)
    requires 0 < k < |sent|
    ensures Changed(w, sent, k) <==> Changed(w, sent, k - 1) || ChangesToGet(sent[k - 1].verb, Status(w, sent, k - 1))
    ensures Crossed(sent, k) <==> Crossed(sent, k - 1) || sent[k - 1].url.origin != sent[k].url.origin
  {
    if Crossed(sent, k) {
      var j :| 0 <= j < k && sent[j].url.origin != sent[j + 1].url.origin;
      assert j < k - 1 || j == k - 1;
    }
    assert sent[k - 1].url.origin != sent[k - 1 + 1].url.origin <==> sent[k - 1].url.origin != sent[k].url.origin;
  }

  /** What becomes of a header of the original request by hop k, header by header: credentials go
      with the first redirect to another origin, body headers with the first change to GET, the
      metadata header is the wrapper's own, and every other header always stays. */
  lemma {:induction false} HeaderOnHop(w: World, original: Request, k: nat, name: Header)
    requires k < |Exchange(w, original, 0).sent|
    ensures var sent := Exchange(w, original, 0).sent;
            Inherits(w, original, sent[k], Changed(w, sent, k), Crossed(sent, k), name)
  {
    var sent := Exchange(w, original, 0).sent;
    HopRequest(w, original, k);
    HeaderOf(w, original, sent[k], Changed(w, sent, k), Crossed(sent, k), name);
  }

  /** The header is on the later request exactly when the original has it and `kept`, with its value. */
  predicate Survives(original: Request, later: Request, name: Header, kept: bool) {
    && (name in later.headers <==> name in original.headers && kept)
    && (name in later.headers ==> later.headers[name] == original.headers[name])
  }

  /** `r` as a request some hops after the original, if one of them changed the method or crossed origins. */
  predicate Inherits(w: World, original: Request, r: Request, changed: bool, crossed: bool, name: Header) {
    && (name.Authorization? || name.Cookie? || name.ProxyAuthorization? ==> Survives(original, r, name, !crossed))
    && (name.ContentEncoding? || name.ContentLanguage? || name.ContentLocation? || name.ContentType? || name.ContentLength? ==>
          Survives(original, r, name, !changed))
    && (name.Custom? ==> Survives(original, r, name, true))
    && (name.CronOrigin? ==> if r.url.origin in w.allowed then name in r.headers && r.headers[name] == w.token else name !in r.headers)
  }

  lemma HeaderOf(w: World, original: Request, r: Request, changed: bool, crossed: bool, name: Header)
    requires r == Expected(w, original, r.url, changed, crossed)
    ensures Inherits(w, original, r, changed, crossed, name)
  {
  }

  /** Body and method of hop k, by what the answers before it were. */
  lemma BodyOnHop(w: World, original: Request, k: nat)
    requires k < |Exchange(w, original, 0).sent|
    ensures var sent := Exchange(w, original, 0).sent;
            sent[k].body == (if Changed(w, sent, k) then None else original.body)
            && sent[k].verb == (if Changed(w, sent, k) then Get else original.verb)
  {
    HopRequest(w, original, k);
  }

  /** A redirect is followed exactly for these five statuses with a location: each hop but the last
      was answered by one, and in follow mode the answer returned is none. */
  lemma FollowedStatuses(w: World, r: Request, hops: nat, k: nat)
    requires hops <= MAX_HOPS && k < |Exchange(w, r, hops).sent|
    ensures var t := Exchange(w, r, hops);
            var answer := w.respond(hops + k, t.sent[k]);
            var redirects := answer.location.Some? && (answer.status == 301 || answer.status == 302 || answer.status == 303
                                                       || answer.status == 307 || answer.status == 308);
            && (k + 1 < |t.sent| ==> redirects && w.mode.Follow?)
            && (k + 1 == |t.sent| && redirects && w.mode.Follow? ==> t.outcome == (if hops + k >= 20 then Rejected else BadLocation))
            && (k + 1 == |t.sent| && (!redirects || w.mode.Manual?) ==> t.outcome == Answered(answer, hops + k > 0))
            && (k + 1 == |t.sent| && redirects && w.mode.Error? ==> t.outcome == Rejected)
  {
    var t := Exchange(w, r, hops);
    if k + 1 < |t.sent| {
      Chain(w, r, hops, k);
      FollowModeOnly(w, r, hops);
    } else {
      LastDecides(w, r, hops);
      StopMeans(w, t.sent[k], hops + k, t.outcome);
    }
  }

  lemma FollowModeOnly(w: World, r: Request, hops: nat)
    requires hops <= MAX_HOPS && |Exchange(w, r, hops).sent| > 1
    ensures w.mode.Follow?
  {
  }

  /** The metadata token is on exactly the hops whose origin is allowed, and no other
      value travels under its name. */
  lemma {:induction false} TokenNeverLeaks(w: World, original: Request, k: nat)
    requires k < |Exchange(w, original, 0).sent|
    ensures var r := Exchange(w, original, 0).sent[k];
            && (CronOrigin in r.headers <==> r.url.origin in w.allowed)
            && (CronOrigin in r.headers ==> r.headers[CronOrigin] == w.token)
  {
    HopRequest(w, original, k);
    TokenAt(w, original, Exchange(w, original, 0).sent[k], Changed(w, Exchange(w, original, 0).sent, k), Crossed(Exchange(w, original, 0).sent, k));
  }

  lemma TokenAt(w: World, original: Request, r: Request, changed: bool, crossed: bool)
    requires r == Expected(w, original, r.url, changed, crossed)
    ensures CronOrigin in r.headers <==> r.url.origin in w.allowed
    ensures CronOrigin in r.headers ==> r.headers[CronOrigin] == w.token
  {
  }

  lemma VerbAt(w: World, original: Request, sent: seq<Request>, k: nat)
    requires IsChain(w, original, 0, sent) && k < |sent|
    ensures sent[k].verb == if Changed(w, sent, k) then Get else original.verb
  {
    ChainRequest(w, original, sent, k);
  }

  /** The method changes at most once in a whole exchange, and only to GET. */
  lemma {:induction false} MethodChangesOnce(w: World, original: Request, i: nat, j: nat)
    requires i < j && j + 1 < |Exchange(w, original, 0).sent|
    ensures var sent := Exchange(w, original, 0).sent;
            && (sent[i].verb != sent[i + 1].verb ==> sent[i + 1].verb == Get && sent[j].verb == sent[j + 1].verb)
  {
    ExchangeIsChain(w, original);
    var sent := Exchange(w, original, 0).sent;
    if sent[i].verb != sent[i + 1].verb {
      OneChange(w, original, sent, i, j);
    }
  }

  lemma OneChange(w: World, original: Request, sent: seq<Request>, i: nat, j: nat)
    requires IsChain(w, original, 0, sent) && i < j && j + 1 < |sent| && sent[i].verb != sent[i + 1].verb
    ensures sent[i + 1].verb == Get && sent[j].verb == sent[j + 1].verb
  {
    VerbAt(w, original, sent, i);
    VerbAt(w, original, sent, i + 1);
    ChangedFrom(w, sent, i, i + 1);
    ChangedFrom(w, sent, i + 1, j);
    ChangedFrom(w, sent, i + 1, j + 1);
    VerbAt(w, original, sent, j);
    VerbAt(w, original, sent, j + 1);
  }

  lemma ChangedFrom(w: World, sent: seq<Request>, i: nat, j: nat)
    requires i <= j <= |sent|
    ensures Changed(w, sent, i) ==> Changed(w, sent, j)
  {
  }

  /** At most 21 requests; a rejection in follow mode means the server redirected all 21. */
  lemma HopLimit(w: World, original: Request)
    ensures var t := Exchange(w, original, 0);
            && |t.sent| <= 21
            && (w.mode.Follow? && t.outcome.Rejected? ==> |t.sent| == 21)
            && (!w.mode.Follow? ==> |t.sent| == 1)
            && (t.outcome.Answered? ==> (t.outcome.redirected <==> |t.sent| > 1))
            && (t.outcome.Answered? && w.mode.Follow? ==> !IsRedirect(t.outcome.response))
  {
    HopLimitFrom(w, original, 0);
  }

  lemma {:induction false} HopLimitFrom(w: World, r: Request, hops: nat)
    requires hops <= MAX_HOPS
    ensures var t := Exchange(w, r, hops);
            && (w.mode.Follow? && t.outcome.Rejected? ==> |t.sent| == MAX_HOPS + 1 - hops)
            && (!w.mode.Follow? ==> |t.sent| == 1)
            && (t.outcome.Answered? ==> (t.outcome.redirected <==> |t.sent| > 1 || hops > 0))
            && (t.outcome.Answered? && w.mode.Follow? ==> !IsRedirect(t.outcome.response))
    decreases MAX_HOPS - hops
  {
    var verdict := Decide(w, Stamp(w, r), hops);
    if verdict.Continue? {
      HopLimitFrom(w, verdict.next, hops + 1);
    }
  }

  // ---------- the standard's own step ----------

  /** Method, body and header changes of "HTTP-redirect fetch", steps 11 to 14. */
  function StandardRedirect(r: Request, status: int, url: Url): Request {
    var toGet := (status in {301, 302} && r.verb.Post?) || (status == 303 && r.verb !in {Get, Head});
    var afterMethod :=
      if toGet then r.headers - {ContentEncoding, ContentLanguage, ContentLocation, ContentType}
      else r.headers;
    Request(url,
            if toGet then Get else r.verb,
            if url.origin != r.url.origin then afterMethod - {Authorization} else afterMethod,
            if toGet then None else r.body)
  }

  /** The wrapper follows the standard and only ever drops more: cookies, proxy credentials and
      the metadata header when leaving an origin, and the length of a dropped body. */
  lemma FollowsStandard(r: Request, status: int, url: Url)
    ensures var ours, standard := Redirected(r, status, url), StandardRedirect(r, status, url);
            && ours.url == standard.url && ours.verb == standard.verb && ours.body == standard.body
            && (forall name :: name in ours.headers ==>
                  name in standard.headers && ours.headers[name] == standard.headers[name])
            && (forall name :: name in standard.headers && name !in ours.headers ==>
                  || (name in {Cookie, ProxyAuthorization, CronOrigin} && url.origin != r.url.origin)
                  || (name == ContentLength && ours.body.None? && standard.verb.Get?))
  {
  }
}
