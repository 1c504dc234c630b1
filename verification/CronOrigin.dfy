/** Cron origin tokens: a signed claim that an invocation descends from a cron trigger of an app,
    valid for the execution budget of the function it is issued to. */
module CronOrigin {
  import opened Wrappers
  import Text

  const MAX_TOKEN_LENGTH := 1024
  const MAX_SAFE_INTEGER := 0x1F_FFFF_FFFF_FFFF
  const SKEW_S := 30
  const MARGIN_S := 35
  const MIN_BUDGET_S := 900

  datatype Claims = Claims(appId: string, iat: int, exp: int)

  /** Serialization and signing, which this model leaves abstract. `decode` answers None for a
      payload that is not JSON or whose times are not integers; `accepts` compares digests. */
  datatype Codec = Codec(
    encode: Claims -> string,
    decode: string -> Option<Claims>,
    sign: (string, string) -> string,
    accepts: (string, string, string) -> bool)

  /** The laws of the codec: decoding undoes encoding, a signature verifies under its secret,
      and both parts are spelled in the base64url alphabet. */
  ghost predicate Lawful(k: Codec) {
    && (forall c :: k.decode(k.encode(c)) == Some(c))
    && (forall secret, payload :: k.accepts(secret, payload, k.sign(secret, payload)))
    && (forall c :: IsPart(k.encode(c)))
    && (forall secret, payload :: IsPart(k.sign(secret, payload)))
  }

  predicate IsUrlChar(c: char) {
    'A' <= c <= 'Z' || 'a' <= c <= 'z' || '0' <= c <= '9' || c == '_' || c == '-'
  }

  predicate IsPart(s: string) {
    s != "" && forall c :: c in s ==> IsUrlChar(c)
  }

  predicate IsSafe(n: int) {
    -MAX_SAFE_INTEGER <= n <= MAX_SAFE_INTEGER
  }

  /** Floor and ceiling of a number of milliseconds, in seconds. */
  function FloorS(ms: int): int {
    ms / 1000
  }

  function CeilS(ms: int): int {
    -((-ms) / 1000)
  }

  function Verify(k: Codec, token: string, appId: string, secret: string, nowMs: int): bool {
    if secret == "" || |token| > MAX_TOKEN_LENGTH then false
    else
      var parts := Text.Split(token, '.');
      if |parts| != 2 || !IsPart(parts[0]) || !IsPart(parts[1]) then false
      else if !k.accepts(secret, parts[0], parts[1]) then false
      else
        match k.decode(parts[0])
        case None => false
        case Some(claims) =>
          var now := FloorS(nowMs);
          && claims.appId == appId && IsSafe(claims.iat) && IsSafe(claims.exp)
          && claims.iat <= now + SKEW_S && claims.exp > now && claims.exp > claims.iat
  }

  function Issue(k: Codec, secret: string, claims: Claims): string {
    var payload := k.encode(claims);
    payload + "." + k.sign(secret, payload)
  }

  function ClaimsOf(k: Codec, token: string): Option<Claims> {
    k.decode(Text.Split(token, '.')[0])
  }

  function Required(timeoutMs: int): int {
    CeilS(timeoutMs) + MARGIN_S
  }

  function FreshClaims(appId: string, timeoutMs: int, nowMs: int): Claims {
    var iat, required := FloorS(nowMs), Required(timeoutMs);
    Claims(appId, iat, iat + if required > MIN_BUDGET_S then required else MIN_BUDGET_S)
  }

  /** The token an execution runs with: none, the one it came with, or a fresh attestation. */
  function ForExecution(k: Codec, token: string, appId: string, secret: string, timeoutMs: int, nowMs: int): Option<string> {
    if !Verify(k, token, appId, secret, nowMs) then None
    else
      match ClaimsOf(k, token)
      case None => None
      case Some(claims) =>
        if claims.exp >= FloorS(nowMs) + Required(timeoutMs) then Some(token)
        else Some(Issue(k, secret, FreshClaims(appId, timeoutMs, nowMs)))
  }

  /** A fresh token is usable when it is short enough and its times are safe integers. */
  predicate Fits(k: Codec, secret: string, claims: Claims) {
    |Issue(k, secret, claims)| <= MAX_TOKEN_LENGTH && IsSafe(claims.iat) && IsSafe(claims.exp)
  }

  lemma IssuedParts(k: Codec, secret: string, claims: Claims)
    requires Lawful(k)
    ensures var payload := k.encode(claims);
            Text.Split(Issue(k, secret, claims), '.') == [payload, k.sign(secret, payload)]
    ensures ClaimsOf(k, Issue(k, secret, claims)) == Some(claims)
  {
    var payload := k.encode(claims);
    var signature := k.sign(secret, payload);
    assert IsPart(payload) && IsPart(signature);
    Text.SplitHead(payload, signature, '.');
    Text.SplitOne(signature, '.');
  }

  /** A token issued under a secret verifies exactly inside its claimed window. */
  lemma IssuedVerifies(k: Codec, secret: string, claims: Claims, appId: string, atMs: int)
    requires Lawful(k) && secret != ""
    ensures Verify(k, Issue(k, secret, claims), appId, secret, atMs) <==>
            && Fits(k, secret, claims) && claims.appId == appId
            && claims.iat <= FloorS(atMs) + SKEW_S && claims.exp > FloorS(atMs) && claims.exp > claims.iat
  {
    IssuedParts(k, secret, claims);
    assert IsPart(k.encode(claims)) && IsPart(k.sign(secret, k.encode(claims)));
    assert k.accepts(secret, k.encode(claims), k.sign(secret, k.encode(claims)));
  }

  /** Two parts of the base64url alphabet joined by a dot, of which the second is accepted as the
      first one's signature. */
  ghost predicate Signed(k: Codec, token: string, secret: string, payload: string) {
    exists signature :: token == payload + "." + signature && IsPart(payload) && IsPart(signature) && k.accepts(secret, payload, signature)
  }

  /** The claims are of this app, were made by now but for the allowed skew, and have not expired. */
  predicate ClaimsHold(claims: Claims, appId: string, nowMs: int) {
    var now := nowMs / 1000;
    && claims.appId == appId && claims.iat <= now + 30 && now < claims.exp && claims.iat < claims.exp
    && -9007199254740991 <= claims.iat <= 9007199254740991 && -9007199254740991 <= claims.exp <= 9007199254740991
  }

  /** What a token must be to verify, whoever made it: nothing unsigned does. */
  lemma VerifiedIff(k: Codec, token: string, appId: string, secret: string, nowMs: int)
    ensures Verify(k, token, appId, secret, nowMs) <==>
            && secret != "" && |token| <= 1024
            && exists payload :: Signed(k, token, secret, payload)
                                 && k.decode(payload).Some? && ClaimsHold(k.decode(payload).value, appId, nowMs)
  {
    if Verify(k, token, appId, secret, nowMs) {
      var parts := Text.Split(token, '.');
      Text.JoinSplit(token, '.');
      assert token == parts[0] + "." + parts[1];
      assert Signed(k, token, secret, parts[0]);
    }
    if payload :| Signed(k, token, secret, payload) && k.decode(payload).Some? && ClaimsHold(k.decode(payload).value, appId, nowMs) {
      var signature :| token == payload + "." + signature && IsPart(payload) && IsPart(signature) && k.accepts(secret, payload, signature);
      PartsOf(payload, signature);
    }
  }

  lemma PartsOf(payload: string, signature: string)
    requires IsPart(payload) && IsPart(signature)
    ensures Text.Split(payload + "." + signature, '.') == [payload, signature]
  {
    Text.SplitHead(payload, signature, '.');
    Text.SplitOne(signature, '.');
  }

  /** An execution gets a token exactly when the one it came with verifies. */
  lemma OnlyVerifiedAttested(k: Codec, token: string, appId: string, secret: string, timeoutMs: int, nowMs: int)
    ensures ForExecution(k, token, appId, secret, timeoutMs, nowMs).Some? <==> Verify(k, token, appId, secret, nowMs)
  {
  }

  /** An execution that starts at `nowMs` may still hold its token 34 s after its timeout. */
  predicate InWindow(nowMs: int, timeoutMs: int, atMs: int) {
    nowMs <= atMs <= nowMs + timeoutMs + 34_000
  }

  lemma WindowArithmetic(nowMs: int, timeoutMs: int, atMs: int)
    requires InWindow(nowMs, timeoutMs, atMs)
    ensures FloorS(nowMs) <= FloorS(atMs) < FloorS(nowMs) + Required(timeoutMs)
  {
  }

  /** Whenever a token is returned, it verifies throughout the execution window; a fresh one
      does so exactly when it fits the token format. */
  lemma TokenWindow(k: Codec, token: string, appId: string, secret: string, timeoutMs: int, nowMs: int, atMs: int)
    requires Lawful(k) && InWindow(nowMs, timeoutMs, atMs)
    requires ForExecution(k, token, appId, secret, timeoutMs, nowMs).Some?
    ensures var t := ForExecution(k, token, appId, secret, timeoutMs, nowMs).value;
            var issued := FreshClaims(appId, timeoutMs, nowMs);
            && (t == token || t == Issue(k, secret, issued))
            && (Verify(k, t, appId, secret, atMs) <==> t == token || Fits(k, secret, issued))
  {
    WindowArithmetic(nowMs, timeoutMs, atMs);
    var t := ForExecution(k, token, appId, secret, timeoutMs, nowMs).value;
    var claims := ClaimsOf(k, token).value;
    var issued := FreshClaims(appId, timeoutMs, nowMs);
    if claims.exp < FloorS(nowMs) + Required(timeoutMs) {
      IssuedVerifies(k, secret, issued, appId, atMs);
      if t == token {
        IssuedParts(k, secret, issued);
        assert false;
      }
    }
  }

  /** The seconds a token must still last: those of the timeout, rounded up, and 35 more. */
  lemma RequiredMeans(timeoutMs: int)
    ensures (Required(timeoutMs) - 35) * 1000 >= timeoutMs > (Required(timeoutMs) - 36) * 1000
  {
  }

  /** A fresh attestation is dated now, for this app, and lasts that long or fifteen minutes. */
  lemma FreshMeans(appId: string, timeoutMs: int, nowMs: int)
    ensures var c := FreshClaims(appId, timeoutMs, nowMs);
            && c.appId == appId && c.iat * 1000 <= nowMs < (c.iat + 1) * 1000
            && c.exp - c.iat == if Required(timeoutMs) >= 900 then Required(timeoutMs) else 900
  {
  }

  /** A token that already outlives the execution is passed on unchanged, and only such a token. */
  lemma LongTokenUnchanged(k: Codec, token: string, appId: string, secret: string, timeoutMs: int, nowMs: int)
    requires Lawful(k) && Verify(k, token, appId, secret, nowMs)
    ensures ForExecution(k, token, appId, secret, timeoutMs, nowMs) == Some(token) <==>
            ClaimsOf(k, token).value.exp >= FloorS(nowMs) + Required(timeoutMs)
  {
    IssuedParts(k, secret, FreshClaims(appId, timeoutMs, nowMs));
  }

  // ---------- chains of descendants ----------

  /** One execution of a chain: when it starts and how long it may run. */
  datatype Execution = Execution(startMs: int, timeoutMs: int)

  /** Every execution starts inside the window of its parent. */
  predicate Timely(chain: seq<Execution>) {
    |chain| >= 2 ==> InWindow(chain[0].startMs, chain[0].timeoutMs, chain[1].startMs) && Timely(chain[1..])
  }

  /** The token each execution hands to its child; None as soon as an attestation fails. */
  function Descend(k: Codec, token: string, appId: string, secret: string, chain: seq<Execution>): Option<string>
    decreases |chain|
  {
    if chain == [] then Some(token)
    else
      match ForExecution(k, token, appId, secret, chain[0].timeoutMs, chain[0].startMs)
      case None => None
      case Some(t) => Descend(k, t, appId, secret, chain[1..])
  }

  /** However long the chain, each descendant re-attests its parent's token successfully, as
      long as the app id is short enough for its tokens to fit. */
  lemma {:induction false} ChainNeverBreaks(k: Codec, token: string, appId: string, secret: string, chain: seq<Execution>)
    requires Lawful(k) && Timely(chain)
    requires chain != [] ==> Verify(k, token, appId, secret, chain[0].startMs)
    requires forall e :: e in chain ==> Fits(k, secret, FreshClaims(appId, e.timeoutMs, e.startMs))
    ensures Descend(k, token, appId, secret, chain).Some?
    decreases |chain|
  {
    if chain != [] {
      var e := chain[0];
      var t := ForExecution(k, token, appId, secret, e.timeoutMs, e.startMs).value;
      if |chain| > 1 {
        TokenWindow(k, token, appId, secret, e.timeoutMs, e.startMs, chain[1].startMs);
        assert e in chain;
      }
      ChainNeverBreaks(k, t, appId, secret, chain[1..]);
    }
  }
}
