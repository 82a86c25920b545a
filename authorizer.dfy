/**
 * The API Gateway request authorizer: it extracts the client's credential
 * from the request headers, compares it with the canonical token held in the
 * parameter store (through a time-limited cache guarded by a circuit breaker)
 * and answers with an Allow or Deny policy.
 *
 * Time is a number of nanoseconds (the unit of a Go time.Duration). The parameter
 * store's answer, SHA-256 and the clock are inputs of the operations that use them.
 */
module Authorizer {
  import opened Wrappers
  import opened GoStrings
  import Hex

  // ---------------------------------------------------------------------------
  // Constants
  // ---------------------------------------------------------------------------

  /** The errorType values placed in a Deny policy's context. */
  const ErrMissingToken := "missing_token"
  const ErrTokenMismatch := "token_mismatch"
  const ErrSSMFailure := "ssm_failure"

  /** time.Second, in nanoseconds. */
  const Second: int := 1_000_000_000

  const DefaultCacheDurationSeconds: int := 300

  /** Failures after which the breaker opens. */
  const Threshold: nat := 3

  /** How long an open breaker stays open after its last failure. */
  const CoolDown: int := 30 * Second

  const TtlVariable := "TOKEN_CACHE_TTL_SECONDS"

  // ---------------------------------------------------------------------------
  // Configuration from the environment
  // ---------------------------------------------------------------------------

  /** getEnv: the variable's value, or the default when it is unset or empty. */
  function GetEnv(env: map<string, string>, key: string, default: string): (r: string)
    ensures key in env && env[key] != "" ==> r == env[key]
    ensures key !in env || env[key] == "" ==> r == default
    ensures r == "" ==> default == ""
  {
    if key in env && env[key] != "" then env[key] else default
  }

  /** os.Getenv: an unset variable reads as "". */
  function OsGetenv(env: map<string, string>, key: string): string {
    if key in env then env[key] else ""
  }

  /**
   * getCacheDuration exactly as written: `time.Duration(seconds) * time.Second`
   * is an int64 multiplication that wraps around for large settings.
   */
  function CacheDurationAsWritten(env: map<string, string>): (d: int)
    ensures InInt64(d)
  {
    var setting := OsGetenv(env, TtlVariable);
    var parsed := Atoi(setting);
    if setting != "" && parsed.Some? && parsed.value > 0 then
      WrapInt64(parsed.value * Second)
    else
      DefaultCacheDurationSeconds * Second
  }

  /** The setting used below parses as the number it spells. */
  lemma OverflowingSettingParses()
    ensures Atoi("9223372037") == Some(9223372037)
  {
    DigitsValueAppend("", '9');
    assert "" + ['9'] == "9";
    DigitsValueAppend("9", '2');
    assert "9" + ['2'] == "92";
    DigitsValueAppend("92", '2');
    assert "92" + ['2'] == "922";
    DigitsValueAppend("922", '3');
    assert "922" + ['3'] == "9223";
    DigitsValueAppend("9223", '3');
    assert "9223" + ['3'] == "92233";
    DigitsValueAppend("92233", '7');
    assert "92233" + ['7'] == "922337";
    DigitsValueAppend("922337", '2');
    assert "922337" + ['2'] == "9223372";
    DigitsValueAppend("9223372", '0');
    assert "9223372" + ['0'] == "92233720";
    DigitsValueAppend("92233720", '3');
    assert "92233720" + ['3'] == "922337203";
    DigitsValueAppend("922337203", '7');
    assert "922337203" + ['7'] == "9223372037";
    var s := "9223372037";
    assert s[0] != '-' && s[0] != '+' && IsDecimal(s);
    assert DigitsValue(s) == 9223372037;
  }

  /** A positive setting whose duration in nanoseconds overflows yields a negative TTL. */
  lemma CacheDurationAsWrittenOverflows()
    ensures CacheDurationAsWritten(map[TtlVariable := "9223372037"]) < 0
  {
    OverflowingSettingParses();
    assert WrapInt64(9223372037 * Second) == 145224192 + MinInt64;
  }

  /** Settings that give a TTL of their own: positive and representable in nanoseconds. */
  predicate UsableTtl(seconds: int) {
    0 < seconds && seconds * Second <= MaxInt64
  }

  /**
   * getCacheDuration as intended: a positive TOKEN_CACHE_TTL_SECONDS is the
   * TTL in seconds; anything else (unset, not a number, not positive, or too
   * large to represent) gives the five-minute default.
   */
  function GetCacheDuration(env: map<string, string>): (d: int)
    ensures 0 < d <= MaxInt64
    ensures d % Second == 0
    ensures Atoi(OsGetenv(env, TtlVariable)).Some? && UsableTtl(Atoi(OsGetenv(env, TtlVariable)).value)
      ==> d == Atoi(OsGetenv(env, TtlVariable)).value * Second
    ensures !(Atoi(OsGetenv(env, TtlVariable)).Some? && UsableTtl(Atoi(OsGetenv(env, TtlVariable)).value))
      ==> d == DefaultCacheDurationSeconds * Second
    ensures d == CacheDurationAsWritten(env)
      || (Atoi(OsGetenv(env, TtlVariable)).Some? && Atoi(OsGetenv(env, TtlVariable)).value * Second > MaxInt64)
  {
    var setting := OsGetenv(env, TtlVariable);
    var parsed := Atoi(setting);
    if setting != "" && parsed.Some? && UsableTtl(parsed.value) then
      parsed.value * Second
    else
      DefaultCacheDurationSeconds * Second
  }

  lemma CacheDurationExamples()
    ensures CacheDurationAsWritten(map[]) == 300 * Second
    ensures CacheDurationAsWritten(map[TtlVariable := ""]) == 300 * Second
    ensures CacheDurationAsWritten(map[TtlVariable := "60"]) == 60 * Second
    ensures CacheDurationAsWritten(map[TtlVariable := "invalid"]) == 300 * Second
    ensures GetCacheDuration(map[]) == 300 * Second
    ensures GetCacheDuration(map[TtlVariable := ""]) == 300 * Second
    ensures GetCacheDuration(map[TtlVariable := "60"]) == 60 * Second
    ensures GetCacheDuration(map[TtlVariable := "invalid"]) == 300 * Second
  {
    assert "60"[..1] == "6" && "6"[..0] == "";
    assert DigitsValue("60") == 60;
    assert !AllDigits("invalid") by { assert !IsDigit("invalid"[0]); }
  }

  // ---------------------------------------------------------------------------
  // Token extraction
  // ---------------------------------------------------------------------------

  const ClientTokenHeader := "X-Client-Token"
  const AuthorizationHeader := "Authorization"
  const BearerPrefix := "Bearer "

  predicate IsClientTokenKey(key: string) {
    EqualFold(key, ClientTokenHeader)
  }

  /** Some header named X-Client-Token, ignoring case, has a non-blank value. */
  predicate HasClientToken(headers: map<string, string>) {
    exists key :: key in headers && IsClientTokenKey(key) && TrimSpace(headers[key]) != ""
  }

  /**
   * The fallback: the exact key Authorization with the case-sensitive prefix
   * "Bearer "; what follows the prefix, trimmed.
   */
  function BearerToken(headers: map<string, string>): (token: string)
    ensures Trimmed(token)
    ensures token != "" <==>
      AuthorizationHeader in headers && HasPrefix(headers[AuthorizationHeader], BearerPrefix)
      && !AllSpace(headers[AuthorizationHeader][|BearerPrefix|..])
    ensures token != "" ==> token == TrimSpace(headers[AuthorizationHeader][|BearerPrefix|..])
  {
    if AuthorizationHeader in headers && HasPrefix(headers[AuthorizationHeader], BearerPrefix) then
      TrimSpace(headers[AuthorizationHeader][|BearerPrefix|..])
    else
      ""
  }

  /**
   * What extractToken may return. Go visits a map in no fixed order, so when
   * several keys match X-Client-Token, any one of their non-blank values may
   * be the answer; only without such a key does the Bearer fallback apply.
   */
  ghost predicate TokenExtracted(headers: map<string, string>, token: string) {
    if HasClientToken(headers) then
      exists key :: key in headers && IsClientTokenKey(key) && token == TrimSpace(headers[key]) && token != ""
    else
      token == BearerToken(headers)
  }

  method ExtractToken(headers: map<string, string>) returns (token: string)
    ensures TokenExtracted(headers, token)
  {
    var pending := headers.Keys;
    while pending != {}
      invariant pending <= headers.Keys
      invariant forall key :: key in headers && key !in pending && IsClientTokenKey(key) ==> TrimSpace(headers[key]) == ""
      decreases pending
    {
      var key :| key in pending;
      if EqualFold(key, ClientTokenHeader) {
        var t := TrimSpace(headers[key]);
        if t != "" {
          return t;
        }
      }
      pending := pending - {key};
    }
    if AuthorizationHeader in headers {
      var auth := headers[AuthorizationHeader];
      if HasPrefix(auth, BearerPrefix) {
        var t := TrimSpace(auth[|BearerPrefix|..]);
        if t != "" {
          return t;
        }
      }
    }
    return "";
  }

  /** The extracted token has no surrounding white space; it is empty only when neither source supplies one. */
  lemma ExtractedTokenShape(headers: map<string, string>, token: string)
    requires TokenExtracted(headers, token)
    ensures Trimmed(token)
    ensures token == "" <==> !HasClientToken(headers) && BearerToken(headers) == ""
  {
  }

  /** With a single X-Client-Token key, its trimmed non-blank value is the answer, whatever Authorization says. */
  lemma {:induction false} SoleClientTokenWins(headers: map<string, string>, key: string, token: string)
    requires key in headers && IsClientTokenKey(key) && TrimSpace(headers[key]) != ""
    requires forall other :: other in headers && IsClientTokenKey(other) ==> other == key
    ensures TokenExtracted(headers, token) <==> token == TrimSpace(headers[key])
  {
    assert HasClientToken(headers);
  }

  lemma ClientTokenExample(token: string)
    ensures TokenExtracted(map["X-Client-Token" := "test-token-123"], token) <==> token == "test-token-123"
  {
    var h := map["X-Client-Token" := "test-token-123"];
    assert IsClientTokenKey("X-Client-Token");
    TrimSpaceOfTrimmed("test-token-123");
    SoleClientTokenWins(h, "X-Client-Token", token);
  }

  lemma LowerCaseClientTokenExample(token: string)
    ensures TokenExtracted(map["x-client-token" := "lowercase-token"], token) <==> token == "lowercase-token"
  {
    var h := map["x-client-token" := "lowercase-token"];
    assert IsClientTokenKey("x-client-token");
    TrimSpaceOfTrimmed("lowercase-token");
    SoleClientTokenWins(h, "x-client-token", token);
  }

  lemma PaddedClientTokenExample(token: string)
    ensures TokenExtracted(map["X-Client-Token" := "  trimmed-token  "], token) <==> token == "trimmed-token"
  {
    var h := map["X-Client-Token" := "  trimmed-token  "];
    assert IsClientTokenKey("X-Client-Token");
    var padded := "  trimmed-token  ";
    assert padded[2..15] == "trimmed-token";
    assert AllSpace(padded[..2]) && AllSpace(padded[15..]);
    assert TrimAt(padded, "trimmed-token", 2);
    TrimSpaceUnique("  trimmed-token  ", "trimmed-token", 2);
    SoleClientTokenWins(h, "X-Client-Token", token);
  }

  lemma BearerExample(token: string)
    ensures TokenExtracted(map["Authorization" := "Bearer test-token-456"], token) <==> token == "test-token-456"
  {
    var h4 := map["Authorization" := "Bearer test-token-456"];
    assert !HasClientToken(h4) by {
      assert !IsClientTokenKey("Authorization");
    }
    assert "Bearer test-token-456"[|BearerPrefix|..] == "test-token-456";
    TrimSpaceOfTrimmed("test-token-456");
  }

  /** No headers at all: no credential. */
  lemma NoHeadersExample(token: string)
    ensures TokenExtracted(map[], token) <==> token == ""
  {
  }

  /** An X-Client-Token that is blank or empty: no credential. */
  lemma MissingClientTokenExamples(token: string)
    ensures TokenExtracted(map["X-Client-Token" := "   "], token) <==> token == ""
    ensures TokenExtracted(map["X-Client-Token" := ""], token) <==> token == ""
  {
    assert AllSpace("   ");
  }

  /** Authorization values that are not "Bearer " followed by a non-blank token: no credential. */
  lemma RejectedBearerExamples(token: string)
    ensures TokenExtracted(map["Authorization" := "Bearer    "], token) <==> token == ""
    ensures TokenExtracted(map["Authorization" := "Bearer"], token) <==> token == ""
    ensures TokenExtracted(map["Authorization" := "token-without-bearer"], token) <==> token == ""
    ensures TokenExtracted(map["Authorization" := "bearer my-token"], token) <==> token == ""
    ensures TokenExtracted(map["Authorization" := "Basic dXNlcjpwYXNz"], token) <==> token == ""
  {
    assert !IsClientTokenKey("Authorization");
    assert AllSpace("   ");
    assert "Bearer    "[|BearerPrefix|..] == "   ";
    assert !HasPrefix("bearer my-token", BearerPrefix) by {
      assert "bearer my-token"[0] != BearerPrefix[0];
    }
    assert !HasPrefix("token-without-bearer", BearerPrefix) by {
      assert "token-without-bearer"[0] != BearerPrefix[0];
    }
    assert !HasPrefix("Basic dXNlcjpwYXNz", BearerPrefix) by {
      assert "Basic dXNlcjpwYXNz"[1] != BearerPrefix[1];
    }
  }

  /** When both sources are present, X-Client-Token takes precedence over the Bearer value. */
  lemma ClientTokenTakesPrecedence(token: string)
    ensures TokenExtracted(map["X-Client-Token" := "primary-token", "Authorization" := "Bearer secondary-token"], token)
      <==> token == "primary-token"
  {
    var h := map["X-Client-Token" := "primary-token", "Authorization" := "Bearer secondary-token"];
    assert IsClientTokenKey("X-Client-Token");
    assert !IsClientTokenKey("Authorization");
    TrimSpaceOfTrimmed("primary-token");
    SoleClientTokenWins(h, "X-Client-Token", token);
  }

  // ---------------------------------------------------------------------------
  // Principal id
  // ---------------------------------------------------------------------------

  /** A SHA-256 digest. */
  type Digest = d: seq<Hex.Byte> | |d| == 32 witness seq(32, _ => 0)

  const PrincipalPrefix := "user-"

  /** hashToken: "user-" and the first eight digest bytes in lower-case hex. */
  function HashToken(sha256: string -> Digest, token: string): (id: string)
    ensures |id| == |PrincipalPrefix| + 16 == 21
    ensures HasPrefix(id, PrincipalPrefix)
    ensures forall i :: |PrincipalPrefix| <= i < |id| ==> Hex.IsLowerHex(id[i])
  {
    PrincipalPrefix + Hex.EncodeToString(sha256(token)[..8])
  }

  /** Two tokens share a principal id exactly when their digests share the first eight bytes. */
  lemma HashTokenCollision(sha256: string -> Digest, a: string, b: string)
    ensures HashToken(sha256, a) == HashToken(sha256, b) <==> sha256(a)[..8] == sha256(b)[..8]
  {
    if HashToken(sha256, a) == HashToken(sha256, b) {
      var ea, eb := Hex.EncodeToString(sha256(a)[..8]), Hex.EncodeToString(sha256(b)[..8]);
      assert ea == HashToken(sha256, a)[|PrincipalPrefix|..];
      assert eb == HashToken(sha256, b)[|PrincipalPrefix|..];
      Hex.EncodeInjective(sha256(a)[..8], sha256(b)[..8]);
    }
  }

  // ---------------------------------------------------------------------------
  // Circuit breaker
  // ---------------------------------------------------------------------------

  datatype BreakerState = BreakerState(failures: nat, lastFailure: int)

  /** A new breaker: no failures; the last failure at the zero time. */
  const NewBreaker := BreakerState(0, 0)

  /** isOpen's answer at time `now`. */
  predicate OpenAt(b: BreakerState, now: int) {
    b.failures >= Threshold && now - b.lastFailure < CoolDown
  }

  /** The state after isOpen at `now`: past the cool-down, the failures are forgotten. */
  function Probed(b: BreakerState, now: int): BreakerState {
    if b.failures >= Threshold && now - b.lastFailure >= CoolDown then b.(failures := 0) else b
  }

  /** The state after recordFailure at `now`. */
  function Failed(b: BreakerState, now: int): BreakerState {
    BreakerState(b.failures + 1, now)
  }

  /** The state after reset. */
  function Cleared(b: BreakerState): BreakerState {
    b.(failures := 0)
  }

  class CircuitBreaker {
    var failures: nat
    var lastFailure: int

    function State(): BreakerState
      reads this
    {
      BreakerState(failures, lastFailure)
    }

    constructor ()
      ensures State() == NewBreaker
    {
      failures := 0;
      lastFailure := 0;
    }

    /** isOpen: open while tripped and cooling down; closes lazily afterwards. */
    method IsOpen(now: int) returns (open: bool)
      modifies this
      ensures open == OpenAt(old(State()), now)
      ensures State() == Probed(old(State()), now)
    {
      if failures < Threshold {
        return false;
      }
      var lastFailureTime := lastFailure;
      if now - lastFailureTime < CoolDown {
        return true;
      }
      if failures >= Threshold && now - lastFailure >= CoolDown {
        failures := 0;
      }
      return false;
    }

    /** recordFailure; `tripped` reports the edge on which the breaker trips. */
    method RecordFailure(now: int) returns (tripped: bool)
      modifies this
      ensures failures == old(failures) + 1 && lastFailure == now
      ensures State() == Failed(old(State()), now)
      ensures tripped <==> old(failures) < Threshold <= failures
    {
      var wasOpen := failures >= Threshold;
      failures := failures + 1;
      lastFailure := now;
      tripped := !wasOpen && failures >= Threshold;
    }

    method GetFailures() returns (n: nat)
      ensures n == failures
    {
      return failures;
    }

    method Reset()
      modifies this
      ensures failures == 0 && lastFailure == old(lastFailure)
      ensures State() == Cleared(old(State()))
    {
      failures := 0;
    }
  }

  lemma NewBreakerIsClosed(now: int)
    ensures !OpenAt(NewBreaker, now) && Probed(NewBreaker, now) == NewBreaker
  {
  }

  /** isOpen answers true only for a tripped breaker, and then changes nothing. */
  lemma OpenOnlyWhenTripped(b: BreakerState, now: int)
    ensures OpenAt(b, now) ==> b.failures >= Threshold && Probed(b, now) == b
    ensures b.failures < Threshold ==> !OpenAt(b, now) && Probed(b, now) == b
  {
  }

  /** After the cool-down, isOpen answers false and zeroes the failures, once; a second probe changes nothing. */
  lemma ProbeAfterCoolDown(b: BreakerState, now: int, later: int)
    requires b.failures >= Threshold && now - b.lastFailure >= CoolDown
    ensures !OpenAt(b, now)
    ensures Probed(b, now) == BreakerState(0, b.lastFailure)
    ensures Probed(Probed(b, now), later) == Probed(b, now) && !OpenAt(Probed(b, now), later)
  {
  }

  /** Threshold consecutive failures open the breaker for the cool-down after the last of them. */
  lemma ThresholdFailuresOpen(t1: int, t2: int, t3: int, now: int)
    requires now - t3 < CoolDown
    ensures OpenAt(Failed(Failed(Failed(NewBreaker, t1), t2), t3), now)
  {
  }

  /** reset closes the breaker whatever its state, and keeps the time of the last failure. */
  lemma ResetCloses(b: BreakerState, now: int)
    ensures !OpenAt(Cleared(b), now) && Cleared(b).lastFailure == b.lastFailure
  {
  }

  /** The state after isOpen has been called at each of the given times. */
  function ProbedAll(b: BreakerState, times: seq<int>): BreakerState
    decreases |times|
  {
    if times == [] then b else ProbedAll(Probed(b, times[0]), times[1..])
  }

  /**
   * Any number of isOpen calls after the cool-down (the sequential reading of
   * the concurrent auto-reset test): none of them finds the breaker open, and
   * the failures end at 0.
   */
  lemma {:induction false} ProbesAfterCoolDown(b: BreakerState, times: seq<int>)
    requires |times| > 0
    requires forall i :: 0 <= i < |times| ==> times[i] - b.lastFailure >= CoolDown
    ensures forall i :: 0 <= i < |times| ==> !OpenAt(ProbedAll(b, times[..i]), times[i])
    ensures ProbedAll(b, times).failures == if b.failures >= Threshold then 0 else b.failures
    ensures ProbedAll(b, times).lastFailure == b.lastFailure
    decreases |times|
  {
    var first := Probed(b, times[0]);
    if |times| > 1 {
      ProbesAfterCoolDown(first, times[1..]);
      forall i | 0 <= i < |times| ensures !OpenAt(ProbedAll(b, times[..i]), times[i]) {
        if i > 0 {
          assert times[..i][1..] == times[1..][..i - 1];
          assert ProbedAll(b, times[..i]) == ProbedAll(first, times[1..][..i - 1]);
          assert times[i] == times[1..][i - 1];
        } else {
          assert times[..0] == [];
        }
      }
    } else {
      assert times[..0] == [];
      assert ProbedAll(first, times[1..]) == first;
    }
  }

  // ---------------------------------------------------------------------------
  // Token cache and the refresh policy
  // ---------------------------------------------------------------------------

  datatype CacheState = CacheState(token: string, expiration: int)

  /** An empty cache that expires at the zero time. */
  const EmptyCache := CacheState("", 0)

  /** A cached token is served without a fetch while it is non-empty and not expired. */
  predicate Fresh(c: CacheState, now: int) {
    c.token != "" && now < c.expiration
  }

  datatype CacheError = BreakerOpenNoToken | FetchFailedNoToken | EmptyParameter

  /** The parameter store's answer to the one fetch a lookup may make. */
  datatype FetchOutcome = FetchOk(value: string) | FetchErr

  /** The result of a lookup and the states it leaves behind. */
  datatype Lookup = Lookup(result: Result<string, CacheError>, cache: CacheState, breaker: BreakerState)

  /** The stale token if one is cached, the given error otherwise. */
  function Stale(c: CacheState, e: CacheError): (r: Result<string, CacheError>)
    ensures r.Ok? <==> c.token != ""
    ensures r.Ok? ==> r.value == c.token
    ensures r.Err? ==> r.error == e
  {
    if c.token != "" then Ok(c.token) else Err(e)
  }

  /**
   * getExpectedToken's policy, from the cache and breaker states, the clock
   * reading taken on entry (`now`), the fetch outcome and the clock reading
   * taken after the fetch (`later`).
   */
  function RefreshPolicy(c: CacheState, b: BreakerState, now: int, fetch: FetchOutcome, later: int, ttl: int): Lookup {
    if Fresh(c, now) then
      Lookup(Ok(c.token), c, b)
    else if OpenAt(b, now) then
      Lookup(Stale(c, BreakerOpenNoToken), c, b)
    else
      var probed := Probed(b, now);
      match fetch
      case FetchErr =>
        Lookup(Stale(c, FetchFailedNoToken), c, Failed(probed, later))
      case FetchOk(value) =>
        var token := TrimSpace(value);
        if token == "" then
          Lookup(Err(EmptyParameter), c, Cleared(probed))
        else
          Lookup(Ok(token), CacheState(token, later + ttl), Cleared(probed))
  }

  class TokenCache {
    var token: string
    var expiration: int

    function State(): CacheState
      reads this
    {
      CacheState(token, expiration)
    }

    constructor ()
      ensures State() == EmptyCache
    {
      token := "";
      expiration := 0;
    }
  }

  /** getExpectedToken: one lookup through the cache, the breaker and at most one fetch. */
  method GetExpectedToken(cache: TokenCache, breaker: CircuitBreaker, now: int, fetch: FetchOutcome, later: int, ttl: int)
    returns (r: Result<string, CacheError>)
    modifies cache, breaker
    ensures Lookup(r, cache.State(), breaker.State())
      == RefreshPolicy(old(cache.State()), old(breaker.State()), now, fetch, later, ttl)
  {
    var token := cache.token;
    var expiration := cache.expiration;
    if token != "" && now < expiration {
      return Ok(token);
    }

    var open := breaker.IsOpen(now);
    if open {
      var cachedToken := cache.token;
      if cachedToken != "" {
        return Ok(cachedToken);
      }
      return Err(BreakerOpenNoToken);
    }

    match fetch {
      case FetchErr =>
        var _ := breaker.RecordFailure(later);
        var _ := breaker.GetFailures();
        if cache.token != "" {
          return Ok(cache.token);
        }
        return Err(FetchFailedNoToken);
      case FetchOk(value) =>
        breaker.Reset();
        token := TrimSpace(value);
        if token == "" {
          return Err(EmptyParameter);
        }
        cache.token := token;
        cache.expiration := later + ttl;
        return Ok(token);
    }
  }

  /** A fresh cache answers without a fetch and changes nothing. */
  lemma FreshHit(c: CacheState, b: BreakerState, now: int, fetch: FetchOutcome, later: int, ttl: int)
    requires Fresh(c, now)
    ensures RefreshPolicy(c, b, now, fetch, later, ttl) == Lookup(Ok(c.token), c, b)
  {
  }

  /** An open breaker serves the stale token, or fails when there is none; nothing changes. */
  lemma OpenBreakerServesStale(c: CacheState, b: BreakerState, now: int, fetch: FetchOutcome, later: int, ttl: int)
    requires !Fresh(c, now) && OpenAt(b, now)
    ensures var l := RefreshPolicy(c, b, now, fetch, later, ttl);
      l.cache == c && l.breaker == b
      && (c.token != "" ==> l.result == Ok(c.token))
      && (c.token == "" ==> l.result == Err(BreakerOpenNoToken))
  {
  }

  /** A failed fetch records exactly one failure, leaves the cache alone and falls back to the stale token. */
  lemma FailedFetch(c: CacheState, b: BreakerState, now: int, later: int, ttl: int)
    requires !Fresh(c, now) && !OpenAt(b, now)
    ensures var l := RefreshPolicy(c, b, now, FetchErr, later, ttl);
      l.cache == c
      && l.breaker.failures == Probed(b, now).failures + 1 && l.breaker.lastFailure == later
      && (c.token != "" ==> l.result == Ok(c.token))
      && (c.token == "" ==> l.result == Err(FetchFailedNoToken))
  {
  }

  /**
   * A failed fetch right after the cool-down: the probe has already forgotten the
   * old failures, so the breaker holds a single failure and stays closed.
   */
  lemma FailedProbeAfterCoolDown(c: CacheState, b: BreakerState, now: int, later: int, ttl: int)
    requires !Fresh(c, now) && b.failures >= Threshold && now - b.lastFailure >= CoolDown
    ensures RefreshPolicy(c, b, now, FetchErr, later, ttl).breaker == BreakerState(1, later)
    ensures !OpenAt(RefreshPolicy(c, b, now, FetchErr, later, ttl).breaker, later)
  {
  }

  /**
   * A successful fetch closes the breaker; an empty (after trimming) value is
   * an error that leaves the cache alone and does not fall back to the stale
   * token, any other value is cached for `ttl` and returned.
   */
  lemma SuccessfulFetch(c: CacheState, b: BreakerState, now: int, value: string, later: int, ttl: int)
    requires !Fresh(c, now) && !OpenAt(b, now)
    ensures var l := RefreshPolicy(c, b, now, FetchOk(value), later, ttl);
      l.breaker == BreakerState(0, b.lastFailure)
      && (TrimSpace(value) == "" ==> l.result == Err(EmptyParameter) && l.cache == c)
      && (TrimSpace(value) != "" ==>
            l.result == Ok(TrimSpace(value)) && l.cache == CacheState(TrimSpace(value), later + ttl))
  {
  }

  /** A lookup never yields an empty token, and it keeps the cached token trimmed. */
  lemma ExpectedTokenNeverEmpty(c: CacheState, b: BreakerState, now: int, fetch: FetchOutcome, later: int, ttl: int)
    requires Trimmed(c.token)
    ensures var l := RefreshPolicy(c, b, now, fetch, later, ttl);
      (l.result.Ok? ==> l.result.value != "" && Trimmed(l.result.value)) && Trimmed(l.cache.token)
  {
  }

  /** Three failed fetches open the breaker; the next lookup serves the stale token without fetching. */
  lemma StaleTokenWhileOpen(c: CacheState, t1: int, t2: int, t3: int, now: int, fetch: FetchOutcome, ttl: int)
    requires c.token != "" && c.expiration <= t1 <= t2 <= t3 <= now && now - t3 < CoolDown
    ensures var l1 := RefreshPolicy(c, NewBreaker, t1, FetchErr, t1, ttl);
      var l2 := RefreshPolicy(l1.cache, l1.breaker, t2, FetchErr, t2, ttl);
      var l3 := RefreshPolicy(l2.cache, l2.breaker, t3, FetchErr, t3, ttl);
      var l4 := RefreshPolicy(l3.cache, l3.breaker, now, fetch, now, ttl);
      l3.breaker.failures == Threshold && OpenAt(l3.breaker, now)
      && l4 == Lookup(Ok(c.token), c, l3.breaker)
  {
  }

  // ---------------------------------------------------------------------------
  // Policies and the decision chain
  // ---------------------------------------------------------------------------

  const PolicyVersion := "2012-10-17"
  const InvokeAction := "execute-api:Invoke"
  const Allow := "Allow"
  const Deny := "Deny"

  datatype Statement = Statement(action: seq<string>, effect: string, resource: seq<string>)

  /** An IAM policy document; the Go zero value has no version and no statement. */
  datatype PolicyDocument = PolicyDocument(version: string, statement: seq<Statement>)

  datatype AuthResponse = AuthResponse(principalId: string, policyDocument: PolicyDocument, context: map<string, string>)

  /** generatePolicy. */
  function GeneratePolicy(principalId: string, effect: string, resource: string, context: map<string, string>): (r: AuthResponse)
    ensures r.principalId == principalId && r.context == context
    ensures |r.policyDocument.statement| == if effect != "" && resource != "" then 1 else 0
    ensures effect != "" && resource != "" ==>
      r.policyDocument.version == PolicyVersion
      && r.policyDocument.statement[0] == Statement([InvokeAction], effect, [resource])
    ensures effect == "" || resource == "" ==> r.policyDocument.version == ""
  {
    var document :=
      if effect != "" && resource != "" then
        PolicyDocument(PolicyVersion, [Statement([InvokeAction], effect, [resource])])
      else
        PolicyDocument("", []);
    AuthResponse(principalId, document, context)
  }

  /** The response grants access: one of its statements allows the invocation. */
  predicate Grants(r: AuthResponse) {
    exists i :: 0 <= i < |r.policyDocument.statement| && r.policyDocument.statement[i].effect == Allow
  }

  /** A Deny for the anonymous principal "user", carrying the reason. */
  function Denial(resource: string, errorType: string): AuthResponse {
    GeneratePolicy("user", Deny, resource, map["errorType" := errorType])
  }

  /** The rest of the handler once a token is present: compare it with the lookup's result. */
  function Decide(sha256: string -> Digest, resource: string, token: string, expected: Result<string, CacheError>): (r: AuthResponse)
    ensures Grants(r) <==> resource != "" && expected == Ok(token)
    ensures expected.Err? ==> r == Denial(resource, ErrSSMFailure)
    ensures expected.Ok? && expected.value != token ==> r == Denial(resource, ErrTokenMismatch)
    ensures expected == Ok(token) ==>
      r.principalId == HashToken(sha256, token) && r.context == map["authenticated" := "true"]
    ensures expected != Ok(token) ==> r.principalId == "user"
  {
    match expected
    case Err(_) => Denial(resource, ErrSSMFailure)
    case Ok(value) =>
      if token != value then
        Denial(resource, ErrTokenMismatch)
      else
        GeneratePolicy(HashToken(sha256, token), Allow, resource, map["authenticated" := "true"])
  }

  datatype AuthorizerRequest = AuthorizerRequest(methodArn: string, headers: map<string, string>)

  /**
   * handler: Deny with missing_token before the cache is consulted, else one
   * lookup and the decision on its result. `presented` is the token extracted.
   */
  method Handler(
    event: AuthorizerRequest, cache: TokenCache, breaker: CircuitBreaker, sha256: string -> Digest,
    now: int, fetch: FetchOutcome, later: int, ttl: int)
    returns (resp: AuthResponse, ghost presented: string)
    modifies cache, breaker
    ensures TokenExtracted(event.headers, presented)
    ensures presented == "" ==>
      resp == Denial(event.methodArn, ErrMissingToken)
      && cache.State() == old(cache.State()) && breaker.State() == old(breaker.State())
    ensures presented != "" ==>
      var l := RefreshPolicy(old(cache.State()), old(breaker.State()), now, fetch, later, ttl);
      resp == Decide(sha256, event.methodArn, presented, l.result)
      && cache.State() == l.cache && breaker.State() == l.breaker
  {
    var token := ExtractToken(event.headers);
    presented := token;
    if token == "" {
      return Denial(event.methodArn, ErrMissingToken), presented;
    }
    var expectedToken := GetExpectedToken(cache, breaker, now, fetch, later, ttl);
    resp := Decide(sha256, event.methodArn, token, expectedToken);
  }

  /** Access is granted only to a non-empty presented token equal to the lookup's token, never on a store failure. */
  lemma GrantOnlyOnMatch(sha256: string -> Digest, resource: string, token: string, l: Lookup)
    requires Grants(Decide(sha256, resource, token, l.result))
    ensures l.result == Ok(token)
    ensures Decide(sha256, resource, token, l.result).principalId == HashToken(sha256, token)
  {
  }

  /** A missing-token denial and every other denial grant nothing. */
  lemma DenialsGrantNothing(resource: string, errorType: string)
    ensures !Grants(Denial(resource, errorType))
    ensures Denial(resource, errorType).context == map["errorType" := errorType]
  {
  }
}
