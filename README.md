# Wrist Agent: a verified model of the authorizer and the request lambda

Wrist Agent turns voice-to-text requests from a watch into structured notes, reminders and events. It has two AWS Lambda functions, and this project models the decision logic of both in Dafny and proves properties of that model.

The **authorizer** (`lambda-authorizer/main.go`) is an API Gateway custom authorizer. It does the following:

- It extracts a client token from the request headers.
- It compares that token with an expected token. The expected token is read from SSM Parameter Store through a TTL cache and a circuit breaker.
- It answers with an IAM policy document that allows or denies `execute-api:Invoke`.

The **request lambda** (`lambda/main.go`) does the following:

- It checks the client token and decodes the JSON request.
- It validates and normalises the request: mode, thinking budget and maximum tokens.
- It builds a mode-specific system prompt and calls the model backend.
- If the model's text is not a structured reply, it builds a fallback response with a title extracted from the text.

Modules:

- `Wrappers` (`wrappers.dfy`): the Option and Result types.
- `GoStrings` (`gostrings.dfy`): the parts of Go's `strings` and `strconv` packages the core relies on. These are `TrimSpace`, `HasPrefix`, `TrimPrefix`, `EqualFold`, `Split`, `SplitN(…, 2)`, `Title` and `Atoi`, plus int64 wrap-around. Each comes with the lemmas the rest of the model uses.
- `Hex` (`hex.dfy`): `encoding/hex.EncodeToString` and its injectivity.
- `Authorizer` (`authorizer.dfy`): the authorizer.
  - `CircuitBreaker` and `TokenCache` are classes whose methods update their fields.
  - Each method's new state is given by a pure transition function: `Probed`, `Failed`, `Cleared` or `RefreshPolicy`.
  - The properties of the breaker and the cache are lemmas about those transition functions.
- `WristAgent` (`wrist_agent.dfy`): the request lambda.
  - `Req` is a class because `validateRequest` rewrites the request's mode and maxTokens in place.
  - `ExtractTitle` is a loop, proved against the ghost predicate `IsTitleOf`.
  - `CallBedrock` and `Handle` are proved against `Answers` and the status chain of the handler.

External services appear as function parameters. SHA-256 is `sha256`, the JSON body decode is `parse`, the Bedrock call together with the decode of its reply is `invoke`, and the JSON decode of the model's text is `decode`. The SSM fetch is a `FetchOutcome` value. Clock readings are integer nanoseconds: `now` is taken on entry, and `later` after the fetch.

## Model

| member | source | states |
|---|---|---|
| Hex.Digit | lambda-authorizer/main.go:156 | The lower-case hex digit of a value below 16: '0'..'9' for 0..9, 'a'..'f' for 10..15. |
| Hex.EncodeToString | lambda-authorizer/main.go:156 | Two lower-case hex characters per byte: byte i becomes the digit of its high nibble at position 2i and the digit of its low nibble at 2i+1. |
| Hex.EncodeExample | lambda-authorizer/main.go:156 | Bytes 0x1f, 0xa0 encode as "1fa0". |
| Hex.EncodeInjective | lambda-authorizer/main.go:156 | Different byte strings have different hex encodings. |
| GoStrings.LeadingSpace | lambda-authorizer/main.go:131 | The longest all-space prefix; the character after it, if any, is not a space. |
| GoStrings.TrailingSpace | lambda-authorizer/main.go:131 | The longest all-space suffix; the character before it, if any, is not a space. |
| GoStrings.TrimSpace | lambda-authorizer/main.go:131 | Result is the input minus its leading and trailing whitespace; it starts and ends with a non-space; empty exactly when the input is all whitespace. |
| GoStrings.LeadingSpaceIs | lambda-authorizer/main.go:131 | Any all-space prefix followed by a non-space (or the end) is the leading space. |
| GoStrings.TrailingSpaceIs | lambda-authorizer/main.go:131 | Any all-space suffix preceded by a non-space (or the start) is the trailing space. |
| GoStrings.TrimSpaceUnique | lambda-authorizer/main.go:131 | A trimmed string that is the middle of the input after its leading spaces is TrimSpace of the input. |
| GoStrings.TrimSpaceIdempotent | lambda-authorizer/main.go:131 | Trimming twice equals trimming once. |
| GoStrings.TrimSpaceOfTrimmed | lambda/main.go:408 | Trimming a string that is already trimmed leaves it unchanged. |
| GoStrings.HasPrefix | lambda-authorizer/main.go:141 | strings.HasPrefix: the string begins with the given prefix. It has no contract of its own; TrimPrefix, BearerToken and PrefixOfConcat state what follows from it. |
| GoStrings.TrimPrefix | lambda/main.go:411-412 | With the prefix present, the prefix plus the result is the input; otherwise the input is returned unchanged. |
| GoStrings.ToLower | lambda-authorizer/main.go:130 | 'A'..'Z' map to 'a'..'z'; every other character is unchanged. |
| GoStrings.ToUpper | lambda/main.go:419 | 'a'..'z' map to 'A'..'Z'; every other character is unchanged. |
| GoStrings.EqualFold | lambda-authorizer/main.go:130 | strings.EqualFold over ASCII: same length and equal after ToLower at every position. It has no contract of its own; LowerCaseClientTokenExample and ExtractToken rely on it. |
| GoStrings.Split | lambda/main.go:406 | At least one part, and no part contains the separator. |
| GoStrings.JoinSplit | lambda/main.go:406 | Joining the parts of a split with the separator gives back the input. |
| GoStrings.SplitJoin | lambda/main.go:406 | Splitting a join of separator-free parts gives back the parts. |
| GoStrings.SplitAt | lambda/main.go:406 | A separator-free first segment becomes the first part, and the split continues after it. |
| GoStrings.SplitWhole | lambda/main.go:406 | A string without the separator splits into itself alone. |
| GoStrings.SplitOnce | lambda/main.go:164 | One part (the input) exactly when the separator is absent; otherwise two parts joined by the first separator, the first part free of it. |
| GoStrings.SplitOnceAt | lambda/main.go:164 | Splits at the first separator: a separator-free head and everything after it. |
| GoStrings.TitleFrom | lambda/main.go:419 | Same length; each letter after a separator is upper-cased; every other character is kept. |
| GoStrings.Title | lambda/main.go:419 | Same length; the first character and each one after a separator are upper-cased; every other character is kept. |
| GoStrings.WrapInt64 | lambda-authorizer/main.go:67 | The result is in int64 range, congruent to the input modulo 2^64, and equal to the input when the input is in range. |
| GoStrings.DigitsValueAppend | lambda-authorizer/main.go:66 | Appending a digit multiplies the value by ten and adds that digit. |
| GoStrings.Atoi | lambda-authorizer/main.go:66 | Some only for well-formed decimals (optional sign, at least one digit) in int64 range. Unsigned and "+" inputs give their digits' value, or None when it exceeds int64; a "-" input gives the negated value exactly when that fits. |
| GoStrings.AtoiSignExamples | lambda-authorizer/main.go:66 | "-5" gives -5 and "+5" gives 5; a lone "-" and "5x" are rejected. |
| Authorizer.GetEnv | lambda-authorizer/main.go:328-333 | The variable's value when it is set and non-empty, otherwise the default. |
| Authorizer.CacheDurationAsWritten | lambda-authorizer/main.go:64-72 | getCacheDuration as written, with the int64 multiplication wrapping; the result is always an int64. |
| Authorizer.OverflowingSettingParses | lambda-authorizer/main.go:66 | strconv.Atoi accepts the setting "9223372037" and returns its value. |
| Authorizer.CacheDurationAsWrittenOverflows | lambda-authorizer/main.go:66-67 | The positive setting 9223372037 gives a negative duration as written. |
| Authorizer.GetCacheDuration | lambda-authorizer/main.go:64-72 | Corrected TTL: always positive, in int64 range and whole seconds. A positive setting that fits is used; anything else gives 300 s. It agrees with the as-written code except on overflowing settings. |
| Authorizer.CacheDurationExamples | lambda-authorizer/main_test.go:189-221 | Unset, empty and "invalid" settings give 300 s and "60" gives 60 s, both as written and in the corrected version. |
| Authorizer.BearerToken | lambda-authorizer/main.go:138-147 | The trimmed rest of an exact-key "Authorization" header that starts with "Bearer " (case-sensitive); empty when that rest is all whitespace or the header is missing or malformed. |
| Authorizer.ExtractToken | lambda-authorizer/main.go:127-150 | The result is the trimmed value of some non-blank X-Client-Token header under any key casing; failing that, the Bearer token; failing both, empty. |
| Authorizer.ExtractedTokenShape | lambda-authorizer/main.go:127-150 | An extracted token is trimmed; it is empty exactly when there is no non-blank client-token header and no Bearer token. |
| Authorizer.SoleClientTokenWins | lambda-authorizer/main.go:129-136 | With a single client-token key whose value is not blank, the extracted token is exactly that trimmed value. |
| Authorizer.ClientTokenExample | lambda-authorizer/main_test.go:13-24 | X-Client-Token "test-token-123" is extracted. |
| Authorizer.LowerCaseClientTokenExample | lambda-authorizer/main_test.go:39-50 | Header key matching is case-insensitive. |
| Authorizer.PaddedClientTokenExample | lambda-authorizer/main_test.go:63-74 | The client token is trimmed. |
| Authorizer.BearerExample | lambda-authorizer/main_test.go:26-37 | "Bearer test-token-456" gives "test-token-456". |
| Authorizer.NoHeadersExample | lambda-authorizer/main_test.go:52-61 | A request without headers gives no token. |
| Authorizer.MissingClientTokenExamples | lambda-authorizer/main_test.go:327-346 | A blank or empty X-Client-Token gives no token. |
| Authorizer.RejectedBearerExamples | lambda-authorizer/main_test.go:327-425 | Five Authorization values give no token: a blank Bearer, a bare "Bearer", no prefix, a lower-case "bearer" and Basic auth. |
| Authorizer.ClientTokenTakesPrecedence | lambda-authorizer/main_test.go:76-88 | With both headers present, X-Client-Token wins over the Bearer token. |
| Authorizer.HashToken | lambda-authorizer/main.go:154-157 | "user-" followed by 16 lower-case hex characters (21 in all). |
| Authorizer.HashTokenCollision | lambda-authorizer/main.go:154-157 | Two principal ids are equal exactly when the first 8 bytes of the two digests are equal. |
| Authorizer.OpenAt | lambda-authorizer/main.go:163-177 | isOpen's answer: at least 3 failures and the last one less than 30 s before `now`. It has no contract of its own; CircuitBreaker.IsOpen and the breaker lemmas describe it. |
| Authorizer.Probed | lambda-authorizer/main.go:179-189 | The state isOpen leaves: once tripped and past the cool-down, the failure count is 0; otherwise unchanged. It has no contract of its own; ProbeAfterCoolDown, OpenOnlyWhenTripped and ProbesAfterCoolDown describe it. |
| Authorizer.Failed | lambda-authorizer/main.go:193-205 | The state recordFailure leaves: one more failure, at `now`. It has no contract of its own; CircuitBreaker.RecordFailure and ThresholdFailuresOpen describe it. |
| Authorizer.Cleared | lambda-authorizer/main.go:215-223 | The state reset leaves: no failures, with the last-failure time kept. It has no contract of its own; ResetCloses describes it. |
| Authorizer.CircuitBreaker.constructor | lambda-authorizer/main.go:48-52 | A new breaker has no failures and the zero time as its last failure. |
| Authorizer.CircuitBreaker.IsOpen | lambda-authorizer/main.go:163-190 | Open exactly when there are at least 3 failures and the last one was under 30 s ago. Once the cool-down has passed, the failure count is reset to 0. |
| Authorizer.CircuitBreaker.RecordFailure | lambda-authorizer/main.go:193-205 | The failure count goes up by one and the last-failure time becomes `now`. The `tripped` result is true exactly when this failure crosses the threshold. |
| Authorizer.CircuitBreaker.GetFailures | lambda-authorizer/main.go:208-212 | Returns the failure count and changes nothing. |
| Authorizer.CircuitBreaker.Reset | lambda-authorizer/main.go:215-223 | Sets the failure count to 0 and keeps the last-failure time. |
| Authorizer.NewBreakerIsClosed | lambda-authorizer/main_test.go:478-483 | A new breaker is closed, and probing it leaves it unchanged. |
| Authorizer.OpenOnlyWhenTripped | lambda-authorizer/main.go:165-177 | An open breaker has reached the threshold and is unchanged by the probe. Below the threshold it is closed and also unchanged. |
| Authorizer.ProbeAfterCoolDown | lambda-authorizer/main.go:179-189 | After the cool-down the probe reports closed and resets the count. Later probes keep the breaker closed. |
| Authorizer.ThresholdFailuresOpen | lambda-authorizer/main_test.go:485-493 | Three failures open the breaker for 30 s after the last one. |
| Authorizer.ResetCloses | lambda-authorizer/main_test.go:495-502 | After a reset the breaker is closed. |
| Authorizer.ProbesAfterCoolDown | lambda-authorizer/main_test.go:505-526 | Every probe in a sequence taken after the cool-down reports closed. The count ends at 0, or unchanged if it was below the threshold, and the last-failure time is kept. |
| Authorizer.Stale | lambda-authorizer/main.go:243-251 | The cached token when it is non-empty; otherwise the given error. |
| Authorizer.RefreshPolicy | lambda-authorizer/main.go:226-300 | getExpectedToken's whole policy as a function of the old cache and breaker, the two clock readings, the fetch outcome and the TTL. It has no contract of its own; FreshHit, OpenBreakerServesStale, FailedFetch, FailedProbeAfterCoolDown and SuccessfulFetch describe each of its paths. |
| Authorizer.TokenCache.constructor | lambda-authorizer/main.go:41-45 | A new cache is empty and expired. |
| Authorizer.GetExpectedToken | lambda-authorizer/main.go:226-300 | The result, the new cache and the new breaker are exactly those of RefreshPolicy applied to the old cache and breaker. |
| Authorizer.FreshHit | lambda-authorizer/main.go:236-238 | A fresh cache answers from the cache and leaves cache and breaker unchanged. |
| Authorizer.OpenBreakerServesStale | lambda-authorizer/main.go:240-252 | On a cache miss with an open breaker there is no fetch and no change. A non-empty stale token is served; without one the result is an error. |
| Authorizer.FailedFetch | lambda-authorizer/main.go:272-283 | A failed fetch records a failure at `later` and keeps the cache. It answers with the stale token if there is one, and with an error otherwise. |
| Authorizer.FailedProbeAfterCoolDown | lambda-authorizer/main.go:179-199 | When a fetch fails right after the cool-down, the breaker holds exactly one failure, at `later`, and is closed. The probe has already set the count to 0, so the breaker does not re-open. |
| Authorizer.SuccessfulFetch | lambda-authorizer/main.go:285-299 | A successful fetch resets the breaker. A blank value is an error and leaves the cache as it was. Otherwise the trimmed value is returned and cached until `later + ttl`. |
| Authorizer.ExpectedTokenNeverEmpty | lambda-authorizer/main.go:236-299 | An expected token, when one is returned, is non-empty and trimmed, and the cache keeps holding a trimmed token. |
| Authorizer.StaleTokenWhileOpen | lambda-authorizer/main.go:236-283 | With an expired cached token: three fetch failures open the breaker, and the next lookup serves the stale token without contacting SSM. |
| Authorizer.GeneratePolicy | lambda-authorizer/main.go:303-326 | The principal and the context are taken from the arguments. Exactly one statement (Invoke, that effect and that resource, version 2012-10-17) when effect and resource are both non-empty; otherwise no statement. |
| Authorizer.Decide | lambda-authorizer/main.go:100-123 | Allows exactly when the resource is non-empty and the expected token equals the presented one. Otherwise it denies with ssm_failure or token_mismatch. The principal is the token hash on a grant and "user" otherwise. |
| Authorizer.Handler | lambda-authorizer/main.go:88-124 | If no token is present: deny with missing_token, touching neither cache nor breaker. Otherwise the decision and the new cache and breaker state follow RefreshPolicy. |
| Authorizer.GrantOnlyOnMatch | lambda-authorizer/main.go:109-123 | A grant implies that the expected token equals the presented token, and the principal is its hash. |
| Authorizer.DenialsGrantNothing | lambda-authorizer/main.go:93-116 | A denial grants nothing and carries its errorType in the context. |
| WristAgent.Validated | lambda/main.go:249-276 | Checks run in order: blank text, invalid mode (an empty mode means "note"), thinking budget outside 0..65536, then maxTokens above 4096 (a non-positive maxTokens means 800); the first that fails gives its message. Success exactly when all four pass, and then the request is within all bounds. |
| WristAgent.ValidatedIdempotent | lambda/main.go:249-276 | Validating an accepted request again accepts it and leaves it unchanged. |
| WristAgent.Req.constructor | lambda/main.go:22-27 | The request holds the given field values. |
| WristAgent.Req.Validate | lambda/main.go:249-276 | The returned error and the mutated request are exactly Validated of the old request. |
| WristAgent.AcceptedExamples | lambda/main_test.go:16-56 | The valid-note, empty-mode and reminder cases are accepted; an empty mode becomes "note" and maxTokens 0 becomes 800. |
| WristAgent.RejectedExamples | lambda/main_test.go:25-108 | Empty text, mode "invalid", thinking budgets -1 and 100000, and maxTokens 10000 each give their error message. |
| WristAgent.Min | lambda/main.go:180-186 | At most either argument, and equal to one of them. |
| WristAgent.Preview | lambda/main.go:161 | A prefix of the input of length min(n, length of the input). |
| WristAgent.ParseBedrockAPIKey | lambda/main.go:153-178 | Decoding failure and a missing ':' each give their own error. A success splits at the first ':' into two non-empty parts that rebuild the decoded key. |
| WristAgent.ParseBedrockAPIKeyRoundTrip | lambda/main.go:164-177 | Any credentials with a non-empty, colon-free id and a non-empty secret parse back from "id:secret". |
| WristAgent.EmptySideRejected | lambda/main.go:172-174 | An empty id or an empty secret is rejected with EmptyCredential. |
| WristAgent.BuildSystemPrompt | lambda/main.go:355-403 | Every prompt begins with the shared base prompt. |
| WristAgent.OtherModesGetNotePrompt | lambda/main.go:397-401 | Every mode other than the four named cases ("note" included) gets the NOTE prompt. |
| WristAgent.PromptNamesReplyFields | lambda/main_test.go:261-279 | Every prompt contains "markdown" and "action". |
| WristAgent.ModeNameInPrompt | lambda/main.go:372-402 | The mode's name (REMINDER, EVENT, RESEARCH, DEEP THINKING or NOTE) follows "Mode: " right after the base prompt. |
| WristAgent.ModeNamesDistinct | lambda/main.go:376-400 | The names of two different valid modes differ in their first or third character. |
| WristAgent.PromptsDistinct | lambda/main.go:355-403 | Two different valid modes get different prompts. |
| WristAgent.Shorten | lambda/main.go:413-415 | At most 50 characters. A title of up to 50 is kept; a longer one becomes its first 47 characters plus "...". |
| WristAgent.FirstCandidateUnique | lambda/main.go:407-409 | There is at most one first line that is not blank and does not start with "{". |
| WristAgent.TitleUnique | lambda/main.go:405-420 | The title of a text is unique. |
| WristAgent.TitleWithinLimit | lambda/main.go:405-420 | For a valid mode the title has at most 50 characters. |
| WristAgent.TitleWitness | lambda/main.go:407-419 | The title computed from the first candidate line (or from the fallback when there is none) is the text's title. |
| WristAgent.ExtractTitle | lambda/main.go:405-420 | Returns the text's title: the first non-blank line not starting with "{", trimmed, with "# " and then "## " stripped and shortened to 50; without such a line, "Wrist Agent " plus the title-cased mode. |
| WristAgent.TitleFromFirstLine | lambda/main_test.go:178-189 | A candidate first line gives the title, whatever follows. |
| WristAgent.FirstCandidateAfter | lambda/main.go:407-409 | A non-candidate line in front moves the first candidate by one and keeps its title. |
| WristAgent.TitleSkipsLine | lambda/main_test.go:208-212 | A leading line that is blank or starts with "{" is skipped. |
| WristAgent.TitleOfSingleLine | lambda/main_test.go:190-194 | A one-line text is its own shortened title when it is a candidate; otherwise the fallback. |
| WristAgent.StripsHeaderMarker | lambda/main.go:411-412 | "## h" yields h; "# h" yields h unless h itself starts with "## ". |
| WristAgent.EmptyContentTitle | lambda/main_test.go:196-206 | Empty text gets the fallback title. |
| WristAgent.TitleOfWord | lambda/main.go:419 | A lower-case word is title-cased by upper-casing its first letter. |
| WristAgent.FallbackTitleExamples | lambda/main_test.go:196-206 | The fallbacks are "Wrist Agent Note" and "Wrist Agent Reminder". |
| WristAgent.BuildBedrockRequest | lambda/main.go:278-308 | The request carries version bedrock-2023-05-31, exactly BuildSystemPrompt of the request's mode as system prompt, "Process this request: " plus the text, and maxTokens. It has a thinking budget exactly when thinkingTokens is positive. |
| WristAgent.CallBedrock | lambda/main.go:278-353 | Backend failures give distinct errors. A JSON reply is returned as decoded; any other text gives the fallback response: the text as markdown, the mode as action and only tag, the extracted title, no due date. |
| WristAgent.PresentedToken | lambda/main.go:216-219 | The exact-key "x-client-token" header when it is non-empty, else "X-Client-Token" (missing is empty). |
| WristAgent.CorsResponse | lambda/main.go:422-440 | corsResponse: the given status and body with the five CORS headers. It has no contract of its own; the first ensures of Handle states the headers for every response. |
| WristAgent.Handle | lambda/main.go:202-247 | CORS headers on all responses. OPTIONS gives 200 with no body; any other non-POST gives 405; a token mismatch gives 401. A JSON error gives 400, and so does a validation error, with its message. A backend failure gives 500; otherwise 200 with the CallBedrock answer. A 200 is only ever given to OPTIONS or an authenticated POST. |

## Left out

- I/O runs outside the model: SSM GetParameter, Bedrock InvokeModel, AWS configuration, and `init`/`main` in both files. Each is a parameter or a value the caller supplies (`FetchOutcome`, `invoke`, `clientToken`, and `ttl`, which in the program is CacheDurationAsWritten of the environment, the wrapping version that the Findings row describes).
- `loadClientToken` and the lambda's `getEnv`/`initializeAWSConfig` are start-up I/O and are left out.
- Mutexes, concurrent callers and the 3-second context timeout on the SSM call are left out. The model is single-threaded, so the re-check of the cache under the write lock (lambda-authorizer/main.go:258-262) can never fire and is omitted.
- Clock readings: time is integer nanoseconds and Go's zero `time.Time` is 0.
  - The source reads the clock once on entry to getExpectedToken (lambda-authorizer/main.go:228). isOpen reads it again by itself (main.go:174 and 185); the model probes the breaker at the entry reading `now`.
  - recordFailure (main.go:199) and the new expiration (main.go:296) each read the clock separately in the source. The model merges them into one reading, `later`.
- CircuitBreaker.RecordFailure: the log line on opening is not modelled. Only whether this failure tripped the breaker is returned.
- Go's `int` limit on the failure count is not modelled, because failures would need around 2^63 calls to wrap.
- Authorizer.HashToken: SHA-256 is an abstract `sha256` parameter that returns 32 bytes; its internals are out of scope.
- WristAgent.ParseBedrockAPIKey: base64 decoding is not modelled. The function takes the decode's outcome as an Option.
- The comment at lambda-authorizer/main.go:159-162 says a failed half-open attempt increments the failures and re-opens the circuit. The code does not do that: isOpen sets the count to 0 before the fetch (main.go:186), so the failure brings it to 1 and the breaker stays closed. The model follows the code (FailedProbeAfterCoolDown), which main_test.go:617-663 also expects to reset the count to 0.
- The comment at lambda/main.go:152 says the decoded key begins with "BedrockAPIKey-", but the code never strips it. Following the code, the access key id keeps any such prefix.
- JSON encoding and decoding are the abstract `parse` and `decode` parameters. The response body is a `Body` value before marshalling.
- The 0.1 temperature, the message envelope and the model id are not part of `BedrockRequest`.
- The log-preview of the API key (`decodedStr[:min(20, …)]`) is modelled by `Preview` on its own; logging is left out.
- GoStrings.TrimSpace, GoStrings.EqualFold and GoStrings.Title: the model covers ASCII whitespace and ASCII case only. Go's Unicode tables are not modelled.
- Strings are sequences of characters, and byte indexing is character indexing.
- generatePolicy's `context != nil` branch: every caller passes a map, so the model's context is always a map (nil being the empty map).
- The authorizer declares `ErrInvalidToken` (lambda-authorizer/main.go:26) but never uses it, so the model has no counterpart.
- The "long title truncation" test case is covered by Shorten and TitleOfSingleLine taken together.
- The tests at lambda/main_test.go:119-168 call an `apiResponse` function that lambda/main.go does not define. They also expect no CORS headers, which contradicts corsResponse (lambda/main.go:422-440). They are not modelled; Handle follows corsResponse.

## Findings

| source | as written | input that shows it | evidently intended | confidence | as-written member | corrected member |
|---|---|---|---|---|---|---|
| lambda-authorizer/main.go:66-67 | `time.Duration(seconds) * time.Second` multiplies in int64 with no upper bound on `seconds`. | TOKEN_CACHE_TTL_SECONDS=9223372037 wraps to a negative duration, the cache expires at once, and every request goes to SSM. | A positive setting too large to represent falls back to the 300 s default like other unusable values; the TTL is always positive. | not executed; high | Authorizer.CacheDurationAsWrittenOverflows | Authorizer.GetCacheDuration |
