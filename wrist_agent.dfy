/**
 * Model of the request handler of the Wrist Agent function (lambda/main.go):
 * request validation with in-place defaulting, the system prompt per mode,
 * the backend request and its fallback response, title extraction, the
 * colon split of the decoded API key, and the handler's status-code chain.
 * Body parsing, the model backend and the reply decoding are inputs.
 */

module WristAgent {
  import opened Wrappers
  import opened GoStrings

  // ---------------------------------------------------------------------------
  // validateRequest (lambda/main.go:249-276)
  // ---------------------------------------------------------------------------

  const DefaultMode: string := "note"
  const ValidModes: set<string> := {"note", "reminder", "event", "research", "deepthink"}
  const MaxThinkingTokens: int := 65536
  const DefaultMaxTokens: int := 800
  const MaxMaxTokens: int := 4096

  const ErrTextRequired: string := "text field is required"
  const ErrThinkingTokens: string := "thinkingTokens must be between 0 and 65536"
  const ErrMaxTokens: string := "maxTokens cannot exceed 4096"

  function ErrInvalidMode(mode: string): string {
    "invalid mode: " + mode + " (valid: note, reminder, event, research, deepthink)"
  }

  /** The fields of a request, as decoded from its JSON body. */
  datatype ReqValue = ReqValue(text: string, mode: string, thinkingTokens: int, maxTokens: int)

  /** What validateRequest reports, and the request as it leaves it. */
  datatype Validation = Validation(error: Option<string>, req: ReqValue)

  function DefaultedMode(mode: string): string {
    if mode == "" then DefaultMode else mode
  }

  /** The text, mode and thinking budget checks all pass, so the token check is reached. */
  predicate ReachesTokenCheck(v: ReqValue) {
    !AllSpace(v.text) && DefaultedMode(v.mode) in ValidModes
    && 0 <= v.thinkingTokens <= MaxThinkingTokens
  }

  /**
   * validateRequest on a value. The checks run in order and the first that fails
   * is reported; an empty mode is already replaced by "note" when a later check
   * fails, and so is a non-positive token limit by 800.
   */
  function Validated(v: ReqValue): (r: Validation)
    ensures r.req.text == v.text && r.req.thinkingTokens == v.thinkingTokens
    ensures r.req.mode == if AllSpace(v.text) then v.mode else DefaultedMode(v.mode)
    ensures r.req.maxTokens == if ReachesTokenCheck(v) && v.maxTokens <= 0 then DefaultMaxTokens else v.maxTokens
    ensures r.error.None? <==> ReachesTokenCheck(v) && v.maxTokens <= MaxMaxTokens
    ensures AllSpace(v.text) ==> r.error == Some(ErrTextRequired)
    ensures !AllSpace(v.text) && DefaultedMode(v.mode) !in ValidModes ==>
      r.error == Some(ErrInvalidMode(DefaultedMode(v.mode)))
    ensures !AllSpace(v.text) && DefaultedMode(v.mode) in ValidModes && !(0 <= v.thinkingTokens <= MaxThinkingTokens) ==>
      r.error == Some(ErrThinkingTokens)
    ensures ReachesTokenCheck(v) && v.maxTokens > MaxMaxTokens ==> r.error == Some(ErrMaxTokens)
    ensures r.error.None? ==>
      r.req.mode in ValidModes && 0 <= r.req.thinkingTokens <= MaxThinkingTokens && 1 <= r.req.maxTokens <= MaxMaxTokens
  {
    if TrimSpace(v.text) == "" then
      Validation(Some(ErrTextRequired), v)
    else
      var m := v.(mode := DefaultedMode(v.mode));
      if m.mode !in ValidModes then
        Validation(Some(ErrInvalidMode(m.mode)), m)
      else if m.thinkingTokens < 0 || m.thinkingTokens > MaxThinkingTokens then
        Validation(Some(ErrThinkingTokens), m)
      else
        var t := m.(maxTokens := if m.maxTokens <= 0 then DefaultMaxTokens else m.maxTokens);
        if t.maxTokens > MaxMaxTokens then Validation(Some(ErrMaxTokens), t) else Validation(None, t)
  }

  /** A request validateRequest accepts is accepted again, unchanged. */
  lemma ValidatedIdempotent(v: ReqValue)
    requires Validated(v).error.None?
    ensures Validated(Validated(v).req) == Validation(None, Validated(v).req)
  {
  }

  /** The request decoded from the handler's body; validateRequest updates it through the pointer. */
  class Req {
    var text: string
    var mode: string
    var thinkingTokens: int
    var maxTokens: int

    function Value(): ReqValue
      reads this
    {
      ReqValue(text, mode, thinkingTokens, maxTokens)
    }

    constructor (v: ReqValue)
      ensures Value() == v
    {
      text, mode, thinkingTokens, maxTokens := v.text, v.mode, v.thinkingTokens, v.maxTokens;
    }

    /** validateRequest(&req): reports the first failed check and defaults mode and maxTokens in place. */
    method Validate() returns (err: Option<string>)
      modifies this
      ensures Validation(err, Value()) == Validated(old(Value()))
    {
      if TrimSpace(text) == "" {
        return Some(ErrTextRequired);
      }
      if mode == "" {
        mode := DefaultMode;
      }
      if mode !in ValidModes {
        return Some(ErrInvalidMode(mode));
      }
      if thinkingTokens < 0 || thinkingTokens > MaxThinkingTokens {
        return Some(ErrThinkingTokens);
      }
      if maxTokens <= 0 {
        maxTokens := DefaultMaxTokens;
      }
      if maxTokens > MaxMaxTokens {
        return Some(ErrMaxTokens);
      }
      return None;
    }
  }

  /** The accepted cases of the validation table in lambda/main_test.go. */
  lemma AcceptedExamples()
    ensures Validated(ReqValue("Create a note about my meeting", "note", 0, 800)).error.None?
    ensures Validated(ReqValue("Test with no mode", "", 0, 0)) ==
      Validation(None, ReqValue("Test with no mode", "note", 0, 800))
    ensures Validated(ReqValue("Remind me to call mom", "reminder", 0, 0)).error.None?
  {
    assert !IsSpace("Create a note about my meeting"[0]);
    assert !IsSpace("Test with no mode"[0]);
    assert !IsSpace("Remind me to call mom"[0]);
  }

  /** The rejected cases of the validation table in lambda/main_test.go. */
  lemma RejectedExamples()
    ensures Validated(ReqValue("", "note", 0, 0)).error == Some(ErrTextRequired)
    ensures Validated(ReqValue("Test", "invalid", 0, 0)).error == Some(ErrInvalidMode("invalid"))
    ensures Validated(ReqValue("Test", "note", -1, 0)).error == Some(ErrThinkingTokens)
    ensures Validated(ReqValue("Test", "note", 100000, 0)).error == Some(ErrThinkingTokens)
    ensures Validated(ReqValue("Test", "note", 0, 10000)).error == Some(ErrMaxTokens)
  {
    assert AllSpace("");
    assert !IsSpace("Test"[0]);
  }

  // ---------------------------------------------------------------------------
  // min and the log previews that use it (lambda/main.go:161, 176, 180-186)
  // ---------------------------------------------------------------------------

  function Min(a: int, b: int): (m: int)
    ensures m <= a && m <= b
    ensures m == a || m == b
  {
    if a < b then a else b
  }

  /** s[:min(n, len(s))]: never out of range, at most n bytes, a prefix of s. */
  function Preview(s: string, n: nat): (p: string)
    ensures |p| <= n && HasPrefix(s, p)
    ensures |s| >= n ==> |p| == n
    ensures |s| <= n ==> p == s
  {
    s[..Min(n, |s|)]
  }

  // ---------------------------------------------------------------------------
  // parseBedrockAPIKey after the base64 decode (lambda/main.go:153-178)
  // ---------------------------------------------------------------------------

  datatype Credentials = Credentials(accessKeyId: string, secretAccessKey: string)

  datatype KeyError = DecodeFailed | MissingSeparator | EmptyCredential

  /**
   * The key split at its first colon. `decoded` is the result of the base64
   * decode, None when the key is not valid base64.
   */
  function ParseBedrockAPIKey(decoded: Option<string>): (r: Result<Credentials, KeyError>)
    ensures decoded.None? ==> r == Err(DecodeFailed)
    ensures decoded.Some? && ':' !in decoded.value ==> r == Err(MissingSeparator)
    ensures r.Ok? ==>
      && decoded.Some?
      && r.value.accessKeyId + ":" + r.value.secretAccessKey == decoded.value
      && ':' !in r.value.accessKeyId
      && r.value.accessKeyId != "" && r.value.secretAccessKey != ""
  {
    match decoded
    case None => Err(DecodeFailed)
    case Some(s) =>
      var parts := SplitOnce(s, ':');
      if |parts| != 2 then
        Err(MissingSeparator)
      else if parts[0] == "" || parts[1] == "" then
        Err(EmptyCredential)
      else
        Ok(Credentials(parts[0], parts[1]))
  }

  /** Every key id without a colon and non-empty secret is recovered from "id:secret". */
  lemma ParseBedrockAPIKeyRoundTrip(c: Credentials)
    requires c.accessKeyId != "" && ':' !in c.accessKeyId && c.secretAccessKey != ""
    ensures ParseBedrockAPIKey(Some(c.accessKeyId + ":" + c.secretAccessKey)) == Ok(c)
  {
    SplitOnceAt(c.accessKeyId, c.secretAccessKey, ':');
  }

  /** An empty side of the first colon is rejected. */
  lemma EmptySideRejected(id: string, secret: string)
    requires ':' !in id && (id == "" || secret == "")
    ensures ParseBedrockAPIKey(Some(id + ":" + secret)) == Err(EmptyCredential)
  {
    SplitOnceAt(id, secret, ':');
  }

  // ---------------------------------------------------------------------------
  // buildSystemPrompt (lambda/main.go:355-403)
  // ---------------------------------------------------------------------------

  // The reply format, cut where its "markdown" and "action" field names are.
  const BaseIntro: string :=
    "You are a helpful assistant that processes voice-to-text requests from an Apple Watch. Always respond with valid JSON in this exact format:\n\n{\n  \""
  const BaseFormat: string := "\": \"formatted content here\",\n  \""
  const BaseGuidelines: string :=
    "\": \"note|reminder|event|none\",\n  \"title\": \"extracted or generated title\",\n  \"dueISO\": \"2025-01-15T09:00:00Z or null\",\n  \"tags\": [\"tag1\", \"tag2\"]\n}\n\nGuidelines:\n- Extract clear, actionable titles\n- For reminders/events, try to extract dates/times and convert to ISO format\n- Use markdown formatting for content\n- Keep responses concise but complete"

  /** The shared prompt: the reply format and the guidelines. */
  const BasePrompt: string := BaseIntro + "markdown" + BaseFormat + "action" + BaseGuidelines

  /** Each mode's section opens with this, followed by the mode's name. */
  const ModeHeader: string := "\n\nMode: "

  /** The name in the section header; the event header carries two trailing blanks. */
  function ModeName(mode: string): string {
    match mode
    case "reminder" => "REMINDER"
    case "event" => "EVENT  "
    case "research" => "RESEARCH"
    case "deepthink" => "DEEP THINKING"
    case _ => NoteName
  }

  function ModeInstructions(mode: string): string {
    match mode
    case "reminder" =>
      "\nFocus on creating reminders with due dates. Look for time references and convert them to ISO format. Set action to \"reminder\"."
    case "event" =>
      "\nFocus on calendar events with specific dates/times. Extract event details and timing. Set action to \"event\"."
    case "research" =>
      "\nProvide detailed, well-researched responses. Include sources and comprehensive information. Set action to \"note\"."
    case "deepthink" =>
      "\nTake time to thoroughly analyze the request. Consider multiple perspectives and provide thoughtful insights. Set action to \"note\"."
    case _ => NoteInstructions
  }

  const NoteName: string := "NOTE"
  const NoteInstructions: string :=
    "\nCreate clear, well-formatted notes. Extract key information and organize it logically. Set action to \"note\"."

  function ModeSection(mode: string): string {
    ModeHeader + ModeName(mode) + ModeInstructions(mode)
  }

  /** The prompt of the "note" mode, and of every mode without a section of its own. */
  const NotePrompt: string := BasePrompt + (ModeHeader + NoteName + NoteInstructions)

  /** The system prompt: the shared base, then the section of the mode. */
  function BuildSystemPrompt(mode: string): (p: string)
    ensures HasPrefix(p, BasePrompt)
  {
    PrefixOfConcat(BasePrompt, ModeSection(mode));
    BasePrompt + ModeSection(mode)
  }

  /** Any mode other than the four named ones gets exactly the note prompt. */
  lemma OtherModesGetNotePrompt(mode: string)
    requires mode !in {"reminder", "event", "research", "deepthink"}
    ensures BuildSystemPrompt(mode) == NotePrompt
  {
  }

  lemma PrefixOfConcat(a: string, b: string)
    ensures HasPrefix(a + b, a)
  {
    assert (a + b)[..|a|] == a;
  }

  /** `sub` occurs in `s` at offset `i`. */
  predicate OccursAt(s: string, sub: string, i: int) {
    0 <= i <= |s| - |sub| && s[i..i + |sub|] == sub
  }

  ghost predicate Contains(s: string, sub: string) {
    exists i :: OccursAt(s, sub, i)
  }

  lemma OccursAtEnd(a: string, sub: string)
    ensures OccursAt(a + sub, sub, |a|)
  {
    assert (a + sub)[|a|..|a| + |sub|] == sub;
  }

  lemma OccursBefore(s: string, t: string, sub: string, i: int)
    requires OccursAt(s, sub, i)
    ensures OccursAt(s + t, sub, i)
  {
    assert (s + t)[i..i + |sub|] == s[i..i + |sub|];
  }

  /** Every prompt names the "markdown" and "action" fields of the reply format. */
  lemma PromptNamesReplyFields(mode: string)
    ensures Contains(BuildSystemPrompt(mode), "markdown")
    ensures Contains(BuildSystemPrompt(mode), "action")
  {
    var md := BaseIntro + "markdown";
    OccursAtEnd(BaseIntro, "markdown");
    OccursBefore(md, BaseFormat, "markdown", |BaseIntro|);
    OccursBefore(md + BaseFormat, "action", "markdown", |BaseIntro|);
    OccursBefore(md + BaseFormat + "action", BaseGuidelines, "markdown", |BaseIntro|);
    OccursBefore(BasePrompt, ModeSection(mode), "markdown", |BaseIntro|);
    var act := md + BaseFormat;
    OccursAtEnd(act, "action");
    OccursBefore(act + "action", BaseGuidelines, "action", |act|);
    OccursBefore(BasePrompt, ModeSection(mode), "action", |act|);
  }

  lemma IndexInSection(base: string, header: string, name: string, rest: string, k: int)
    requires 0 <= k < |name|
    ensures |base| + |header| + k < |base + (header + name + rest)|
    ensures (base + (header + name + rest))[|base| + |header| + k] == name[k]
  {
    assert (header + name + rest)[|header| + k] == name[k];
  }

  /** The mode's name follows the base prompt and "\n\nMode: ". */
  lemma ModeNameInPrompt(mode: string, k: int)
    requires 0 <= k < |ModeName(mode)|
    ensures |BasePrompt| + |ModeHeader| + k < |BuildSystemPrompt(mode)|
    ensures BuildSystemPrompt(mode)[|BasePrompt| + |ModeHeader| + k] == ModeName(mode)[k]
  {
    IndexInSection(BasePrompt, ModeHeader, ModeName(mode), ModeInstructions(mode), k);
  }

  /** The five names differ in their first or third letter. */
  lemma ModeNamesDistinct(m1: string, m2: string)
    requires m1 in ValidModes && m2 in ValidModes && m1 != m2
    ensures |ModeName(m1)| >= 3 && |ModeName(m2)| >= 3
    ensures ModeName(m1)[0] != ModeName(m2)[0] || ModeName(m1)[2] != ModeName(m2)[2]
  {
  }

  lemma DifferAt(s: string, t: string, i: int)
    requires 0 <= i < |s| && i < |t| && s[i] != t[i]
    ensures s != t
  {
  }

  /** Each valid mode selects its own prompt. */
  lemma PromptsDistinct(m1: string, m2: string)
    requires m1 in ValidModes && m2 in ValidModes && m1 != m2
    ensures BuildSystemPrompt(m1) != BuildSystemPrompt(m2)
  {
    ModeNamesDistinct(m1, m2);
    var k := if ModeName(m1)[0] != ModeName(m2)[0] then 0 else 2;
    ModeNameInPrompt(m1, k);
    ModeNameInPrompt(m2, k);
    DifferAt(BuildSystemPrompt(m1), BuildSystemPrompt(m2), |BasePrompt| + |ModeHeader| + k);
  }

  // ---------------------------------------------------------------------------
  // extractTitle (lambda/main.go:405-420)
  // ---------------------------------------------------------------------------

  const TitleLimit: nat := 50
  const TitleKeep: nat := 47
  const Ellipsis: string := "..."
  const FallbackPrefix: string := "Wrist Agent "

  /** A line a title may come from: once trimmed, not empty and not the start of a JSON object. */
  predicate CandidateLine(line: string) {
    var t := TrimSpace(line);
    t != "" && !HasPrefix(t, "{")
  }

  /** A leading "# " and then a leading "## " removed. */
  function StripHeader(line: string): string {
    TrimPrefix(TrimPrefix(line, "# "), "## ")
  }

  /** At most 50 bytes: a longer line keeps its first 47 bytes and gets "...". */
  function Shorten(s: string): (t: string)
    ensures |t| <= TitleLimit
    ensures |s| <= TitleLimit ==> t == s
    ensures |s| > TitleLimit ==> |t| == TitleLimit && HasPrefix(s, t[..TitleKeep]) && t[TitleKeep..] == Ellipsis
  {
    if |s| > TitleLimit then s[..TitleKeep] + Ellipsis else s
  }

  /** The title a candidate line gives: trimmed, header marker removed, shortened. */
  function LineTitle(line: string): string {
    Shorten(StripHeader(TrimSpace(line)))
  }

  function FallbackTitle(mode: string): string {
    FallbackPrefix + Title(mode)
  }

  /** Line `i` is the first candidate among `lines` (i == |lines|: there is none). */
  predicate FirstCandidate(lines: seq<string>, i: int) {
    0 <= i <= |lines|
    && (forall j :: 0 <= j < i ==> !CandidateLine(lines[j]))
    && (i < |lines| ==> CandidateLine(lines[i]))
  }

  /** The title chosen when line `i` is the first candidate. */
  function TitleAt(lines: seq<string>, mode: string, i: int): string {
    if 0 <= i < |lines| then LineTitle(lines[i]) else FallbackTitle(mode)
  }

  /** The title of `content`: from its first candidate line, or the mode's fallback. */
  ghost predicate IsTitleOf(content: string, mode: string, title: string) {
    var lines := Split(content, '\n');
    exists i :: FirstCandidate(lines, i) && title == TitleAt(lines, mode, i)
  }

  lemma FirstCandidateUnique(lines: seq<string>, i: int, k: int)
    requires FirstCandidate(lines, i) && FirstCandidate(lines, k)
    ensures i == k
  {
  }

  /** The title is determined by the content and the mode. */
  lemma TitleUnique(content: string, mode: string, t1: string, t2: string)
    requires IsTitleOf(content, mode, t1) && IsTitleOf(content, mode, t2)
    ensures t1 == t2
  {
    var lines := Split(content, '\n');
    var i :| FirstCandidate(lines, i) && t1 == TitleAt(lines, mode, i);
    var k :| FirstCandidate(lines, k) && t2 == TitleAt(lines, mode, k);
    FirstCandidateUnique(lines, i, k);
  }

  /** For a valid mode no title is longer than 50 bytes. */
  lemma TitleWithinLimit(content: string, mode: string, title: string)
    requires mode in ValidModes && IsTitleOf(content, mode, title)
    ensures |title| <= TitleLimit
  {
    var lines := Split(content, '\n');
    var i :| FirstCandidate(lines, i) && title == TitleAt(lines, mode, i);
    if i == |lines| {
      assert |title| == |FallbackPrefix| + |mode|;
    }
  }

  lemma TitleWitness(content: string, mode: string, i: int)
    requires FirstCandidate(Split(content, '\n'), i)
    ensures IsTitleOf(content, mode, TitleAt(Split(content, '\n'), mode, i))
  {
  }

  /** extractTitle: the first candidate line cleaned up and shortened, else "Wrist Agent <Mode>". */
  method ExtractTitle(content: string, mode: string) returns (title: string)
    ensures IsTitleOf(content, mode, title)
  {
    var lines := Split(content, '\n');
    for k := 0 to |lines|
      invariant forall j :: 0 <= j < k ==> !CandidateLine(lines[j])
    {
      var line := TrimSpace(lines[k]);
      if line != "" && !HasPrefix(line, "{") {
        TitleWitness(content, mode, k);
        return Shorten(StripHeader(line));
      }
    }
    TitleWitness(content, mode, |lines|);
    return FallbackTitle(mode);
  }

  /** A first line that is a candidate gives the title, whatever follows it. */
  lemma TitleFromFirstLine(first: string, rest: string, mode: string)
    requires '\n' !in first && CandidateLine(first)
    ensures IsTitleOf(first + "\n" + rest, mode, LineTitle(first))
  {
    SplitAt(first, rest, '\n');
    assert FirstCandidate([first] + Split(rest, '\n'), 0);
  }

  /** Putting a non-candidate line in front moves the first candidate down by one. */
  lemma FirstCandidateAfter(first: string, tail: seq<string>, mode: string, i: int)
    requires !CandidateLine(first) && FirstCandidate(tail, i)
    ensures FirstCandidate([first] + tail, i + 1)
    ensures TitleAt([first] + tail, mode, i + 1) == TitleAt(tail, mode, i)
  {
    var lines := [first] + tail;
    assert forall j :: 0 < j <= |tail| ==> lines[j] == tail[j - 1];
  }

  /** A first line that is not a candidate is skipped. */
  lemma TitleSkipsLine(first: string, rest: string, mode: string, title: string)
    requires '\n' !in first && !CandidateLine(first)
    requires IsTitleOf(rest, mode, title)
    ensures IsTitleOf(first + "\n" + rest, mode, title)
  {
    var tail := Split(rest, '\n');
    var i :| FirstCandidate(tail, i) && title == TitleAt(tail, mode, i);
    SplitAt(first, rest, '\n');
    FirstCandidateAfter(first, tail, mode, i);
  }

  /** Content of one line: its title if it is a candidate, else the fallback. */
  lemma TitleOfSingleLine(line: string, mode: string)
    requires '\n' !in line
    ensures IsTitleOf(line, mode, if CandidateLine(line) then LineTitle(line) else FallbackTitle(mode))
  {
    SplitWhole(line, '\n');
    if CandidateLine(line) {
      assert FirstCandidate([line], 0);
    } else {
      assert FirstCandidate([line], 1);
    }
  }

  /** "# " is removed unless "## " follows it; "## " is removed. */
  lemma StripsHeaderMarker(h: string)
    ensures !HasPrefix(h, "## ") ==> StripHeader("# " + h) == h
    ensures StripHeader("## " + h) == h
  {
    assert ("# " + h)[..2] == "# ";
    var hh := "## " + h;
    assert hh[..3] == "## ";
    assert hh[1] == '#';
    assert !HasPrefix(hh, "# ");
  }

  /** Empty content has no candidate line. */
  lemma EmptyContentTitle(mode: string)
    ensures IsTitleOf("", mode, FallbackTitle(mode))
  {
    assert TrimSpace("") == "" by { assert AllSpace(""); }
    TitleOfSingleLine("", mode);
  }

  /** strings.Title on one lower-case word: only its first letter changes. */
  lemma {:induction false} TitleOfWord(w: string)
    requires |w| > 0 && forall i :: 0 <= i < |w| ==> IsLower(w[i])
    ensures Title(w) == [ToUpper(w[0])] + w[1..]
  {
    var t := Title(w);
    forall i | 0 < i < |w|
      ensures t[i] == w[i]
    {
      assert !IsSeparator(w[i - 1]);
    }
  }

  /** The fallback titles of the test table in lambda/main_test.go. */
  lemma FallbackTitleExamples()
    ensures FallbackTitle("note") == "Wrist Agent Note"
    ensures FallbackTitle("reminder") == "Wrist Agent Reminder"
  {
    TitleOfWord("note");
    TitleOfWord("reminder");
  }

  // ---------------------------------------------------------------------------
  // callBedrock (lambda/main.go:278-353)
  // ---------------------------------------------------------------------------

  const AnthropicVersion: string := "bedrock-2023-05-31"
  const UserMessagePrefix: string := "Process this request: "

  /** The fields of the InvokeModel request body. */
  datatype BedrockRequest = BedrockRequest(
    anthropicVersion: string,
    system: string,
    userMessage: string,
    maxTokens: int,
    thinkingBudget: Option<int>)

  /** The request sent for a validated request: its prompt, its text, its limits. */
  function BuildBedrockRequest(req: ReqValue): (b: BedrockRequest)
    ensures b.anthropicVersion == AnthropicVersion
    ensures b.system == BuildSystemPrompt(req.mode) && HasPrefix(b.system, BasePrompt)
    ensures b.userMessage == UserMessagePrefix + req.text
    ensures b.maxTokens == req.maxTokens
    ensures b.thinkingBudget.Some? <==> req.thinkingTokens > 0
    ensures b.thinkingBudget.Some? ==> b.thinkingBudget.value == req.thinkingTokens
  {
    BedrockRequest(
      AnthropicVersion,
      BuildSystemPrompt(req.mode),
      UserMessagePrefix + req.text,
      req.maxTokens,
      if req.thinkingTokens > 0 then Some(req.thinkingTokens) else None)
  }

  /** The reply to the client. */
  datatype Response = Response(markdown: string, action: string, title: string, dueIso: Option<string>, tags: seq<string>)

  /** What InvokeModel and the decode of its body give: the text of the first content block. */
  datatype ModelReply = InvokeFailed | Undecodable | NoContent | Content(text: string)

  datatype BedrockError = InvokeError | ReplyParseError | EmptyReply

  /**
   * The answer callBedrock gives for a backend reply. `decode` is the JSON decode of
   * the model's text into a Response; when it fails, the text itself is the markdown,
   * the mode is the action and the only tag, and the title is extracted from the text.
   */
  ghost predicate Answers(req: ReqValue, reply: ModelReply, decode: string -> Option<Response>,
                          r: Result<Response, BedrockError>) {
    match reply
    case InvokeFailed => r == Err(InvokeError)
    case Undecodable => r == Err(ReplyParseError)
    case NoContent => r == Err(EmptyReply)
    case Content(text) =>
      r.Ok? &&
      if decode(text).Some? then
        r.value == decode(text).value
      else
        r.value == Response(text, req.mode, r.value.title, None, [req.mode])
        && IsTitleOf(text, req.mode, r.value.title)
  }

  method CallBedrock(req: ReqValue, invoke: BedrockRequest -> ModelReply, decode: string -> Option<Response>)
    returns (r: Result<Response, BedrockError>)
    ensures Answers(req, invoke(BuildBedrockRequest(req)), decode, r)
  {
    var reply := invoke(BuildBedrockRequest(req));
    match reply {
      case InvokeFailed => return Err(InvokeError);
      case Undecodable => return Err(ReplyParseError);
      case NoContent => return Err(EmptyReply);
      case Content(text) =>
        var structured := decode(text);
        if structured.Some? {
          return Ok(structured.value);
        }
        var title := ExtractTitle(text, req.mode);
        return Ok(Response(text, req.mode, title, None, [req.mode]));
    }
  }

  // ---------------------------------------------------------------------------
  // handler and corsResponse (lambda/main.go:202-247, 422-440)
  // ---------------------------------------------------------------------------

  const ErrMethodNotAllowed: string := "Method not allowed"
  const ErrAuthentication: string := "Invalid or missing authentication token"
  const ErrInvalidJson: string := "Invalid JSON payload"
  const ErrProcessing: string := "Failed to process request"

  const CorsHeaders: map<string, string> := map[
    "Content-Type" := "application/json",
    "Access-Control-Allow-Origin" := "*",
    "Access-Control-Allow-Headers" := "Content-Type, X-Client-Token",
    "Access-Control-Allow-Methods" := "POST, OPTIONS",
    "Access-Control-Max-Age" := "3600"]

  datatype HttpRequest = HttpRequest(httpMethod: string, headers: map<string, string>, body: string)

  /** The response body before JSON encoding; NoBody is the empty body. */
  datatype Body = NoBody | ErrorBody(error: string) | ResultBody(response: Response)

  datatype HttpResponse = HttpResponse(statusCode: int, headers: map<string, string>, body: Body)

  function CorsResponse(statusCode: int, body: Body): HttpResponse {
    HttpResponse(statusCode, CorsHeaders, body)
  }

  /** A Go map lookup: the empty string for a missing key. */
  function Header(headers: map<string, string>, key: string): string {
    if key in headers then headers[key] else ""
  }

  /** The presented client token: "x-client-token", else "X-Client-Token", exact keys, untrimmed. */
  function PresentedToken(headers: map<string, string>): (t: string)
    ensures Header(headers, "x-client-token") != "" ==> t == headers["x-client-token"]
    ensures Header(headers, "x-client-token") == "" ==> t == Header(headers, "X-Client-Token")
  {
    var lower := Header(headers, "x-client-token");
    if lower == "" then Header(headers, "X-Client-Token") else lower
  }

  predicate Authenticated(event: HttpRequest, clientToken: string) {
    event.httpMethod == "POST" && PresentedToken(event.headers) == clientToken
  }

  /**
   * handler. `parse` is the JSON decode of the body, `invoke` the model backend and
   * `decode` the JSON decode of the model's text.
   */
  method Handle(event: HttpRequest, clientToken: string, parse: string -> Option<ReqValue>,
                invoke: BedrockRequest -> ModelReply, decode: string -> Option<Response>)
    returns (resp: HttpResponse)
    ensures resp.headers == CorsHeaders
    ensures resp.statusCode in {200, 400, 401, 405, 500}
    ensures event.httpMethod == "OPTIONS" ==> resp == CorsResponse(200, NoBody)
    ensures event.httpMethod != "OPTIONS" && event.httpMethod != "POST" ==>
      resp == CorsResponse(405, ErrorBody(ErrMethodNotAllowed))
    ensures event.httpMethod == "POST" && PresentedToken(event.headers) != clientToken ==>
      resp == CorsResponse(401, ErrorBody(ErrAuthentication))
    ensures Authenticated(event, clientToken) && parse(event.body).None? ==>
      resp == CorsResponse(400, ErrorBody(ErrInvalidJson))
    ensures Authenticated(event, clientToken) && parse(event.body).Some? ==>
      var v := Validated(parse(event.body).value);
      (v.error.Some? ==> resp == CorsResponse(400, ErrorBody(v.error.value))) &&
      (v.error.None? ==>
        var reply := invoke(BuildBedrockRequest(v.req));
        if reply.Content? then
          resp.statusCode == 200 && resp.body.ResultBody? && Answers(v.req, reply, decode, Ok(resp.body.response))
        else
          resp == CorsResponse(500, ErrorBody(ErrProcessing)))
    ensures resp.statusCode == 200 ==> event.httpMethod == "OPTIONS" || Authenticated(event, clientToken)
  {
    if event.httpMethod == "OPTIONS" {
      return CorsResponse(200, NoBody);
    }
    if event.httpMethod != "POST" {
      return CorsResponse(405, ErrorBody(ErrMethodNotAllowed));
    }
    var authHeader := Header(event.headers, "x-client-token");
    if authHeader == "" {
      authHeader := Header(event.headers, "X-Client-Token");
    }
    if authHeader != clientToken {
      return CorsResponse(401, ErrorBody(ErrAuthentication));
    }
    var parsed := parse(event.body);
    if parsed.None? {
      return CorsResponse(400, ErrorBody(ErrInvalidJson));
    }
    var req := new Req(parsed.value);
    var err := req.Validate();
    if err.Some? {
      return CorsResponse(400, ErrorBody(err.value));
    }
    var response := CallBedrock(req.Value(), invoke, decode);
    if response.Err? {
      return CorsResponse(500, ErrorBody(ErrProcessing));
    }
    return CorsResponse(200, ResultBody(response.value));
  }
}
