/** The analysis client of `src/services/geminiService.js`: the SDK call with
    its direct-HTTP fallback over three models, the validation of each reply,
    the connectivity check, the six prompt templates and the way each analysis
    turns a failure into the message it throws.
    The network is a parameter: a `Backend` says what the SDK and each direct
    HTTP call would return for a given prompt. */
module Gemini {
  import opened Wrappers
  import opened JsStrings

  /** The model of the direct call made by the connectivity check. */
  const TEST_MODEL := "gemini-1.5-flash"
  /** The models tried by direct HTTP, in order, after the SDK call fails. */
  const DIRECT_MODELS: seq<string> := ["gemini-1.5-flash", "gemini-1.5-pro", "gemini-pro"]
  /** The only error `generateContent` throws. */
  const EXHAUSTED_MESSAGE := "Both SDK and direct API calls failed"
  const NO_SDK_RESPONSE_MESSAGE := "No response from Gemini API"
  const EMPTY_SDK_RESPONSE_MESSAGE := "Empty response from Gemini API"
  const NO_CANDIDATES_MESSAGE := "No candidates in response"
  const EMPTY_DIRECT_TEXT_MESSAGE := "Empty response text"
  const TEST_PROMPT := "Say hello and confirm the API is working"
  const CONNECTION_FAILED_PREFIX := "API Connection Failed: "

  const INVALID_KEY_MESSAGE := "Invalid API key. " + "Please check your Gemini API configuration."
  const QUOTA_MESSAGE := "API quota exceeded. Please try again later."
  const NETWORK_MESSAGE := "Network error. " + "Please check your internet connection."
  const API_ERROR_PREFIX := "API Error: "
  const REVIEW_FALLBACK_DETAIL := "Failed to get code review. Please try again."

  const EXPLAIN_FAILED_PREFIX := "Failed to explain code: "
  const BUGS_FAILED_PREFIX := "Failed to analyze bugs: "
  const LINE_BY_LINE_FAILED_PREFIX := "Failed to provide line-by-line explanation: "
  const COMPARE_FAILED_PREFIX := "Failed to compare code snippets: "
  const REFACTOR_FAILED_PREFIX := "Failed to refactor code: "

  /** What `this.model.generateContent(prompt)` gives: a thrown error, a result
      without a response, or a response whose `text()` may be missing. */
  datatype SdkReply = SdkThrew(message: string) | NoResponse | Response(text: Option<string>)

  /** The first candidate of a reply: the text of its first part, or a shape
      whose property access throws. */
  datatype Candidate = Candidate(text: Option<string>) | MalformedCandidate(message: string)

  /** The body of a 2xx reply: its `candidates` array, if any, or a body that
      `response.json()` cannot parse. */
  datatype ResponseData = ResponseData(candidates: Option<seq<Candidate>>) | NotJson(message: string)

  /** What `fetch` gives for one direct call: a rejection, or a response with its
      status, its text (read on a non-2xx status) and its JSON body. */
  datatype DirectReply =
    | FetchRejected(message: string)
    | HttpResponse(status: nat, errorText: string, data: ResponseData)

  /** The remote collaborator: the SDK's reply to a prompt, and the direct HTTP
      reply of a model (first argument) to a prompt (second argument). */
  datatype Backend = Backend(sdk: string -> SdkReply, direct: (string, string) -> DirectReply)

  /** `response.ok`. */
  predicate HttpOk(status: nat)
  {
    200 <= status <= 299
  }

  /** The SDK branch of `generateContent`: a missing response, a missing or
      white-space-only text are failures; only non-blank text succeeds. */
  function SdkResult(reply: SdkReply): (r: Result<string, string>)
    ensures r.Ok? <==> reply.Response? && reply.text.Some? && !Blank(reply.text.value)
    ensures r.Ok? ==> r.value == reply.text.value
    ensures reply.SdkThrew? ==> r == Err(reply.message)
    ensures reply.NoResponse? ==> r == Err(NO_SDK_RESPONSE_MESSAGE)
    ensures reply.Response? && !r.Ok? ==> r == Err(EMPTY_SDK_RESPONSE_MESSAGE)
  {
    match reply
    case SdkThrew(message) => Err(message)
    case NoResponse => Err(NO_SDK_RESPONSE_MESSAGE)
    case Response(text) =>
      if text.None? then Err(EMPTY_SDK_RESPONSE_MESSAGE)
      else
        TrimEmptyIffBlank(text.value);
        if Trim(text.value) == "" then Err(EMPTY_SDK_RESPONSE_MESSAGE) else Ok(text.value)
  }

  /** `generateContentDirect(prompt, modelName)` once the reply is known: only a
      2xx reply whose first candidate has non-blank text succeeds, with that text. */
  function GenerateContentDirect(reply: DirectReply): (r: Result<string, string>)
    ensures r.Ok? ==> !Blank(r.value)
    ensures r.Ok? ==>
              && reply.HttpResponse? && HttpOk(reply.status) && reply.data.ResponseData?
              && reply.data.candidates.Some? && |reply.data.candidates.value| > 0
              && reply.data.candidates.value[0] == Candidate(Some(r.value))
    ensures reply.HttpResponse? && HttpOk(reply.status) && reply.data.ResponseData?
            && reply.data.candidates.Some? && |reply.data.candidates.value| > 0
            && reply.data.candidates.value[0].Candidate?
            && reply.data.candidates.value[0].text.Some?
            && !Blank(reply.data.candidates.value[0].text.value) ==>
              r == Ok(reply.data.candidates.value[0].text.value)
    ensures reply.FetchRejected? ==> r == Err(reply.message)
    ensures reply.HttpResponse? && HttpOk(reply.status) && reply.data.NotJson? ==>
              r == Err(reply.data.message)
    ensures reply.HttpResponse? && HttpOk(reply.status) && reply.data.ResponseData?
            && reply.data.candidates.Some? && |reply.data.candidates.value| > 0
            && reply.data.candidates.value[0].MalformedCandidate? ==>
              r == Err(reply.data.candidates.value[0].message)
    ensures reply.HttpResponse? && !HttpOk(reply.status) ==>
              r == Err("HTTP " + NatToString(reply.status) + ": " + reply.errorText)
    ensures reply.HttpResponse? && HttpOk(reply.status) && reply.data.ResponseData?
            && (reply.data.candidates.None? || reply.data.candidates.value == []) ==>
              r == Err(NO_CANDIDATES_MESSAGE)
    ensures reply.HttpResponse? && HttpOk(reply.status) && reply.data.ResponseData?
            && reply.data.candidates.Some? && |reply.data.candidates.value| > 0
            && reply.data.candidates.value[0].Candidate? && !r.Ok? ==>
              r == Err(EMPTY_DIRECT_TEXT_MESSAGE)
  {
    match reply
    case FetchRejected(message) => Err(message)
    case HttpResponse(status, errorText, data) =>
      if !HttpOk(status) then Err("HTTP " + NatToString(status) + ": " + errorText)
      else match data
        case NotJson(message) => Err(message)
        case ResponseData(candidates) =>
          if candidates.None? || |candidates.value| == 0 then Err(NO_CANDIDATES_MESSAGE)
          else match candidates.value[0]
            case MalformedCandidate(message) => Err(message)
            case Candidate(text) =>
              if text.None? then Err(EMPTY_DIRECT_TEXT_MESSAGE)
              else
                TrimEmptyIffBlank(text.value);
                if Trim(text.value) == "" then Err(EMPTY_DIRECT_TEXT_MESSAGE) else Ok(text.value)
  }

  /** The text of the first model whose attempt succeeds, trying them in order;
      `None` when every attempt fails. */
  function TryInOrder(models: seq<string>, attempt: string -> Result<string, string>): (r: Option<string>)
    ensures r.Some? ==> exists k :: 0 <= k < |models| && attempt(models[k]) == Ok(r.value)
    ensures r.None? <==> forall k :: 0 <= k < |models| ==> attempt(models[k]).Err?
  {
    if models == [] then None
    else match attempt(models[0])
      case Ok(text) => Some(text)
      case Err(_) =>
        var r := TryInOrder(models[1..], attempt);
        assert forall k :: 1 <= k < |models| ==> models[k] == models[1..][k - 1];
        r
  }

  /** How many models `TryInOrder` calls: up to and including the first success. */
  function AttemptCount(models: seq<string>, attempt: string -> Result<string, string>): (n: nat)
    ensures n <= |models|
  {
    if models == [] then 0
    else if attempt(models[0]).Ok? then 1
    else 1 + AttemptCount(models[1..], attempt)
  }

  /** The first success wins: its text is the result and no later model is tried. */
  lemma {:induction false} FirstSuccessWins(models: seq<string>, attempt: string -> Result<string, string>, k: nat)
    requires k < |models| && attempt(models[k]).Ok?
    requires forall j :: 0 <= j < k ==> attempt(models[j]).Err?
    ensures TryInOrder(models, attempt) == Some(attempt(models[k]).value)
    ensures AttemptCount(models, attempt) == k + 1
  {
    if k > 0 {
      FirstSuccessWins(models[1..], attempt, k - 1);
    }
  }

  /** When every attempt fails, every model is tried. */
  lemma {:induction false} AllFailuresTryAll(models: seq<string>, attempt: string -> Result<string, string>)
    requires forall k :: 0 <= k < |models| ==> attempt(models[k]).Err?
    ensures AttemptCount(models, attempt) == |models|
  {
    if models != [] {
      AllFailuresTryAll(models[1..], attempt);
    }
  }

  /** One direct call for a prompt, as a function of the model name. */
  function DirectAttempt(b: Backend, prompt: string): string -> Result<string, string>
  {
    model => GenerateContentDirect(b.direct(model, prompt))
  }

  /** A direct model that answers answers with non-blank text. */
  lemma DirectSuccessNonBlank(prompt: string, b: Backend)
    ensures TryInOrder(DIRECT_MODELS, DirectAttempt(b, prompt)).Some? ==>
              !Blank(TryInOrder(DIRECT_MODELS, DirectAttempt(b, prompt)).value)
  {
    var attempt := DirectAttempt(b, prompt);
    var r := TryInOrder(DIRECT_MODELS, attempt);
    if r.Some? {
      var k :| 0 <= k < |DIRECT_MODELS| && attempt(DIRECT_MODELS[k]) == Ok(r.value);
      assert attempt(DIRECT_MODELS[k]) == GenerateContentDirect(b.direct(DIRECT_MODELS[k], prompt));
    }
  }

  /** What `generateContent(prompt)` returns or throws: the SDK's text when it is
      non-blank, otherwise the first successful direct call, otherwise the one
      exhaustion error. */
  function Generated(prompt: string, b: Backend): (r: Result<string, string>)
    ensures r.Ok? ==> !Blank(r.value)
    ensures r.Err? ==> r.error == EXHAUSTED_MESSAGE
    ensures SdkResult(b.sdk(prompt)).Ok? ==> r == SdkResult(b.sdk(prompt))
  {
    var first := SdkResult(b.sdk(prompt));
    if first.Ok? then first
    else match TryInOrder(DIRECT_MODELS, DirectAttempt(b, prompt))
      case Some(text) =>
        DirectSuccessNonBlank(prompt, b);
        Ok(text)
      case None => Err(EXHAUSTED_MESSAGE)
  }

  /** The models `generateContent(prompt)` calls directly, in order. */
  ghost function DirectCalls(prompt: string, b: Backend): seq<string>
  {
    if SdkResult(b.sdk(prompt)).Ok? then []
    else DIRECT_MODELS[..AttemptCount(DIRECT_MODELS, DirectAttempt(b, prompt))]
  }

  /** `generateContent(prompt)`: the SDK call, then the `for` loop over the
      direct models with an early return on the first success. `calls` records
      the direct calls made. */
  method GenerateContent(prompt: string, b: Backend) returns (r: Result<string, string>, ghost calls: seq<string>)
    ensures r == Generated(prompt, b) && calls == DirectCalls(prompt, b)
  {
    var first := SdkResult(b.sdk(prompt));
    if first.Ok? {
      return first, [];
    }
    ghost var attempt := DirectAttempt(b, prompt);
    calls := [];
    var i := 0;
    while i < |DIRECT_MODELS|
      invariant 0 <= i <= |DIRECT_MODELS|
      invariant calls == DIRECT_MODELS[..i]
      invariant forall j :: 0 <= j < i ==> attempt(DIRECT_MODELS[j]).Err?
    {
      var modelName := DIRECT_MODELS[i];
      var outcome := GenerateContentDirect(b.direct(modelName, prompt));
      calls := calls + [modelName];
      if outcome.Ok? {
        FirstSuccessWins(DIRECT_MODELS, attempt, i);
        return outcome, calls;
      }
      i := i + 1;
    }
    AllFailuresTryAll(DIRECT_MODELS, attempt);
    r := Err(EXHAUSTED_MESSAGE);
  }

  /** At most the three direct models are called: none after a usable SDK
      reply, and all three when the exhaustion error is thrown. */
  lemma DirectCallsBounded(prompt: string, b: Backend)
    ensures |DirectCalls(prompt, b)| <= |DIRECT_MODELS|
    ensures DirectCalls(prompt, b) == DIRECT_MODELS[..|DirectCalls(prompt, b)|]
    ensures SdkResult(b.sdk(prompt)).Ok? ==> DirectCalls(prompt, b) == []
    ensures Generated(prompt, b).Err? ==> DirectCalls(prompt, b) == DIRECT_MODELS
  {
    if !SdkResult(b.sdk(prompt)).Ok? && TryInOrder(DIRECT_MODELS, DirectAttempt(b, prompt)).None? {
      AllFailuresTryAll(DIRECT_MODELS, DirectAttempt(b, prompt));
    }
  }

  /** After the SDK fails, the `k`-th direct model answers only when the ones
      before it failed; its text is the result and the models after it are not called. */
  lemma FallbackFirstSuccess(prompt: string, b: Backend, k: nat)
    requires !SdkResult(b.sdk(prompt)).Ok?
    requires k < |DIRECT_MODELS| && DirectAttempt(b, prompt)(DIRECT_MODELS[k]).Ok?
    requires forall j :: 0 <= j < k ==> DirectAttempt(b, prompt)(DIRECT_MODELS[j]).Err?
    ensures Generated(prompt, b) == DirectAttempt(b, prompt)(DIRECT_MODELS[k])
    ensures DirectCalls(prompt, b) == DIRECT_MODELS[..k + 1]
  {
    FirstSuccessWins(DIRECT_MODELS, DirectAttempt(b, prompt), k);
  }

  /** When the SDK and all three direct models fail, the exhaustion error is
      thrown after all three direct calls. */
  lemma FallbackExhausted(prompt: string, b: Backend)
    requires !SdkResult(b.sdk(prompt)).Ok?
    requires forall j :: 0 <= j < |DIRECT_MODELS| ==> DirectAttempt(b, prompt)(DIRECT_MODELS[j]).Err?
    ensures Generated(prompt, b) == Err(EXHAUSTED_MESSAGE)
    ensures DirectCalls(prompt, b) == DIRECT_MODELS
  {
    AllFailuresTryAll(DIRECT_MODELS, DirectAttempt(b, prompt));
  }

  /** `testConnection()`: one direct call to the first model with a fixed
      prompt; a failure is rethrown behind a fixed prefix. */
  function TestConnection(b: Backend): (r: Result<string, string>)
    ensures r.Ok? <==> GenerateContentDirect(b.direct(TEST_MODEL, TEST_PROMPT)).Ok?
    ensures r.Ok? ==> !Blank(r.value) && r == GenerateContentDirect(b.direct(TEST_MODEL, TEST_PROMPT))
    ensures r.Err? ==>
              r.error == CONNECTION_FAILED_PREFIX + GenerateContentDirect(b.direct(TEST_MODEL, TEST_PROMPT)).error
  {
    match GenerateContentDirect(b.direct(TEST_MODEL, TEST_PROMPT))
    case Ok(text) => Ok(text)
    case Err(message) => Err(CONNECTION_FAILED_PREFIX + message)
  }

  // Prompt templates

  /** A fenced code block tagged with the language; `indent` starts the code
      line and the closing fence. */
  function Fence(language: string, code: string, indent: string): string
  {
    "```" + language + "\n" + indent + code + "\n" + indent + "```"
  }

  /** A fenced block includes the code it fences and its language tag. */
  lemma FenceContains(language: string, code: string, indent: string)
    ensures Contains(Fence(language, code, indent), code)
    ensures Contains(Fence(language, code, indent), language)
  {
    var f := Fence(language, code, indent);
    var at := 3 + |language| + 1 + |indent|;
    assert f[3..3 + |language|] == language;
    assert OccursAt(f, language, 3);
    assert f[at..at + |code|] == code;
    assert OccursAt(f, code, at);
  }

  /** Text that includes a fenced block includes its code and its language. */
  lemma FencedIn(p: string, language: string, code: string, indent: string)
    requires Contains(p, Fence(language, code, indent))
    ensures Contains(p, code) && Contains(p, language)
  {
    FenceContains(language, code, indent);
    ContainsTransitive(p, Fence(language, code, indent), code);
    ContainsTransitive(p, Fence(language, code, indent), language);
  }

  /** The prompt of `codeReview`. */
  function ReviewPrompt(code: string, language: string, difficulty: string): (p: string)
    ensures Contains(p, Fence(language, code, "")) && Contains(p, difficulty)
    ensures Contains(p, code) && Contains(p, language)
  {
    var head := REVIEW_INTRO + language + REVIEW_CRITERIA + difficulty;
    var fence := Fence(language, code, "");
    ContainsPiece(REVIEW_INTRO + language + REVIEW_CRITERIA, difficulty, "");
    ContainsExtend(head, difficulty, REVIEW_BEFORE_CODE);
    ContainsExtend(head + REVIEW_BEFORE_CODE, difficulty, fence);
    ContainsExtend(head + REVIEW_BEFORE_CODE + fence, difficulty, REVIEW_CLOSING);
    ContainsPiece(head + REVIEW_BEFORE_CODE, fence, REVIEW_CLOSING);
    var p := head + REVIEW_BEFORE_CODE + fence + REVIEW_CLOSING;
    FencedIn(p, language, code, "");
    p
  }

  const REVIEW_INTRO := "As a senior software engineer, please review the following "
  const REVIEW_CRITERIA :=
    " code and provide feedback on:\n\n"
    + "1. **Best Practices**: Adherence to coding standards and conventions\n"
    + "2. **Readability**: Code clarity and maintainability\n"
    + "3. **Performance**: Efficiency and optimization opportunities\n"
    + "4. **Security**: Potential vulnerabilities or security concerns\n"
    + "5. **Suggestions**: Specific improvements with examples\n\n"
    + "Adjust your explanation level for "
  const REVIEW_BEFORE_CODE := " developers.\n\nCode to review:\n"
  const REVIEW_CLOSING := "\n\nPlease format your response with clear sections and bullet points."

  /** The prompt of `explainCode`; its code block is indented like the template. */
  function ExplainPrompt(code: string, language: string, difficulty: string): (p: string)
    ensures Contains(p, Fence(language, code, "    ")) && Contains(p, difficulty)
    ensures Contains(p, code) && Contains(p, language)
  {
    var head := EXPLAIN_INTRO + language + EXPLAIN_LEVEL + difficulty;
    var fence := Fence(language, code, "    ");
    ContainsPiece(EXPLAIN_INTRO + language + EXPLAIN_LEVEL, difficulty, "");
    ContainsExtend(head, difficulty, EXPLAIN_BEFORE_CODE);
    ContainsExtend(head + EXPLAIN_BEFORE_CODE, difficulty, fence);
    ContainsExtend(head + EXPLAIN_BEFORE_CODE + fence, difficulty, EXPLAIN_CLOSING);
    ContainsPiece(head + EXPLAIN_BEFORE_CODE, fence, EXPLAIN_CLOSING);
    var p := head + EXPLAIN_BEFORE_CODE + fence + EXPLAIN_CLOSING;
    FencedIn(p, language, code, "    ");
    p
  }

  const EXPLAIN_INTRO := "\n    Please explain the following "
  const EXPLAIN_LEVEL := " code in plain English for a "
  const EXPLAIN_BEFORE_CODE :=
    " level developer:\n    \n"
    + "    1. **Purpose**: What this code is trying to achieve\n"
    + "    2. **Flow**: Step-by-step breakdown of the logic\n"
    + "    3. **Key Concepts**: Important programming concepts used\n"
    + "    4. **Output**: What the code produces or returns\n    \n"
    + "    Code to explain:\n    "
  const EXPLAIN_CLOSING := "\n    \n    Make it easy to understand with clear explanations.\n    "

  /** The prompt of `findBugs`, which takes no difficulty. */
  function BugsPrompt(code: string, language: string): (p: string)
    ensures Contains(p, Fence(language, code, ""))
    ensures Contains(p, code) && Contains(p, language)
  {
    var fence := Fence(language, code, "");
    ContainsPiece(BUGS_INTRO + language + BUGS_BEFORE_CODE, fence, BUGS_CLOSING);
    var p := BUGS_INTRO + language + BUGS_BEFORE_CODE + fence + BUGS_CLOSING;
    FencedIn(p, language, code, "");
    p
  }

  const BUGS_INTRO := "As a code quality expert, analyze the following "
  const BUGS_BEFORE_CODE :=
    " code and identify:\n\n"
    + "1. **Syntax Errors**: Any syntax mistakes\n"
    + "2. **Logic Flaws**: Potential logical errors or edge cases\n"
    + "3. **Runtime Errors**: Possible exceptions or crashes\n"
    + "4. **Code Smells**: Bad practices that could lead to issues\n"
    + "5. **Fixes**: Specific solutions for each issue found\n\n"
    + "Code to analyze:\n"
  const BUGS_CLOSING :=
    "\n\nIf no issues are found, mention that the code looks clean and suggest any minor improvements."

  /** The prompt of `lineByLineExplanation`. */
  function LineByLinePrompt(code: string, language: string, difficulty: string): (p: string)
    ensures Contains(p, Fence(language, code, "")) && Contains(p, difficulty)
    ensures Contains(p, code) && Contains(p, language)
  {
    var head := LINES_INTRO + language + LINES_LEVEL + difficulty;
    var fence := Fence(language, code, "");
    ContainsPiece(LINES_INTRO + language + LINES_LEVEL, difficulty, "");
    ContainsExtend(head, difficulty, LINES_BEFORE_CODE);
    ContainsExtend(head + LINES_BEFORE_CODE, difficulty, fence);
    ContainsExtend(head + LINES_BEFORE_CODE + fence, difficulty, LINES_CLOSING);
    ContainsPiece(head + LINES_BEFORE_CODE, fence, LINES_CLOSING);
    var p := head + LINES_BEFORE_CODE + fence + LINES_CLOSING;
    FencedIn(p, language, code, "");
    p
  }

  const LINES_INTRO := "Please provide a line-by-line explanation of the following "
  const LINES_LEVEL := " code for a "
  const LINES_BEFORE_CODE :=
    " level developer:\n\n"
    + "For each line (or logical block), explain:\n"
    + "- What it does\n"
    + "- Why it's needed\n"
    + "- How it contributes to the overall functionality\n\n"
    + "Code to analyze:\n"
  const LINES_CLOSING := "\n\nFormat as: Line X: [code] \U{2192} [explanation]"

  /** The prompt of `compareCode`, which takes two snippets and no difficulty. */
  function ComparePrompt(code1: string, code2: string, language: string): (p: string)
    ensures Contains(p, Fence(language, code1, "")) && Contains(p, Fence(language, code2, ""))
    ensures Contains(p, code1) && Contains(p, code2) && Contains(p, language)
  {
    var fence1 := Fence(language, code1, "");
    var fence2 := Fence(language, code2, "");
    var head := COMPARE_INTRO + language + COMPARE_BEFORE_FIRST;
    ContainsPiece(head, fence1, "");
    ContainsExtend(head + fence1, fence1, COMPARE_BETWEEN);
    ContainsExtend(head + fence1 + COMPARE_BETWEEN, fence1, fence2);
    ContainsExtend(head + fence1 + COMPARE_BETWEEN + fence2, fence1, COMPARE_CLOSING);
    ContainsPiece(head + fence1 + COMPARE_BETWEEN, fence2, COMPARE_CLOSING);
    var p := head + fence1 + COMPARE_BETWEEN + fence2 + COMPARE_CLOSING;
    FencedIn(p, language, code1, "");
    FencedIn(p, language, code2, "");
    p
  }

  const COMPARE_INTRO := "Compare these two "
  const COMPARE_BEFORE_FIRST :=
    " code snippets and analyze:\n\n"
    + "1. **Functionality**: Do they achieve the same goal?\n"
    + "2. **Performance**: Which is more efficient and why?\n"
    + "3. **Readability**: Which is clearer and more maintainable?\n"
    + "4. **Best Practices**: Which follows better coding standards?\n"
    + "5. **Recommendation**: Which approach is better overall and why?\n\n"
    + "Code Snippet 1:\n"
  const COMPARE_BETWEEN := "\n\nCode Snippet 2:\n"
  const COMPARE_CLOSING := "\n\nProvide a detailed comparison with specific examples."

  /** The prompt of `refactorCode`. */
  function RefactorPrompt(code: string, language: string, difficulty: string): (p: string)
    ensures Contains(p, Fence(language, code, "")) && Contains(p, difficulty)
    ensures Contains(p, code) && Contains(p, language)
  {
    var fence := Fence(language, code, "");
    var head := REFACTOR_INTRO + language + REFACTOR_FOCUS + language + REFACTOR_BEFORE_CODE;
    ContainsPiece(head, fence, REFACTOR_AFTER_CODE);
    ContainsExtend(head + fence + REFACTOR_AFTER_CODE, fence, difficulty);
    ContainsExtend(head + fence + REFACTOR_AFTER_CODE + difficulty, fence, REFACTOR_CLOSING);
    ContainsPiece(head + fence + REFACTOR_AFTER_CODE, difficulty, REFACTOR_CLOSING);
    var p := head + fence + REFACTOR_AFTER_CODE + difficulty + REFACTOR_CLOSING;
    FencedIn(p, language, code, "");
    p
  }

  const REFACTOR_INTRO := "Please refactor the following "
  const REFACTOR_FOCUS :=
    " code to make it cleaner, more readable, and more efficient:\n\n"
    + "Focus on:\n"
    + "1. **Clean Code Principles**: Better naming, structure, and organization\n"
    + "2. **Performance**: Optimize for better performance where possible\n"
    + "3. **Maintainability**: Make it easier to understand and modify\n"
    + "4. **Best Practices**: Apply modern "
  const REFACTOR_BEFORE_CODE := " conventions\n\nOriginal code:\n"
  const REFACTOR_AFTER_CODE :=
    "\n\nPlease provide:\n"
    + "1. The refactored code\n"
    + "2. Explanation of changes made\n"
    + "3. Benefits of the refactoring\n\n"
    + "Adjust complexity for "
  const REFACTOR_CLOSING := " level developers."

  // Turning failures into the messages the analyses throw

  /** An `API Error: ...` message is none of the three specific messages. */
  lemma ApiErrorIsDistinct(detail: string)
    ensures API_ERROR_PREFIX + detail != INVALID_KEY_MESSAGE
    ensures API_ERROR_PREFIX + detail != QUOTA_MESSAGE
    ensures API_ERROR_PREFIX + detail != NETWORK_MESSAGE
  {
    var m := API_ERROR_PREFIX + detail;
    assert m[0] == API_ERROR_PREFIX[0] == 'A';
    assert INVALID_KEY_MESSAGE[0] == 'I' && NETWORK_MESSAGE[0] == 'N';
    assert m[4] == API_ERROR_PREFIX[4] == 'E';
    assert QUOTA_MESSAGE[4] == 'q';
  }

  /** The message `codeReview` throws for an underlying error message: checked in
      order for an API key problem, then quota or limit, then network or fetch,
      else the message behind `API Error: `. */
  function ReviewErrorMessage(message: string): (r: string)
    ensures r == INVALID_KEY_MESSAGE <==> Contains(message, "API_KEY")
    ensures r == QUOTA_MESSAGE <==>
              !Contains(message, "API_KEY") && (Contains(message, "quota") || Contains(message, "limit"))
    ensures r == NETWORK_MESSAGE <==>
              && !Contains(message, "API_KEY") && !Contains(message, "quota") && !Contains(message, "limit")
              && (Contains(message, "network") || Contains(message, "fetch"))
    ensures !Contains(message, "API_KEY") && !Contains(message, "quota") && !Contains(message, "limit")
            && !Contains(message, "network") && !Contains(message, "fetch") ==>
              r == API_ERROR_PREFIX + (if message == "" then REVIEW_FALLBACK_DETAIL else message)
  {
    if Contains(message, "API_KEY") then INVALID_KEY_MESSAGE
    else if Contains(message, "quota") || Contains(message, "limit") then QUOTA_MESSAGE
    else if Contains(message, "network") || Contains(message, "fetch") then NETWORK_MESSAGE
    else
      var detail := if message == "" then REVIEW_FALLBACK_DETAIL else message;
      ApiErrorIsDistinct(detail);
      API_ERROR_PREFIX + detail
  }

  /** The exhaustion message mentions none of the words the review classification looks for. */
  lemma ExhaustedHasNoKeyword()
    ensures !Contains(EXHAUSTED_MESSAGE, "API_KEY") && !Contains(EXHAUSTED_MESSAGE, "quota")
    ensures !Contains(EXHAUSTED_MESSAGE, "limit") && !Contains(EXHAUSTED_MESSAGE, "network")
    ensures !Contains(EXHAUSTED_MESSAGE, "fetch")
  {
    var m := EXHAUSTED_MESSAGE;
    forall i: nat | i + 5 <= |m|
      ensures !OccursAt(m, "quota", i) && !OccursAt(m, "limit", i) && !OccursAt(m, "fetch", i)
    {
      assert m[i..i + 5][0] == m[i] && m[i..i + 5][1] == m[i + 1];
      assert m[i] != 'q';
      assert m[i] != 'l' || m[i + 1] != 'i';
      assert m[i] != 'f' || m[i + 1] != 'e';
    }
    forall i: nat | i + 7 <= |m| ensures !OccursAt(m, "API_KEY", i) && !OccursAt(m, "network", i) {
      assert m[i..i + 7][0] == m[i] && m[i..i + 7][1] == m[i + 1] && m[i..i + 7][3] == m[i + 3];
      assert m[i + 3] != '_';
      assert m[i] != 'n' || m[i + 1] != 'e';
    }
  }

  /** `codeReview(code, language, difficulty)`. Since `generateContent` only ever
      throws the exhaustion error, a failed review always ends in the
      `API Error: ` branch with that message. */
  function CodeReview(code: string, language: string, difficulty: string, b: Backend): (r: Result<string, string>)
    ensures r.Ok? <==> Generated(ReviewPrompt(code, language, difficulty), b).Ok?
    ensures r.Ok? ==> r == Generated(ReviewPrompt(code, language, difficulty), b) && !Blank(r.value)
    ensures r.Err? ==> r.error == API_ERROR_PREFIX + EXHAUSTED_MESSAGE
  {
    match Generated(ReviewPrompt(code, language, difficulty), b)
    case Ok(text) => Ok(text)
    case Err(message) =>
      ExhaustedHasNoKeyword();
      Err(ReviewErrorMessage(message))
  }

  /** The `catch` of the other five analyses: rethrow behind a fixed prefix. */
  function Rethrow(outcome: Result<string, string>, prefix: string): (r: Result<string, string>)
    ensures r.Ok? <==> outcome.Ok?
    ensures r.Ok? ==> r == outcome
    ensures r.Err? ==> r.error == prefix + outcome.error
  {
    match outcome
    case Ok(text) => Ok(text)
    case Err(message) => Err(prefix + message)
  }

  /** `explainCode(code, language, difficulty)`. */
  function ExplainCode(code: string, language: string, difficulty: string, b: Backend): (r: Result<string, string>)
    ensures r.Ok? <==> Generated(ExplainPrompt(code, language, difficulty), b).Ok?
    ensures r.Ok? ==> r == Generated(ExplainPrompt(code, language, difficulty), b) && !Blank(r.value)
    ensures r.Err? ==> r.error == EXPLAIN_FAILED_PREFIX + EXHAUSTED_MESSAGE
  {
    Rethrow(Generated(ExplainPrompt(code, language, difficulty), b), EXPLAIN_FAILED_PREFIX)
  }

  /** `findBugs(code, language)`. */
  function FindBugs(code: string, language: string, b: Backend): (r: Result<string, string>)
    ensures r.Ok? <==> Generated(BugsPrompt(code, language), b).Ok?
    ensures r.Ok? ==> r == Generated(BugsPrompt(code, language), b) && !Blank(r.value)
    ensures r.Err? ==> r.error == BUGS_FAILED_PREFIX + EXHAUSTED_MESSAGE
  {
    Rethrow(Generated(BugsPrompt(code, language), b), BUGS_FAILED_PREFIX)
  }

  /** `lineByLineExplanation(code, language, difficulty)`. */
  function LineByLineExplanation(code: string, language: string, difficulty: string, b: Backend): (r: Result<string, string>)
    ensures r.Ok? <==> Generated(LineByLinePrompt(code, language, difficulty), b).Ok?
    ensures r.Ok? ==> r == Generated(LineByLinePrompt(code, language, difficulty), b) && !Blank(r.value)
    ensures r.Err? ==> r.error == LINE_BY_LINE_FAILED_PREFIX + EXHAUSTED_MESSAGE
  {
    Rethrow(Generated(LineByLinePrompt(code, language, difficulty), b), LINE_BY_LINE_FAILED_PREFIX)
  }

  /** `compareCode(code1, code2, language)`. */
  function CompareCode(code1: string, code2: string, language: string, b: Backend): (r: Result<string, string>)
    ensures r.Ok? <==> Generated(ComparePrompt(code1, code2, language), b).Ok?
    ensures r.Ok? ==> r == Generated(ComparePrompt(code1, code2, language), b) && !Blank(r.value)
    ensures r.Err? ==> r.error == COMPARE_FAILED_PREFIX + EXHAUSTED_MESSAGE
  {
    Rethrow(Generated(ComparePrompt(code1, code2, language), b), COMPARE_FAILED_PREFIX)
  }

  /** `refactorCode(code, language, difficulty)`. */
  function RefactorCode(code: string, language: string, difficulty: string, b: Backend): (r: Result<string, string>)
    ensures r.Ok? <==> Generated(RefactorPrompt(code, language, difficulty), b).Ok?
    ensures r.Ok? ==> r == Generated(RefactorPrompt(code, language, difficulty), b) && !Blank(r.value)
    ensures r.Err? ==> r.error == REFACTOR_FAILED_PREFIX + EXHAUSTED_MESSAGE
  {
    Rethrow(Generated(RefactorPrompt(code, language, difficulty), b), REFACTOR_FAILED_PREFIX)
  }
}
