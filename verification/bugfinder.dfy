/** The `find_bug` request handler: validate the snippet, render the prompt,
    ask the language-model provider, and turn its reply into a response.

    The provider and `json.loads` are not modelled; they are parameters:
    `generate` is the provider's outcome for a given prompt (an exception
    message or a reply with candidates), and `decode` is the partial JSON
    decoder (`None` where `json.loads` raises a decode error). */
module BugFinder {
  import opened Wrappers
  import opened PyText
  import opened JsonValue

  /** The most lines a snippet may have, as counted by `splitlines()`. */
  const MaxLines: nat := 30

  const BadRequest := 400
  const ServerError := 500

  const EmptyCodeDetail := "Code snippet cannot be empty"
  const TooLongDetail := "Code snippet exceeds 30 lines"

  /** Prefix of the detail of every failure raised inside the `try` block. */
  const ProviderErrorPrefix := "Error from LLM: "

  /** The text used when the provider returns no candidate at all. */
  const NoCandidatesText := "{}"

  /** What `str()` of the `IndexError` raised by indexing an empty part list
      gives. Its wording belongs to the provider library's container type and
      is left open. */
  const MissingPartMessage: string

  /** The bug type of the fallback record for text that is not JSON. */
  const UnknownBugType := "Unknown"

  /** The bug types the prompt asks the provider to choose from. */
  const PromptBugTypes: seq<string> :=
    ["Logical Bug", "Runtime Error", "Syntax Error", "Edge-case", "Off-by-one", "None"]

  /** The request body: a free-form language label and the code to inspect. */
  datatype Snippet = Snippet(language: string, code: string)

  /** One provider candidate, reduced to the texts of its content parts. */
  datatype Candidate = Candidate(parts: seq<string>)

  /** What the provider call does: raise an exception, or reply with candidates. */
  datatype ProviderOutcome = Raises(message: string) | Reply(candidates: seq<Candidate>)

  /** What the endpoint answers: a JSON body, or an `HTTPException`. */
  datatype Response = Body(value: Json) | HttpError(status: int, detail: string)

  predicate StartsWith(s: string, prefix: string) {
    |prefix| <= |s| && s[..|prefix|] == prefix
  }

  // ------------------------------------------------------------ validation

  /** A snippet the validator lets through: not blank, and at most `MaxLines` lines. */
  predicate Admissible(code: string) {
    !IsBlank(code) && LineCount(code) <= MaxLines
  }

  /** The two checks before the `try` block, in order: blank code first, then
      the line limit. The first failing check gives the detail. */
  function Validate(code: string): (v: Outcome<string>)
    ensures v == Fail(EmptyCodeDetail) <==> IsBlank(code)
    ensures v == Fail(TooLongDetail) <==> !IsBlank(code) && LineCount(code) > MaxLines
    ensures v == Pass <==> Admissible(code)
    ensures v == Pass ==> 1 <= LineCount(code) <= MaxLines
  {
    assert EmptyCodeDetail != TooLongDetail by { assert EmptyCodeDetail[13] != TooLongDetail[13]; }
    if Strip(code) == [] then Fail(EmptyCodeDetail)
    else
      SplitLinesCount(code);
      if |SplitLines(code)| > MaxLines then Fail(TooLongDetail) else Pass
  }

  // ---------------------------------------------------------------- prompt

  const PromptOpening := "\n        You are a helpful AI bug finder.\n        Language: "
  const PromptCodeHeading := "\n        Code:\n        "
  /** The bug types as the prompt lists them: separated by commas, the last
      one after "or ". */
  function Enumerate(types: seq<string>): string
    requires types != []
  {
    if |types| == 1 then "or " + types[0] else types[0] + ", " + Enumerate(types[1..])
  }

  const PromptInstructions :=
    "\n\n        Identify:\n"
    + "        - Bug type (" + Enumerate(PromptBugTypes) + ")\n"
    + "        - Description of the bug\n"
    + "        - Suggestion to fix it\n"
    + "        Return strictly in JSON with keys: bug_type, description, suggestion.\n"
    + "        "

  /** Where the code starts in the prompt rendered for `language`. */
  function CodeOffset(language: string): nat {
    |PromptOpening| + |language| + |PromptCodeHeading|
  }

  /** The prompt sent to the provider: the fixed template with the language
      and the code placed in it verbatim, and nothing else varying. */
  function RenderPrompt(s: Snippet): (p: string)
    ensures |p| == CodeOffset(s.language) + |s.code| + |PromptInstructions|
    ensures p[|PromptOpening|..|PromptOpening| + |s.language|] == s.language
    ensures p[CodeOffset(s.language)..CodeOffset(s.language) + |s.code|] == s.code
    ensures StartsWith(p, PromptOpening)
    ensures p[|PromptOpening| + |s.language|..CodeOffset(s.language)] == PromptCodeHeading
    ensures p[CodeOffset(s.language) + |s.code|..] == PromptInstructions
  {
    var p := PromptOpening + s.language + PromptCodeHeading + s.code + PromptInstructions;
    assert p[|PromptOpening| + |s.language|..CodeOffset(s.language)] == PromptCodeHeading;
    assert p[|PromptOpening|..|PromptOpening| + |s.language|] == s.language;
    assert p[CodeOffset(s.language)..CodeOffset(s.language) + |s.code|] == s.code;
    p
  }

  /** For a fixed language, the prompt determines the code. */
  lemma PromptDeterminesCode(language: string, code1: string, code2: string)
    requires RenderPrompt(Snippet(language, code1)) == RenderPrompt(Snippet(language, code2))
    ensures code1 == code2
  {
    var p := RenderPrompt(Snippet(language, code1));
    assert code1 == p[CodeOffset(language)..CodeOffset(language) + |code1|];
  }

  /** For a fixed code, the prompt determines the language. */
  lemma PromptDeterminesLanguage(language1: string, language2: string, code: string)
    requires RenderPrompt(Snippet(language1, code)) == RenderPrompt(Snippet(language2, code))
    ensures language1 == language2
  {
    var p := RenderPrompt(Snippet(language1, code));
    assert language1 == p[|PromptOpening|..|PromptOpening| + |language1|];
  }

  // ---------------------------------------------------------------- reply

  /** The text of the reply: the first part of the first candidate, or `"{}"`
      when there are no candidates. Indexing the parts of a first candidate
      that has none raises `IndexError`. */
  function ReplyText(candidates: seq<Candidate>): (t: Result<string, string>)
    ensures t.Failure? <==> candidates != [] && candidates[0].parts == []
    ensures t.Failure? ==> t.error == MissingPartMessage
    ensures t.Success? ==> if candidates == [] then t.value == NoCandidatesText
                           else t.value == candidates[0].parts[0]
  {
    if candidates == [] then Success(NoCandidatesText)
    else if candidates[0].parts == [] then Failure(MissingPartMessage)
    else Success(candidates[0].parts[0])
  }

  /** The record returned for reply text that is not JSON. */
  function UnknownReport(text: string): (report: BugReport)
    ensures report.bugType == UnknownBugType && report.bugType !in PromptBugTypes
    ensures report.description == text && report.suggestion.None?
  {
    BugReport(UnknownBugType, text, None)
  }

  /** `json.loads(text)`, or the `Unknown` record carrying the raw text when
      decoding fails. A decode failure is never an error. */
  function Normalize(text: string, decode: string -> Option<Json>): (j: Json)
    ensures decode(text).Some? ==> j == decode(text).value
    ensures decode(text).None? ==> j == ToJson(UnknownReport(text))
    ensures decode(text).None? ==> FromJson(j) == Some(BugReport(UnknownBugType, text, None))
  {
    match decode(text)
    case Some(value) => value
    case None =>
      FromToJson(UnknownReport(text));
      ToJson(UnknownReport(text))
  }

  /** What the `try` block answers once the provider has been asked: any
      exception, from the provider or from reading its reply, becomes a 500
      whose detail is the prefix followed by the exception's message. */
  function Answer(outcome: ProviderOutcome, decode: string -> Option<Json>): (r: Response)
    ensures r.HttpError? ==> r.status == ServerError && StartsWith(r.detail, ProviderErrorPrefix)
    ensures outcome.Raises? ==> r == HttpError(ServerError, ProviderErrorPrefix + outcome.message)
  {
    match outcome
    case Raises(message) =>
      assert StartsWith(ProviderErrorPrefix + message, ProviderErrorPrefix);
      HttpError(ServerError, ProviderErrorPrefix + message)
    case Reply(candidates) =>
      match ReplyText(candidates)
      case Failure(message) =>
        assert StartsWith(ProviderErrorPrefix + message, ProviderErrorPrefix);
        HttpError(ServerError, ProviderErrorPrefix + message)
      case Success(text) => Body(Normalize(text, decode))
  }

  // --------------------------------------------------------------- handler

  /** `find_bug`: validation failures are 400s raised before the provider is
      asked; everything after validation is `Answer` applied to what the
      provider does with the rendered prompt. */
  function FindBug(s: Snippet, generate: string -> ProviderOutcome, decode: string -> Option<Json>): (r: Response)
    ensures r.HttpError? ==> r.status == BadRequest || r.status == ServerError
    ensures (r.HttpError? && r.status == BadRequest) <==> !Admissible(s.code)
    ensures r.HttpError? && r.status == BadRequest ==>
              r.detail == if IsBlank(s.code) then EmptyCodeDetail else TooLongDetail
    ensures r.HttpError? && r.status == ServerError ==> StartsWith(r.detail, ProviderErrorPrefix)
  {
    match Validate(s.code)
    case Fail(detail) => HttpError(BadRequest, detail)
    case Pass => Answer(generate(RenderPrompt(s)), decode)
  }

  // -------------------------------------------------- validation properties

  /** Blank code, the empty text included, is refused as empty. */
  lemma BlankCodeRejected(s: Snippet, generate: string -> ProviderOutcome, decode: string -> Option<Json>)
    requires IsBlank(s.code)
    ensures FindBug(s, generate, decode) == HttpError(BadRequest, EmptyCodeDetail)
  {
  }

  /** Code with some non-space character and more than `MaxLines` lines is refused as too long. */
  lemma LongCodeRejected(s: Snippet, generate: string -> ProviderOutcome, decode: string -> Option<Json>)
    requires !IsBlank(s.code) && LineCount(s.code) > MaxLines
    ensures FindBug(s, generate, decode) == HttpError(BadRequest, TooLongDetail)
  {
  }

  /** A refused snippet's response does not depend on the provider or the
      decoder: neither is used before validation passes. */
  lemma RejectionSkipsProvider(s: Snippet,
                               generate1: string -> ProviderOutcome, decode1: string -> Option<Json>,
                               generate2: string -> ProviderOutcome, decode2: string -> Option<Json>)
    requires !Admissible(s.code)
    ensures FindBug(s, generate1, decode1) == FindBug(s, generate2, decode2)
  {
  }

  /** Exactly `MaxLines` lines pass, with or without a trailing line feed,
      since `splitlines()` drops a final terminator. */
  lemma MaxLinesAccepted(lines: seq<string>)
    requires |lines| == MaxLines && lines[|lines| - 1] != []
    requires forall k :: 0 <= k < |lines| ==> NoBreaks(lines[k])
    requires !IsBlank(Joined(lines))
    ensures LineCount(Joined(lines)) == LineCount(Joined(lines) + "\n") == MaxLines
    ensures Validate(Joined(lines)) == Pass
    ensures Validate(Joined(lines) + "\n") == Pass
  {
    TrailingNewlineAddsNoLine(lines);
    SplitLinesCount(Joined(lines));
    SplitLinesCount(Joined(lines) + "\n");
    NonBlankPrefix(Joined(lines), "\n");
  }

  /** One line more than `MaxLines` is refused as too long. */
  lemma OneLineTooManyRejected(lines: seq<string>)
    requires |lines| == MaxLines + 1 && lines[|lines| - 1] != []
    requires forall k :: 0 <= k < |lines| ==> NoBreaks(lines[k])
    requires !IsBlank(Joined(lines))
    ensures LineCount(Joined(lines)) == MaxLines + 1
    ensures Validate(Joined(lines)) == Fail(TooLongDetail)
  {
    SplitJoined(lines);
    SplitLinesCount(Joined(lines));
  }

  /** The empty check wins: blank lines beyond the limit are refused as
      empty, never as too long. */
  lemma BlankBeatsLineLimit(lines: seq<string>, language: string,
                            generate: string -> ProviderOutcome, decode: string -> Option<Json>)
    requires |lines| > MaxLines
    requires forall k :: 0 <= k < |lines| ==> NoBreaks(lines[k]) && IsBlank(lines[k])
    ensures LineCount(Terminated(lines)) > MaxLines
    ensures FindBug(Snippet(language, Terminated(lines)), generate, decode)
            == HttpError(BadRequest, EmptyCodeDetail)
  {
    SplitTerminated(lines);
    SplitLinesCount(Terminated(lines));
    BlankLinesAreBlank(lines);
  }

  // ---------------------------------------------------- provider properties

  /** The provider sees only the rendered prompt: providers that agree on it
      give the same response. */
  lemma ProviderSeesOnlyPrompt(s: Snippet, generate1: string -> ProviderOutcome,
                               generate2: string -> ProviderOutcome, decode: string -> Option<Json>)
    requires generate1(RenderPrompt(s)) == generate2(RenderPrompt(s))
    ensures FindBug(s, generate1, decode) == FindBug(s, generate2, decode)
  {
  }

  /** No candidates: the text `"{}"` is decoded, so the answer is the empty
      object and not the `Unknown` record. */
  lemma NoCandidatesGivesEmptyObject(s: Snippet, generate: string -> ProviderOutcome, decode: string -> Option<Json>)
    requires Admissible(s.code) && generate(RenderPrompt(s)) == Reply([])
    requires decode(NoCandidatesText) == Some(EmptyObject)
    ensures FindBug(s, generate, decode) == Body(EmptyObject)
    ensures FindBug(s, generate, decode) != Body(ToJson(UnknownReport(NoCandidatesText)))
  {
  }

  /** Reply text that decodes is answered with the decoded value, unchanged. */
  lemma DecodedReplyReturned(s: Snippet, generate: string -> ProviderOutcome, decode: string -> Option<Json>,
                             first: Candidate, others: seq<Candidate>)
    requires Admissible(s.code) && generate(RenderPrompt(s)) == Reply([first] + others)
    requires first.parts != [] && decode(first.parts[0]).Some?
    ensures FindBug(s, generate, decode) == Body(decode(first.parts[0]).value)
  {
    var candidates := [first] + others;
    assert candidates[0] == first;
    assert ReplyText(candidates) == Success(first.parts[0]);
    assert Validate(s.code) == Pass;
  }

  /** Reply text that does not decode is answered with the `Unknown` record
      holding the text verbatim and no suggestion; it is never a 500. */
  lemma UndecodableReplyFallsBack(s: Snippet, generate: string -> ProviderOutcome, decode: string -> Option<Json>,
                                  first: Candidate, others: seq<Candidate>)
    requires Admissible(s.code) && generate(RenderPrompt(s)) == Reply([first] + others)
    requires first.parts != [] && decode(first.parts[0]).None?
    ensures FindBug(s, generate, decode) == Body(ToJson(BugReport(UnknownBugType, first.parts[0], None)))
  {
    var candidates := [first] + others;
    assert candidates[0] == first;
    assert ReplyText(candidates) == Success(first.parts[0]);
    assert Validate(s.code) == Pass;
  }

  /** A provider exception becomes a 500 carrying its message verbatim after the prefix. */
  lemma ProviderExceptionMapped(s: Snippet, generate: string -> ProviderOutcome, decode: string -> Option<Json>)
    requires Admissible(s.code) && generate(RenderPrompt(s)).Raises?
    ensures FindBug(s, generate, decode)
            == HttpError(ServerError, ProviderErrorPrefix + generate(RenderPrompt(s)).message)
  {
  }

  /** A first candidate without parts makes the extraction raise `IndexError`,
      which the same handler turns into a 500. */
  lemma MissingPartIsServerError(s: Snippet, generate: string -> ProviderOutcome, decode: string -> Option<Json>,
                                 others: seq<Candidate>)
    requires Admissible(s.code) && generate(RenderPrompt(s)) == Reply([Candidate([])] + others)
    ensures FindBug(s, generate, decode) == HttpError(ServerError, ProviderErrorPrefix + MissingPartMessage)
  {
    var candidates := [Candidate([])] + others;
    assert candidates[0].parts == [];
    assert ReplyText(candidates) == Failure(MissingPartMessage);
    assert Validate(s.code) == Pass;
  }

  /** The response is a 500 exactly when the snippet passed validation and the
      provider raised or its first candidate had no parts. */
  lemma ServerErrorExactly(s: Snippet, generate: string -> ProviderOutcome, decode: string -> Option<Json>)
    ensures var r := FindBug(s, generate, decode);
      (r.HttpError? && r.status == ServerError) <==>
        && Admissible(s.code)
        && match generate(RenderPrompt(s))
           case Raises(_) => true
           case Reply(candidates) => candidates != [] && candidates[0].parts == []
  {
  }

  /** Validation failures never carry the provider-error prefix, so a caller
      can tell the two kinds of failure apart by the detail alone. */
  lemma ValidationDetailsUnprefixed(s: Snippet, generate: string -> ProviderOutcome, decode: string -> Option<Json>)
    ensures var r := FindBug(s, generate, decode);
      r.HttpError? && r.status == BadRequest ==> !StartsWith(r.detail, ProviderErrorPrefix)
  {
    assert EmptyCodeDetail[0] != ProviderErrorPrefix[0];
    assert TooLongDetail[0] != ProviderErrorPrefix[0];
  }

  /** `t` occurs in `p` starting at index `k`. */
  predicate OccursAt(t: string, p: string, k: int) {
    0 <= k && k + |t| <= |p| && p[k..k + |t|] == t
  }

  /** `t` occurs somewhere in `p`. */
  ghost predicate Occurs(t: string, p: string) {
    exists k :: OccursAt(t, p, k)
  }

  /** An occurrence in a part of a text is an occurrence in the whole. */
  lemma OccursIn(t: string, before: string, p: string, after: string)
    requires Occurs(t, p)
    ensures Occurs(t, before + p + after)
  {
    var k :| OccursAt(t, p, k);
    var whole := before + p + after;
    assert whole[|before| + k..|before| + k + |t|] == p[k..k + |t|];
    assert OccursAt(t, whole, |before| + k);
  }

  /** Every listed bug type occurs in the enumeration. */
  lemma {:induction false} EnumerateLists(types: seq<string>, i: nat)
    requires types != [] && i < |types|
    ensures Occurs(types[i], Enumerate(types))
    decreases |types|
  {
    if |types| == 1 {
      assert OccursAt(types[0], "or " + types[0], 3);
    } else if i == 0 {
      assert OccursAt(types[0], types[0] + ", " + Enumerate(types[1..]), 0);
    } else {
      EnumerateLists(types[1..], i - 1);
      OccursIn(types[i], types[0] + ", ", Enumerate(types[1..]), "");
      assert types[0] + ", " + Enumerate(types[1..]) + "" == Enumerate(types);
    }
  }

  /** The instructions list every bug type of the vocabulary. */
  lemma InstructionsOfferVocabulary(i: nat)
    requires i < |PromptBugTypes|
    ensures Occurs(PromptBugTypes[i], PromptInstructions)
  {
    var head := "\n\n        Identify:\n" + "        - Bug type (";
    var rest := ")\n"
      + "        - Description of the bug\n"
      + "        - Suggestion to fix it\n"
      + "        Return strictly in JSON with keys: bug_type, description, suggestion.\n"
      + "        ";
    assert head + Enumerate(PromptBugTypes) + rest == PromptInstructions;
    EnumerateLists(PromptBugTypes, i);
    OccursIn(PromptBugTypes[i], head, Enumerate(PromptBugTypes), rest);
  }

  /** The prompt offers every bug type of the vocabulary, and the fallback
      type `Unknown` is not among them. */
  lemma PromptOffersVocabulary(s: Snippet, i: nat)
    requires i < |PromptBugTypes|
    ensures Occurs(PromptBugTypes[i], RenderPrompt(s))
    ensures UnknownBugType !in PromptBugTypes
  {
    InstructionsOfferVocabulary(i);
    var p := RenderPrompt(s);
    var n := CodeOffset(s.language) + |s.code|;
    assert p[..n] + PromptInstructions + "" == p;
    OccursIn(PromptBugTypes[i], p[..n], PromptInstructions, "");
  }

  /** A decoded answer whose bug type is one the prompt offers is never a
      fallback record. (A provider that itself answers with an `Unknown`
      record cannot be told apart from a degraded answer.) */
  lemma VocabularyAnswerIsNotFallback(s: Snippet, generate: string -> ProviderOutcome, decode: string -> Option<Json>,
                                      first: Candidate, others: seq<Candidate>, text: string)
    requires Admissible(s.code) && generate(RenderPrompt(s)) == Reply([first] + others)
    requires first.parts != [] && decode(first.parts[0]).Some?
    requires FromJson(decode(first.parts[0]).value).Some?
    requires FromJson(decode(first.parts[0]).value).value.bugType in PromptBugTypes
    ensures FindBug(s, generate, decode) != Body(ToJson(UnknownReport(text)))
  {
    DecodedReplyReturned(s, generate, decode, first, others);
    FromToJson(UnknownReport(text));
  }

  // ---------------------------------------------------------- sample cases

  /** The fixed answer of the sample-cases endpoint: three reports, each with a
      bug type from the prompt's vocabulary and a suggestion. */
  function SampleCases(): (cases: seq<BugReport>)
    ensures |cases| == 3
    ensures forall i :: 0 <= i < |cases| ==> cases[i].bugType in PromptBugTypes && cases[i].suggestion.Some?
  {
    [ BugReport("Logical Bug",
                "The function returns True for odd numbers instead of even.",
                Some("Use `n % 2 == 0`")),
      BugReport("Edge-case",
                "The loop skips the first element at index 0.",
                Some("Use `range(len(arr))` instead of `range(1, len(arr))`")),
      BugReport("Syntax Error",
                "Assignment uses `=` instead of `==` in the if statement.",
                Some("Use `if x == 5:`")) ]
  }
}
