/** The follow-up chat route (app/api/chat/route.ts): a three-stage pipeline
    of model calls. A small model triages the question as ANALYSIS or SAFETY;
    a SAFETY verdict ends the request with a canned refusal. Otherwise an
    analyst model answers from the ingredient context and the conversation,
    and a third model screens that answer for medical advice, replacing it
    with a second canned refusal when it says YES. The provider is a
    parameter, and the route is a function of its inputs that also returns
    the log of the calls it made. */
module ChatRoute {
  import opened Domain
  import opened Strings
  import opened Llm
  import opened Prompts

  const TriageTokens: nat := 5
  const AnalystTokens: nat := 150
  const ScreenTokens: nat := 2

  /** The intent assumed when the triage model returns nothing usable. */
  const DefaultIntent := "ANALYSIS"
  const SafetyKeyword := "SAFETY"
  const ScreenYes := "YES"

  const IntentRefusal := "As an AI ingredient analyst, I can't provide medical advice or personal usage instructions. For that kind of recommendation, it's always best to consult with a qualified professional like a dermatologist or doctor."
  const ScreenRefusal := "For safety and personalized advice, please consult with a qualified professional."
  const AnswerFallback := "Sorry, I couldn't generate an answer."

  /** The JSON body: each field may be missing. */
  datatype ChatRequest = ChatRequest(
    question: Option<string>,
    context: Option<seq<Ingredient>>,
    chatHistory: Option<seq<Message>>)

  datatype Response = Answer(answer: string) | Failure(status: nat, error: string)

  const MissingFields := Failure(400, "Question and context are required.")
  const Failed := Failure(500, "Failed to get a response.")

  datatype Outcome = Outcome(response: Response, calls: seq<CompletionRequest>)

  /** The guard `!question || !context` lets the request through: the question
      is a non-empty string and a context array is present. An empty array is
      truthy, so an empty context is accepted here. */
  predicate HasRequiredFields(req: ChatRequest) {
    req.question.Some? && req.question.value != "" && req.context.Some?
  }

  function TriageCall(req: ChatRequest): CompletionRequest
    requires HasRequiredFields(req)
  {
    CompletionRequest(TriageModel, Triage(SerializeHistory(req.chatHistory), req.question.value), TriageTokens)
  }

  function AnalystCall(req: ChatRequest): CompletionRequest
    requires HasRequiredFields(req)
  {
    CompletionRequest(
      ScoutModel,
      Analyst(SerializeContext(req.context.value), SerializeHistory(req.chatHistory), req.question.value),
      AnalystTokens)
  }

  function ScreenCall(answer: string): CompletionRequest {
    CompletionRequest(ScreenModel, SafetyCheck(answer), ScreenTokens)
  }

  // ------------------------------------------------------------- triage

  /** `content?.trim().toUpperCase() || 'ANALYSIS'`. */
  function Intent(content: Option<string>): (intent: string)
    ensures intent != ""
    ensures content.None? ==> intent == DefaultIntent
    ensures content.Some? && AllSpace(content.value) ==> intent == DefaultIntent
    ensures content.Some? && !AllSpace(content.value) ==> intent == Upper(Trim(content.value))
  {
    if content.None? then DefaultIntent
    else
      TrimEmpty(content.value);
      var u := Upper(Trim(content.value));
      if u == "" then DefaultIntent else u
  }

  /** The short-circuit test `intentCategory.includes('SAFETY')`. */
  predicate AsksForSafety(content: Option<string>)
    ensures AsksForSafety(content) ==> content.Some? && !AllSpace(content.value)
  {
    MissingCharNotContained(DefaultIntent, SafetyKeyword, 'F');
    Contains(Intent(content), SafetyKeyword)
  }

  /** The triage fails open: an absent or blank verdict never triggers the
      refusal, and otherwise the refusal fires exactly when the upper-cased,
      trimmed verdict contains SAFETY anywhere. */
  lemma SafetyVerdict(content: Option<string>)
    ensures AsksForSafety(content) <==>
      content.Some? && Contains(Upper(Trim(content.value)), SafetyKeyword)
  {
    MissingCharNotContained(DefaultIntent, SafetyKeyword, 'F');
    if content.Some? {
      TrimEmpty(content.value);
      if AllSpace(content.value) {
        MissingCharNotContained(Upper(Trim(content.value)), SafetyKeyword, 'F');
      }
    }
  }

  /** A verdict padded with white space is judged by its trimmed core. */
  lemma IntentOfPadded(p: string, w: string, q: string)
    requires AllSpace(p) && AllSpace(q) && Trimmed(w) && w != ""
    ensures Intent(Some(p + w + q)) == Upper(w)
  {
    TrimOf(p, w, q);
    assert !IsSpace((p + w + q)[|p|]);
  }

  lemma IntentOfTrimmed(w: string)
    requires Trimmed(w) && w != ""
    ensures Intent(Some(w)) == Upper(w)
  {
    TrimmedFixed(w);
    assert !IsSpace(w[0]);
  }

  /** The test ignores case and surrounding text. */
  lemma SafetyVerdictExact()
    ensures AsksForSafety(Some("SAFETY"))
  {
    IntentOfTrimmed("SAFETY");
    UpperFixed("SAFETY");
    ContainsItself(SafetyKeyword);
  }

  lemma SafetyVerdictPadded()
    ensures AsksForSafety(Some(" safety\n"))
  {
    IntentOfPadded(" ", "safety", "\n");
    assert " " + "safety" + "\n" == " safety\n";
    UpperSafety();
    ContainsItself(SafetyKeyword);
  }

  lemma UpperSafety()
    ensures Upper("safety") == SafetyKeyword
  {
  }

  lemma SafetyVerdictInside()
    ensures AsksForSafety(Some("UNSAFETY"))
  {
    IntentOfTrimmed("UNSAFETY");
    UpperFixed("UNSAFETY");
    assert WindowAt("UNSAFETY", SafetyKeyword, 2);
    ContainsWindow("UNSAFETY", SafetyKeyword, 2);
  }

  /** A verdict without SAFETY, and a blank or absent one, counts as
      ANALYSIS. */
  lemma SafetyVerdictAnalysis()
    ensures !AsksForSafety(Some(DefaultIntent))
  {
    IntentOfTrimmed(DefaultIntent);
    UpperFixed(DefaultIntent);
    MissingCharNotContained(DefaultIntent, SafetyKeyword, 'F');
  }

  lemma SafetyVerdictBlank()
    ensures !AsksForSafety(Some(" "))
    ensures !AsksForSafety(None)
  {
    SafetyVerdict(Some(" "));
    SafetyVerdict(None);
  }

  // ------------------------------------------------------------- screen

  /** `safetyCheckResult === 'YES'`, where the result is the trimmed,
      upper-cased content; an absent content is `undefined` and never YES. */
  predicate ScreenFlags(content: Option<string>)
    ensures ScreenFlags(content) ==> content.Some? && |content.value| >= |ScreenYes| && !AllSpace(content.value)
  {
    if content.None? then false
    else
      TrimEmpty(content.value);
      Upper(Trim(content.value)) == ScreenYes
  }

  /** A word that reads YES in any mix of cases. */
  predicate YesWord(w: string) {
    |w| == 3 && UpperChar(w[0]) == 'Y' && UpperChar(w[1]) == 'E' && UpperChar(w[2]) == 'S'
  }

  lemma FlaggedIsYesWord(s: string)
    requires ScreenFlags(Some(s))
    ensures exists p, w, q :: AllSpace(p) && AllSpace(q) && YesWord(w) && s == p + w + q
  {
    TrimSplit(s);
    var w := Trim(s);
    assert |Upper(w)| == |w|;
    assert Upper(w)[0] == 'Y' && Upper(w)[1] == 'E' && Upper(w)[2] == 'S';
    assert YesWord(w);
  }

  lemma UpperOfYesWord(w: string)
    requires YesWord(w)
    ensures Upper(w) == ScreenYes
  {
    var u := Upper(w);
    assert u[0] == 'Y' && u[1] == 'E' && u[2] == 'S';
    assert u == [u[0], u[1], u[2]];
  }

  lemma YesWordIsFlagged(p: string, w: string, q: string)
    requires AllSpace(p) && AllSpace(q) && YesWord(w)
    ensures ScreenFlags(Some(p + w + q))
  {
    assert !IsSpace(w[0]) && !IsSpace(w[2]);
    TrimOf(p, w, q);
    UpperOfYesWord(w);
  }

  /** The screen flags an answer exactly when its verdict is the single word
      yes, in any case, with nothing but white space around it. */
  lemma ScreenVerdict(content: Option<string>)
    ensures ScreenFlags(content) <==>
      content.Some? &&
      exists p, w, q :: AllSpace(p) && AllSpace(q) && YesWord(w) && content.value == p + w + q
  {
    if content.Some? {
      var s := content.value;
      if ScreenFlags(content) {
        FlaggedIsYesWord(s);
      }
      if exists p, w, q :: AllSpace(p) && AllSpace(q) && YesWord(w) && s == p + w + q {
        var p, w, q :| AllSpace(p) && AllSpace(q) && YesWord(w) && s == p + w + q;
        YesWordIsFlagged(p, w, q);
      }
    }
  }

  lemma ScreenVerdictPositive()
    ensures ScreenFlags(Some("YES"))
    ensures ScreenFlags(Some(" yes\n"))
  {
    TrimmedFixed("YES");
    UpperFixed("YES");
    YesWordIsFlagged(" ", "yes", "\n");
    assert " " + "yes" + "\n" == " yes\n";
  }

  /** Only the bare word counts: punctuation, another word, an empty or an
      absent verdict all let the answer through. */
  lemma ScreenVerdictNegative()
    ensures !ScreenFlags(Some("YES."))
    ensures !ScreenFlags(Some("NO"))
    ensures !ScreenFlags(Some(""))
    ensures !ScreenFlags(None)
  {
    TrimmedFixed("YES.");
    TrimmedFixed("NO");
    TrimmedFixed("");
  }

  // ------------------------------------------------------------ the route

  /** The analyst and screen stages, reached once the triage has let the
      question through: the analyst answers, and the screen either clears
      that answer or replaces it with the second refusal. */
  function Answering(req: ChatRequest, llm: Provider): (o: Outcome)
    requires HasRequiredFields(req)
    ensures 1 <= |o.calls| <= 2 && o.calls[0] == AnalystCall(req)
    ensures |o.calls| == 2 <==> llm(o.calls[0]).Returned?
    ensures |o.calls| == 2 ==> o.calls[1] == ScreenCall(TrimmedOr(llm(o.calls[0]).content, AnswerFallback))
    ensures llm(o.calls[|o.calls| - 1]).Thrown? <==> o.response == Failed
    ensures o.response != Failed ==>
      o.response == Answer(if ScreenFlags(llm(o.calls[1]).content) then ScreenRefusal
                           else TrimmedOr(llm(o.calls[0]).content, AnswerFallback))
  {
    var analyst := AnalystCall(req);
    var draft := llm(analyst);
    if draft.Thrown? then Outcome(Failed, [analyst])
    else
      var answer := TrimmedOr(draft.content, AnswerFallback);
      var screen := ScreenCall(answer);
      var check := llm(screen);
      if check.Thrown? then Outcome(Failed, [analyst, screen])
      else if ScreenFlags(check.content) then Outcome(Answer(ScreenRefusal), [analyst, screen])
      else Outcome(Answer(answer), [analyst, screen])
  }

  /** The three-stage pipeline for a request that passed validation: the
      triage call always comes first; a SAFETY verdict ends the request with
      the first refusal, and any other verdict hands over to the analyst. */
  function Pipeline(req: ChatRequest, llm: Provider): (o: Outcome)
    requires HasRequiredFields(req)
    ensures 1 <= |o.calls| <= 3 && o.calls[0] == TriageCall(req)
    ensures |o.calls| > 1 <==> llm(o.calls[0]).Returned? && !AsksForSafety(llm(o.calls[0]).content)
    ensures |o.calls| == 1 ==>
      o.response == (if llm(o.calls[0]).Thrown? then Failed else Answer(IntentRefusal))
    ensures |o.calls| > 1 ==> o == Outcome(Answering(req, llm).response, [o.calls[0]] + Answering(req, llm).calls)
  {
    var triage := TriageCall(req);
    var verdict := llm(triage);
    if verdict.Thrown? then Outcome(Failed, [triage])
    else if AsksForSafety(verdict.content) then Outcome(Answer(IntentRefusal), [triage])
    else
      var rest := Answering(req, llm);
      Outcome(rest.response, [triage] + rest.calls)
  }

  /** The route: `configured` says whether the provider client could be
      constructed (its API key is set), `body` is the parsed JSON body (`None`
      when parsing throws), and `llm` answers each call. A missing key and a
      malformed body both end in the 500 error, a missing field in the 400
      error, and neither reaches a model. */
  function Handle(configured: bool, body: Option<ChatRequest>, llm: Provider): (o: Outcome)
    ensures !configured || body.None? ==> o == Outcome(Failed, [])
    ensures configured && body.Some? && !HasRequiredFields(body.value) ==> o == Outcome(MissingFields, [])
    ensures configured && body.Some? && HasRequiredFields(body.value) ==> o == Pipeline(body.value, llm)
  {
    if !configured || body.None? then Outcome(Failed, [])
    else if !HasRequiredFields(body.value) then Outcome(MissingFields, [])
    else Pipeline(body.value, llm)
  }

  /** The calls go to the triage, analyst and screen models in that order,
      with their token limits, and there are at most three of them; none is
      made unless the request passed validation. */
  lemma CallOrder(configured: bool, body: Option<ChatRequest>, llm: Provider)
    ensures var o := Handle(configured, body, llm);
      |o.calls| <= 3 &&
      (|o.calls| > 0 <==> configured && body.Some? && HasRequiredFields(body.value)) &&
      (|o.calls| > 0 ==> o.calls[0].model == TriageModel && o.calls[0].maxTokens == TriageTokens) &&
      (|o.calls| > 1 ==> o.calls[1].model == ScoutModel && o.calls[1].maxTokens == AnalystTokens) &&
      (|o.calls| > 2 ==> o.calls[2].model == ScreenModel && o.calls[2].maxTokens == ScreenTokens)
  {
  }

  /** An answer comes back only when no call threw, and a thrown call makes
      the route answer with the 500 error whichever stage it was. */
  lemma FailuresAreTotal(configured: bool, body: Option<ChatRequest>, llm: Provider)
    ensures var o := Handle(configured, body, llm);
      (o.response.Answer? ==> forall i :: 0 <= i < |o.calls| ==> llm(o.calls[i]).Returned?) &&
      (|o.calls| > 0 && llm(o.calls[|o.calls| - 1]).Thrown? ==> o.response == Failed)
  {
  }

  /** The structural safety net: any answer other than the two canned refusals
      is the analyst's answer, and it has been shown to the screen, which did
      not flag it. */
  lemma GeneratedAnswersAreScreened(configured: bool, body: Option<ChatRequest>, llm: Provider)
    ensures var o := Handle(configured, body, llm);
      o.response.Answer? && o.response.answer != IntentRefusal && o.response.answer != ScreenRefusal ==>
        |o.calls| == 3 && o.calls[2] == ScreenCall(o.response.answer) &&
        !ScreenFlags(llm(o.calls[2]).content) &&
        o.response.answer == TrimmedOr(llm(o.calls[1]).content, AnswerFallback)
  {
  }

  /** A SAFETY verdict answers with the first refusal after the single triage
      call: the analyst and the screen are never invoked. */
  lemma SafetyShortCircuit(req: ChatRequest, llm: Provider)
    requires HasRequiredFields(req)
    requires llm(TriageCall(req)).Returned? && AsksForSafety(llm(TriageCall(req)).content)
    ensures Handle(true, Some(req), llm) == Outcome(Answer(IntentRefusal), [TriageCall(req)])
    ensures forall c :: c in Handle(true, Some(req), llm).calls ==> c.model == TriageModel
  {
  }

  /** The plain verdict SAFETY is one such verdict. */
  lemma SafetyReplyShortCircuits(req: ChatRequest, llm: Provider)
    requires HasRequiredFields(req)
    requires llm(TriageCall(req)) == Returned(Some("SAFETY"))
    ensures Handle(true, Some(req), llm) == Outcome(Answer(IntentRefusal), [TriageCall(req)])
  {
    SafetyVerdictExact();
    SafetyShortCircuit(req, llm);
  }

  /** An analysis question whose answer the screen clears comes back as the
      analyst's trimmed answer after exactly three calls. */
  lemma ClearedAnswerPassesThrough(req: ChatRequest, llm: Provider, draft: string)
    requires HasRequiredFields(req)
    requires llm(TriageCall(req)) == Returned(Some("ANALYSIS"))
    requires Trimmed(draft) && draft != ""
    requires llm(AnalystCall(req)) == Returned(Some(draft))
    requires llm(ScreenCall(draft)) == Returned(Some("NO"))
    ensures Handle(true, Some(req), llm) ==
      Outcome(Answer(draft), [TriageCall(req), AnalystCall(req), ScreenCall(draft)])
  {
    SafetyVerdictAnalysis();
    ScreenVerdictNegative();
    TrimmedFixed(draft);
    assert !IsSpace(draft[0]);
    assert Answering(req, llm) == Outcome(Answer(draft), [AnalystCall(req), ScreenCall(draft)]);
  }
}
