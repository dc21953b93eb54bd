/** The client component (components/ChromaScan.tsx): four pieces of state,
    the scan handler that resets them and fills them from the analyze route,
    and the follow-up handler that appends to the conversation through the
    chat route. The HTTP client is modelled by what it hands back: the
    response body, or an error carrying the server's `error` field (when
    there was a response) and a message of its own. */
module ChromaScanClient {
  import opened Domain
  import opened Strings
  import opened Llm
  import opened Prompts
  import AnalyzeRoute
  import ChatRoute

  const UnknownError := "An unknown error occurred."
  const AnalysisType := "analysis"
  const GeneralInfoType := "general_info"

  /** What an awaited POST yields: the response body, or a rejection. */
  datatype Transport<T> =
    | Delivered(data: T)
    | Rejected(responseError: Option<string>, message: string)

  /** The JSON body of a successful scan; `responseType` is its `type` field. */
  datatype ScanData = ScanData(aiSummary: string, responseType: string, foundIngredients: seq<Ingredient>)

  datatype UiState = UiState(
    chatHistory: seq<Message>,
    ingredientContext: seq<Ingredient>,
    isLoading: bool,
    error: string)

  const Initial := UiState([], [], false, "")

  /** `err.response?.data?.error || err.message || 'An unknown error occurred.'`:
      never empty, so a failed request always shows a banner. */
  function ErrorText<T>(reply: Transport<T>): (text: string)
    requires reply.Rejected?
    ensures text != ""
    ensures reply.responseError.Some? && reply.responseError.value != "" ==> text == reply.responseError.value
    ensures (reply.responseError.None? || reply.responseError.value == "") && reply.message != "" ==>
      text == reply.message
    ensures text !in {reply.message, UnknownError} ==> reply.responseError == Some(text)
  {
    if reply.responseError.Some? && reply.responseError.value != "" then reply.responseError.value
    else if reply.message != "" then reply.message
    else UnknownError
  }

  // ------------------------------------------------------------ scanning

  /** The state while the analyze request is in flight: loading, with the
      error, the conversation and the ingredient context all cleared. */
  function BeginScan(s: UiState): (t: UiState)
    ensures t.isLoading && t.error == "" && t.chatHistory == [] && t.ingredientContext == []
  {
    UiState([], [], true, "")
  }

  /** The state once the analyze request settles. */
  function EndScan(s: UiState, reply: Transport<ScanData>): (t: UiState)
    ensures !t.isLoading
    ensures reply.Delivered? ==>
      t.chatHistory == [Message(Assistant, reply.data.aiSummary)] && t.error == s.error
    ensures reply.Delivered? && reply.data.responseType == AnalysisType ==>
      t.ingredientContext == reply.data.foundIngredients
    ensures reply.Delivered? && reply.data.responseType != AnalysisType ==>
      t.ingredientContext == s.ingredientContext
    ensures reply.Rejected? ==>
      t.chatHistory == s.chatHistory && t.ingredientContext == s.ingredientContext &&
      t.error == ErrorText(reply)
  {
    match reply
    case Delivered(data) =>
      s.(chatHistory := [Message(Assistant, data.aiSummary)],
         ingredientContext := if data.responseType == AnalysisType then data.foundIngredients else s.ingredientContext,
         isLoading := false)
    case Rejected(_, _) => s.(error := ErrorText(reply), isLoading := false)
  }

  /** A scan forgets everything before it: the outcome depends on the reply
      alone. A delivered reply leaves exactly one assistant message and no
      error; a rejection leaves an empty conversation and a non-empty error. */
  lemma ScanStartsOver(s: UiState, s': UiState, reply: Transport<ScanData>)
    ensures EndScan(BeginScan(s), reply) == EndScan(BeginScan(s'), reply)
    ensures var t := EndScan(BeginScan(s), reply);
      !t.isLoading &&
      (reply.Delivered? ==> t.chatHistory == [Message(Assistant, reply.data.aiSummary)] && t.error == "") &&
      (reply.Rejected? ==> t.chatHistory == [] && t.ingredientContext == [] && t.error != "")
  {
  }

  /** The follow-up form is rendered only while there is ingredient context. */
  predicate FollowUpEnabled(s: UiState) {
    |s.ingredientContext| > 0
  }

  /** The status text an HTTP client gives a non-2xx response. */
  function StatusMessage(status: nat): (m: string)
    ensures m != ""
  {
    "Request failed with status code " + NatToString(status)
  }

  /** The analyze route's response as the client receives it: a 2xx body for
      either summary, tagged by its kind, and a rejection carrying the
      route's message for every error status. */
  function ScanReply(r: AnalyzeRoute.Response): (t: Transport<ScanData>)
    ensures t.Rejected? <==> r.Failure?
    ensures r.Failure? ==> t.responseError == Some(r.error) && ErrorText(t) == (if r.error != "" then r.error else StatusMessage(r.status))
    ensures t.Delivered? ==> t.data.aiSummary == r.aiSummary
    ensures t.Delivered? && t.data.responseType == AnalysisType <==> r.Analysis?
    ensures r.Analysis? ==> t.data.foundIngredients == r.foundIngredients
  {
    match r
    case GeneralInfo(summary) => Delivered(ScanData(summary, GeneralInfoType, []))
    case Analysis(summary, found) => Delivered(ScanData(summary, AnalysisType, found))
    case Failure(status, message) => Rejected(Some(message), StatusMessage(status))
  }

  /** After a scan the follow-up form appears exactly when the route answered
      with an ingredient analysis that matched something; a front-of-package
      answer or an error leaves it hidden. */
  lemma FollowUpOfferedAfterAnalysis(s: UiState, r: AnalyzeRoute.Response)
    ensures FollowUpEnabled(EndScan(BeginScan(s), ScanReply(r))) <==> r.Analysis? && |r.foundIngredients| > 0
  {
    if r.GeneralInfo? {
      assert GeneralInfoType[0] != AnalysisType[0];
    }
  }

  /** With the analyze route's summary step behind it: the form appears
      exactly when at least three ingredients matched and the model call
      returned. */
  lemma FollowUpNeedsThreeMatches(s: UiState, found: seq<Ingredient>, text: string, llm: Provider)
    ensures var o := AnalyzeRoute.Summarise(found, text, llm);
      FollowUpEnabled(EndScan(BeginScan(s), ScanReply(o.response))) <==>
        |found| >= AnalyzeRoute.RichThreshold && llm(o.calls[0]).Returned?
  {
    var o := AnalyzeRoute.Summarise(found, text, llm);
    FollowUpOfferedAfterAnalysis(s, o.response);
    if |found| >= AnalyzeRoute.RichThreshold && llm(o.calls[0]).Returned? {
      assert o.response.Analysis?;
    }
  }

  // ----------------------------------------------------------- follow-up

  /** The body posted to the chat route: the question, the current context,
      and the conversation with the question appended. */
  function FollowUpRequest(s: UiState, question: string): (req: ChatRoute.ChatRequest)
    ensures ChatRoute.HasRequiredFields(req) <==> question != ""
    ensures req.question == Some(question) && req.context == Some(s.ingredientContext)
    ensures req.chatHistory == Some(s.chatHistory + [Message(User, question)])
  {
    ChatRoute.ChatRequest(Some(question), Some(s.ingredientContext), Some(s.chatHistory + [Message(User, question)]))
  }

  /** The state while the chat request is in flight. An empty question changes
      nothing, and the error banner is not cleared. */
  function BeginFollowUp(s: UiState, question: string): (t: UiState)
    ensures question == "" ==> t == s
    ensures question != "" ==>
      t.chatHistory == s.chatHistory + [Message(User, question)] && t.isLoading &&
      t.ingredientContext == s.ingredientContext && t.error == s.error
  {
    if question == "" then s
    else s.(chatHistory := s.chatHistory + [Message(User, question)], isLoading := true)
  }

  /** The state once the chat request settles: the answer is appended after
      the question, or the error is shown with the question left in place. */
  function EndFollowUp(s: UiState, reply: Transport<string>): (t: UiState)
    ensures !t.isLoading && t.ingredientContext == s.ingredientContext
    ensures reply.Delivered? ==>
      t.chatHistory == s.chatHistory + [Message(Assistant, reply.data)] && t.error == s.error
    ensures reply.Rejected? ==> t.chatHistory == s.chatHistory && t.error == ErrorText(reply)
  {
    match reply
    case Delivered(answer) => s.(chatHistory := s.chatHistory + [Message(Assistant, answer)], isLoading := false)
    case Rejected(_, _) => s.(error := ErrorText(reply), isLoading := false)
  }

  /** A follow-up extends the conversation and never rewrites it: on success by
      the question and the answer, on failure by the question alone. */
  lemma FollowUpExtends(s: UiState, question: string, reply: Transport<string>)
    requires question != ""
    ensures var t := EndFollowUp(BeginFollowUp(s, question), reply);
      var n := |s.chatHistory|;
      !t.isLoading && t.ingredientContext == s.ingredientContext &&
      |t.chatHistory| == n + (if reply.Delivered? then 2 else 1) &&
      t.chatHistory[..n] == s.chatHistory &&
      t.chatHistory[n] == Message(User, question) &&
      (reply.Delivered? ==> t.chatHistory[n + 1] == Message(Assistant, reply.data) && t.error == s.error) &&
      (reply.Rejected? ==> t.error != "")
  {
    var t := EndFollowUp(BeginFollowUp(s, question), reply);
    var n := |s.chatHistory|;
    if reply.Delivered? {
      assert t.chatHistory == s.chatHistory + [Message(User, question), Message(Assistant, reply.data)];
    }
    assert t.chatHistory[..n] == s.chatHistory;
  }

  /** Every follow-up the client sends passes the chat route's validation,
      even with an empty ingredient context, and the serialised conversation
      the triage and analyst prompts receive ends with the question itself. */
  lemma FollowUpRequestAccepted(s: UiState, question: string)
    requires question != ""
    ensures ChatRoute.HasRequiredFields(FollowUpRequest(s, question))
    ensures var h := SerializeHistory(FollowUpRequest(s, question).chatHistory);
      var last := "User: " + question;
      |last| <= |h| && h[|h| - |last|..] == last
  {
    var m := s.chatHistory + [Message(User, question)];
    var lines := HistoryLines(m);
    assert lines[|lines| - 1] == HistoryLine(m[|m| - 1]);
    JoinEndsWithLast(lines);
  }

  /** The chat route's response as the client receives it: the answer text,
      or a rejection carrying the route's message. */
  function ChatReply(r: ChatRoute.Response): (t: Transport<string>)
    ensures t.Delivered? <==> r.Answer?
    ensures r.Answer? ==> t.data == r.answer
    ensures r.Failure? ==> t.responseError == Some(r.error) && ErrorText(t) == (if r.error != "" then r.error else StatusMessage(r.status))
  {
    match r
    case Answer(answer) => Delivered(answer)
    case Failure(status, message) => Rejected(Some(message), StatusMessage(status))
  }

  /** End to end: when the triage model calls the question a safety question,
      the conversation ends with the question followed by the first refusal. */
  lemma SafetyQuestionGetsRefusal(s: UiState, question: string, llm: Provider)
    requires question != ""
    requires llm(ChatRoute.TriageCall(FollowUpRequest(s, question))).Returned?
    requires ChatRoute.AsksForSafety(llm(ChatRoute.TriageCall(FollowUpRequest(s, question))).content)
    ensures var t := EndFollowUp(BeginFollowUp(s, question),
                                 ChatReply(ChatRoute.Handle(true, Some(FollowUpRequest(s, question)), llm).response));
      t.chatHistory == s.chatHistory + [Message(User, question), Message(Assistant, ChatRoute.IntentRefusal)]
  {
    FollowUpRequestAccepted(s, question);
  }

  // ----------------------------------------------------------- component

  /** The component's state, updated in place by its two handlers. */
  class ChromaScan {
    var chatHistory: seq<Message>
    var ingredientContext: seq<Ingredient>
    var isLoading: bool
    var error: string

    function State(): UiState
      reads this
    {
      UiState(chatHistory, ingredientContext, isLoading, error)
    }

    /** Whether the follow-up form is rendered. */
    predicate ShowsFollowUpForm()
      reads this
    {
      FollowUpEnabled(State())
    }

    constructor()
      ensures State() == Initial
    {
      chatHistory := [];
      ingredientContext := [];
      isLoading := false;
      error := "";
    }

    /** A file choice: nothing happens without a file; otherwise the state is
        reset, the image is posted, and `analyze` is what the post yields. */
    method HandleFileChange(hasFile: bool, analyze: Transport<ScanData>)
      modifies this
      ensures State() == if hasFile then EndScan(BeginScan(old(State())), analyze) else old(State())
      ensures hasFile ==>
        (ShowsFollowUpForm() <==>
          analyze.Delivered? && analyze.data.responseType == AnalysisType && |analyze.data.foundIngredients| > 0)
    {
      if !hasFile {
        return;
      }
      isLoading := true;
      error := "";
      chatHistory := [];
      ingredientContext := [];
      match analyze {
        case Delivered(data) =>
          chatHistory := [Message(Assistant, data.aiSummary)];
          if data.responseType == AnalysisType {
            ingredientContext := data.foundIngredients;
          }
        case Rejected(_, _) =>
          error := ErrorText(analyze);
      }
      isLoading := false;
    }

    /** A follow-up submission: an empty question does nothing; otherwise the
        question is appended, the request is posted to `chat`, and the reply is
        appended or shown as an error. Returns the request that was posted. */
    method HandleFollowUpSubmit(question: string, chat: ChatRoute.ChatRequest -> Transport<string>)
      returns (sent: Option<ChatRoute.ChatRequest>)
      modifies this
      ensures question == "" ==> sent.None? && State() == old(State())
      ensures question != "" ==>
        sent == Some(FollowUpRequest(old(State()), question)) &&
        State() == EndFollowUp(BeginFollowUp(old(State()), question), chat(sent.value))
      ensures ShowsFollowUpForm() == old(ShowsFollowUpForm())
    {
      if question == "" {
        return None;
      }
      var newHistory := chatHistory + [Message(User, question)];
      var request := ChatRoute.ChatRequest(Some(question), Some(ingredientContext), Some(newHistory));
      chatHistory := newHistory;
      isLoading := true;
      var reply := chat(request);
      match reply {
        case Delivered(answer) =>
          chatHistory := newHistory + [Message(Assistant, answer)];
        case Rejected(_, _) =>
          error := ErrorText(reply);
      }
      isLoading := false;
      sent := Some(request);
    }
  }
}
