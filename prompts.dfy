/** How the routes flatten structured data into prompt text: the matched
    ingredients as `- name: summary` lines and the chat history as
    `User: ...` / `Assistant: ...` lines, each joined by a newline. */
module Prompts {
  import opened Domain
  import opened Strings

  function ContextLine(ing: Ingredient): string {
    "- " + ing.ingredientName + ": " + ing.summary
  }

  function ContextLines(found: seq<Ingredient>): (lines: seq<string>)
    ensures |lines| == |found|
    ensures forall i :: 0 <= i < |found| ==> lines[i] == ContextLine(found[i])
  {
    seq(|found|, i requires 0 <= i < |found| => ContextLine(found[i]))
  }

  /** `found.map(ing => `- ${ing.ingredientName}: ${ing.summary}`).join('\n')`:
      empty exactly when nothing matched, and led by the first match's line. */
  function SerializeContext(found: seq<Ingredient>): (r: string)
    ensures r == "" <==> found == []
    ensures found != [] ==> IsPrefix(ContextLine(found[0]), r)
  {
    JoinLines(ContextLines(found))
  }

  function Speaker(role: Role): string {
    if role == User then "User" else "Assistant"
  }

  function HistoryLine(m: Message): string {
    Speaker(m.role) + ": " + m.content
  }

  function HistoryLines(history: seq<Message>): (lines: seq<string>)
    ensures |lines| == |history|
    ensures forall i :: 0 <= i < |history| ==> lines[i] == HistoryLine(history[i])
  {
    seq(|history|, i requires 0 <= i < |history| => HistoryLine(history[i]))
  }

  /** `(chatHistory || []).map(...).join('\n')`: empty exactly when the history
      is absent or empty, and otherwise led by the first message's line. */
  function SerializeHistory(chatHistory: Option<seq<Message>>): (r: string)
    ensures r == "" <==> chatHistory.GetOr([]) == []
    ensures chatHistory.GetOr([]) != [] ==> IsPrefix(HistoryLine(chatHistory.value[0]), r)
  {
    JoinLines(HistoryLines(chatHistory.GetOr([])))
  }

  /** Reads one history line back: the speaker tag before the first `": "`. */
  function ParseHistoryLine(line: string): Option<Message> {
    if IsPrefix("User: ", line) then Some(Message(User, line[6..]))
    else if IsPrefix("Assistant: ", line) then Some(Message(Assistant, line[11..]))
    else None
  }

  function ParseLines(lines: seq<string>): Option<seq<Message>> {
    if lines == [] then Some([])
    else match (ParseHistoryLine(lines[0]), ParseLines(lines[1..]))
      case (Some(m), Some(ms)) => Some([m] + ms)
      case _ => None
  }

  /** The inverse of `SerializeHistory` on a non-empty history. */
  function ParseHistory(text: string): Option<seq<Message>> {
    ParseLines(SplitLines(text))
  }

  predicate NoNewline(s: string) {
    '\n' !in s
  }

  // ------------------------------------------------------------ lemmas

  /** No history and an empty history both serialise to the empty string. */
  lemma EmptyHistory()
    ensures SerializeHistory(None) == "" && SerializeHistory(Some([])) == ""
  {
  }

  lemma HistoryLineParses(m: Message)
    ensures ParseHistoryLine(HistoryLine(m)) == Some(m)
  {
    var line := HistoryLine(m);
    if m.role == User {
      assert line == "User: " + m.content;
      assert line[..6] == "User: ";
      assert line[6..] == m.content;
    } else {
      assert line == "Assistant: " + m.content;
      assert line[..6] != "User: " by { assert line[0] != 'U'; }
      assert line[..11] == "Assistant: ";
      assert line[11..] == m.content;
    }
  }

  lemma {:induction false} ParseLinesOfHistory(history: seq<Message>)
    ensures ParseLines(HistoryLines(history)) == Some(history)
    decreases |history|
  {
    if history != [] {
      HistoryLineParses(history[0]);
      assert HistoryLines(history)[1..] == HistoryLines(history[1..]);
      ParseLinesOfHistory(history[1..]);
      assert [history[0]] + history[1..] == history;
    }
  }

  /** Serialising a non-empty history whose messages hold no newline and
      parsing the text back gives the same messages, roles and order
      included: one line per message, `User` exactly for user messages. */
  lemma HistoryRoundTrip(history: seq<Message>)
    requires |history| > 0
    requires forall i :: 0 <= i < |history| ==> NoNewline(history[i].content)
    ensures ParseHistory(SerializeHistory(Some(history))) == Some(history)
  {
    var lines := HistoryLines(history);
    forall i | 0 <= i < |lines| ensures '\n' !in lines[i] {
      var m := history[i];
      assert lines[i] == Speaker(m.role) + ": " + m.content;
      assert '\n' !in Speaker(m.role) + ": ";
    }
    SplitJoin(lines);
    ParseLinesOfHistory(history);
  }

  /** One line per matched ingredient, in match order: splitting the context
      at newlines gives back exactly the `- name: summary` lines, when no
      name or summary holds a newline of its own. */
  lemma ContextRoundTrip(found: seq<Ingredient>)
    requires |found| > 0
    requires forall i :: 0 <= i < |found| ==>
      NoNewline(found[i].ingredientName) && NoNewline(found[i].summary)
    ensures SplitLines(SerializeContext(found)) == ContextLines(found)
  {
    var lines := ContextLines(found);
    forall i | 0 <= i < |lines| ensures '\n' !in lines[i] {
      var ing := found[i];
      assert lines[i] == "- " + ing.ingredientName + ": " + ing.summary;
    }
    SplitJoin(lines);
  }

  /** The context text ends with the last ingredient's line: no trailing
      newline. */
  lemma ContextEndsWithLastLine(found: seq<Ingredient>)
    requires |found| > 0
    ensures var s := SerializeContext(found); var l := ContextLine(found[|found| - 1]);
      |l| <= |s| && s[|s| - |l|..] == l
  {
    JoinEndsWithLast(ContextLines(found));
  }
}
