/** The interaction state of the `App` component: the contract form and its
    analysis, the chat window and the cache of "Why?" explanations.
    Each remote call is split in two. A begin method returns the request it
    would send, or `None` when it sends nothing. A `Complete...` method takes
    the outcome of that call. A click on a disabled control is a call that
    changes nothing. Message ids come from a counter instead of the clock. */
module Session {
  import opened Wrappers
  import opened Strings
  import opened Classifier
  import opened Analyzer

  datatype MessageKind = UserTurn | BotTurn | BotTyping

  /** A chat message; the greeting, user turns and error turns carry no id. */
  datatype Message = Message(id: Option<nat>, kind: MessageKind, text: string, typing: bool)

  /** An entry of the explanation cache. */
  datatype Explanation = Explanation(loading: bool, text: string)

  /** Every field of `App`, so that a method can state its whole new state. */
  datatype AppState = AppState(
    contractText: string,
    analysisResult: Option<ContractAnalysisResult>,
    isAnalyzing: bool,
    systemReady: bool,
    probePending: bool,
    chatMessages: seq<Message>,
    userInput: string,
    isBotTyping: bool,
    typingMessageId: Option<nat>,
    animatedMessage: Option<nat>,
    clauseExplanations: map<string, Explanation>,
    isExplaining: bool,
    pendingExplain: Option<string>,
    nextId: nat)

  const GREETING :=
    "Hello! I am MyGuard, your AI contract assistant. How can I help you analyze your contracts today?"
  const EXPLANATION_FALLBACK := "Sorry, I couldn't generate an explanation for this clause."

  /** The prompt sent for a chat question. */
  function ChatPrompt(question: string): string {
    "As MyGuard, " + question
  }

  /** The prompt sent for a "Why?" explanation. */
  function ExplainPrompt(clause: string): string {
    "As MyGuard, explain simply why this contract clause is risky: \"" + clause + "\""
  }

  /** The bot turn shown when a chat call fails; an error without a message
      reads as "Unknown error". */
  function ChatErrorText(message: string): (text: string)
    ensures message != [] ==> text == "Sorry, I encountered an error: " + message + ". Please try again."
    ensures message == [] ==> text == "Sorry, I encountered an error: Unknown error. Please try again."
  {
    "Sorry, I encountered an error: " + (if message == [] then "Unknown error" else message) + ". Please try again."
  }

  /** `getStatusText`: the status line shown above a clause. */
  function StatusText(labelText: string): (text: string)
    ensures labelText == ALLOWED ==> text == "No problem with this"
    ensures labelText == NOT_ALLOWED ==> text == "This is risky"
    ensures labelText == UNCLASSIFIED ==> text == "Neutral"
    ensures text == [] <==> labelText !in {ALLOWED, NOT_ALLOWED, UNCLASSIFIED}
  {
    LabelsAreDistinct();
    if labelText == ALLOWED then "No problem with this"
    else if labelText == NOT_ALLOWED then "This is risky"
    else if labelText == UNCLASSIFIED then "Neutral"
    else ""
  }

  /** The label "Neutral", which the model path gives every short clause, has no
      status line, while "Unclassified" is shown as "Neutral". */
  lemma NeutralHasNoStatus()
    ensures StatusText(NEUTRAL) == [] && StatusText(UNCLASSIFIED) == NEUTRAL
  {
    LabelsAreDistinct();
  }

  /** The messages left when a placeholder is removed: those whose id differs,
      in their order. */
  function WithoutId(messages: seq<Message>, id: nat): (kept: seq<Message>)
    ensures |kept| <= |messages|
    ensures forall i :: 0 <= i < |kept| ==> kept[i].id != Some(id)
  {
    if messages == [] then []
    else if messages[0].id == Some(id) then WithoutId(messages[1..], id)
    else [messages[0]] + WithoutId(messages[1..], id)
  }

  /** Removing the messages with an id keeps exactly the others: nothing new
      appears, every other message stays, and a list without that id is
      unchanged. */
  lemma {:induction false} WithoutIdKeepsTheRest(messages: seq<Message>, id: nat)
    ensures forall i :: 0 <= i < |WithoutId(messages, id)| ==> WithoutId(messages, id)[i] in messages
    ensures forall m :: m in messages && m.id != Some(id) ==> m in WithoutId(messages, id)
    ensures (forall i :: 0 <= i < |messages| ==> messages[i].id != Some(id)) ==> WithoutId(messages, id) == messages
    decreases |messages|
  {
    if messages != [] {
      WithoutIdKeepsTheRest(messages[1..], id);
      assert messages == [messages[0]] + messages[1..];
    }
  }

  lemma {:induction false} WithoutIdAppend(a: seq<Message>, b: seq<Message>, id: nat)
    ensures WithoutId(a + b, id) == WithoutId(a, id) + WithoutId(b, id)
    decreases |a|
  {
    if a != [] {
      assert (a + b)[1..] == a[1..] + b;
      WithoutIdAppend(a[1..], b, id);
    } else {
      assert a + b == b;
    }
  }

  /** A whole chat exchange: sending a question and then receiving its answer
      (or its error turn) leaves the earlier log untouched, followed by the
      user turn and the bot turn. The placeholder is removed exactly once and
      nothing else is. */
  lemma ExchangeAppendsTwoTurns(messages: seq<Message>, nextId: nat, question: string, turn: Message)
    requires IdsBelow(messages, nextId) && turn.id != Some(nextId)
    ensures var user := Message(None, UserTurn, question, false);
            WithoutId(messages + [user, Message(Some(nextId), BotTyping, "", false)], nextId) + [turn]
              == messages + [user, turn]
  {
    var user := Message(None, UserTurn, question, false);
    var placeholder := Message(Some(nextId), BotTyping, "", false);
    WithoutIdAppend(messages, [user, placeholder], nextId);
    WithoutIdKeepsTheRest(messages, nextId);
    assert WithoutId([placeholder], nextId) == [];
    assert [user, placeholder] == [user] + [placeholder];
    WithoutIdAppend([user], [placeholder], nextId);
  }

  /** The messages after the animation of message `id` ends: only the `typing`
      flag of the messages with that id changes, and it becomes false. */
  function MarkTyped(messages: seq<Message>, id: nat): (marked: seq<Message>)
    ensures |marked| == |messages|
    ensures forall i :: 0 <= i < |messages| ==>
              && marked[i].id == messages[i].id
              && marked[i].kind == messages[i].kind
              && marked[i].text == messages[i].text
              && (marked[i].typing <==> messages[i].typing && messages[i].id != Some(id))
  {
    seq(|messages|, i requires 0 <= i < |messages| =>
      if messages[i].id == Some(id) then messages[i].(typing := false) else messages[i])
  }

  /** Ids are below the counter and no two messages share one. */
  predicate IdsAreFresh(messages: seq<Message>, nextId: nat) {
    IdsBelow(messages, nextId) && IdsDistinct(messages)
  }

  predicate IdsBelow(messages: seq<Message>, nextId: nat) {
    forall i :: 0 <= i < |messages| && messages[i].id.Some? ==> messages[i].id.value < nextId
  }

  predicate IdsDistinct(messages: seq<Message>) {
    forall i, j :: 0 <= i < j < |messages| && messages[i].id.Some? ==> messages[i].id != messages[j].id
  }

  /** Appending a message without an id, or with a new one, keeps ids fresh. */
  lemma AppendKeepsIdsFresh(messages: seq<Message>, nextId: nat, m: Message, newNextId: nat)
    requires IdsAreFresh(messages, nextId) && nextId <= newNextId
    requires m.id.Some? ==> nextId <= m.id.value < newNextId
    ensures IdsAreFresh(messages + [m], newNextId)
  {
  }

  /** Removing messages keeps ids fresh. */
  lemma WithoutIdKeepsIdsFresh(messages: seq<Message>, id: nat, nextId: nat)
    requires IdsAreFresh(messages, nextId)
    ensures IdsAreFresh(WithoutId(messages, id), nextId)
  {
    WithoutIdKeepsTheRest(messages, id);
    WithoutIdKeepsIdsDistinct(messages, id);
  }

  lemma {:induction false} WithoutIdKeepsIdsDistinct(messages: seq<Message>, id: nat)
    requires IdsDistinct(messages)
    ensures IdsDistinct(WithoutId(messages, id))
    decreases |messages|
  {
    if messages != [] {
      var tail := messages[1..];
      assert IdsDistinct(tail) by {
        forall i, j | 0 <= i < j < |tail| && tail[i].id.Some?
          ensures tail[i].id != tail[j].id
        {
          assert tail[i] == messages[i + 1] && tail[j] == messages[j + 1];
        }
      }
      WithoutIdKeepsIdsDistinct(tail, id);
      if messages[0].id != Some(id) {
        WithoutIdKeepsTheRest(tail, id);
        HeadIdIsNew(messages[0], tail, WithoutId(tail, id));
      }
    }
  }

  /** A message whose id no message of `tail` has can be put in front of any
      list drawn from `tail` with distinct ids. */
  lemma HeadIdIsNew(head: Message, tail: seq<Message>, rest: seq<Message>)
    requires IdsDistinct([head] + tail) && IdsDistinct(rest)
    requires forall i :: 0 <= i < |rest| ==> rest[i] in tail
    ensures IdsDistinct([head] + rest)
  {
    var whole := [head] + tail;
    var kept := [head] + rest;
    forall i, j | 0 <= i < j < |kept| && kept[i].id.Some?
      ensures kept[i].id != kept[j].id
    {
      if i == 0 {
        assert kept[j] == rest[j - 1] && rest[j - 1] in tail;
        var k :| 0 <= k < |tail| && tail[k] == rest[j - 1];
        assert whole[0] == head == kept[0] && whole[k + 1] == tail[k];
      } else {
        assert kept[i] == rest[i - 1] && kept[j] == rest[j - 1];
      }
    }
  }

  /** The chat invariant. Ids are fresh. A placeholder is shown exactly while
      a chat call is in flight: it is the last message and carries the id the
      call will remove. */
  predicate ChatValid(messages: seq<Message>, isBotTyping: bool, typingMessageId: Option<nat>, nextId: nat) {
    && IdsAreFresh(messages, nextId)
    && (isBotTyping <==> typingMessageId.Some?)
    && (forall i :: 0 <= i < |messages| && messages[i].kind == BotTyping ==>
          isBotTyping && messages[i].id == typingMessageId)
    && (isBotTyping ==> (messages != [] &&
          messages[|messages| - 1] == Message(typingMessageId, BotTyping, "", false)))
  }

  /** Sending a question keeps the chat invariant. */
  lemma SendKeepsChatValid(messages: seq<Message>, nextId: nat, question: string)
    requires ChatValid(messages, false, None, nextId)
    ensures ChatValid(messages + [Message(None, UserTurn, question, false), Message(Some(nextId), BotTyping, "", false)],
                      true, Some(nextId), nextId + 1)
  {
    var user := Message(None, UserTurn, question, false);
    AppendKeepsIdsFresh(messages, nextId, user, nextId);
    AppendKeepsIdsFresh(messages + [user], nextId, Message(Some(nextId), BotTyping, "", false), nextId + 1);
    assert messages + [user, Message(Some(nextId), BotTyping, "", false)]
        == messages + [user] + [Message(Some(nextId), BotTyping, "", false)];
  }

  /** Replacing the placeholder by a bot turn keeps the chat invariant, and no
      placeholder is left. */
  lemma AnswerKeepsChatValid(messages: seq<Message>, id: nat, nextId: nat, turn: Message, newNextId: nat)
    requires ChatValid(messages, true, Some(id), nextId)
    requires turn.kind != BotTyping && nextId <= newNextId
    requires turn.id.Some? ==> nextId <= turn.id.value < newNextId
    ensures ChatValid(WithoutId(messages, id) + [turn], false, None, newNextId)
  {
    WithoutIdKeepsIdsFresh(messages, id, nextId);
    WithoutIdKeepsTheRest(messages, id);
    var kept := WithoutId(messages, id);
    AppendKeepsIdsFresh(kept, nextId, turn, newNextId);
    var next := kept + [turn];
    forall i | 0 <= i < |next| ensures next[i].kind != BotTyping {
      if i < |kept| {
        assert next[i] == kept[i] && kept[i] in messages;
      }
    }
  }

  /** Ending an animation keeps the chat invariant. */
  lemma MarkTypedKeepsChatValid(messages: seq<Message>, isBotTyping: bool, typingMessageId: Option<nat>, nextId: nat, id: nat)
    requires ChatValid(messages, isBotTyping, typingMessageId, nextId)
    ensures ChatValid(MarkTyped(messages, id), isBotTyping, typingMessageId, nextId)
  {
    var marked := MarkTyped(messages, id);
    if isBotTyping {
      assert marked[|marked| - 1] == messages[|messages| - 1];
    }
  }

  /** The explanation-cache invariant: a call is in flight exactly when one
      clause is pending, and that clause has the only loading entry. */
  predicate CacheValid(cache: map<string, Explanation>, isExplaining: bool, pendingExplain: Option<string>) {
    && (isExplaining <==> pendingExplain.Some?)
    && (pendingExplain.Some? ==> pendingExplain.value in cache && cache[pendingExplain.value].loading)
    && (forall c :: c in cache && cache[c].loading ==> pendingExplain == Some(c))
  }

  /** The "Why?" button of a clause is enabled: no explanation is in flight,
      and the clause has no settled explanation. */
  predicate WhyEnabled(cache: map<string, Explanation>, isExplaining: bool, clause: string) {
    !isExplaining && !(clause in cache && !cache[clause].loading)
  }

  /** A clause that already has an entry cannot be asked about again: its
      "Why?" button is disabled while the explanation loads and once it has
      settled. So the handler's own check for an entry never fires from a
      click. */
  lemma CachedClauseIsDisabled(cache: map<string, Explanation>, isExplaining: bool, pendingExplain: Option<string>, clause: string)
    requires CacheValid(cache, isExplaining, pendingExplain) && clause in cache
    ensures !WhyEnabled(cache, isExplaining, clause)
  {
  }

  /** Starting an explanation keeps the cache invariant. */
  lemma BeginKeepsCacheValid(cache: map<string, Explanation>, clause: string)
    requires CacheValid(cache, false, None) && clause !in cache
    ensures CacheValid(cache[clause := Explanation(true, "")], true, Some(clause))
  {
  }

  /** Settling the pending explanation keeps the cache invariant. */
  lemma SettleKeepsCacheValid(cache: map<string, Explanation>, clause: string, text: string)
    requires CacheValid(cache, true, Some(clause))
    ensures CacheValid(cache[clause := Explanation(false, text)], false, None)
  {
  }

  class App {
    var contractText: string
    var analysisResult: Option<ContractAnalysisResult>
    var isAnalyzing: bool
    var systemReady: bool
    /** The readiness probe sent on mount has not answered yet. */
    var probePending: bool
    var chatMessages: seq<Message>
    var userInput: string
    var isBotTyping: bool
    var typingMessageId: Option<nat>
    var animatedMessage: Option<nat>
    var clauseExplanations: map<string, Explanation>
    var isExplaining: bool
    /** The clause whose explanation call is in flight. */
    var pendingExplain: Option<string>
    /** The next message id. */
    var nextId: nat

    ghost function State(): AppState
      reads this
    {
      AppState(contractText, analysisResult, isAnalyzing, systemReady, probePending,
        chatMessages, userInput, isBotTyping, typingMessageId, animatedMessage,
        clauseExplanations, isExplaining, pendingExplain, nextId)
    }

    ghost predicate Valid()
      reads this
    {
      && ChatValid(chatMessages, isBotTyping, typingMessageId, nextId)
      && CacheValid(clauseExplanations, isExplaining, pendingExplain)
    }

    /** Mounting: the greeting is the only message and the readiness probe is
        sent. */
    constructor ()
      ensures Valid()
      ensures State() == AppState("", None, false, false, true,
        [Message(None, BotTurn, GREETING, false)], "", false, None, None, map[], false, None, 0)
    {
      contractText := "";
      analysisResult := None;
      isAnalyzing := false;
      systemReady := false;
      probePending := true;
      chatMessages := [Message(None, BotTurn, GREETING, false)];
      userInput := "";
      isBotTyping := false;
      typingMessageId := None;
      animatedMessage := None;
      clauseExplanations := map[];
      isExplaining := false;
      pendingExplain := None;
      nextId := 0;
    }

    /** The readiness probe answers: the system is ready exactly when it
        succeeded. */
    method CompleteProbe(succeeded: bool)
      requires Valid() && probePending
      modifies this
      ensures Valid()
      ensures State() == old(State()).(systemReady := succeeded, probePending := false)
    {
      systemReady := succeeded;
      probePending := false;
    }

    method SetContractText(t: string)
      requires Valid()
      modifies this
      ensures Valid()
      ensures State() == old(State()).(contractText := t)
    {
      contractText := t;
    }

    /** The analyze button is enabled. */
    predicate CanSubmitAnalysis()
      reads this
    {
      !isAnalyzing && systemReady
    }

    /** `handleAnalyzeContract`: a blank text, or a click while the button is
        disabled, sends nothing and changes nothing; otherwise the text is sent
        and the analysis is in flight. */
    method SubmitAnalysis() returns (request: Option<string>)
      requires Valid()
      modifies this
      ensures Valid()
      ensures request.Some? <==> old(CanSubmitAnalysis()) && !IsBlank(contractText)
      ensures request.Some? ==>
                request.value == contractText && State() == old(State()).(isAnalyzing := true)
      ensures request.None? ==> State() == old(State())
    {
      request := None;
      if !CanSubmitAnalysis() {
        return;
      }
      if IsBlank(contractText) {
        return;
      }
      isAnalyzing := true;
      request := Some(contractText);
    }

    /** The analysis answers: a result replaces the previous one wholesale, a
        failure keeps it, and the analysis is no longer in flight. */
    method CompleteAnalysis(outcome: Result<ContractAnalysisResult, string>)
      requires Valid() && isAnalyzing
      modifies this
      ensures Valid()
      ensures outcome.Success? ==>
                State() == old(State()).(analysisResult := Some(outcome.value), isAnalyzing := false)
      ensures outcome.Failure? ==> State() == old(State()).(isAnalyzing := false)
    {
      if outcome.Success? {
        analysisResult := Some(outcome.value);
      }
      isAnalyzing := false;
    }

    method SetUserInput(t: string)
      requires Valid()
      modifies this
      ensures Valid()
      ensures State() == old(State()).(userInput := t)
    {
      userInput := t;
    }

    /** `handleSendMessage`: a blank question, or a send while the input is
        disabled, changes nothing. Otherwise the user turn and then a new
        placeholder are appended, the input is cleared and the question is sent
        with the MyGuard prefix. */
    method SendMessage() returns (prompt: Option<string>)
      requires Valid()
      modifies this
      ensures Valid()
      ensures prompt.Some? <==> !old(isBotTyping) && !IsBlank(old(userInput))
      ensures prompt.Some? ==>
                && prompt.value == ChatPrompt(old(userInput))
                && State() == old(State()).(
                     chatMessages := old(chatMessages) + [Message(None, UserTurn, old(userInput), false),
                                                          Message(Some(old(nextId)), BotTyping, "", false)],
                     userInput := "",
                     isBotTyping := true,
                     typingMessageId := Some(old(nextId)),
                     nextId := old(nextId) + 1)
      ensures prompt.None? ==> State() == old(State())
    {
      prompt := None;
      if isBotTyping {
        return;
      }
      if IsBlank(userInput) {
        return;
      }
      var question := userInput;
      var placeholderId := nextId;
      SendKeepsChatValid(chatMessages, placeholderId, question);
      chatMessages := chatMessages + [Message(None, UserTurn, question, false),
                                      Message(Some(placeholderId), BotTyping, "", false)];
      userInput := "";
      isBotTyping := true;
      nextId := nextId + 1;
      typingMessageId := Some(placeholderId);
      prompt := Some(ChatPrompt(question));
    }

    /** The chat call answers: the placeholder goes, and exactly one bot turn is
        appended, animated and carrying a new id for a reply, or static text
        for an error. */
    method CompleteChat(outcome: Result<string, string>)
      requires Valid() && isBotTyping
      modifies this
      ensures Valid()
      ensures outcome.Success? ==>
                State() == old(State()).(
                  chatMessages := WithoutId(old(chatMessages), old(typingMessageId).value)
                                  + [Message(Some(old(nextId)), BotTurn, outcome.value, true)],
                  isBotTyping := false,
                  typingMessageId := None,
                  animatedMessage := Some(old(nextId)),
                  nextId := old(nextId) + 1)
      ensures outcome.Failure? ==>
                State() == old(State()).(
                  chatMessages := WithoutId(old(chatMessages), old(typingMessageId).value)
                                  + [Message(None, BotTurn, ChatErrorText(outcome.error), false)],
                  isBotTyping := false,
                  typingMessageId := None)
      ensures forall i :: 0 <= i < |chatMessages| ==> chatMessages[i].kind != BotTyping
    {
      var placeholderId := typingMessageId.value;
      var kept := WithoutId(chatMessages, placeholderId);
      typingMessageId := None;
      if outcome.Success? {
        var reply := Message(Some(nextId), BotTurn, outcome.value, true);
        AnswerKeepsChatValid(chatMessages, placeholderId, nextId, reply, nextId + 1);
        chatMessages := kept + [reply];
        nextId := nextId + 1;
        animatedMessage := reply.id;
      } else {
        var errorTurn := Message(None, BotTurn, ChatErrorText(outcome.error), false);
        AnswerKeepsChatValid(chatMessages, placeholderId, nextId, errorTurn, nextId);
        chatMessages := kept + [errorTurn];
      }
      isBotTyping := false;
    }

    /** The `onComplete` of the animation of message `id`: only that message's
        `typing` flag changes. */
    method FinishTyping(id: nat)
      requires Valid()
      modifies this
      ensures Valid()
      ensures State() == old(State()).(chatMessages := MarkTyped(old(chatMessages), id), animatedMessage := None)
    {
      MarkTypedKeepsChatValid(chatMessages, isBotTyping, typingMessageId, nextId, id);
      chatMessages := MarkTyped(chatMessages, id);
      animatedMessage := None;
    }

    /** A "Why?" button is shown for a clause the current analysis labels
        "Not Allowed". */
    predicate HasWhyButton(clause: string)
      reads this
    {
      && analysisResult.Some?
      && exists i :: 0 <= i < |analysisResult.value.clauseBreakdown| &&
           analysisResult.value.clauseBreakdown[i].clause == clause &&
           analysisResult.value.clauseBreakdown[i].labelText == NOT_ALLOWED
    }

    /** `handleExplainClause` from a "Why?" click: a clause that already has an
        entry, or a click on a missing or disabled button, changes nothing and
        sends nothing. Otherwise a loading entry is added for the clause alone
        and the explanation prompt is sent. */
    method RequestExplanation(clause: string) returns (prompt: Option<string>)
      requires Valid()
      modifies this
      ensures Valid()
      ensures prompt.Some? <==> old(HasWhyButton(clause)) && old(WhyEnabled(clauseExplanations, isExplaining, clause)) && clause !in old(clauseExplanations)
      ensures prompt.Some? ==>
                && prompt.value == ExplainPrompt(clause)
                && State() == old(State()).(
                     clauseExplanations := old(clauseExplanations)[clause := Explanation(true, "")],
                     isExplaining := true,
                     pendingExplain := Some(clause))
      ensures prompt.None? ==> State() == old(State())
    {
      prompt := None;
      if !HasWhyButton(clause) || !WhyEnabled(clauseExplanations, isExplaining, clause) {
        return;
      }
      if clause in clauseExplanations {
        return;
      }
      BeginKeepsCacheValid(clauseExplanations, clause);
      isExplaining := true;
      clauseExplanations := clauseExplanations[clause := Explanation(true, "")];
      pendingExplain := Some(clause);
      prompt := Some(ExplainPrompt(clause));
    }

    /** The explanation call answers: the clause's entry settles with the reply,
        or with the fixed fallback text on failure; no other entry changes. */
    method CompleteExplanation(outcome: Result<string, string>)
      requires Valid() && isExplaining
      modifies this
      ensures Valid()
      ensures State() == old(State()).(
                clauseExplanations := old(clauseExplanations)[old(pendingExplain).value :=
                  Explanation(false, if outcome.Success? then outcome.value else EXPLANATION_FALLBACK)],
                isExplaining := false,
                pendingExplain := None)
    {
      var clause := pendingExplain.value;
      var text := if outcome.Success? then outcome.value else EXPLANATION_FALLBACK;
      SettleKeepsCacheValid(clauseExplanations, clause, text);
      clauseExplanations := clauseExplanations[clause := Explanation(false, text)];
      isExplaining := false;
      pendingExplain := None;
    }
  }
}
