/** The reflex lab (`ReflexLab.tsx`): a chat with the model in which the learner tries to
    use the selected target words. Each call to the model is split at its `await`: the
    starting method returns the request, and a reply method takes the answer. */
module Reflex {
  import opened Wrappers
  import opened Vocabulary
  import opened Text
  import opened WordSelection

  const FirstPreset := "Kết bạn mới"
  const FreeTalk := "Hội thoại tự do"

  datatype Role = User | Model

  /** The model's comments on one learner message. */
  datatype Evaluation = Evaluation(
    translatedUserChinese: Option<string>, score: real, grammar: string, context: string,
    vocabUsage: string, suggestion: string, suggestionPinyin: string,
    suggestionVietnamese: string, userPinyin: string, userVietnamese: string)

  datatype ChatMessage = ChatMessage(
    role: Role, content: string, evaluation: Option<Evaluation>,
    pinyin: Option<string>, vietnamese: Option<string>)

  /** The model's next line. */
  datatype NextMessage = NextMessage(chinese: string, pinyin: string, vietnamese: string)

  datatype Reply = Reply(evaluation: Evaluation, nextMessage: NextMessage)

  /** One entry of the history sent to the model: role and text only. */
  datatype Turn = Turn(role: Role, content: string)

  /** What `generateReflexResponse` is called with. */
  datatype ReflexRequest = ReflexRequest(history: seq<Turn>, targetWords: seq<string>, scenario: string)

  function ModelMessage(m: NextMessage): ChatMessage {
    ChatMessage(Model, m.chinese, None, Some(m.pinyin), Some(m.vietnamese))
  }

  function UserMessage(text: string): ChatMessage {
    ChatMessage(User, text, None, None, None)
  }

  /** The history as sent to the model (`newHistory.map(...)`). */
  function Turns(history: seq<ChatMessage>): (r: seq<Turn>)
    ensures |r| == |history|
    ensures forall i :: 0 <= i < |history| ==> r[i] == Turn(history[i].role, history[i].content)
  {
    seq(|history|, i requires 0 <= i < |history| => Turn(history[i].role, history[i].content))
  }

  /** A learner message shows the word: in its text or in the model's Chinese rendering
      of it. */
  predicate ShowsWord(m: ChatMessage, word: string) {
    m.role == User
    && (Contains(m.content, word)
        || (m.evaluation.Some? && m.evaluation.value.translatedUserChinese.Some?
            && Contains(m.evaluation.value.translatedUserChinese.value, word)))
  }

  /** `isUsed`: some learner message in the history shows the word. */
  function IsUsed(history: seq<ChatMessage>, word: string): (r: bool)
    ensures r <==> exists i :: 0 <= i < |history| && ShowsWord(history[i], word)
  {
    if history == [] then false
    else if ShowsWord(history[0], word) then true
    else
      var rest := IsUsed(history[1..], word);
      assert forall i :: 1 <= i < |history| ==> history[i] == history[1..][i - 1];
      rest
  }

  /** A word once used stays used as the chat grows. */
  lemma IsUsedGrows(history: seq<ChatMessage>, more: seq<ChatMessage>, word: string)
    requires IsUsed(history, word)
    ensures IsUsed(history + more, word)
  {
    var i :| 0 <= i < |history| && ShowsWord(history[i], word);
    assert (history + more)[i] == history[i];
  }

  class ReflexLab {
    const allWords: seq<Word>
    var selectedWords: seq<string>
    var scenario: string
    var customScenario: string
    var isCustomMode: bool
    var isStarted: bool
    var isThinking: bool
    var userInput: string
    var chatHistory: seq<ChatMessage>

    constructor (words: seq<Word>)
      ensures allWords == words && selectedWords == [] && scenario == FirstPreset
      ensures customScenario == [] && !isCustomMode && !isStarted && !isThinking
      ensures userInput == [] && chatHistory == []
    {
      allWords := words;
      selectedWords := [];
      scenario := FirstPreset;
      customScenario := [];
      isCustomMode := false;
      isStarted := false;
      isThinking := false;
      userInput := [];
      chatHistory := [];
    }

    /** `toggleWord`. */
    method ToggleWord(c: string)
      modifies this`selectedWords
      ensures selectedWords == Toggle(old(selectedWords), c)
    {
      selectedWords := Toggle(selectedWords, c);
    }

    /** `handleSmartSelect`: the first five difficult words replace the selection. */
    method SmartSelect()
      modifies this`selectedWords
      ensures selectedWords == PickDifficult(allWords, 5)
    {
      selectedWords := PickDifficult(allWords, 5);
    }

    /** Typing into the message field. */
    method SetInput(text: string)
      modifies this`userInput
      ensures userInput == text
    {
      userInput := text;
    }

    /** `handleStart` up to the call to the model. An empty selection is replaced by the
        smart pick, but the request still carries the selection as it was when Start was
        pressed, since the state update is not visible until the next render. The
        scenario is the preset, or the trimmed custom text with the free-talk fallback. */
    method Start() returns (request: ReflexRequest)
      modifies this`selectedWords, this`isStarted, this`isThinking
      ensures request == ReflexRequest([], old(selectedWords), ChosenScenario(isCustomMode, customScenario, scenario, FreeTalk))
      ensures selectedWords == if old(selectedWords) == [] then PickDifficult(allWords, 5) else old(selectedWords)
      ensures isStarted && isThinking
    {
      var shown := selectedWords;
      if selectedWords == [] {
        SmartSelect();
      }
      var finalScenario := ChosenScenario(isCustomMode, customScenario, scenario, FreeTalk);
      isStarted, isThinking := true, true;
      request := ReflexRequest([], shown, finalScenario);
    }

    /** The rest of `handleStart`: a reply opens the chat with the model's first line. */
    method OnStartReply(reply: Option<Reply>)
      modifies this`chatHistory, this`isThinking
      ensures chatHistory == if reply.Some? then [ModelMessage(reply.value.nextMessage)] else old(chatHistory)
      ensures !isThinking
    {
      if reply.Some? {
        chatHistory := [ModelMessage(reply.value.nextMessage)];
      }
      isThinking := false;
    }

    /** `handleSend` up to the call to the model. A blank message, or one sent while a
        reply is pending, does nothing. Otherwise the field is cleared and exactly one
        learner message, the trimmed text, is appended; the request carries the whole
        history and the scenario exactly as typed (no trimming, no fallback). */
    method Send() returns (request: Option<ReflexRequest>)
      modifies this`userInput, this`chatHistory, this`isThinking
      ensures IsBlank(old(userInput)) || old(isThinking) ==>
        request == None && userInput == old(userInput)
        && chatHistory == old(chatHistory) && isThinking == old(isThinking)
      ensures !IsBlank(old(userInput)) && !old(isThinking) ==>
        && userInput == [] && isThinking
        && chatHistory == old(chatHistory) + [UserMessage(Trim(old(userInput)))]
        && request == Some(ReflexRequest(Turns(chatHistory), selectedWords,
                                         if isCustomMode then customScenario else scenario))
    {
      if Trim(userInput) == [] || isThinking {
        return None;
      }
      var userMsg := Trim(userInput);
      userInput := [];
      var newHistory := chatHistory + [UserMessage(userMsg)];
      chatHistory := newHistory;
      isThinking := true;
      var finalScenario := if isCustomMode then customScenario else scenario;
      request := Some(ReflexRequest(Turns(newHistory), selectedWords, finalScenario));
    }

    /** The rest of `handleSend`. `sent` is the history built when the message was sent.
        A reply attaches its evaluation to the last message of it and appends the model's
        next line; a failed call leaves the history alone. Either way the wait is over. */
    method OnSendReply(sent: seq<ChatMessage>, reply: Option<Reply>)
      requires sent != []
      modifies this`chatHistory, this`isThinking
      ensures reply.Some? ==>
        chatHistory == sent[..|sent| - 1]
          + [sent[|sent| - 1].(evaluation := Some(reply.value.evaluation)), ModelMessage(reply.value.nextMessage)]
      ensures reply.None? ==> chatHistory == old(chatHistory)
      ensures !isThinking
    {
      if reply.Some? {
        var updated := sent[..|sent| - 1] + [sent[|sent| - 1].(evaluation := Some(reply.value.evaluation))];
        chatHistory := updated + [ModelMessage(reply.value.nextMessage)];
      }
      isThinking := false;
    }
  }

  /** One exchange: sending a non-blank message and getting a reply grows the chat by
      two, the learner's trimmed message (now evaluated) and the model's line; a failed
      call grows it by one. */
  method Exchange(words: seq<Word>, opening: Option<Reply>, text: string, reply: Option<Reply>)
    returns (before: seq<ChatMessage>, after: seq<ChatMessage>)
    requires !IsBlank(text)
    ensures reply.Some? ==> |after| == |before| + 2
    ensures reply.None? ==> |after| == |before| + 1
    ensures after[|before|].role == User && after[|before|].content == Trim(text)
    ensures reply.Some? ==> after[|before|].evaluation == Some(reply.value.evaluation) && after[|before| + 1].role == Model
  {
    var lab := new ReflexLab(words);
    var startRequest := lab.Start();
    lab.OnStartReply(opening);
    before := lab.chatHistory;
    lab.SetInput(text);
    var request := lab.Send();
    var sent := lab.chatHistory;
    lab.OnSendReply(sent, reply);
    after := lab.chatHistory;
  }

  /** A word typed in a message counts as used once that message is in the chat. */
  lemma SentWordIsUsed(history: seq<ChatMessage>, text: string, word: string)
    requires Contains(Trim(text), word)
    ensures IsUsed(history + [UserMessage(Trim(text))], word)
  {
    var h := history + [UserMessage(Trim(text))];
    assert ShowsWord(h[|history|], word);
  }
}
