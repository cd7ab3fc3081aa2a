/** The conversation lab (`ConversationLab.tsx`): choosing target words and a scenario,
    asking the model for a dialogue, and receiving it. The request is a value handed to
    the caller; the model's answer comes back through `OnGenerated`. */
module Conversation {
  import opened Wrappers
  import opened Vocabulary
  import opened Text
  import opened WordSelection

  const DailyTalk := "Giao tiếp hàng ngày"

  /** One line of a generated dialogue. */
  datatype DialogueLine = DialogueLine(speaker: string, chinese: string, pinyin: string, vietnamese: string)

  /** What `generateConversation` is called with. */
  datatype GenerateRequest = GenerateRequest(words: seq<string>, scenario: string)

  class ConversationLab {
    const allWords: seq<Word>
    var selectedWords: seq<string>
    var scenario: string
    var customScenario: string
    var isCustomMode: bool
    var isGenerating: bool
    var dialogue: Option<seq<DialogueLine>>

    /** The lab opens with nothing selected, the everyday-talk preset and no dialogue. */
    constructor (words: seq<Word>)
      ensures allWords == words && selectedWords == [] && scenario == DailyTalk
      ensures customScenario == [] && !isCustomMode && !isGenerating && dialogue == None
    {
      allWords := words;
      selectedWords := [];
      scenario := DailyTalk;
      customScenario := [];
      isCustomMode := false;
      isGenerating := false;
      dialogue := None;
    }

    /** `toggleWord`. */
    method ToggleWord(c: string)
      modifies this`selectedWords
      ensures selectedWords == Toggle(old(selectedWords), c)
    {
      selectedWords := Toggle(selectedWords, c);
    }

    /** `handleMagicSelect`: the first five difficult words replace the selection. */
    method MagicSelect()
      modifies this`selectedWords
      ensures selectedWords == PickDifficult(allWords, 5)
    {
      selectedWords := PickDifficult(allWords, 5);
    }

    /** `handleGenerate` up to the call to the model. The scenario is the preset, or the
        trimmed custom text with the everyday-talk fallback. With an empty selection the
        fallback words become the selection; with no words at all nothing happens and no
        request is made. Otherwise generation starts and the old dialogue is cleared. */
    method Generate() returns (request: Option<GenerateRequest>)
      modifies this`selectedWords, this`isGenerating, this`dialogue
      ensures match WordsToUse(old(selectedWords), allWords)
        case None =>
          request == None && selectedWords == old(selectedWords)
          && isGenerating == old(isGenerating) && dialogue == old(dialogue)
        case Some(words) =>
          && request == Some(GenerateRequest(words, ChosenScenario(isCustomMode, customScenario, scenario, DailyTalk)))
          && selectedWords == words && isGenerating && dialogue == None
    {
      var finalScenario := ChosenScenario(isCustomMode, customScenario, scenario, DailyTalk);
      var wordsToUse := WordsToUse(selectedWords, allWords);
      match wordsToUse {
        case None =>
          request := None;
        case Some(words) =>
          selectedWords, isGenerating, dialogue := words, true, None;
          request := Some(GenerateRequest(words, finalScenario));
      }
    }

    /** The rest of `handleGenerate`: a dialogue that came back is shown; a failed call
        leaves it empty. Either way generation is over. */
    method OnGenerated(result: Option<seq<DialogueLine>>)
      modifies this`isGenerating, this`dialogue
      ensures !isGenerating
      ensures dialogue == if result.Some? then result else old(dialogue)
    {
      if result.Some? {
        dialogue := result;
      }
      isGenerating := false;
    }
  }

  /** Generating from an empty library with nothing selected makes no request; with any
      word in the library it does, with the first three difficult characters, or failing
      those the first three characters of the library. */
  method GenerateFromEmptySelection(words: seq<Word>) returns (request: Option<GenerateRequest>)
    ensures request.None? <==> words == []
    ensures request.Some? ==> 1 <= |request.value.words| <= 3 && request.value.scenario == DailyTalk
    ensures words != [] ==>
      request == Some(GenerateRequest(if DifficultWords(words) != [] then PickDifficult(words, 3) else FirstCharacters(words), DailyTalk))
  {
    var lab := new ConversationLab(words);
    request := lab.Generate();
  }
}
