/** The records the trainer stores: words (flashcards), folders and review grades. */
module Vocabulary {
  import opened Wrappers

  /** A vocabulary entry. Optional fields are `Option`s; `nextReviewDate` is optional
      because entries loaded from a backup may lack it (it then counts as 0). */
  datatype Word = Word(
    id: string,
    character: string,
    pinyin: string,
    meaning: string,
    folderId: Option<string>,
    wordType: Option<string>,
    grammarNote: Option<string>,
    radicalAnalysis: Option<string>,
    example: string,
    examplePinyin: Option<string>,
    exampleTranslation: Option<string>,
    imageUrl: Option<string>,
    level: int,
    nextReviewDate: Option<int>,
    createdAt: int)

  /** A folder words can be filed into. */
  datatype Folder = Folder(id: string, name: string, createdAt: int)

  /** The closed set of recall judgements. */
  datatype Grade = Again | Hard | Good | Easy

  /** The grade recorded for one word id in a review session. */
  datatype ReviewResult = ReviewResult(id: string, grade: Grade)

  /** `(w.nextReviewDate || 0)`: the due date used for sorting and counting. */
  function DueKey(w: Word): int {
    w.nextReviewDate.GetOr(0)
  }

  /** `!w.folderId`: the word is in no folder (absent or empty folder id). */
  predicate IsUnfiled(w: Word) {
    w.folderId == None || w.folderId == Some("")
  }
}
