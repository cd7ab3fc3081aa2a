/** The vocabulary library of `App.tsx`: folder and search filtering, review-list
    selection, the due count and level histogram, folder deletion and word add/edit,
    plus the handler state they act on. */
module Library {
  import opened Wrappers
  import opened Vocabulary
  import opened Text
  import opened Seqs
  import Scheduler

  /** The sentinel folder selection meaning "words in no folder". */
  const Uncategorized: string := "uncategorized"

  /** The folder filter for a selected folder id (`null` is `None`; an empty id, being
      falsy, selects every word like `null`). */
  predicate InFolder(w: Word, selected: Option<string>) {
    if selected == Some(Uncategorized) then IsUnfiled(w)
    else if selected.Some? && selected.value != "" then w.folderId == selected
    else true
  }

  /** The words of the selected folder, in library order. */
  function FolderWords(words: seq<Word>, selected: Option<string>): (r: seq<Word>)
    ensures IsSubsequence(r, words)
    ensures forall i :: 0 <= i < |r| ==> InFolder(r[i], selected) && r[i] in words
    ensures forall i :: 0 <= i < |words| && InFolder(words[i], selected) ==> words[i] in r
    ensures r == [] <==> forall i :: 0 <= i < |words| ==> !InFolder(words[i], selected)
  {
    if selected == Some(Uncategorized) then Filter(words, (w: Word) => IsUnfiled(w))
    else if selected.Some? && selected.value != "" then Filter(words, (w: Word) => w.folderId == selected)
    else
      SubsequenceReflexive(words);
      words
  }

  lemma {:induction false} SubsequenceReflexive<T>(s: seq<T>)
    ensures IsSubsequence(s, s)
  {
    if s != [] { SubsequenceReflexive(s[1..]); }
  }

  /** The search test: the term occurs in the lower-cased character, pinyin or meaning. */
  predicate MatchesTerm(w: Word, term: string) {
    Contains(Lower(w.character), term) || Contains(Lower(w.pinyin), term) || Contains(Lower(w.meaning), term)
  }

  /** `searchTerm.toLowerCase().trim()`: the trimmed search, lower-cased (the two steps
      commute). It is empty exactly when the search is blank, and holds no capital A to Z. */
  function SearchTerm(search: string): (r: string)
    ensures r == Lower(Trim(search))
    ensures IsTrimmed(r)
    ensures r == [] <==> IsBlank(search)
    ensures forall i :: 0 <= i < |r| ==> !('A' <= r[i] <= 'Z')
  {
    LowerTrimCommute(search);
    Trim(Lower(search))
  }

  /** `filteredWords`: an order-preserving sub-list of the library holding exactly the
      words that pass the folder filter and, when the normalised term is non-empty,
      contain it in their character, pinyin or meaning. */
  function FilteredWords(words: seq<Word>, selected: Option<string>, search: string): (r: seq<Word>)
    ensures IsSubsequence(r, words)
    ensures forall i :: 0 <= i < |r| ==>
      InFolder(r[i], selected) && (SearchTerm(search) != [] ==> MatchesTerm(r[i], SearchTerm(search)))
    ensures forall i :: 0 <= i < |words| ==>
      (InFolder(words[i], selected) && (SearchTerm(search) != [] ==> MatchesTerm(words[i], SearchTerm(search))) ==> words[i] in r)
  {
    var inFolder := FolderWords(words, selected);
    var term := SearchTerm(search);
    if term == [] then inFolder
    else
      var r := Filter(inFolder, (w: Word) => MatchesTerm(w, term));
      SubsequenceTransitive(r, inFolder, words);
      r
  }

  /** The review size chosen in the configuration dialog. */
  datatype Limit = All | AtMost(n: nat)

  /** Why `startReview` refuses to start. */
  datatype StartError = EmptyLibrary | NoCandidates

  function LimitSize(limit: Limit, count: nat): nat {
    match limit
    case All => count
    case AtMost(n) => if n < count then n else count
  }

  /** The review list: the candidates sorted by due date, cut to the limit; it is a
      sorted prefix of that order and a sub-multiset of the candidates. */
  function ReviewList(candidates: seq<Word>, limit: Limit): (r: seq<Word>)
    ensures |r| == LimitSize(limit, |candidates|)
    ensures r == SortBy(candidates, DueKey)[..|r|]
    ensures SortedBy(r, DueKey)
    ensures multiset(r) <= multiset(candidates)
    ensures forall i :: 0 <= i < |r| ==> r[i] in candidates
  {
    var sorted := SortBy(candidates, DueKey);
    var r := sorted[..LimitSize(limit, |candidates|)];
    SortedPrefix(sorted, |r|, DueKey);
    PrefixMembers(sorted, |r|, candidates);
    r
  }

  /** `startReview`: refuses an empty library and a folder without words; otherwise the
      folder's words ordered by due date (missing counts as 0), cut to the limit. */
  function StartReview(words: seq<Word>, selected: Option<string>, limit: Limit): (r: Result<seq<Word>, StartError>)
    ensures r == Err(EmptyLibrary) <==> words == []
    ensures r == Err(NoCandidates) <==> words != [] && forall i :: 0 <= i < |words| ==> !InFolder(words[i], selected)
    ensures r.Ok? ==> SortedBy(r.value, DueKey)
    ensures r.Ok? ==> |r.value| == LimitSize(limit, |FolderWords(words, selected)|)
    ensures r.Ok? ==> multiset(r.value) <= multiset(FolderWords(words, selected))
    ensures r.Ok? ==> forall i :: 0 <= i < |r.value| ==> InFolder(r.value[i], selected)
  {
    if words == [] then Err(EmptyLibrary)
    else
      var candidates := FolderWords(words, selected);
      if candidates == [] then
        Err(NoCandidates)
      else
        Ok(ReviewList(candidates, limit))
  }

  /** Nothing the review leaves out is due strictly earlier than anything it takes. */
  lemma ReviewListTakesEarliest(candidates: seq<Word>, limit: Limit, w: Word)
    requires multiset(ReviewList(candidates, limit))[w] < multiset(candidates)[w]
    ensures forall i :: 0 <= i < |ReviewList(candidates, limit)| ==> DueKey(ReviewList(candidates, limit)[i]) <= DueKey(w)
  {
    var r := ReviewList(candidates, limit);
    SortedPrefixEarliest(SortBy(candidates, DueKey), |r|, DueKey, w);
  }

  /** The same for `startReview`: the review takes the earliest-due words of the folder. */
  lemma StartReviewTakesEarliest(words: seq<Word>, selected: Option<string>, limit: Limit, w: Word)
    requires StartReview(words, selected, limit).Ok?
    requires multiset(StartReview(words, selected, limit).value)[w] < multiset(FolderWords(words, selected))[w]
    ensures forall i :: 0 <= i < |StartReview(words, selected, limit).value| ==>
      DueKey(StartReview(words, selected, limit).value[i]) <= DueKey(w)
  {
    ReviewListTakesEarliest(FolderWords(words, selected), limit, w);
  }

  /** `dueCount`: how many words are due at clock reading `now`. */
  function DueCount(words: seq<Word>, now: int): (r: nat)
    ensures r <= |words|
    ensures r == |words| <==> forall i :: 0 <= i < |words| ==> DueKey(words[i]) <= now
  {
    FilterKeepsAll(words, (w: Word) => DueKey(w) <= now);
    |Filter(words, (w: Word) => DueKey(w) <= now)|
  }

  /** As time passes the due count never drops. */
  lemma DueCountMonotone(words: seq<Word>, earlier: int, later: int)
    requires earlier <= later
    ensures DueCount(words, earlier) <= DueCount(words, later)
  {
    FilterLengthMonotone(words, (w: Word) => DueKey(w) <= earlier, (w: Word) => DueKey(w) <= later);
  }

  /** Number of words at exactly level `l`. */
  function LevelCount(words: seq<Word>, l: int): nat {
    |Filter(words, (w: Word) => w.level == l)|
  }

  /** `statsData`'s counts: for each level 0..5 the number of words at that level. */
  function LevelHistogram(words: seq<Word>): (r: seq<nat>)
    ensures |r| == 6
    ensures forall l :: 0 <= l < 6 ==> r[l] == LevelCount(words, l)
  {
    seq(6, l requires 0 <= l < 6 => LevelCount(words, l))
  }

  function Sum(s: seq<nat>): nat {
    if s == [] then 0 else s[0] + Sum(s[1..])
  }

  /** Number of words whose level is outside [0, 5]. */
  function OffScaleCount(words: seq<Word>): nat {
    |Filter(words, (w: Word) => !(0 <= w.level <= 5))|
  }

  lemma LevelCountStep(words: seq<Word>, l: int)
    requires words != []
    ensures LevelCount(words, l) == (if words[0].level == l then 1 else 0) + LevelCount(words[1..], l)
  {
  }

  lemma OffScaleStep(words: seq<Word>)
    requires words != []
    ensures OffScaleCount(words) == (if 0 <= words[0].level <= 5 then 0 else 1) + OffScaleCount(words[1..])
  {
  }

  /** The six bar counts and the off-scale count add up to the library size. */
  lemma {:induction false} BarsTotal(words: seq<Word>)
    ensures LevelCount(words, 0) + LevelCount(words, 1) + LevelCount(words, 2) + LevelCount(words, 3)
          + LevelCount(words, 4) + LevelCount(words, 5) + OffScaleCount(words) == |words|
  {
    if words != [] {
      BarsTotal(words[1..]);
      LevelCountStep(words, 0);
      LevelCountStep(words, 1);
      LevelCountStep(words, 2);
      LevelCountStep(words, 3);
      LevelCountStep(words, 4);
      LevelCountStep(words, 5);
      OffScaleStep(words);
    }
  }

  /** Every word is counted in exactly one bar, unless its level is outside [0, 5]. */
  lemma HistogramTotal(words: seq<Word>)
    ensures Sum(LevelHistogram(words)) + OffScaleCount(words) == |words|
  {
    BarsTotal(words);
    var h := LevelHistogram(words);
    assert Sum(h) == h[0] + Sum(h[1..]);
    assert Sum(h[1..]) == h[1] + Sum(h[2..]);
    assert Sum(h[2..]) == h[2] + Sum(h[3..]);
    assert Sum(h[3..]) == h[3] + Sum(h[4..]);
    assert Sum(h[4..]) == h[4] + Sum(h[5..]);
    assert Sum(h[5..]) == h[5] + Sum(h[6..]);
  }

  /** The word list after deleting folder `id`: exactly the words filed there lose their
      folder; no word is removed or otherwise changed. */
  function UnfileFolder(words: seq<Word>, id: string): (r: seq<Word>)
    ensures |r| == |words|
    ensures forall i :: 0 <= i < |words| ==>
      r[i].folderId == (if words[i].folderId == Some(id) then None else words[i].folderId)
    ensures forall i :: 0 <= i < |words| ==> r[i].(folderId := words[i].folderId) == words[i]
  {
    if words == [] then []
    else
      var w := words[0];
      var rest := UnfileFolder(words[1..], id);
      var r := [if w.folderId == Some(id) then w.(folderId := None) else w] + rest;
      assert forall i :: 1 <= i < |words| ==> words[i] == words[1..][i - 1] && r[i] == rest[i - 1];
      r
  }

  /** After the deletion no word refers to the folder. */
  lemma UnfileFolderEmptiesFolder(words: seq<Word>, id: string)
    ensures forall i :: 0 <= i < |words| ==> UnfileFolder(words, id)[i].folderId != Some(id)
  {
  }

  /** The fields of a `Partial<Word>`: `Some(v)` is a key present with value `v`. */
  datatype WordPatch = WordPatch(
    id: Option<string>,
    character: Option<string>,
    pinyin: Option<string>,
    meaning: Option<string>,
    folderId: Option<Option<string>>,
    wordType: Option<Option<string>>,
    grammarNote: Option<Option<string>>,
    radicalAnalysis: Option<Option<string>>,
    example: Option<string>,
    examplePinyin: Option<Option<string>>,
    exampleTranslation: Option<Option<string>>,
    imageUrl: Option<Option<string>>,
    level: Option<int>,
    nextReviewDate: Option<Option<int>>,
    createdAt: Option<int>)

  /** The patch with no keys: `{}`. */
  function EmptyPatch(): WordPatch {
    WordPatch(None, None, None, None, None, None, None, None, None, None, None, None, None, None, None)
  }

  /** Every key present in `p` has its value in `v`. */
  predicate PresentWins(p: WordPatch, v: Word) {
    && (p.id.Some? ==> v.id == p.id.value)
    && (p.character.Some? ==> v.character == p.character.value)
    && (p.pinyin.Some? ==> v.pinyin == p.pinyin.value)
    && (p.meaning.Some? ==> v.meaning == p.meaning.value)
    && (p.folderId.Some? ==> v.folderId == p.folderId.value)
    && (p.wordType.Some? ==> v.wordType == p.wordType.value)
    && (p.grammarNote.Some? ==> v.grammarNote == p.grammarNote.value)
    && (p.radicalAnalysis.Some? ==> v.radicalAnalysis == p.radicalAnalysis.value)
    && (p.example.Some? ==> v.example == p.example.value)
    && (p.examplePinyin.Some? ==> v.examplePinyin == p.examplePinyin.value)
    && (p.exampleTranslation.Some? ==> v.exampleTranslation == p.exampleTranslation.value)
    && (p.imageUrl.Some? ==> v.imageUrl == p.imageUrl.value)
    && (p.level.Some? ==> v.level == p.level.value)
    && (p.nextReviewDate.Some? ==> v.nextReviewDate == p.nextReviewDate.value)
    && (p.createdAt.Some? ==> v.createdAt == p.createdAt.value)
  }

  /** Every key absent from `p` has the same value in `v` as in `w`. */
  predicate AbsentKept(p: WordPatch, w: Word, v: Word) {
    && (p.id.None? ==> v.id == w.id)
    && (p.character.None? ==> v.character == w.character)
    && (p.pinyin.None? ==> v.pinyin == w.pinyin)
    && (p.meaning.None? ==> v.meaning == w.meaning)
    && (p.folderId.None? ==> v.folderId == w.folderId)
    && (p.wordType.None? ==> v.wordType == w.wordType)
    && (p.grammarNote.None? ==> v.grammarNote == w.grammarNote)
    && (p.radicalAnalysis.None? ==> v.radicalAnalysis == w.radicalAnalysis)
    && (p.example.None? ==> v.example == w.example)
    && (p.examplePinyin.None? ==> v.examplePinyin == w.examplePinyin)
    && (p.exampleTranslation.None? ==> v.exampleTranslation == w.exampleTranslation)
    && (p.imageUrl.None? ==> v.imageUrl == w.imageUrl)
    && (p.level.None? ==> v.level == w.level)
    && (p.nextReviewDate.None? ==> v.nextReviewDate == w.nextReviewDate)
    && (p.createdAt.None? ==> v.createdAt == w.createdAt)
  }

  /** `{ ...w, ...p }`: every key present in the patch wins over the word's field, every
      absent key keeps it, so the empty patch changes nothing. */
  function Merge(w: Word, p: WordPatch): (r: Word)
    ensures PresentWins(p, r)
    ensures AbsentKept(p, w, r)
    ensures p == EmptyPatch() ==> r == w
  {
    Word(
      p.id.GetOr(w.id), p.character.GetOr(w.character), p.pinyin.GetOr(w.pinyin),
      p.meaning.GetOr(w.meaning), p.folderId.GetOr(w.folderId), p.wordType.GetOr(w.wordType),
      p.grammarNote.GetOr(w.grammarNote), p.radicalAnalysis.GetOr(w.radicalAnalysis),
      p.example.GetOr(w.example), p.examplePinyin.GetOr(w.examplePinyin),
      p.exampleTranslation.GetOr(w.exampleTranslation), p.imageUrl.GetOr(w.imageUrl),
      p.level.GetOr(w.level), p.nextReviewDate.GetOr(w.nextReviewDate), p.createdAt.GetOr(w.createdAt))
  }

  /** The patch that sets every field of `w`. */
  function FullPatch(w: Word): WordPatch {
    WordPatch(
      Some(w.id), Some(w.character), Some(w.pinyin), Some(w.meaning), Some(w.folderId),
      Some(w.wordType), Some(w.grammarNote), Some(w.radicalAnalysis), Some(w.example),
      Some(w.examplePinyin), Some(w.exampleTranslation), Some(w.imageUrl), Some(w.level),
      Some(w.nextReviewDate), Some(w.createdAt))
  }

  /** Merging is idempotent, and a patch carrying every field replaces the word outright. */
  lemma MergeLaws(w: Word, v: Word, p: WordPatch)
    ensures Merge(Merge(w, p), p) == Merge(w, p)
    ensures Merge(w, FullPatch(v)) == v
  {
  }

  /** A brand-new word from the add form: fresh id, level 0, due at the first clock
      reading, created at the second; missing text fields become empty strings. */
  function NewWord(p: WordPatch, id: string, dueAt: int, createdAt: int): (w: Word)
    ensures w.id == id && w.level == 0 && w.nextReviewDate == Some(dueAt) && w.createdAt == createdAt
    ensures w.character == p.character.GetOr("") && w.pinyin == p.pinyin.GetOr("")
    ensures w.meaning == p.meaning.GetOr("") && w.example == p.example.GetOr("")
    ensures w.examplePinyin.Some? && w.exampleTranslation.Some?
    ensures p.examplePinyin.Some? && p.examplePinyin.value.Some? ==> w.examplePinyin == p.examplePinyin.value
    ensures (p.examplePinyin.None? || p.examplePinyin.value.None?) ==> w.examplePinyin == Some("")
    ensures p.exampleTranslation.Some? && p.exampleTranslation.value.Some? ==> w.exampleTranslation == p.exampleTranslation.value
    ensures (p.exampleTranslation.None? || p.exampleTranslation.value.None?) ==> w.exampleTranslation == Some("")
    ensures w.folderId == p.folderId.GetOr(None) && w.wordType == p.wordType.GetOr(None)
    ensures w.grammarNote == p.grammarNote.GetOr(None) && w.radicalAnalysis == p.radicalAnalysis.GetOr(None)
    ensures w.imageUrl == p.imageUrl.GetOr(None)
  {
    Word(
      id, p.character.GetOr(""), p.pinyin.GetOr(""), p.meaning.GetOr(""),
      p.folderId.GetOr(None), p.wordType.GetOr(None), p.grammarNote.GetOr(None),
      p.radicalAnalysis.GetOr(None), p.example.GetOr(""),
      Some(p.examplePinyin.GetOr(None).GetOr("")), Some(p.exampleTranslation.GetOr(None).GetOr("")),
      p.imageUrl.GetOr(None), 0, Some(dueAt), createdAt)
  }

  /** The word an empty add form produces. */
  function BlankWord(id: string, dueAt: int, createdAt: int): Word {
    Word(id, "", "", "", None, None, None, None, "", Some(""), Some(""), None, 0, Some(dueAt), createdAt)
  }

  /** For a form that sets none of the fields the handler assigns itself, and leaves no
      example field explicitly undefined, adding is spreading the form over the blank
      word: every field the form fills in is stored as given. */
  lemma NewWordIsBlankMerged(p: WordPatch, id: string, dueAt: int, createdAt: int)
    requires p.id.None? && p.level.None? && p.nextReviewDate.None? && p.createdAt.None?
    requires p.examplePinyin != Some(None) && p.exampleTranslation != Some(None)
    ensures NewWord(p, id, dueAt, createdAt) == Merge(BlankWord(id, dueAt, createdAt), p)
    ensures PresentWins(p, NewWord(p, id, dueAt, createdAt))
  {
  }

  /** `words.map(w => w.id === id ? nw : w)`. */
  function ReplaceById(words: seq<Word>, id: string, nw: Word): (r: seq<Word>)
    ensures |r| == |words|
    ensures forall i :: 0 <= i < |words| ==> r[i] == if words[i].id == id then nw else words[i]
  {
    if words == [] then []
    else
      var rest := ReplaceById(words[1..], id, nw);
      var r := [if words[0].id == id then nw else words[0]] + rest;
      assert forall i :: 1 <= i < |words| ==> words[i] == words[1..][i - 1] && r[i] == rest[i - 1];
      r
  }

  /** The handler state of the application shell that the library operations update. */
  class App {
    var words: seq<Word>
    var folders: seq<Folder>
    var selectedFolderId: Option<string>
    var searchTerm: string
    var editingWord: Option<Word>
    var showAddModal: bool
    var isAddingFolder: bool
    var newFolderName: string
    var reviewLimit: Limit
    var reviewWords: seq<Word>
    var showReviewSession: bool

    /** The state once the store has delivered the saved words and folders. */
    constructor (storedWords: seq<Word>, storedFolders: seq<Folder>)
      ensures words == storedWords && folders == storedFolders
      ensures selectedFolderId == None && searchTerm == [] && editingWord == None
      ensures !showAddModal && !isAddingFolder && newFolderName == []
      ensures reviewLimit == AtMost(20) && reviewWords == [] && !showReviewSession
    {
      words, folders := storedWords, storedFolders;
      selectedFolderId, searchTerm, editingWord := None, [], None;
      showAddModal, isAddingFolder, newFolderName := false, false, [];
      reviewLimit, reviewWords, showReviewSession := AtMost(20), [], false;
    }

    /** `handleAddWord`: edits merge the patch into the word being edited and replace the
        entry with that id; additions prepend a new word. The list changes before the
        store is written; only a successful write closes the form. */
    method AddWord(p: WordPatch, newId: string, dueAt: int, createdAt: int, saved: bool) returns (stored: Word)
      modifies this
      ensures stored == (if old(editingWord).Some? then Merge(old(editingWord).value, p) else NewWord(p, newId, dueAt, createdAt))
      ensures words == (if old(editingWord).Some? then ReplaceById(old(words), old(editingWord).value.id, stored) else [stored] + old(words))
      ensures saved ==> !showAddModal && editingWord == None
      ensures !saved ==> showAddModal == old(showAddModal) && editingWord == old(editingWord)
      ensures folders == old(folders) && selectedFolderId == old(selectedFolderId) && searchTerm == old(searchTerm)
      ensures isAddingFolder == old(isAddingFolder) && newFolderName == old(newFolderName)
      ensures reviewLimit == old(reviewLimit) && reviewWords == old(reviewWords) && showReviewSession == old(showReviewSession)
    {
      if editingWord.Some? {
        stored := Merge(editingWord.value, p);
        words := ReplaceById(words, editingWord.value.id, stored);
      } else {
        stored := NewWord(p, newId, dueAt, createdAt);
        words := [stored] + words;
      }
      if saved {
        showAddModal := false;
        editingWord := None;
      }
    }

    /** `handleDeleteWord`: after confirmation and a successful store delete, every
        entry with the id is dropped. */
    method DeleteWord(id: string, confirmed: bool, deleted: bool)
      modifies this`words
      ensures words == if confirmed && deleted then Filter(old(words), (w: Word) => w.id != id) else old(words)
    {
      if confirmed && deleted {
        words := Filter(words, (w: Word) => w.id != id);
      }
    }

    /** `handleSaveNewFolder`: a blank name just closes the input; otherwise the trimmed
        name becomes a new folder, appended and selected once the store accepts it. */
    method SaveNewFolder(newId: string, now: int, saved: bool)
      modifies this`folders, this`newFolderName, this`isAddingFolder, this`selectedFolderId
      ensures Trim(old(newFolderName)) == [] ==>
        !isAddingFolder && folders == old(folders) && newFolderName == old(newFolderName) && selectedFolderId == old(selectedFolderId)
      ensures Trim(old(newFolderName)) != [] && saved ==>
        && folders == old(folders) + [Folder(newId, Trim(old(newFolderName)), now)]
        && newFolderName == [] && !isAddingFolder && selectedFolderId == Some(newId)
      ensures Trim(old(newFolderName)) != [] && !saved ==>
        folders == old(folders) && newFolderName == old(newFolderName)
        && isAddingFolder == old(isAddingFolder) && selectedFolderId == old(selectedFolderId)
    {
      var trimmed := Trim(newFolderName);
      if trimmed == [] {
        isAddingFolder := false;
        return;
      }
      if saved {
        folders := folders + [Folder(newId, trimmed, now)];
        newFolderName := [];
        isAddingFolder := false;
        selectedFolderId := Some(newId);
      }
    }

    /** `handleDeleteFolder`: after confirmation and a successful store delete the folder
        is dropped, deselected if selected, and its words become unfiled. */
    method DeleteFolder(id: string, confirmed: bool, deleted: bool)
      modifies this`folders, this`selectedFolderId, this`words
      ensures confirmed && deleted ==>
        && folders == Filter(old(folders), (f: Folder) => f.id != id)
        && selectedFolderId == (if old(selectedFolderId) == Some(id) then None else old(selectedFolderId))
        && words == UnfileFolder(old(words), id)
      ensures !(confirmed && deleted) ==>
        folders == old(folders) && selectedFolderId == old(selectedFolderId) && words == old(words)
    {
      if !(confirmed && deleted) { return; }
      folders := Filter(folders, (f: Folder) => f.id != id);
      if selectedFolderId == Some(id) { selectedFolderId := None; }
      words := UnfileFolder(words, id);
    }

    /** `startReview`: on success the review list is set and the session opens; on a
        refusal (an alert in the application) nothing changes. */
    method StartReviewSession() returns (outcome: Result<seq<Word>, StartError>)
      modifies this`reviewWords, this`showReviewSession
      ensures outcome == StartReview(words, selectedFolderId, reviewLimit)
      ensures reviewWords == (if outcome.Ok? then outcome.value else old(reviewWords))
      ensures showReviewSession == (outcome.Ok? || old(showReviewSession))
    {
      var r := StartReview(words, selectedFolderId, reviewLimit);
      if r.Ok? {
        reviewWords, showReviewSession := r.value, true;
      }
      outcome := r;
    }

    /** `handleReviewFinish`: the library is rescheduled from the session's results
        (`clock` holds the per-word clock readings); the session closes only once the
        store write succeeds. */
    method FinishReview(results: seq<ReviewResult>, clock: seq<int>, saved: bool)
      requires |clock| == |words|
      modifies this`words, this`showReviewSession
      ensures words == Scheduler.ReviewFinish(old(words), results, clock)
      ensures showReviewSession == (if saved then false else old(showReviewSession))
    {
      words := Scheduler.ReviewFinish(words, results, clock);
      if saved { showReviewSession := false; }
    }
  }
}
