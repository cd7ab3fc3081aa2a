/** The review session of `ReviewSession.tsx`: a growable queue of words, the current
    position, the check/grade cycle, a first-grade-wins result list and the set of ids
    passed with a grade other than `again`. */
module Session {
  import opened Wrappers
  import opened Vocabulary
  import opened Text
  import Scheduler

  /** Some result for `id` is recorded already (`finalResults.some(r => r.id === id)`). */
  predicate HasResult(results: seq<ReviewResult>, id: string) {
    exists i :: 0 <= i < |results| && results[i].id == id
  }

  /** The result list a sequence of grades leaves behind: the first grade of each id,
      in the order ids were first graded. */
  function FirstGrades(grades: seq<ReviewResult>): seq<ReviewResult>
    decreases |grades|
  {
    if grades == [] then []
    else
      var earlier := FirstGrades(grades[..|grades| - 1]);
      var last := grades[|grades| - 1];
      if HasResult(earlier, last.id) then earlier else earlier + [last]
  }

  /** No two results share an id. */
  predicate UniqueIds(results: seq<ReviewResult>) {
    forall i, j :: 0 <= i < j < |results| ==> results[i].id != results[j].id
  }

  /** Looking up an id in a list extended at the end. */
  lemma {:induction false} FindResultAppend(s: seq<ReviewResult>, x: ReviewResult, id: string)
    ensures Scheduler.FindResult(s + [x], id) ==
      if Scheduler.FindResult(s, id).Some? then Scheduler.FindResult(s, id)
      else if x.id == id then Some(x.grade) else None
  {
    if s != [] {
      assert (s + [x])[1..] == s[1..] + [x];
      FindResultAppend(s[1..], x, id);
    }
  }

  /** The recorded list has one entry per graded id, and that entry carries the first
      grade the id received. */
  lemma {:induction false} FirstGradesKeepsFirst(grades: seq<ReviewResult>)
    ensures UniqueIds(FirstGrades(grades))
    ensures forall id :: Scheduler.FindResult(FirstGrades(grades), id) == Scheduler.FindResult(grades, id)
    decreases |grades|
  {
    if grades != [] {
      var init := grades[..|grades| - 1];
      var last := grades[|grades| - 1];
      assert grades == init + [last];
      FirstGradesKeepsFirst(init);
      var earlier := FirstGrades(init);
      forall id ensures Scheduler.FindResult(FirstGrades(grades), id) == Scheduler.FindResult(grades, id) {
        FindResultAppend(init, last, id);
        FindResultAppend(earlier, last, id);
      }
    }
  }

  /** The ids of a word list. */
  function Ids(words: seq<Word>): set<string> {
    set i | 0 <= i < |words| :: words[i].id
  }

  lemma {:induction false} IdsBound(words: seq<Word>)
    ensures |Ids(words)| <= |words|
  {
    if words != [] {
      IdsBound(words[1..]);
      assert Ids(words) == Ids(words[1..]) + {words[0].id} by {
        forall x | x in Ids(words) ensures x in Ids(words[1..]) + {words[0].id} {
          var i :| 0 <= i < |words| && words[i].id == x;
          if i > 0 { assert words[1..][i - 1].id == x; }
        }
      }
    }
  }

  /** The ids passed in a sequence of grades: those graded something other than `again`. */
  function PassedIds(grades: seq<ReviewResult>): set<string>
    decreases |grades|
  {
    if grades == [] then {}
    else
      var last := grades[|grades| - 1];
      PassedIds(grades[..|grades| - 1]) + if last.grade != Again then {last.id} else {}
  }

  lemma FirstGradesAppend(grades: seq<ReviewResult>, g: ReviewResult)
    ensures FirstGrades(grades + [g]) ==
      if HasResult(FirstGrades(grades), g.id) then FirstGrades(grades) else FirstGrades(grades) + [g]
  {
    assert (grades + [g])[..|grades|] == grades;
  }

  lemma PassedIdsAppend(grades: seq<ReviewResult>, g: ReviewResult)
    ensures PassedIds(grades + [g]) == PassedIds(grades) + (if g.grade != Again then {g.id} else {})
  {
    assert (grades + [g])[..|grades|] == grades;
  }

  /** A percentage of passed words: `count / total * 100`, between 0 and 100 and growing
      with `count`. */
  lemma PercentBounds(count: nat, more: nat, total: nat)
    requires count <= more <= total && total > 0
    ensures 0.0 <= (count as real / total as real) * 100.0 <= (more as real / total as real) * 100.0 <= 100.0
  {
    var t := total as real;
    assert count as real / t <= more as real / t;
    assert more as real / t <= 1.0;
  }

  /** The queue is the starting list followed by re-queued copies of its words, and the
      position is inside it (or the list is empty). */
  ghost predicate QueueInvariant(start: seq<Word>, queue: seq<Word>, index: nat) {
    && |start| <= |queue|
    && queue[..|start|] == start
    && (forall i :: |start| <= i < |queue| ==> queue[i] in start)
    && (index < |queue| || (queue == [] && index == 0))
  }

  /** The result list is the first grade per id, the completed ids are the passed
      ones, and every grade was given to one of the session's words. */
  ghost predicate GradesInvariant(start: seq<Word>, results: seq<ReviewResult>, completed: set<string>, grades: seq<ReviewResult>) {
    && results == FirstGrades(grades)
    && completed == PassedIds(grades)
    && completed <= Ids(start)
    && (forall k :: 0 <= k < |grades| ==> grades[k].id in Ids(start))
  }

  /** The ids that have a result. */
  function ResultIds(results: seq<ReviewResult>): set<string> {
    set i | 0 <= i < |results| :: results[i].id
  }

  /** Every recorded result is one of the grades given. */
  lemma {:induction false} FirstGradesFrom(grades: seq<ReviewResult>)
    ensures forall i :: 0 <= i < |FirstGrades(grades)| ==> FirstGrades(grades)[i] in grades
    decreases |grades|
  {
    if grades != [] {
      var init := grades[..|grades| - 1];
      FirstGradesFrom(init);
      forall i | 0 <= i < |FirstGrades(grades)| ensures FirstGrades(grades)[i] in grades {
        if i < |FirstGrades(init)| {
          assert FirstGrades(grades)[i] == FirstGrades(init)[i];
          var k :| 0 <= k < |init| && init[k] == FirstGrades(init)[i];
          assert grades[k] == init[k];
        } else {
          assert FirstGrades(grades)[i] == grades[|grades| - 1];
        }
      }
    }
  }

  /** A list with unique ids has as many ids as entries. */
  lemma {:induction false} UniqueIdsCount(results: seq<ReviewResult>)
    requires UniqueIds(results)
    ensures |ResultIds(results)| == |results|
    decreases |results|
  {
    if results != [] {
      var init := results[..|results| - 1];
      var last := results[|results| - 1];
      assert UniqueIds(init) by {
        forall i, j | 0 <= i < j < |init| ensures init[i].id != init[j].id {
          assert init[i] == results[i] && init[j] == results[j];
        }
      }
      UniqueIdsCount(init);
      assert ResultIds(results) == ResultIds(init) + {last.id} by {
        forall x | x in ResultIds(results) ensures x in ResultIds(init) + {last.id} {
          var i :| 0 <= i < |results| && results[i].id == x;
          if i < |init| { assert init[i] == results[i]; }
        }
        forall x | x in ResultIds(init) ensures x in ResultIds(results) {
          var i :| 0 <= i < |init| && init[i].id == x;
          assert results[i] == init[i];
        }
      }
      assert last.id !in ResultIds(init) by {
        forall i | 0 <= i < |init| ensures init[i].id != last.id {
          assert init[i] == results[i];
        }
      }
    }
  }

  /** Every recorded result belongs to a starting word. */
  lemma ResultsInStart(start: seq<Word>, results: seq<ReviewResult>, completed: set<string>, grades: seq<ReviewResult>)
    requires GradesInvariant(start, results, completed, grades)
    ensures forall r :: r in results ==> r.id in Ids(start)
  {
    FirstGradesFrom(grades);
    forall r | r in results ensures r.id in Ids(start) {
      var i :| 0 <= i < |results| && results[i] == r;
      var k :| 0 <= k < |grades| && grades[k] == r;
    }
  }

  /** The results a finished session hands over: one for every starting word, none for
      any other id, and one per distinct starting id. */
  predicate OnePerStartWord(results: seq<ReviewResult>, start: seq<Word>) {
    && (forall w :: w in start ==> HasResult(results, w.id))
    && (forall r :: r in results ==> r.id in Ids(start))
    && |results| == |Ids(start)|
  }

  /** Once every starting word has a result, the results are exactly one per distinct
      starting id. */
  lemma FinishedResults(start: seq<Word>, results: seq<ReviewResult>, completed: set<string>, grades: seq<ReviewResult>)
    requires GradesInvariant(start, results, completed, grades)
    requires forall w :: w in start ==> HasResult(results, w.id)
    ensures OnePerStartWord(results, start)
  {
    ResultsInStart(start, results, completed, grades);
    assert ResultIds(results) == Ids(start) by {
      forall x | x in ResultIds(results) ensures x in Ids(start) {
        var i :| 0 <= i < |results| && results[i].id == x;
        assert results[i] in results;
      }
      forall x | x in Ids(start) ensures x in ResultIds(results) {
        var k :| 0 <= k < |start| && start[k].id == x;
        assert start[k] in start;
        var i :| 0 <= i < |results| && results[i].id == x;
      }
    }
    FirstGradesKeepsFirst(grades);
    UniqueIdsCount(results);
  }

  /** Every queue position before `index` has been graded: its id has a result. */
  ghost predicate GradedUpTo(results: seq<ReviewResult>, queue: seq<Word>, index: nat) {
    forall i :: 0 <= i < index && i < |queue| ==> HasResult(results, queue[i].id)
  }

  /** Results that only grow and a queue that only grows keep the graded positions
      graded. */
  lemma GradedKeep(results: seq<ReviewResult>, queue: seq<Word>, index: nat,
                   results': seq<ReviewResult>, queue': seq<Word>, g: ReviewResult)
    requires GradedUpTo(results, queue, index) && index <= |queue|
    requires results' == results || results' == results + [g]
    requires queue' == queue || (|queue'| == |queue| + 1 && queue'[..|queue|] == queue)
    ensures GradedUpTo(results', queue', index)
  {
    forall i | 0 <= i < index && i < |queue'| ensures HasResult(results', queue'[i].id) {
      assert queue'[i] == queue[i] by {
        if queue' != queue { assert queue'[..|queue|][i] == queue[i]; }
      }
      var k :| 0 <= k < |results| && results[k].id == queue[i].id;
      assert results'[k] == results[k];
    }
  }

  /** Grading the word at `index` extends the graded prefix by one. */
  lemma GradedExtend(results: seq<ReviewResult>, queue: seq<Word>, index: nat)
    requires GradedUpTo(results, queue, index) && index < |queue|
    requires HasResult(results, queue[index].id)
    ensures GradedUpTo(results, queue, index + 1)
  {
  }

  /** Once the position has reached the last starting word and that word is graded,
      every starting word has a result. */
  lemma AllGraded(start: seq<Word>, queue: seq<Word>, index: nat, results: seq<ReviewResult>)
    requires QueueInvariant(start, queue, index) && GradedUpTo(results, queue, index)
    requires index < |queue| && HasResult(results, queue[index].id) && |start| <= index + 1
    ensures forall w :: w in start ==> HasResult(results, w.id)
  {
    forall w | w in start ensures HasResult(results, w.id) {
      var k :| 0 <= k < |start| && start[k] == w;
      assert queue[k] == queue[..|start|][k];
    }
  }

  /** The three invariants together, over the session's values. */
  ghost predicate SessionInvariant(start: seq<Word>, queue: seq<Word>, index: nat, results: seq<ReviewResult>,
                                   completed: set<string>, grades: seq<ReviewResult>) {
    && QueueInvariant(start, queue, index)
    && GradesInvariant(start, results, completed, grades)
    && GradedUpTo(results, queue, index)
  }

  /** Recording grade `g` for the word `w` at `index` keeps all three invariants, and
      leaves that word graded. */
  lemma RecordStep(start: seq<Word>, queue: seq<Word>, index: nat, results: seq<ReviewResult>,
                   completed: set<string>, grades: seq<ReviewResult>, w: Word, g: ReviewResult,
                   queue': seq<Word>, results': seq<ReviewResult>, completed': set<string>)
    requires SessionInvariant(start, queue, index, results, completed, grades) && index < |queue|
    requires w == queue[index] && g.id == w.id
    requires results' == if HasResult(results, w.id) then results else results + [g]
    requires queue' == if g.grade == Again then queue + [w] else queue
    requires completed' == if g.grade == Again then completed else completed + {w.id}
    ensures SessionInvariant(start, queue', index, results', completed', grades + [g])
    ensures index < |queue'| && queue'[index] == w && HasResult(results', w.id)
  {
    QueueStep(start, queue, index, queue', index);
    QueueEntryInStart(start, queue, index);
    GradesStep(start, results, completed, grades, w, g.grade, results', completed', grades + [g]);
    GradedKeep(results, queue, index, results', queue', g);
    assert HasResult(results', w.id) by {
      if !HasResult(results, w.id) { assert results'[|results|] == g; }
    }
  }

  lemma QueueStep(start: seq<Word>, queue: seq<Word>, index: nat, queue': seq<Word>, index': nat)
    requires QueueInvariant(start, queue, index) && index < |queue|
    requires queue' == queue || queue' == queue + [queue[index]]
    requires index' == index || index' == index + 1 < |queue|
    ensures QueueInvariant(start, queue', index')
  {
    assert queue'[..|start|] == queue[..|start|];
    forall i | |start| <= i < |queue'| ensures queue'[i] in start {
      if i < |queue| {
        assert queue'[i] == queue[i];
      } else {
        assert queue'[i] == queue[index];
        QueueEntryInStart(start, queue, index);
      }
    }
  }

  /** Every queue entry is one of the starting words. */
  lemma QueueEntryInStart(start: seq<Word>, queue: seq<Word>, index: nat)
    requires QueueInvariant(start, queue, index) && index < |queue|
    ensures queue[index] in start
  {
    if index < |start| {
      assert queue[index] == queue[..|start|][index];
    }
  }

  lemma GradesStep(start: seq<Word>, results: seq<ReviewResult>, completed: set<string>, grades: seq<ReviewResult>,
                   w: Word, grade: Grade, results': seq<ReviewResult>, completed': set<string>, grades': seq<ReviewResult>)
    requires GradesInvariant(start, results, completed, grades) && w in start
    requires results' == if HasResult(results, w.id) then results else results + [ReviewResult(w.id, grade)]
    requires completed' == if grade == Again then completed else completed + {w.id}
    requires grades' == grades + [ReviewResult(w.id, grade)]
    ensures GradesInvariant(start, results', completed', grades')
  {
    var g := ReviewResult(w.id, grade);
    FirstGradesAppend(grades, g);
    PassedIdsAppend(grades, g);
    var k :| 0 <= k < |start| && start[k] == w;
    assert w.id in Ids(start);
    assert forall i :: 0 <= i < |grades| ==> grades'[i] == grades[i];
  }

  /** What a key press does (`handleKeyDown`). */
  datatype KeyCommand = Ignore | Check | GradeWith(grade: Grade)

  /** Keys are ignored while a recording runs or is evaluated; before the check Enter
      checks; after it Space grades again, Enter good, 1 hard and 2 easy. */
  function KeyAction(key: string, isChecked: bool, isProcessing: bool, isRecording: bool): (a: KeyCommand)
    ensures (isProcessing || isRecording) ==> a == Ignore
    ensures a == Check <==> !isProcessing && !isRecording && !isChecked && key == "Enter"
    ensures a == GradeWith(Again) <==> !isProcessing && !isRecording && isChecked && key == " "
    ensures a == GradeWith(Good) <==> !isProcessing && !isRecording && isChecked && key == "Enter"
    ensures a == GradeWith(Hard) <==> !isProcessing && !isRecording && isChecked && key == "1"
    ensures a == GradeWith(Easy) <==> !isProcessing && !isRecording && isChecked && key == "2"
  {
    if isProcessing || isRecording then Ignore
    else if !isChecked then (if key == "Enter" then Check else Ignore)
    else if key == " " then GradeWith(Again)
    else if key == "Enter" then GradeWith(Good)
    else if key == "1" then GradeWith(Hard)
    else if key == "2" then GradeWith(Easy)
    else Ignore
  }

  /** One review session over `wordsToReview`. */
  class ReviewSession {
    const wordsToReview: seq<Word>
    var sessionWords: seq<Word>
    var currentIndex: nat
    var userInput: string
    var isChecked: bool
    var isCorrect: bool
    var finalResults: seq<ReviewResult>
    var completedIds: set<string>
    /** Every grade given so far, in order. */
    ghost var grades: seq<ReviewResult>

    /** The session invariant: the queue is the starting list followed by re-queued
        copies; the position is in the queue; the result list is the first grade per id;
        the completed ids are those passed; every grade, and so every result, is for one
        of the starting words; every position before the current one has a result. */
    ghost predicate Valid()
      reads this
    {
      SessionInvariant(wordsToReview, sessionWords, currentIndex, finalResults, completedIds, grades)
    }

    /** A session opens on the first word of the list, unchecked. */
    constructor (words: seq<Word>)
      ensures Valid()
      ensures wordsToReview == words && sessionWords == words && currentIndex == 0
      ensures userInput == [] && !isChecked && !isCorrect
      ensures finalResults == [] && completedIds == {} && grades == []
    {
      wordsToReview := words;
      sessionWords := words;
      currentIndex := 0;
      userInput := [];
      isChecked, isCorrect := false, false;
      finalResults := [];
      completedIds := {};
      grades := [];
    }

    /** The word on screen. */
    function CurrentWord(): Word
      reads this
      requires currentIndex < |sessionWords|
    {
      sessionWords[currentIndex]
    }

    /** The recorded list never holds two results for one id, and each carries the
        first grade its id received in the session. */
    lemma ResultsKeepFirstGrade()
      requires Valid()
      ensures UniqueIds(finalResults)
      ensures forall id :: Scheduler.FindResult(finalResults, id) == Scheduler.FindResult(grades, id)
    {
      FirstGradesKeepsFirst(grades);
    }

    /** Every recorded result belongs to one of the session's starting words. */
    lemma ResultsFromStart()
      requires Valid()
      ensures forall r :: r in finalResults ==> r.id in Ids(wordsToReview)
    {
      ResultsInStart(wordsToReview, finalResults, completedIds, grades);
    }

    /** No more ids are passed than the session has words. */
    lemma CompletedBound()
      requires Valid()
      ensures |completedIds| <= |wordsToReview|
    {
      assert completedIds <= Ids(wordsToReview);
      IdsBound(wordsToReview);
      SubsetCardinality(completedIds, Ids(wordsToReview));
    }

    /** `progressPercent`: the share of the starting words passed, as a percentage,
        always between 0 and 100. */
    function ProgressPercent(): (p: real)
      reads this
      requires Valid() && |wordsToReview| > 0
      ensures 0.0 <= p <= 100.0
    {
      CompletedBound();
      PercentBounds(|completedIds|, |completedIds|, |wordsToReview|);
      (|completedIds| as real / |wordsToReview| as real) * 100.0
    }

    /** Typing into the answer field. */
    method SetInput(text: string)
      requires Valid()
      modifies this`userInput
      ensures Valid() && userInput == text
    {
      userInput := text;
    }

    /** `handleCheck`: a blank answer does nothing; otherwise the answer is checked, and
        it is correct exactly when the trimmed answer equals the word's character. */
    method HandleCheck()
      requires Valid() && currentIndex < |sessionWords|
      modifies this`isChecked, this`isCorrect
      ensures Valid()
      ensures IsBlank(userInput) ==> isChecked == old(isChecked) && isCorrect == old(isCorrect)
      ensures !IsBlank(userInput) ==> isChecked && isCorrect == (Trim(userInput) == CurrentWord().character)
    {
      var answer := Trim(userInput);
      if answer == [] { return; }
      isCorrect := answer == sessionWords[currentIndex].character;
      isChecked := true;
    }

    /** `showHint`: reveal the answer, counted as not correct, whatever was typed. */
    method ShowHint()
      requires Valid()
      modifies this`isChecked, this`isCorrect
      ensures Valid() && isChecked && !isCorrect
    {
      isChecked := true;
      isCorrect := false;
    }

    /** The bookkeeping half of `handleGrade`: record the grade for the word on screen
        and re-queue it on `again`, leaving the position alone. */
    method RecordGrade(grade: Grade)
      requires Valid() && currentIndex < |sessionWords|
      modifies this`sessionWords, this`finalResults, this`completedIds, this`grades
      ensures Valid() && currentIndex < |sessionWords| && HasResult(finalResults, CurrentWord().id)
      ensures grades == old(grades) + [ReviewResult(old(CurrentWord()).id, grade)]
      ensures finalResults == if HasResult(old(finalResults), old(CurrentWord()).id) then old(finalResults)
                              else old(finalResults) + [ReviewResult(old(CurrentWord()).id, grade)]
      ensures sessionWords == if grade == Again then old(sessionWords) + [old(CurrentWord())] else old(sessionWords)
      ensures completedIds == if grade == Again then old(completedIds) else old(completedIds) + {old(CurrentWord()).id}
      ensures currentIndex == old(currentIndex) && userInput == old(userInput)
      ensures isChecked == old(isChecked) && isCorrect == old(isCorrect)
    {
      var word := sessionWords[currentIndex];
      var g := ReviewResult(word.id, grade);
      var results := if HasResult(finalResults, word.id) then finalResults else finalResults + [g];
      var queue := if grade == Again then sessionWords + [word] else sessionWords;
      var passed := if grade == Again then completedIds else completedIds + {word.id};
      RecordStep(wordsToReview, sessionWords, currentIndex, finalResults, completedIds, grades, word, g, queue, results, passed);
      finalResults, sessionWords, completedIds, grades := results, queue, passed, grades + [g];
    }

    /** The moving-on half of `handleGrade`: the next queue entry, with a fresh answer. */
    method NextWord()
      requires Valid() && currentIndex < |sessionWords| - 1 && HasResult(finalResults, CurrentWord().id)
      modifies this`currentIndex, this`userInput, this`isChecked, this`isCorrect
      ensures Valid()
      ensures currentIndex == old(currentIndex) + 1 && userInput == [] && !isChecked && !isCorrect
    {
      QueueStep(wordsToReview, sessionWords, currentIndex, sessionWords, currentIndex + 1);
      GradedExtend(finalResults, sessionWords, currentIndex);
      currentIndex, userInput, isChecked, isCorrect := currentIndex + 1, [], false, false;
    }

    /** `handleGrade`. The first grade for an id is recorded; `again` re-queues a copy of
        the word at the end, any other grade marks the id passed. The test for "advance or
        finish" compares with the queue length from before the re-queue, so grading the
        last entry finishes the session even after `again`. `finished` is the list handed
        to `onFinish`, or `None` when the session moves on. */
    method HandleGrade(grade: Grade) returns (finished: Option<seq<ReviewResult>>)
      requires Valid() && currentIndex < |sessionWords|
      modifies this`sessionWords, this`currentIndex, this`userInput, this`isChecked, this`isCorrect,
               this`finalResults, this`completedIds, this`grades
      ensures Valid()
      ensures grades == old(grades) + [ReviewResult(old(CurrentWord()).id, grade)]
      ensures finalResults == if HasResult(old(finalResults), old(CurrentWord()).id) then old(finalResults)
                              else old(finalResults) + [ReviewResult(old(CurrentWord()).id, grade)]
      ensures sessionWords == if grade == Again then old(sessionWords) + [old(CurrentWord())] else old(sessionWords)
      ensures completedIds == if grade == Again then old(completedIds) else old(completedIds) + {old(CurrentWord()).id}
      ensures old(currentIndex) < old(|sessionWords|) - 1 ==>
        && currentIndex == old(currentIndex) + 1
        && userInput == [] && !isChecked && !isCorrect && finished == None
      ensures old(currentIndex) >= old(|sessionWords|) - 1 ==>
        && currentIndex == old(currentIndex)
        && userInput == old(userInput) && isChecked == old(isChecked) && isCorrect == old(isCorrect)
        && finished == Some(finalResults)
      ensures finished.Some? ==> OnePerStartWord(finished.value, wordsToReview)
      ensures |wordsToReview| > 0 ==> old(ProgressPercent()) <= ProgressPercent()
    {
      var queueLength := |sessionWords|;
      ghost var before := completedIds;
      ghost var recorded := grades + [ReviewResult(CurrentWord().id, grade)];
      RecordGrade(grade);
      assert grades == recorded;
      if |wordsToReview| > 0 {
        CompletedBound();
        SubsetCardinality(before, completedIds);
        PercentBounds(|before|, |completedIds|, |wordsToReview|);
      }
      finished := Advance(queueLength);
    }

    /** The end of `handleGrade`: move on while the graded position was not the last one
        of a queue `queueLength` long, otherwise hand the results over. */
    method Advance(queueLength: nat) returns (finished: Option<seq<ReviewResult>>)
      requires Valid() && currentIndex < queueLength <= |sessionWords| && |wordsToReview| <= queueLength
      requires HasResult(finalResults, CurrentWord().id)
      modifies this`currentIndex, this`userInput, this`isChecked, this`isCorrect
      ensures Valid()
      ensures old(currentIndex) < queueLength - 1 ==>
        && currentIndex == old(currentIndex) + 1
        && userInput == [] && !isChecked && !isCorrect && finished == None
      ensures old(currentIndex) >= queueLength - 1 ==>
        && currentIndex == old(currentIndex)
        && userInput == old(userInput) && isChecked == old(isChecked) && isCorrect == old(isCorrect)
        && finished == Some(finalResults)
      ensures finished.Some? ==> OnePerStartWord(finished.value, wordsToReview)
      ensures sessionWords == old(sessionWords) && finalResults == old(finalResults)
      ensures completedIds == old(completedIds) && grades == old(grades)
    {
      if currentIndex < queueLength - 1 {
        NextWord();
        finished := None;
      } else {
        AllGraded(wordsToReview, sessionWords, currentIndex, finalResults);
        FinishedResults(wordsToReview, finalResults, completedIds, grades);
        finished := Some(finalResults);
      }
    }

    /** `handleKeyDown`: dispatch a key press to the check or a grade. An ignored key
        changes nothing; the check and the grades change the state exactly as
        HandleCheck and HandleGrade do. */
    method HandleKey(key: string, isProcessing: bool, isRecording: bool) returns (finished: Option<seq<ReviewResult>>)
      requires Valid() && currentIndex < |sessionWords|
      modifies this`sessionWords, this`currentIndex, this`userInput, this`isChecked, this`isCorrect,
               this`finalResults, this`completedIds, this`grades
      ensures Valid()
      ensures KeyAction(key, old(isChecked), isProcessing, isRecording) == Ignore ==>
        finished == None && unchanged(this)
      ensures KeyAction(key, old(isChecked), isProcessing, isRecording) == Check ==>
        && finished == None
        && sessionWords == old(sessionWords) && currentIndex == old(currentIndex) && userInput == old(userInput)
        && finalResults == old(finalResults) && completedIds == old(completedIds) && grades == old(grades)
        && (IsBlank(old(userInput)) ==> isChecked == old(isChecked) && isCorrect == old(isCorrect))
        && (!IsBlank(old(userInput)) ==> isChecked && isCorrect == (Trim(old(userInput)) == old(CurrentWord()).character))
      ensures KeyAction(key, old(isChecked), isProcessing, isRecording).GradeWith? ==>
        var grade := KeyAction(key, old(isChecked), isProcessing, isRecording).grade;
        var word := old(CurrentWord());
        && grades == old(grades) + [ReviewResult(word.id, grade)]
        && finalResults == (if HasResult(old(finalResults), word.id) then old(finalResults)
                            else old(finalResults) + [ReviewResult(word.id, grade)])
        && sessionWords == (if grade == Again then old(sessionWords) + [word] else old(sessionWords))
        && completedIds == (if grade == Again then old(completedIds) else old(completedIds) + {word.id})
        && (old(currentIndex) < old(|sessionWords|) - 1 ==>
              currentIndex == old(currentIndex) + 1 && userInput == [] && !isChecked && !isCorrect && finished == None)
        && (old(currentIndex) >= old(|sessionWords|) - 1 ==>
              currentIndex == old(currentIndex) && userInput == old(userInput) && isChecked == old(isChecked)
              && isCorrect == old(isCorrect) && finished == Some(finalResults))
        && (finished.Some? ==> OnePerStartWord(finished.value, wordsToReview))
    {
      match KeyAction(key, isChecked, isProcessing, isRecording) {
        case Ignore => finished := None;
        case Check =>
          HandleCheck();
          finished := None;
        case GradeWith(g) =>
          finished := HandleGrade(g);
      }
    }
  }

  /** One word graded `again`: the copy is queued, yet the session ends at once, because
      the finish test uses the queue length from before the copy was added. */
  method AgainOnLastWordFinishes(w: Word) returns (finished: Option<seq<ReviewResult>>, queue: seq<Word>)
    ensures finished == Some([ReviewResult(w.id, Again)])
    ensures queue == [w, w]
  {
    var session := new ReviewSession([w]);
    finished := session.HandleGrade(Again);
    queue := session.sessionWords;
  }

  /** Two words, the first graded `good` and the second `again`: the session moves to the
      second word, then finishes with both first grades recorded and the second word
      re-queued but never shown again. */
  method GoodThenAgain(a: Word, b: Word) returns (results: seq<ReviewResult>, queue: seq<Word>, passed: set<string>)
    requires a.id != b.id
    ensures results == [ReviewResult(a.id, Good), ReviewResult(b.id, Again)]
    ensures queue == [a, b, b]
    ensures passed == {a.id}
  {
    var session := GradedFirstGood(a, b);
    assert !HasResult(session.finalResults, b.id);
    var second := session.HandleGrade(Again);
    results := second.value;
    queue := session.sessionWords;
    passed := session.completedIds;
  }

  /** A session over `a` and `b` after `good` on `a`: it stands on `b`. */
  method GradedFirstGood(a: Word, b: Word) returns (session: ReviewSession)
    ensures fresh(session) && session.Valid()
    ensures session.sessionWords == [a, b] && session.currentIndex == 1 && session.CurrentWord() == b
    ensures session.finalResults == [ReviewResult(a.id, Good)] && session.completedIds == {a.id}
  {
    session := new ReviewSession([a, b]);
    var first := session.HandleGrade(Good);
  }

  lemma SubsetCardinality<T>(a: set<T>, b: set<T>)
    requires a <= b
    ensures |a| <= |b|
  {
    assert b == a + (b - a);
  }
}
