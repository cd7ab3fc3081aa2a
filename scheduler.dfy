/** The review scheduler of `handleReviewFinish`: a grade moves a word's mastery level
    and pushes its due date forward by a fixed interval. */
module Scheduler {
  import opened Wrappers
  import opened Vocabulary

  /** Milliseconds in a day: `24 * 60 * 60 * 1000`. */
  const DayMs: nat := 24 * 60 * 60 * 1000

  /** Highest mastery level. */
  const MaxLevel: int := 5

  /** The review interval in days for each grade. */
  function IntervalDays(g: Grade): real {
    match g
    case Again => 0.5
    case Hard => 1.0
    case Good => 3.0
    case Easy => 7.0
  }

  /** The interval in whole milliseconds: every interval is an exact number of them. */
  function IntervalMs(g: Grade): (ms: nat)
    ensures ms as real == IntervalDays(g) * DayMs as real
    ensures ms > 0
  {
    match g
    case Again => 43_200_000
    case Hard => 86_400_000
    case Good => 259_200_000
    case Easy => 604_800_000
  }

  function RealMax(a: real, b: real): real { if a >= b then a else b }
  function RealMin(a: real, b: real): real { if a <= b then a else b }
  function IntMin(a: int, b: int): int { if a <= b then a else b }
  function IntMax(a: int, b: int): int { if a >= b then a else b }

  /** The level as the `switch` computes it, before flooring. */
  function RawLevel(level: int, g: Grade): real {
    match g
    case Again => RealMax(0.0, level as real - 1.0)
    case Hard => RealMin(MaxLevel as real, level as real + 0.5)
    case Good => RealMin(MaxLevel as real, level as real + 1.0)
    case Easy => RealMin(MaxLevel as real, level as real + 2.0)
  }

  /** The stored level `Math.floor(newLevel)`: `again` lowers by one with a floor of 0,
      `hard` keeps an integer level (capped at 5), `good` and `easy` raise by 1 and 2
      with a cap of 5; levels in [0, 5] stay in [0, 5]. */
  function NextLevel(level: int, g: Grade): (r: int)
    ensures g == Again ==> r == IntMax(0, level - 1)
    ensures g == Hard ==> r == IntMin(MaxLevel, level)
    ensures g == Good ==> r == IntMin(MaxLevel, level + 1)
    ensures g == Easy ==> r == IntMin(MaxLevel, level + 2)
    ensures 0 <= level <= MaxLevel ==> 0 <= r <= MaxLevel
  {
    var x := RawLevel(level, g);
    assert g == Hard ==> x == IntMin(MaxLevel, level) as real || x == level as real + 0.5;
    x.Floor
  }

  /** One graded word: only `level` and `nextReviewDate` change; the new due date is
      `now` plus the grade's interval, so it lies strictly after `now`. */
  function Schedule(w: Word, g: Grade, now: int): (r: Word)
    ensures r.level == NextLevel(w.level, g)
    ensures r.nextReviewDate == Some(now + IntervalMs(g))
    ensures DueKey(r) > now
    ensures r.(level := w.level, nextReviewDate := w.nextReviewDate) == w
  {
    w.(level := NextLevel(w.level, g), nextReviewDate := Some(now + IntervalMs(g)))
  }

  /** With `now` fixed, the due dates are ordered again < hard < good < easy. */
  lemma DueDatesOrdered(w: Word, now: int)
    ensures DueKey(Schedule(w, Again, now)) < DueKey(Schedule(w, Hard, now))
    ensures DueKey(Schedule(w, Hard, now)) < DueKey(Schedule(w, Good, now))
    ensures DueKey(Schedule(w, Good, now)) < DueKey(Schedule(w, Easy, now))
  {
  }

  /** `results.find(r => r.id === id)?.grade`: the grade of the first result for `id`. */
  function FindResult(results: seq<ReviewResult>, id: string): (r: Option<Grade>)
    ensures r == None <==> forall i :: 0 <= i < |results| ==> results[i].id != id
    ensures r.Some? ==> exists i :: 0 <= i < |results| && results[i] == ReviewResult(id, r.value)
                                   && forall j :: 0 <= j < i ==> results[j].id != id
  {
    if results == [] then None
    else if results[0].id == id then Some(results[0].grade)
    else
      var r := FindResult(results[1..], id);
      assert forall i :: 1 <= i < |results| ==> results[i] == results[1..][i - 1];
      assert r.Some? ==> exists i :: 0 <= i < |results| && results[i] == ReviewResult(id, r.value)
                                     && forall j :: 0 <= j < i ==> results[j].id != id by {
        if r.Some? {
          var i :| 0 <= i < |results[1..]| && results[1..][i] == ReviewResult(id, r.value)
                   && forall j :: 0 <= j < i ==> results[1..][j].id != id;
          assert results[i + 1] == ReviewResult(id, r.value);
          assert forall j :: 0 <= j < i + 1 ==> results[j].id != id by {
            forall j | 0 <= j < i + 1 ensures results[j].id != id {
              if j > 0 { assert results[j] == results[1..][j - 1]; }
            }
          }
        }
      }
      r
  }

  /** What `handleReviewFinish` does to one word: unchanged without a result, otherwise
      scheduled by the first matching result at clock reading `now`. */
  function Review(w: Word, results: seq<ReviewResult>, now: int): (r: Word)
    ensures r.(level := w.level, nextReviewDate := w.nextReviewDate) == w
    ensures FindResult(results, w.id).None? ==> r == w
    ensures FindResult(results, w.id).Some? ==>
      r.level == NextLevel(w.level, FindResult(results, w.id).value) && DueKey(r) > now
    ensures 0 <= w.level <= MaxLevel ==> 0 <= r.level <= MaxLevel
  {
    match FindResult(results, w.id)
    case None => w
    case Some(g) => Schedule(w, g, now)
  }

  /** `handleReviewFinish`'s `words.map(...)`. `clock[i]` is the `Date.now()` reading taken
      while mapping word `i`. The list keeps its length and order; a word with no result
      is unchanged; a graded word is rescheduled by its first result. */
  function ReviewFinish(words: seq<Word>, results: seq<ReviewResult>, clock: seq<int>): (r: seq<Word>)
    requires |clock| == |words|
    ensures |r| == |words|
    ensures forall i :: 0 <= i < |words| ==> r[i].id == words[i].id
    ensures forall i :: 0 <= i < |words| ==>
      match FindResult(results, words[i].id)
      case None => r[i] == words[i]
      case Some(g) => r[i] == Schedule(words[i], g, clock[i])
  {
    if words == [] then []
    else
      var rest := ReviewFinish(words[1..], results, clock[1..]);
      var r := [Review(words[0], results, clock[0])] + rest;
      assert forall i :: 1 <= i < |words| ==> words[i] == words[1..][i - 1] && clock[i] == clock[1..][i - 1] && r[i] == rest[i - 1];
      r
  }

  /** Every word graded in the session ends with a level in [0, 5] when it started there,
      and a due date after the clock reading of its update. */
  lemma {:induction false} ReviewFinishBounds(words: seq<Word>, results: seq<ReviewResult>, clock: seq<int>, i: nat)
    requires |clock| == |words| && i < |words|
    requires 0 <= words[i].level <= MaxLevel
    ensures 0 <= ReviewFinish(words, results, clock)[i].level <= MaxLevel
    ensures FindResult(results, words[i].id).Some? ==> DueKey(ReviewFinish(words, results, clock)[i]) > clock[i]
  {
    var r := ReviewFinish(words, results, clock);
    match FindResult(results, words[i].id)
    case None =>
    case Some(g) => assert r[i] == Schedule(words[i], g, clock[i]);
  }
}
