/** Target-word selection shared by the conversation lab (`ConversationLab.tsx`) and the
    reflex lab (`ReflexLab.tsx`): the difficult-word list, toggling a character in the
    selection, the automatic pick, the fallback used when nothing is selected, and the
    choice of scenario text. */
module WordSelection {
  import opened Wrappers
  import opened Vocabulary
  import opened Text
  import opened Seqs

  function Level(w: Word): int { w.level }

  predicate IsDifficult(w: Word) { w.level <= 1 }

  function Character(w: Word): string { w.character }

  /** `difficultWords`: the library's words of level at most 1, lowest level first; the
      sort is stable, so words of equal level keep their library order. */
  function DifficultWords(words: seq<Word>): (r: seq<Word>)
    ensures SortedBy(r, Level)
    ensures multiset(r) == multiset(Filter(words, IsDifficult))
    ensures forall i :: 0 <= i < |r| ==> r[i].level <= 1 && r[i] in words
    ensures forall i :: 0 <= i < |words| && words[i].level <= 1 ==> words[i] in r
  {
    var kept := Filter(words, IsDifficult);
    var r := SortBy(kept, Level);
    assert forall i :: 0 <= i < |r| ==> r[i] in kept by {
      forall i | 0 <= i < |r| ensures r[i] in kept {
        assert r[i] in multiset(r);
      }
    }
    assert forall w :: w in kept ==> w in r by {
      forall w | w in kept ensures w in r {
        assert w in multiset(kept);
      }
    }
    r
  }

  /** Words of one level appear in the difficult list in their library order; levels
      above 1 do not appear at all. */
  lemma DifficultWordsStable(words: seq<Word>, level: int)
    ensures WithKey(DifficultWords(words), Level, level) == if level <= 1 then WithKey(words, Level, level) else []
  {
    var kept := Filter(words, IsDifficult);
    SortByStable(kept, Level, level);
    if level <= 1 {
      WithKeyOfFilter(words, IsDifficult, Level, level);
    } else {
      WithKeyOfFilterNone(words, IsDifficult, Level, level);
    }
  }

  /** `toggleWord`: a selected character is removed (every copy of it), any other one is
      appended at the end. */
  function Toggle(selected: seq<string>, c: string): (r: seq<string>)
    ensures c in r <==> c !in selected
    ensures forall x :: x != c ==> (x in r <==> x in selected)
    ensures c !in selected ==> r == selected + [c]
    ensures c in selected ==> IsSubsequence(r, selected) && |r| < |selected|
    ensures forall x :: x != c ==> multiset(r)[x] == multiset(selected)[x]
    ensures multiset(r)[c] == if c in selected then 0 else 1
  {
    if c in selected then
      var p := (x: string) => x != c;
      FilterKeepsAll(selected, p);
      FilterCounts(selected, p);
      var k :| 0 <= k < |selected| && selected[k] == c;
      assert !p(selected[k]);
      Filter(selected, p)
    else selected + [c]
  }

  /** Toggling an unselected character twice gives back the selection. */
  lemma ToggleTwice(selected: seq<string>, c: string)
    requires c !in selected
    ensures Toggle(Toggle(selected, c), c) == selected
  {
    var p := (x: string) => x != c;
    FilterAppend(selected, c, p);
    FilterKeepsList(selected, p);
  }

  /** No character is ever selected twice. */
  predicate NoDuplicates(s: seq<string>) {
    forall i, j :: 0 <= i < j < |s| ==> s[i] != s[j]
  }

  /** Toggling keeps a selection free of duplicates. */
  lemma ToggleKeepsNoDuplicates(selected: seq<string>, c: string)
    requires NoDuplicates(selected)
    ensures NoDuplicates(Toggle(selected, c))
  {
    if c in selected {
      SubsequenceNoDuplicates(Toggle(selected, c), selected);
    }
  }

  lemma {:induction false} SubsequenceNoDuplicates(a: seq<string>, b: seq<string>)
    requires IsSubsequence(a, b) && NoDuplicates(b)
    ensures NoDuplicates(a)
    decreases |b|
  {
    if a != [] && b != [] {
      assert NoDuplicates(b[1..]) by {
        forall i, j | 0 <= i < j < |b[1..]| ensures b[1..][i] != b[1..][j] {
          assert b[1..][i] == b[i + 1] && b[1..][j] == b[j + 1];
        }
      }
      if a[0] == b[0] {
        SubsequenceNoDuplicates(a[1..], b[1..]);
        SubsequenceMembers(a[1..], b[1..]);
        forall i, j | 0 <= i < j < |a| ensures a[i] != a[j] {
          if i == 0 {
            assert a[j] == a[1..][j - 1];
            assert a[j] in b[1..];
          } else {
            assert a[i] == a[1..][i - 1] && a[j] == a[1..][j - 1];
          }
        }
      } else {
        SubsequenceNoDuplicates(a, b[1..]);
      }
    }
  }

  /** `handleMagicSelect` / `handleSmartSelect`: the characters of the first `n` difficult
      words (the labs use 5), or of all of them when there are fewer. */
  function PickDifficult(words: seq<Word>, n: nat): (r: seq<string>)
    ensures |r| == if n < |DifficultWords(words)| then n else |DifficultWords(words)|
    ensures forall i :: 0 <= i < |r| ==> r[i] == DifficultWords(words)[i].character
    ensures forall i :: 0 <= i < |r| ==> exists w :: w in words && w.level <= 1 && w.character == r[i]
    ensures |DifficultWords(words)| <= n ==> forall w :: w in words && w.level <= 1 ==> w.character in r
  {
    var d := DifficultWords(words);
    var r := Take(Map(d, Character), n);
    PickedAreDifficult(words, d, r);
    SmallPickTakesAll(words, d, r, n);
    r
  }

  lemma PickedAreDifficult(words: seq<Word>, d: seq<Word>, r: seq<string>)
    requires d == DifficultWords(words)
    requires |r| <= |d| && forall i :: 0 <= i < |r| ==> r[i] == d[i].character
    ensures forall i :: 0 <= i < |r| ==> exists w :: w in words && w.level <= 1 && w.character == r[i]
  {
    forall i | 0 <= i < |r| ensures exists w :: w in words && w.level <= 1 && w.character == r[i] {
      assert d[i] in words && d[i].level <= 1;
    }
  }

  lemma SmallPickTakesAll(words: seq<Word>, d: seq<Word>, r: seq<string>, n: nat)
    requires d == DifficultWords(words)
    requires |r| == (if n < |d| then n else |d|) && forall i :: 0 <= i < |r| ==> r[i] == d[i].character
    ensures |d| <= n ==> forall w :: w in words && w.level <= 1 ==> w.character in r
  {
    if |d| <= n {
      forall w | w in words && w.level <= 1 ensures w.character in r {
        var k :| 0 <= k < |words| && words[k] == w;
        var j :| 0 <= j < |d| && d[j] == w;
        assert r[j] == w.character;
      }
    }
  }

  /** The pick takes the lowest levels first: a difficult word whose level is below that
      of a picked one sits earlier in the difficult list, so it is picked too. */
  lemma PickDifficultLowestFirst(words: seq<Word>, n: nat, i: nat, w: Word)
    requires i < |PickDifficult(words, n)|
    requires w in words && w.level <= 1 && w.level < DifficultWords(words)[i].level
    ensures exists j :: 0 <= j < i && DifficultWords(words)[j] == w
  {
    var d := DifficultWords(words);
    var k :| 0 <= k < |words| && words[k] == w;
    assert w in d;
    var j :| 0 <= j < |d| && d[j] == w;
    SortedKeyOrder(d, Level, i, j);
  }

  /** The words handed to generation in the conversation lab (`handleGenerate`): the
      selection when it is not empty, otherwise the first 3 difficult words, otherwise the
      first 3 of all words; with no words at all, generation does not start. */
  function WordsToUse(selected: seq<string>, words: seq<Word>): (r: Option<seq<string>>)
    ensures r == None <==> selected == [] && words == []
    ensures selected != [] ==> r == Some(selected)
    ensures selected == [] && DifficultWords(words) != [] ==> r == Some(PickDifficult(words, 3))
    ensures selected == [] && DifficultWords(words) == [] && words != [] ==> r == Some(FirstCharacters(words))
    ensures selected == [] && r.Some? ==>
      && 1 <= |r.value| <= 3
      && forall i :: 0 <= i < |r.value| ==> exists w :: w in words && w.character == r.value[i]
    ensures selected == [] && (exists w :: w in words && w.level <= 1) ==>
      r.Some? && forall i :: 0 <= i < |r.value| ==> exists w :: w in words && w.level <= 1 && w.character == r.value[i]
  {
    var d := DifficultWords(words);
    if |selected| > 0 then Some(selected)
    else if |d| > 0 then Some(PickDifficult(words, 3))
    else if |words| > 0 then Some(FirstCharacters(words))
    else None
  }

  /** The characters of the first 3 words of a non-empty library. */
  function FirstCharacters(words: seq<Word>): (r: seq<string>)
    requires words != []
    ensures |r| == if |words| < 3 then |words| else 3
    ensures forall i :: 0 <= i < |r| ==> r[i] == words[i].character
    ensures 1 <= |r| <= 3
    ensures forall i :: 0 <= i < |r| ==> exists w :: w in words && w.character == r[i]
  {
    var r := Take(Map(words, Character), 3);
    assert forall i :: 0 <= i < |r| ==> words[i] in words && words[i].character == r[i];
    r
  }

  /** The scenario text sent to the model when a lab starts: the preset, or in custom
      mode the trimmed custom text, falling back to `fallback` when that is blank. */
  function ChosenScenario(isCustomMode: bool, custom: string, preset: string, fallback: string): (r: string)
    ensures !isCustomMode ==> r == preset
    ensures isCustomMode && IsBlank(custom) ==> r == fallback
    ensures isCustomMode && !IsBlank(custom) ==> r == Trim(custom) && r != [] && IsTrimmed(r)
  {
    if isCustomMode then
      var t := Trim(custom);
      if t == [] then fallback else t
    else preset
  }
}
