/**
 * src/pages/GuessPage.tsx: the page state (`wordList`, `guessValues`, `correct`), the effect
 * that loads the day's puzzle when `createdAt` is set, and the two update callbacks.
 * `guessValues` and `correct` are JavaScript arrays that may hold holes (module JsArrays).
 */
module GuessPage {
  import opened Results
  import opened Calendar
  import opened ServerUtils
  import opened JsArrays

  /** `word[0]`: the first letter, `undefined` for the empty word. */
  function FirstLetter(word: string): Option<string> {
    if word == [] then None else Some([word[0]])
  }

  /**
   * `puzzle.map(...)` then `.slice(1, length - 1)`: the first and last words are kept whole by the
   * `map` and then cut off, so there is one entry per middle word and entry i is the first letter
   * of word i + 1 (nothing for a puzzle of fewer than two words).
   */
  function InitGuessValues(puzzle: seq<string>): (g: seq<Option<string>>)
    ensures |puzzle| >= 2 ==> |g| == |puzzle| - 2
    ensures |puzzle| < 2 ==> g == []
    ensures forall i :: 0 <= i < |g| ==> g[i] == FirstLetter(puzzle[i + 1])
  {
    var mapped := seq(|puzzle|, index requires 0 <= index < |puzzle| =>
      if index == 0 || index == |puzzle| - 1 then Some(puzzle[index]) else FirstLetter(puzzle[index]));
    SliceInterior(mapped);
    JsSlice(mapped, 1, |mapped| - 1)
  }

  /** `word === wordList[index + 1]`; an index past the list reads `undefined`, never equal. */
  function IsCorrect(wordList: seq<string>, word: string, index: int): bool {
    0 <= index + 1 < |wordList| && word == wordList[index + 1]
  }

  class GuessPageState {
    var wordList: seq<string>
    var guessValues: seq<Option<string>>
    var correct: seq<Option<bool>>

    constructor ()
      ensures wordList == [] && guessValues == [] && correct == []
    {
      wordList, guessValues, correct := [], [], [];
    }

    /**
     * The `useEffect` on `createdAt`, given the `Date` that `convertStringToDate(createdAt)`
     * parses. A puzzle of fewer than two words sets `wordList` and `guessValues`, and then
     * `Array(puzzle.length - 2)` throws, so `correct` is not set.
     */
    method LoadPuzzle(createdAt: string, targetDate: JsDate, puzzles: map<string, Json>)
      requires targetDate.Valid? ==> ValidDate(targetDate.date)
      modifies this
      ensures var p := GetPuzzleByDate(puzzles, targetDate);
        createdAt == "" || p.None? || p.value.NotAnArray? ==>
          wordList == old(wordList) && guessValues == old(guessValues) && correct == old(correct)
      ensures var p := GetPuzzleByDate(puzzles, targetDate);
        createdAt != "" && p.Some? && p.value.Words? ==>
          && wordList == p.value.words
          && guessValues == InitGuessValues(p.value.words)
          && correct == (if |p.value.words| >= 2 then Filled(|p.value.words| - 2, false) else old(correct))
    {
      if createdAt == "" {
        return;
      }
      var puzzle := GetPuzzleByDate(puzzles, targetDate);
      if puzzle.None? || puzzle.value.NotAnArray? {
        return;
      }
      var words := puzzle.value.words;
      wordList := words;
      guessValues := InitGuessValues(words);
      if |words| < 2 {
        return;
      }
      correct := Filled(|words| - 2, false);
    }

    /** `checkWord(word, index)`. */
    method CheckWord(word: string, index: int)
      modifies this
      ensures correct == JsAssign(old(correct), index, IsCorrect(wordList, word, index))
      ensures wordList == old(wordList) && guessValues == old(guessValues)
    {
      var isCorrect := 0 <= index + 1 < |wordList| && word == wordList[index + 1];
      correct := JsAssign(correct, index, isCorrect);
    }

    /** `handleGuessChange(newGuess, index)`. */
    method HandleGuessChange(newGuess: string, index: int)
      modifies this
      ensures guessValues == JsAssign(old(guessValues), index, newGuess)
      ensures wordList == old(wordList) && correct == old(correct)
    {
      guessValues := JsAssign(guessValues, index, newGuess);
    }
  }

  /**
   * After a puzzle of at least two words loads, there is one guess and one unset flag per middle
   * word; a guess is the one-letter start of its word, and is missing only for an empty word.
   */
  lemma LoadedShape(puzzle: seq<string>)
    requires |puzzle| >= 2
    ensures |InitGuessValues(puzzle)| == |Filled(|puzzle| - 2, false)| == |puzzle[1..|puzzle| - 1]|
    ensures var f := Filled(|puzzle| - 2, false); forall i :: 0 <= i < |f| ==> f[i] == Some(false)
    ensures forall i :: 0 <= i < |puzzle| - 2 ==>
              var g, w := InitGuessValues(puzzle)[i], puzzle[1..|puzzle| - 1][i];
              && (g.None? <==> w == "")
              && (g.Some? ==> |g.value| == 1 && g.value <= w)
  {
  }

  /** Checking a guess at a slot sets that slot's flag and no other. */
  lemma CheckWordOneSlot(correct: seq<Option<bool>>, wordList: seq<string>, word: string, index: int)
    requires 0 <= index < |correct| && index + 1 < |wordList|
    ensures var r := JsAssign(correct, index, IsCorrect(wordList, word, index));
      && |r| == |correct|
      && r[index] == Some(word == wordList[index + 1])
      && forall i :: 0 <= i < |correct| && i != index ==> r[i] == correct[i]
  {
  }

  /**
   * A guess is judged correct only when it is a word of the puzzle; for a slot of the page
   * (index 0 or more) it is never the first word that is matched, and a slot past the end is
   * never correct.
   */
  lemma CorrectOnlyForAPuzzleWord(wordList: seq<string>, word: string, index: int)
    ensures IsCorrect(wordList, word, index) ==> word in wordList
    ensures 0 <= index && IsCorrect(wordList, word, index) ==> word in wordList[1..]
    ensures index + 1 >= |wordList| ==> !IsCorrect(wordList, word, index)
  {
    if 0 <= index && IsCorrect(wordList, word, index) {
      assert wordList[1..][index] == word;
    }
  }
}
