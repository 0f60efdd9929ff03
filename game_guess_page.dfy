/**
 * game/pages/GuessPage.tsx: the same page state as src/pages/GuessPage.tsx, with empty guesses
 * at load and one `GuessInput` rendered per middle word of the puzzle.
 */
module GameGuessPage {
  import opened Results
  import opened Calendar
  import opened ServerUtils
  import opened JsArrays
  import GuessPage

  /**
   * `wordList.slice(1, wordList.length - 1).map(...)`: the answers of the rendered inputs,
   * `wordList[index + 1] || ''`.
   */
  function SlotAnswers(wordList: seq<string>): (a: seq<string>)
    ensures |wordList| >= 2 ==> |a| == |wordList| - 2
    ensures |wordList| < 2 ==> a == []
    ensures forall i :: 0 <= i < |a| ==> a[i] == wordList[i + 1]
  {
    var middle := JsSlice(wordList, 1, |wordList| - 1);
    SliceInterior(wordList);
    seq(|middle|, index requires 0 <= index < |middle| =>
      if index + 1 < |wordList| && wordList[index + 1] != "" then wordList[index + 1] else "")
  }

  class GameGuessPageState {
    var wordList: seq<string>
    var guessValues: seq<Option<string>>
    var correct: seq<Option<bool>>

    constructor ()
      ensures wordList == [] && guessValues == [] && correct == []
    {
      wordList, guessValues, correct := [], [], [];
    }

    /**
     * The `useEffect` on `createdAt`. A puzzle of fewer than two words sets `wordList`, and
     * then `Array(puzzle.length - 2)` throws before either array is set.
     */
    method LoadPuzzle(createdAt: string, targetDate: JsDate, puzzles: map<string, Json>)
      requires targetDate.Valid? ==> ValidDate(targetDate.date)
      modifies this
      ensures var p := GetPuzzleByDate(puzzles, targetDate);
        createdAt == "" || p.None? || p.value.NotAnArray? ==>
          wordList == old(wordList) && guessValues == old(guessValues) && correct == old(correct)
      ensures var p := GetPuzzleByDate(puzzles, targetDate);
        createdAt != "" && p.Some? && p.value.Words? ==>
          && wordList == p.value.words
          && guessValues == (if |p.value.words| >= 2 then Filled(|p.value.words| - 2, "") else old(guessValues))
          && correct == (if |p.value.words| >= 2 then Filled(|p.value.words| - 2, false) else old(correct))
    {
      if createdAt == "" {
        return;
      }
      var puzzle := GetPuzzleByDate(puzzles, targetDate);
      if puzzle.None? || puzzle.value.NotAnArray? {
        return;
      }
      var words := puzzle.value.words;
      wordList := words;
      if |words| < 2 {
        return;
      }
      guessValues := Filled(|words| - 2, "");
      correct := Filled(|words| - 2, false);
    }

    /** `checkWord(word, index)`. */
    method CheckWord(word: string, index: int)
      modifies this
      ensures correct == JsAssign(old(correct), index, GuessPage.IsCorrect(wordList, word, index))
      ensures wordList == old(wordList) && guessValues == old(guessValues)
    {
      var isCorrect := 0 <= index + 1 < |wordList| && word == wordList[index + 1];
      correct := JsAssign(correct, index, isCorrect);
    }

    /** `handleGuessChange(newGuess, index)`, which input `index` calls with its guessed word. */
    method HandleGuessChange(newGuess: string, index: int)
      modifies this
      ensures guessValues == JsAssign(old(guessValues), index, newGuess)
      ensures wordList == old(wordList) && correct == old(correct)
    {
      guessValues := JsAssign(guessValues, index, newGuess);
    }
  }

  /**
   * After a puzzle of at least two words loads, guess slot i, flag i and rendered input i all
   * belong to word i + 1, the first and last words having none.
   */
  lemma {:induction false} SlotsMatchMiddleWords(puzzle: seq<string>)
    requires |puzzle| >= 2
    ensures |Filled(|puzzle| - 2, "")| == |Filled(|puzzle| - 2, false)| == |SlotAnswers(puzzle)|
    ensures SlotAnswers(puzzle) == puzzle[1..|puzzle| - 1]
    ensures puzzle == [puzzle[0]] + SlotAnswers(puzzle) + [puzzle[|puzzle| - 1]]
  {
    assert puzzle == [puzzle[0]] + puzzle[1..|puzzle| - 1] + [puzzle[|puzzle| - 1]];
  }

  /** A guess reported by input `index` lands in slot `index` of the loaded array and nowhere else. */
  lemma GuessLandsInItsSlot(n: nat, index: int, guess: string)
    requires 0 <= index < n
    ensures var g := JsAssign(Filled(n, ""), index, guess);
      |g| == n && g[index] == Some(guess) && forall i :: 0 <= i < n && i != index ==> g[i] == Some("")
  {
  }
}
