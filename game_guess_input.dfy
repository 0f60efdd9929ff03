/**
 * game/components/GuessInput.tsx: the same slot list as src/components/GuessInput.tsx with no
 * given letter, a cursor clamped to [0, n-1], and cells that keep their own one-character value.
 * The shared list operations are those of module GuessInput.
 */
module GameGuessInput {
  import opened Results
  import GuessInput

  /** `Math.max(0, Math.min(n - 1, index + direction))`. */
  function NewIndex(n: int, index: int, direction: int): (j: int)
    ensures n >= 1 ==> 0 <= j <= n - 1
    ensures 0 <= index + direction <= n - 1 ==> j == index + direction
    ensures index + direction < 0 ==> j == 0
    ensures index + direction > n - 1 ==> j == GuessInput.Max(0, n - 1)
  {
    GuessInput.Max(0, GuessInput.Min(n - 1, index + direction))
  }

  /** `e.target.value.slice(0, 1)`. */
  function FirstChar(s: string): (r: string)
    ensures |r| <= 1 && |r| <= |s| && r == s[..|r|]
    ensures s != [] ==> r == [s[0]]
  {
    if s == [] then [] else [s[0]]
  }

  /** The component's state, with each cell's `value` kept in `cellValues`. */
  class GameGuessInputState {
    const answer: string
    var guessList: seq<GuessInput.Guess>
    var index: int
    var cellValues: seq<string>

    constructor (answer: string)
      ensures this.answer == answer && guessList == GuessInput.InitializeGuessList(|answer|)
      ensures index == 0 && cellValues == seq(|answer|, _ => "")
      ensures Valid()
    {
      this.answer := answer;
      guessList := GuessInput.InitializeGuessList(|answer|);
      index := 0;
      cellValues := seq(|answer|, _ => "");
    }

    /** One slot and one cell per letter; each slot holds what its cell shows, at most one letter. */
    predicate Valid()
      reads this
    {
      && |guessList| == |cellValues| == |answer|
      && (forall i :: 0 <= i < |guessList| ==> guessList[i].id == i)
      && (forall i :: 0 <= i < |guessList| ==> guessList[i].value == cellValues[i] && |cellValues[i]| <= 1)
    }

    /**
     * `setGuessedWord` is called with the joined word whenever the list is non-empty: in a valid
     * state, for exactly the non-empty answers, and the word is never longer than the answer.
     */
    function Reported(): (w: Option<string>)
      reads this
      ensures Valid() ==> (w.Some? <==> answer != [])
      ensures Valid() && w.Some? ==> |w.value| <= |answer|
    {
      if |guessList| == 0 then None
      else if Valid() then
        WordLength(guessList);
        Some(GuessInput.GuessedWord(guessList))
      else Some(GuessInput.GuessedWord(guessList))
    }

    method HandleIndexChange(direction: int)
      requires Valid()
      modifies this
      ensures Valid()
      ensures index == NewIndex(|answer|, old(index), direction)
      ensures guessList == old(guessList) && cellValues == old(cellValues)
    {
      index := NewIndex(|answer|, index, direction);
    }

    method UpdateItem(itemId: int, newValue: string)
      modifies this
      ensures guessList == GuessInput.UpdateList(old(guessList), itemId, newValue)
      ensures newValue != "" ==> index == NewIndex(|answer|, old(index), 1)
      ensures newValue == "" ==> index == old(index)
      ensures cellValues == old(cellValues)
    {
      guessList := GuessInput.UpdateList(guessList, itemId, newValue);
      if newValue != "" {
        index := NewIndex(|answer|, index, 1);
      }
    }

    /** Cell i's `onChange`: it keeps the first typed character and passes it to `updateItem`. */
    method CellChange(i: int, typed: string)
      requires Valid() && 0 <= i < |answer|
      modifies this
      ensures Valid()
      ensures cellValues == old(cellValues)[i := FirstChar(typed)]
      ensures guessList == GuessInput.UpdateList(old(guessList), i, FirstChar(typed))
      ensures typed != "" ==> index == NewIndex(|answer|, old(index), 1)
      ensures typed == "" ==> index == old(index)
    {
      var newValue := FirstChar(typed);
      cellValues := cellValues[i := newValue];
      UpdateItem(i, newValue);
    }

    /** Cell i's `handleKeyDown`: Backspace on an empty cell moves back one. */
    method CellKeyDown(i: int, key: string)
      requires Valid() && 0 <= i < |answer|
      modifies this
      ensures Valid()
      ensures key == "Backspace" && cellValues[i] == "" ==> index == NewIndex(|answer|, old(index), -1)
      ensures !(key == "Backspace" && cellValues[i] == "") ==> index == old(index)
      ensures guessList == old(guessList) && cellValues == old(cellValues)
    {
      if key == "Backspace" && cellValues[i] == "" {
        HandleIndexChange(-1);
      }
    }

    /** A cell's `onFocus`. */
    method Focus(i: int)
      requires Valid()
      modifies this
      ensures Valid()
      ensures index == i && guessList == old(guessList) && cellValues == old(cellValues)
    {
      index := i;
    }
  }

  /** The guessed word is the cells' letters in order, so it is never longer than the answer. */
  lemma ReportedWord(list: seq<GuessInput.Guess>, cells: seq<string>)
    requires |list| == |cells|
    requires forall i :: 0 <= i < |list| ==> list[i].value == cells[i] && |cells[i]| <= 1
    ensures |GuessInput.GuessedWord(list)| <= |list|
    ensures (forall i :: 0 <= i < |cells| ==> cells[i] != "") ==>
              |GuessInput.GuessedWord(list)| == |list| && forall i :: 0 <= i < |list| ==> GuessInput.GuessedWord(list)[i] == cells[i][0]
  {
    WordLength(list);
    if forall i :: 0 <= i < |cells| ==> cells[i] != "" {
      GuessInput.SingleLetterWord(list);
    }
  }

  lemma {:induction false} WordLength(list: seq<GuessInput.Guess>)
    requires forall i :: 0 <= i < |list| ==> |list[i].value| <= 1
    ensures |GuessInput.GuessedWord(list)| <= |list|
  {
    if list != [] {
      var init := list[..|list| - 1];
      WordLength(init);
      assert GuessInput.Values(list)[..|list| - 1] == GuessInput.Values(init);
    }
  }
}
