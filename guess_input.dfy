/**
 * src/components/GuessInput.tsx: one slot per letter of the answer, the first letter given and
 * revealed, a cursor that never returns to the given letter, single-slot updates, and the
 * guessed word reported as the slots joined in order. The React state is the class's fields;
 * each event runs against the state the previous one left.
 */
module GuessInput {
  import opened Results

  /** `interface Guess`. */
  datatype Guess = Guess(id: int, value: string)

  /**
   * `initializeGuessList(n)`: n slots whose ids (the React keys) are pairwise distinct and which
   * spell the empty word.
   */
  function InitializeGuessList(n: nat): (l: seq<Guess>)
    ensures |l| == n
    ensures forall i, j :: 0 <= i < j < n ==> l[i].id != l[j].id
    ensures GuessedWord(l) == ""
  {
    var l := seq(n, i => Guess(i, ""));
    assert Values(l) == seq(n, _ => "");
    EmptyStrings(n);
    l
  }

  /**
   * The initial list with `initGuessList[0].value = answer[0]`; for an empty answer that
   * assignment throws, which is `None`.
   */
  function InitialGuessList(answer: string): (r: Option<seq<Guess>>)
    ensures r.None? <==> answer == []
    ensures r.Some? ==> |r.value| == |answer| && r.value[0] == Guess(0, [answer[0]])
    ensures r.Some? ==> forall i :: 1 <= i < |answer| ==> r.value[i] == Guess(i, "")
  {
    if answer == [] then None
    else Some(InitializeGuessList(|answer|)[0 := Guess(0, [answer[0]])])
  }

  /** `initRevealed`: n falses with position 0 set (for n >= 1). */
  function InitialRevealed(n: nat): seq<bool>
    requires n >= 1
  {
    seq(n, i => i == 0)
  }

  /**
   * At the first render exactly one slot is revealed, and a slot shows a letter exactly when it
   * is revealed: the revealed slot shows the answer's letter at that position, the others are empty.
   */
  lemma RevealedSlotsShowTheAnswer(answer: string)
    requires answer != []
    ensures var l, rv := InitialGuessList(answer).value, InitialRevealed(|answer|);
      && |rv| == |l|
      && (forall i :: 0 <= i < |l| && rv[i] ==> l[i].value == [answer[i]])
      && (forall i :: 0 <= i < |l| ==> (l[i].value != "" <==> rv[i]))
      && (forall i, j :: 0 <= i < |l| && 0 <= j < |l| && rv[i] && rv[j] ==> i == j)
  {
  }

  function Max(a: int, b: int): int { if a < b then b else a }
  function Min(a: int, b: int): int { if a < b then a else b }

  /** `Math.max(1, Math.min(n - 1, index + direction))`. */
  function NewIndex(n: int, index: int, direction: int): (j: int)
    ensures n >= 2 ==> 1 <= j <= n - 1
    ensures 1 <= index + direction <= n - 1 ==> j == index + direction
    ensures index + direction < 1 ==> j == 1
    ensures index + direction > n - 1 ==> j == Max(1, n - 1)
  {
    Max(1, Min(n - 1, index + direction))
  }

  /**
   * `prevItems.map(...)`: the ids stay as they were, the values are the old values with the one at
   * `itemId` replaced, and an `itemId` that names no slot changes nothing.
   */
  function UpdateList(list: seq<Guess>, itemId: int, newValue: string): (r: seq<Guess>)
    ensures |r| == |list| && forall idx :: 0 <= idx < |list| ==> r[idx].id == list[idx].id
    ensures 0 <= itemId < |list| ==> Values(r) == Values(list)[itemId := newValue]
    ensures !(0 <= itemId < |list|) ==> r == list
  {
    seq(|list|, idx requires 0 <= idx < |list| =>
      if idx == itemId then list[idx].(value := newValue) else list[idx])
  }

  /** `guessList.map((item) => item.value)`. */
  function Values(list: seq<Guess>): seq<string> {
    seq(|list|, i requires 0 <= i < |list| => list[i].value)
  }

  /** `join('')`, as a left fold. */
  function Concat(ss: seq<string>): string {
    if ss == [] then [] else Concat(ss[..|ss| - 1]) + ss[|ss| - 1]
  }

  function GuessedWord(list: seq<Guess>): string {
    Concat(Values(list))
  }

  lemma {:induction false} ConcatAppend(a: seq<string>, b: seq<string>)
    ensures Concat(a + b) == Concat(a) + Concat(b)
    decreases |b|
  {
    if b == [] {
      assert a + b == a;
    } else {
      assert (a + b)[..|a + b| - 1] == a + b[..|b| - 1];
      ConcatAppend(a, b[..|b| - 1]);
    }
  }

  /** Updating slot k changes only slot k's part of the guessed word. */
  lemma UpdatedWord(list: seq<Guess>, k: int, v: string)
    requires 0 <= k < |list|
    ensures GuessedWord(UpdateList(list, k, v))
         == GuessedWord(list[..k]) + v + GuessedWord(list[k + 1..])
  {
    var r := UpdateList(list, k, v);
    assert Values(r) == Values(list[..k]) + [v] + Values(list[k + 1..]);
    ConcatAppend(Values(list[..k]) + [v], Values(list[k + 1..]));
    ConcatAppend(Values(list[..k]), [v]);
    assert Concat([v]) == Concat([]) + v;
  }

  /** With one letter per slot, the guessed word spells the slots' letters in order. */
  lemma {:induction false} SingleLetterWord(list: seq<Guess>)
    requires forall i :: 0 <= i < |list| ==> |list[i].value| == 1
    ensures |GuessedWord(list)| == |list|
    ensures forall i :: 0 <= i < |list| ==> GuessedWord(list)[i] == list[i].value[0]
  {
    if list != [] {
      var init := list[..|list| - 1];
      SingleLetterWord(init);
      assert Values(list)[..|list| - 1] == Values(init);
    }
  }

  /** The answer's length in slots, the given letter first: the initial word is that letter. */
  lemma InitialWord(answer: string)
    requires answer != []
    ensures GuessedWord(InitialGuessList(answer).value) == [answer[0]]
  {
    var l := InitialGuessList(answer).value;
    assert Values(l) == [[answer[0]]] + seq(|answer| - 1, _ => "");
    ConcatAppend([[answer[0]]], seq(|answer| - 1, _ => ""));
    EmptyStrings(|answer| - 1);
    assert Concat([[answer[0]]]) == Concat([]) + [answer[0]];
  }

  lemma {:induction false} EmptyStrings(n: nat)
    ensures Concat(seq(n, _ => "")) == ""
  {
    if n > 0 {
      assert seq(n, _ => "")[..n - 1] == seq(n - 1, _ => "");
      EmptyStrings(n - 1);
    }
  }

  /** The component's state: `guessList`, `revealed`, `index`, and the `onSubmit` calls made. */
  class GuessInputState {
    const answer: string
    var guessList: seq<Guess>
    var revealed: seq<bool>
    var index: int
    var submits: nat

    /** The state after the first render; the answer must be non-empty (else the render throws). */
    constructor (answer: string)
      requires answer != []
      ensures this.answer == answer && guessList == InitialGuessList(answer).value
      ensures revealed == InitialRevealed(|answer|) && index == 0 && submits == 0
      ensures Valid()
    {
      this.answer := answer;
      guessList := InitialGuessList(answer).value;
      revealed := InitialRevealed(|answer|);
      index := 0;
      submits := 0;
    }

    /** The slot list always has one slot per letter and nothing moves `revealed`. */
    predicate Valid()
      reads this
    {
      answer != [] && |guessList| == |answer| && revealed == InitialRevealed(|answer|)
    }

    /**
     * `setGuessedWord` is called with the joined word whenever the list is non-empty; in a valid
     * state the answer, and so the list, is non-empty, so a word is always reported.
     */
    function Reported(): (w: Option<string>)
      reads this
      ensures Valid() ==> w.Some?
    {
      if |guessList| > 0 then Some(GuessedWord(guessList)) else None
    }

    method HandleIndexChange(direction: int)
      requires Valid()
      modifies this
      ensures Valid()
      ensures index == NewIndex(|answer|, old(index), direction)
      ensures guessList == old(guessList) && revealed == old(revealed) && submits == old(submits)
    {
      index := NewIndex(|answer|, index, direction);
    }

    method UpdateItem(itemId: int, newValue: string)
      requires Valid()
      modifies this
      ensures Valid()
      ensures guessList == UpdateList(old(guessList), itemId, newValue)
      ensures newValue != "" ==> index == NewIndex(|answer|, old(index), 1)
      ensures newValue == "" ==> index == old(index)
      ensures revealed == old(revealed) && submits == old(submits)
    {
      guessList := UpdateList(guessList, itemId, newValue);
      if newValue != "" {
        HandleIndexChange(1);
      }
    }

    /** A cell's `onFocus`. */
    method Focus(i: int)
      requires Valid()
      modifies this
      ensures Valid()
      ensures index == i
      ensures guessList == old(guessList) && revealed == old(revealed) && submits == old(submits)
    {
      index := i;
    }

    /**
     * `CharInput`'s `handleKeyDown`. Nothing ever calls the cell's `setValue`, so its `value`
     * is always '': Backspace moves back, Enter submits, other keys do nothing.
     */
    method KeyDown(key: string)
      requires Valid()
      modifies this
      ensures Valid()
      ensures key == "Backspace" ==> index == NewIndex(|answer|, old(index), -1) && submits == old(submits)
      ensures key == "Enter" ==> index == old(index) && submits == old(submits) + 1
      ensures key != "Backspace" && key != "Enter" ==> index == old(index) && submits == old(submits)
      ensures guessList == old(guessList) && revealed == old(revealed)
    {
      if key == "Backspace" {
        HandleIndexChange(-1);
      } else if key == "Enter" {
        submits := submits + 1;
      }
    }
  }
}
