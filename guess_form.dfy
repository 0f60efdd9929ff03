/**
 * src/components/GuessForm.tsx: the button and form for one guess slot. The slot at `index`
 * sits between the words at `index` and `index + 2`; a neighbour's label is the word itself
 * once it is solved and its hint before. Reading past an array gives `undefined`, whose
 * `toUpperCase()` throws: such a render is `None`.
 */
module GuessForm {
  import opened Results
  import opened JsText

  datatype Props = Props(wordList: seq<string>, index: int, correctList: seq<bool>, hints: seq<string>)

  /** `correctList[i]` is truthy: present and true. */
  predicate Solved(correctList: seq<bool>, i: int) {
    At(correctList, i) == Some(true)
  }

  /**
   * `list[i].toUpperCase()`, or the `TypeError` of an `undefined` element: it fails exactly off
   * the array, and otherwise gives an upper-case text as long as the element.
   */
  function UpperAt(list: seq<string>, i: int): (r: Option<string>)
    ensures r.Some? <==> 0 <= i < |list|
    ensures r.Some? ==> Upper(r.value) == r.value && |r.value| == |list[i]|
  {
    if 0 <= i < |list| then
      UpperIdempotent(list[i]);
      Some(Upper(list[i]))
    else None
  }

  /** `prevText`: the previous word when it is solved, else its hint, upper-cased. */
  function PrevText(p: Props): Option<string> {
    if Solved(p.correctList, p.index) then UpperAt(p.wordList, p.index) else UpperAt(p.hints, p.index)
  }

  /** `nextText`: the next word when it is solved, else its hint, upper-cased. */
  function NextText(p: Props): Option<string> {
    if Solved(p.correctList, p.index + 2) then UpperAt(p.wordList, p.index + 2) else UpperAt(p.hints, p.index + 2)
  }

  /** `currentFieldDisabled`: disabled unless a neighbouring word is solved. */
  function CurrentFieldDisabled(p: Props): bool {
    !(Solved(p.correctList, p.index) || Solved(p.correctList, p.index + 2))
  }

  /** What the component shows: the three form fields' texts and the button. */
  datatype View = View(prevLabel: string, placeholder: string, helpText: string, nextLabel: string,
                       caption: string, disabled: bool)

  /** The array a neighbour's label is read from: the words once it is solved, the hints before. */
  function LabelSource(p: Props, i: int): seq<string> {
    if Solved(p.correctList, i) then p.wordList else p.hints
  }

  /**
   * The render. The button is disabled exactly when neither neighbour is solved, and each
   * neighbour's label is its word once solved and its hint before. It fails exactly when the slot
   * has no hint or a neighbour's label reads past its array. Otherwise every text is upper case, the placeholder and help text are built from the
   * caption, which is the slot's hint; an enabled form shows a solved neighbour as the word itself,
   * and a disabled one shows both neighbours by their hints.
   */
  function Render(p: Props): (r: Option<View>)
    ensures r.Some? ==> (r.value.disabled <==> !Solved(p.correctList, p.index) && !Solved(p.correctList, p.index + 2))
    ensures r.Some? ==> Some(r.value.prevLabel) == (if Solved(p.correctList, p.index)
                                                   then UpperAt(p.wordList, p.index) else UpperAt(p.hints, p.index))
    ensures r.Some? ==> Some(r.value.nextLabel) == (if Solved(p.correctList, p.index + 2)
                                                   then UpperAt(p.wordList, p.index + 2) else UpperAt(p.hints, p.index + 2))
    ensures r.Some? <==> && 0 <= p.index + 1 < |p.hints|
                         && 0 <= p.index < |LabelSource(p, p.index)|
                         && 0 <= p.index + 2 < |LabelSource(p, p.index + 2)|
    ensures r.Some? ==> && |r.value.caption| == |p.hints[p.index + 1]|
                        && Upper(r.value.caption) == r.value.caption
                        && Upper(r.value.prevLabel) == r.value.prevLabel
                        && Upper(r.value.nextLabel) == r.value.nextLabel
                        && r.value.placeholder == r.value.caption + "..."
                        && r.value.helpText == "Starts " + r.value.caption
    ensures r.Some? && !r.value.disabled ==>
              Some(r.value.prevLabel) == UpperAt(p.wordList, p.index)
              || Some(r.value.nextLabel) == UpperAt(p.wordList, p.index + 2)
    ensures r.Some? && r.value.disabled ==>
              Some(r.value.prevLabel) == UpperAt(p.hints, p.index)
              && Some(r.value.nextLabel) == UpperAt(p.hints, p.index + 2)
  {
    var prevText := PrevText(p);
    var nextText := NextText(p);
    var hint := UpperAt(p.hints, p.index + 1);
    if prevText.None? || nextText.None? || hint.None? then None
    else Some(View(prevText.value, hint.value + "...", "Starts " + hint.value, nextText.value,
                   hint.value, CurrentFieldDisabled(p)))
  }

  /**
   * The form's submit handler: a missing or empty guess is ignored; otherwise `handleChange`
   * is called with the guess upper-cased and the same index.
   */
  function OnSubmit(p: Props, newGuess: Option<string>): (call: Option<(string, int)>)
    ensures call.None? <==> newGuess.None? || newGuess.value == ""
    ensures call.Some? ==> call.value.1 == p.index
    ensures call.Some? ==> |call.value.0| == |newGuess.value| && Upper(call.value.0) == call.value.0
    ensures call.Some? ==> forall i :: 0 <= i < |newGuess.value| ==> call.value.0[i] == UpperChar(newGuess.value[i])
  {
    if newGuess.None? || newGuess.value == "" then None
    else
      UpperIdempotent(newGuess.value);
      Some((Upper(newGuess.value), p.index))
  }

  /**
   * With the first word solved and its neighbour not, the slot between them renders enabled,
   * showing the first word itself and the next word's hint.
   */
  lemma RenderWithSolvedPrevious()
    ensures var r := Render(Props(["ant", "bee", "cat"], 0, [true, false, false], ["a", "b", "c"]));
      r.Some? && !r.value.disabled && r.value.prevLabel == "ANT" && r.value.nextLabel == "C"
      && r.value.caption == "B"
  {
    assert Solved([true, false, false], 0);
    assert !Solved([true, false, false], 2);
  }

  /** An enabled slot always shows at least one neighbour as the solved word itself. */
  lemma EnabledShowsASolvedNeighbour(p: Props)
    requires !CurrentFieldDisabled(p)
    ensures PrevText(p) == UpperAt(p.wordList, p.index) || NextText(p) == UpperAt(p.wordList, p.index + 2)
  {
  }

  /** A disabled slot shows both neighbours by their hints. */
  lemma DisabledShowsHints(p: Props)
    requires CurrentFieldDisabled(p)
    ensures PrevText(p) == UpperAt(p.hints, p.index) && NextText(p) == UpperAt(p.hints, p.index + 2)
  {
  }
}
