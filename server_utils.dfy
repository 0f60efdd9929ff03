/**
 * server/serverUtils.tsx: the daily puzzle table lookup. The table is the imported
 * dailyPuzzles.json object, passed in as a map from day identifier to JSON value.
 */
module ServerUtils {
  import opened Results
  import opened Calendar
  import opened DayKeys

  /** A JSON value of the puzzle table: an array of words, or anything else. */
  datatype Json = Words(words: seq<string>) | NotAnArray

  /**
   * A JavaScript `Date` as `getPuzzleByDate` sees it: a calendar day with a time of day,
   * or the invalid date, whose month, day and year all print as "NaN".
   */
  datatype JsDate = Valid(date: Date, millisOfDay: nat) | Invalid

  /**
   * The key `getPuzzleByDate` looks up: `M-D-YYYY` of the date's calendar day. The key of a
   * valid date reads back as that day; the key of the invalid date reads back as no day.
   */
  function TargetDate(t: JsDate): (k: string)
    requires t.Valid? ==> ValidDate(t.date)
    ensures t.Valid? ==> ParseDayKey(k) == Some(t.date)
    ensures t.Invalid? ==> ParseDayKey(k).None?
  {
    if t.Valid? then
      ParseDayKeyRoundTrip(t.date);
      DayKey(t.date)
    else
      NaNKeyIsNoDay();
      "NaN-NaN-NaN"
  }

  /** "NaN-NaN-NaN" splits into three fields, none of them numeric. */
  lemma NaNKeyIsNoDay()
    ensures ParseDayKey("NaN-NaN-NaN").None?
  {
    assert "NaN-NaN-NaN" == "NaN" + ['-'] + ("NaN" + ['-'] + "NaN");
    SplitAtFirstSeparator("NaN", '-', "NaN" + ['-'] + "NaN");
    SplitAtFirstSeparator("NaN", '-', "NaN");
    SplitWithoutSeparator("NaN", '-');
    ParseNatRejects("NaN", 0);
  }

  /** `data?.[targetDate]`: the table entry for the key, or nothing when there is none. */
  function GetPuzzleByDate(puzzles: map<string, Json>, t: JsDate): Option<Json>
    requires t.Valid? ==> ValidDate(t.date)
  {
    var k := TargetDate(t);
    if k in puzzles then Some(puzzles[k]) else None
  }

  /** Two instants of the same calendar day get the same puzzle: the time of day is not looked at. */
  lemma SameDaySamePuzzle(puzzles: map<string, Json>, d: Date, t1: nat, t2: nat)
    requires ValidDate(d)
    ensures GetPuzzleByDate(puzzles, Valid(d, t1)) == GetPuzzleByDate(puzzles, Valid(d, t2))
  {
  }

  /**
   * The table is keyed by day: an entry added for day `d` is served on `d` at any time of day,
   * and entries of other days are served as before.
   */
  lemma PublishedPuzzleIsServed(puzzles: map<string, Json>, d: Date, p: Json, e: Date, t: nat)
    requires ValidDate(d) && ValidDate(e)
    ensures GetPuzzleByDate(puzzles[DayKey(d) := p], Valid(d, t)) == Some(p)
    ensures e != d ==> GetPuzzleByDate(puzzles[DayKey(d) := p], Valid(e, t)) == GetPuzzleByDate(puzzles, Valid(e, t))
    ensures GetPuzzleByDate(puzzles[DayKey(d) := p], Invalid) == GetPuzzleByDate(puzzles, Invalid)
  {
    DayKeyInjective(d, e);
    InvalidDateKeyIsNoDayKey(d, t);
  }

  /** Different calendar days read different table entries. */
  lemma DifferentDaysDifferentKeys(d1: Date, d2: Date, t1: nat, t2: nat)
    requires ValidDate(d1) && ValidDate(d2) && d1 != d2
    ensures TargetDate(Valid(d1, t1)) != TargetDate(Valid(d2, t2))
  {
    DayKeyInjective(d1, d2);
  }

  /** An invalid date never reads the entry of a real day. */
  lemma InvalidDateKeyIsNoDayKey(d: Date, t: nat)
    requires ValidDate(d)
    ensures TargetDate(Invalid) != TargetDate(Valid(d, t))
  {
    assert !IsDigit(TargetDate(Invalid)[0]);
  }
}
