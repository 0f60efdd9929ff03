/**
 * src/jobs/userFlair.ts: the flair tier table, the first-match tier lookup, and the decision the
 * `USER_STREAK_UP` job makes before it messages the user, sets the flair and saves the rank.
 */
module Flair {
  import opened Results
  import opened Calendar
  import opened Redis
  import opened Users

  /** One entry of `flairInfo`; `max` is absent for the last tier. */
  datatype Tier = Tier(rank: int, min: int, max: Option<int>, name: string, backgroundColor: string, textColor: string)

  const FlairInfo: seq<Tier> := [
    Tier(1, 0, Some(0), "Newbie", "#F94144", "dark"),
    Tier(2, 1, Some(6), "Fresh Start", "#F3722C", "dark"),
    Tier(3, 7, Some(30), "Weekly Warrior", "#F8961E", "dark"),
    Tier(4, 31, Some(89), "Monthly Master", "#F9C74F", "dark"),
    Tier(5, 90, Some(179), "Quatermaster", "#90BE6D", "dark"),
    Tier(6, 180, Some(364), "Halfway Hero", "#43AA8B", "dark"),
    Tier(7, 365, None, "Dedicated Puzzler", "#577590", "dark")
  ]

  /** `!flair.max`: a missing maximum and a maximum of 0 are both falsy. */
  predicate MaxIsFalsy(t: Tier) {
    t.max.None? || t.max.value == 0
  }

  /** The `find` callback: `flair.min <= streak && (!flair.max || streak <= flair.max)`. */
  predicate Matches(t: Tier, streak: int) {
    t.min <= streak && (MaxIsFalsy(t) || streak <= t.max.value)
  }

  /** `Array.prototype.find` as an index: the first matching position, or none. */
  function FindFirst(tiers: seq<Tier>, streak: int): (r: Option<nat>)
    ensures r.Some? ==> r.value < |tiers| && Matches(tiers[r.value], streak)
    ensures r.Some? ==> forall j :: 0 <= j < r.value ==> !Matches(tiers[j], streak)
    ensures r.None? <==> forall j :: 0 <= j < |tiers| ==> !Matches(tiers[j], streak)
  {
    if tiers == [] then None
    else if Matches(tiers[0], streak) then Some(0)
    else
      match FindFirst(tiers[1..], streak)
      case None => None
      case Some(i) => Some(i + 1)
  }

  /** `getFlairByStreak(streak = 0)`. */
  function GetFlairByStreak(streak: Option<int>): (r: Option<Tier>)
    ensures r.Some? ==> r.value in FlairInfo && Matches(r.value, GetOr(streak, 0))
    ensures r.None? <==> forall t :: t in FlairInfo ==> !Matches(t, GetOr(streak, 0))
  {
    var i := FindFirst(FlairInfo, GetOr(streak, 0));
    if i.Some? then Some(FlairInfo[i.value]) else None
  }

  /**
   * The table lists ranks 1 to 7 in order with increasing minimums; tiers 2 to 6 span
   * 1-6, 7-30, 31-89, 90-179 and 180-364, and tier 7 has no maximum.
   */
  lemma FlairTableShape()
    ensures |FlairInfo| == 7
    ensures forall i :: 0 <= i < 7 ==> FlairInfo[i].rank == i + 1
    ensures forall i :: 0 <= i < 6 ==> FlairInfo[i].min < FlairInfo[i + 1].min
    ensures forall i :: 1 <= i < 6 ==> FlairInfo[i].max == Some(FlairInfo[i + 1].min - 1)
    ensures FlairInfo[1].min == 1 && FlairInfo[6].min == 365 && FlairInfo[6].max.None?
  {
  }

  /** An omitted streak is looked up as 0. */
  lemma OmittedStreakIsZero()
    ensures GetFlairByStreak(None) == GetFlairByStreak(Some(0))
  {
  }

  /** Tier 1's maximum is 0, which is falsy, so every non-negative streak gets "Newbie". */
  lemma EveryStreakIsNewbie(streak: int)
    requires streak >= 0
    ensures GetFlairByStreak(Some(streak)) == Some(FlairInfo[0])
    ensures FlairInfo[0].rank == 1 && FlairInfo[0].name == "Newbie"
  {
  }

  /** Only a negative streak finds no tier. */
  lemma NoTierIffNegative(streak: int)
    ensures GetFlairByStreak(Some(streak)).None? <==> streak < 0
  {
    if streak < 0 {
      forall t | t in FlairInfo ensures !Matches(t, streak) {
        assert t.min >= 0;
      }
    } else {
      EveryStreakIsNewbie(streak);
    }
  }

  // ---------------------------------------------------------------------------------
  // The USER_STREAK_UP job.

  /** `event.data` of the job. An omitted streak is `None`. */
  datatype StreakUpData = StreakUpData(username: string, streak: Option<int>, subredditName: string)

  /**
   * `sendPrivateMessage`: the subject and text are fixed templates around the name and the
   * streak as the event carried it; an omitted streak is interpolated as "undefined".
   */
  datatype PrivateMessage = PrivateMessage(to: string, streak: Option<int>)

  /** `setUserFlair`. */
  datatype FlairAssignment = FlairAssignment(subredditName: string, username: string, text: string,
                                             backgroundColor: string, textColor: string)

  /** What the job does when it acts: one message, one flair assignment and the rank it saves. */
  datatype Award = Award(rank: int, message: PrivateMessage, flair: FlairAssignment)

  /** `targetFlair.textColor === 'dark' ? 'dark' : 'light'`: always one of the two colours, dark exactly for a dark tier. */
  function TextColor(t: Tier): (c: string)
    ensures c == "dark" || c == "light"
    ensures c == "dark" <==> t.textColor == "dark"
  {
    if t.textColor == "dark" then "dark" else "light"
  }

  /**
   * The guard `!targetFlair || currentFlair === targetFlair.rank || currentFlair > targetFlair.rank`
   * negated; with no saved rank both comparisons are false.
   */
  predicate Upgrades(target: Tier, current: Option<int>) {
    !(current == Some(target.rank) || (current.Some? && current.value > target.rank))
  }

  /** The job's decision: nothing without data, without a tier, or when the saved rank is not lower. */
  function Decide(data: Option<StreakUpData>, saved: map<string, int>): (r: Option<Award>)
    ensures data.None? ==> r.None?
    ensures r.Some? ==> GetFlairByStreak(data.value.streak).Some?
    ensures r.Some? ==> data.value.username !in saved || saved[data.value.username] < r.value.rank
    ensures r.Some? ==> r.value.message == PrivateMessage(data.value.username, data.value.streak)
  {
    if data.None? then None
    else
      var d := data.value;
      var target := GetFlairByStreak(d.streak);
      var current := if d.username in saved then Some(saved[d.username]) else None;
      if target.None? || !Upgrades(target.value, current) then None
      else
        var t := target.value;
        Some(Award(t.rank, PrivateMessage(d.username, d.streak),
                   FlairAssignment(d.subredditName, d.username, t.name, t.backgroundColor, TextColor(t))))
  }

  /** The job awards exactly the table tier for the streak, to exactly the user in the event. */
  lemma DecideAwardsTheTier(data: Option<StreakUpData>, saved: map<string, int>)
    requires Decide(data, saved).Some?
    ensures var a := Decide(data, saved).value; var t := GetFlairByStreak(data.value.streak).value;
      a.rank == t.rank && a.flair.text == t.name && a.flair.textColor == TextColor(t)
      && a.flair.backgroundColor == t.backgroundColor && a.flair.subredditName == data.value.subredditName
      && a.flair.username == data.value.username && a.message.to == data.value.username
  {
  }

  /** As written, the job only ever awards "Newbie", and only to a user with no saved rank or one below 1. */
  lemma OnlyNewbieIsAwarded(d: StreakUpData, saved: map<string, int>)
    requires GetOr(d.streak, 0) >= 0
    ensures Decide(Some(d), saved).Some? <==> d.username !in saved || saved[d.username] < 1
    ensures Decide(Some(d), saved).Some? ==> Decide(Some(d), saved).value.flair.text == "Newbie"
  {
    EveryStreakIsNewbie(GetOr(d.streak, 0));
  }

  /**
   * The job `handleStreakUpdate` schedules carries a streak of at least 1, so when it runs it
   * awards "Newbie" to a user without a saved rank of 1 or more, and does nothing otherwise.
   */
  lemma StreakUpJobAwardsNewbie(s: StoreState, u: string, today: Date, subreddit: Option<string>,
                                hasScheduler: bool, saved: map<string, int>)
    requires ValidDate(today) && JobRuns(subreddit, hasScheduler) && StoredCount(s.streak, u) >= 0
    ensures var r := StreakUpdate(s, u, today, subreddit, hasScheduler);
      var j := r.jobs[|r.jobs| - 1];
      var a := Decide(Some(StreakUpData(j.username, Some(j.streak), j.subredditName)), saved);
      && j.streak >= 1
      && (a.Some? <==> u !in saved || saved[u] < 1)
      && (a.Some? ==> a.value.flair.text == "Newbie" && a.value.message == PrivateMessage(u, Some(j.streak)))
  {
    var r := StreakUpdate(s, u, today, subreddit, hasScheduler);
    var j := r.jobs[|r.jobs| - 1];
    assert j == StreakUpJob(u, NewStreak(FieldsOf(s, u), today), subreddit.value);
    OnlyNewbieIsAwarded(StreakUpData(j.username, Some(j.streak), j.subredditName), saved);
  }

  /** The saved ranks and the messages and flair the job sent. */
  class FlairJob {
    /** `getUserFlairData` / `saveUserFlairData`. */
    var saved: map<string, int>
    var messages: seq<PrivateMessage>
    var flairs: seq<FlairAssignment>

    constructor (saved: map<string, int>)
      ensures this.saved == saved && messages == [] && flairs == []
    {
      this.saved := saved;
      messages, flairs := [], [];
    }

    /** `onRun`: the three calls of `Promise.all`, in sequence. */
    method OnRun(data: Option<StreakUpData>)
      modifies this
      ensures var a := Decide(data, old(saved));
        a.None? ==> saved == old(saved) && messages == old(messages) && flairs == old(flairs)
      ensures var a := Decide(data, old(saved));
        a.Some? ==> && saved == old(saved)[data.value.username := a.value.rank]
                    && messages == old(messages) + [a.value.message]
                    && flairs == old(flairs) + [a.value.flair]
      ensures forall u :: u in old(saved) ==> u in saved && saved[u] >= old(saved)[u]
    {
      if data.None? {
        return;
      }
      var d := data.value;
      var targetFlair := GetFlairByStreak(d.streak);
      var currentFlair := if d.username in saved then Some(saved[d.username]) else None;
      if targetFlair.None? || currentFlair == Some(targetFlair.value.rank)
         || (currentFlair.Some? && currentFlair.value > targetFlair.value.rank) {
        return;
      }
      var t := targetFlair.value;
      messages := messages + [PrivateMessage(d.username, d.streak)];
      flairs := flairs + [FlairAssignment(d.subredditName, d.username, t.name, t.backgroundColor, TextColor(t))];
      saved := saved[d.username := t.rank];
    }
  }
}
