/**
 * server/UserService.tsx: per-user daily progress (solved lists, streak, longest streak,
 * last solved day) kept in the shared store, and the daily streak transition.
 *
 * Every state-changing method is specified by a function from the old store content to the
 * new one (AddDailySolved, StreakUpdate, DailySolvedStats, AddGeneratedSolved); the lemmas
 * below state what those functions promise. "Today" is a parameter: it stands for `new Date()`.
 */
module Users {
  import opened Results
  import opened Calendar
  import opened DayKeys
  import opened Redis

  /** `hGet` of a per-user field: the stored value, or nothing when the field is missing. */
  function Field<V>(m: map<string, V>, u: string): Option<V> {
    if u in m then Some(m[u]) else None
  }

  /** A JSON list field read as `currentData ? JSON.parse(currentData) : []`. */
  function StoredList(m: map<string, seq<string>>, u: string): seq<string> {
    GetOr(Field(m, u), [])
  }

  /** A numeric field read as `value ? parseInt(value, 10) : 0`. */
  function StoredCount(m: map<string, int>, u: string): int {
    GetOr(Field(m, u), 0)
  }

  /**
   * Per-user fields read back the last value written for that user, a write for one user leaves
   * every other user's fields as they were, and a user never written reads as missing, 0 or [].
   */
  lemma ReadAfterWrite<V>(m: map<string, V>, w: string, v: V, u: string)
    ensures Field(m[w := v], u) == if u == w then Some(v) else Field(m, u)
    ensures Field<V>(map[], u).None?
  {
  }

  lemma CountAfterWrite(m: map<string, int>, w: string, v: int, u: string)
    ensures StoredCount(m[w := v], u) == if u == w then v else StoredCount(m, u)
    ensures StoredCount(map[], u) == 0
  {
    ReadAfterWrite(m, w, v, u);
  }

  lemma ListAfterWrite(m: map<string, seq<string>>, w: string, v: seq<string>, u: string)
    ensures StoredList(m[w := v], u) == if u == w then v else StoredList(m, u)
    ensures StoredList(map[], u) == []
  {
    ReadAfterWrite(m, w, v, u);
  }

  predicate NoDuplicates(s: seq<string>) {
    forall i, j :: 0 <= i < j < |s| ==> s[i] != s[j]
  }

  /**
   * `if (!list.includes(x)) list.push(x)`: the old list stays a prefix, `x` is in the result,
   * nothing else is added, and the list grows only when `x` was new.
   */
  function AddIfAbsent(list: seq<string>, x: string): (r: seq<string>)
    ensures |r| == if x in list then |list| else |list| + 1
    ensures r[..|list|] == list
    ensures forall y :: y in r <==> y in list || y == x
  {
    if x in list then list else list + [x]
  }

  /** Adding an element twice adds it once. */
  lemma AddIfAbsentIdempotent(list: seq<string>, x: string)
    ensures AddIfAbsent(AddIfAbsent(list, x), x) == AddIfAbsent(list, x)
  {
  }

  /** An add never introduces a duplicate. */
  lemma AddIfAbsentKeepsNoDuplicates(list: seq<string>, x: string)
    requires NoDuplicates(list)
    ensures NoDuplicates(AddIfAbsent(list, x))
  {
  }

  // ---------------------------------------------------------------------------------
  // Per-day solved counts: the `reduce` over the values of the `dailySolvedCount` hash.

  /** `values.reduce((acc, val) => acc + val, 0)`, folding from the left. */
  function Total(buckets: seq<Bucket>): int
  {
    if buckets == [] then 0 else Total(buckets[..|buckets| - 1]) + buckets[|buckets| - 1].count
  }

  /** The total of two runs of buckets is the sum of their totals. */
  lemma {:induction false} TotalConcat(a: seq<Bucket>, b: seq<Bucket>)
    ensures Total(a + b) == Total(a) + Total(b)
  {
    if b != [] {
      assert (a + b)[..|a + b| - 1] == a + b[..|b| - 1];
      assert (a + b)[|a + b| - 1] == b[|b| - 1];
      TotalConcat(a, b[..|b| - 1]);
    } else {
      assert a + b == a;
    }
  }

  /** The total does not depend on the order in which the hash returns its fields. */
  lemma {:induction false} TotalPermutation(a: seq<Bucket>, b: seq<Bucket>)
    requires multiset(a) == multiset(b)
    ensures Total(a) == Total(b)
  {
    if a == [] {
      assert |b| == |multiset(b)| == 0;
    } else {
      var x := a[|a| - 1];
      var a' := a[..|a| - 1];
      assert a == a' + [x];
      assert x in multiset(b);
      var j :| 0 <= j < |b| && b[j] == x;
      var b' := b[..j] + b[j + 1..];
      assert b == b[..j] + [x] + b[j + 1..];
      assert multiset(b) == multiset(b[..j]) + multiset([x]) + multiset(b[j + 1..]);
      assert multiset(a) == multiset(a') + multiset([x]);
      assert multiset(b') == multiset(b[..j]) + multiset(b[j + 1..]);
      assert multiset(a') == multiset(a) - multiset([x]);
      assert multiset(b') == multiset(b) - multiset([x]);
      TotalPermutation(a', b');
      TotalConcat(b[..j] + [x], b[j + 1..]);
      TotalConcat(b[..j], [x]);
      TotalConcat(b[..j], b[j + 1..]);
      assert Total([x]) == x.count by {
        assert [x][..0] == [];
      }
    }
  }

  // ---------------------------------------------------------------------------------
  // The streak transition.

  /** The three fields the streak transition reads and writes, for one user. */
  datatype StreakFields = StreakFields(streak: Option<int>, longest: Option<int>, lastSolved: Option<string>)

  function FieldsOf(s: StoreState, u: string): StreakFields {
    StreakFields(Field(s.streak, u), Field(s.longest, u), Field(s.lastSolved, u))
  }

  /**
   * `lastDailySolved ? new Date(lastDailySolved) : new Date(0)`: a missing or empty date is the
   * epoch; `None` is the invalid date a malformed one parses to.
   */
  function LastSolvedDay(last: Option<string>): Option<Date> {
    if last.None? || last.value == "" then Some(Epoch) else ParseDayKey(last.value)
  }

  /** One more than the stored streak when the last solve was yesterday, 1 otherwise. */
  function NewStreak(f: StreakFields, today: Date): int
    requires ValidDate(today)
  {
    if LastSolvedDay(f.lastSolved) == Some(Predecessor(today)) then GetOr(f.streak, 0) + 1 else 1
  }

  /** The fields after the transition: the new streak, the longest raised to it, today's key. */
  function StreakTransition(f: StreakFields, today: Date): StreakFields
    requires ValidDate(today)
  {
    var n := NewStreak(f, today);
    StreakFields(Some(n), if n > GetOr(f.longest, 0) then Some(n) else f.longest, Some(DayKey(today)))
  }

  /** `handleStreakUpdate` on the whole store: the transition for `u`, then at most one job. */
  function StreakUpdate(s: StoreState, u: string, today: Date, subreddit: Option<string>, hasScheduler: bool): StoreState
    requires ValidDate(today)
  {
    var n := NewStreak(FieldsOf(s, u), today);
    s.(streak := s.streak[u := n],
       longest := if n > StoredCount(s.longest, u) then s.longest[u := n] else s.longest,
       lastSolved := s.lastSolved[u := DayKey(today)],
       jobs := if JobRuns(subreddit, hasScheduler) then s.jobs + [StreakUpJob(u, n, subreddit.value)] else s.jobs)
  }

  /** `subreddit?.name` is truthy and `this.scheduler` is present. */
  predicate JobRuns(subreddit: Option<string>, hasScheduler: bool) {
    subreddit.Some? && subreddit.value != "" && hasScheduler
  }

  /** The argument check shared by the operations that take a day or a puzzle id. */
  predicate InvalidArguments(username: string, key: string) {
    username == "" || key == ""
  }

  /** `updateUserDailySolvedStats`: the streak transition, only when the puzzle day is today's key. */
  function DailySolvedStats(s: StoreState, u: string, puzzleDay: string, today: Date,
                            subreddit: Option<string>, hasScheduler: bool): StoreState
    requires ValidDate(today)
  {
    if InvalidArguments(u, puzzleDay) || puzzleDay != DayKey(today) then s
    else StreakUpdate(s, u, today, subreddit, hasScheduler)
  }

  /** `addDailySolvedPuzzle` on the whole store. */
  function AddDailySolved(s: StoreState, u: string, puzzleDay: string): StoreState {
    if InvalidArguments(u, puzzleDay) || puzzleDay in StoredList(s.dailySolved, u) then s
    else s.(dailySolved := s.dailySolved[u := StoredList(s.dailySolved, u) + [puzzleDay]])
  }

  /** `addUserGeneratedSolvedPuzzle` on the whole store. */
  function AddGeneratedSolved(s: StoreState, u: string, puzzleId: string): StoreState {
    if InvalidArguments(u, puzzleId) || puzzleId in StoredList(s.generatedSolved, u) then s
    else s.(generatedSolved := s.generatedSolved[u := StoredList(s.generatedSolved, u) + [puzzleId]])
  }

  // ---------------------------------------------------------------------------------
  // What the transitions promise.

  /** The whole-store update acts on `u`'s three fields exactly as the per-user transition. */
  lemma StreakUpdateIsTransition(s: StoreState, u: string, today: Date, subreddit: Option<string>, hasScheduler: bool)
    requires ValidDate(today)
    ensures FieldsOf(StreakUpdate(s, u, today, subreddit, hasScheduler), u) == StreakTransition(FieldsOf(s, u), today)
  {
  }

  /**
   * When the stored last-solved date is a day's key, the streak continues exactly when that day
   * is yesterday; otherwise it restarts at 1.
   */
  lemma StreakAfterStoredDay(f: StreakFields, last: Date, today: Date)
    requires ValidDate(today) && ValidDate(last) && f.lastSolved == Some(DayKey(last))
    ensures NewStreak(f, today) == if last == Predecessor(today) then GetOr(f.streak, 0) + 1 else 1
  {
    ParseDayKeyRoundTrip(last);
  }

  /** With no last-solved date the streak starts at 1 (unless today is the day after the epoch). */
  lemma FirstSolveStartsAtOne(f: StreakFields, today: Date)
    requires ValidDate(today) && (f.lastSolved.None? || f.lastSolved == Some(""))
    requires today != Date(1, 2, 1970)
    ensures NewStreak(f, today) == 1
  {
  }

  /** `new Date(0)` is 1-1-1970, so on 1-2-1970 a user with no history continues the stored streak. */
  lemma EpochCountsAsYesterday(f: StreakFields)
    requires f.lastSolved.None?
    ensures NewStreak(f, Date(1, 2, 1970)) == GetOr(f.streak, 0) + 1
  {
  }

  /** After the transition the longest streak is the larger of the old longest and the new streak. */
  lemma TransitionKeepsLongest(f: StreakFields, today: Date)
    requires ValidDate(today)
    ensures var r := StreakTransition(f, today);
      GetOr(r.longest, 0) == (if NewStreak(f, today) > GetOr(f.longest, 0) then NewStreak(f, today) else GetOr(f.longest, 0))
      && GetOr(r.longest, 0) >= GetOr(r.streak, 0)
      && r.lastSolved == Some(DayKey(today))
  {
  }

  /** Solving on consecutive days continues the streak. */
  lemma ConsecutiveDaysContinue(f: StreakFields, d: Date)
    requires ValidDate(d)
    ensures var f1 := StreakTransition(f, d);
      StreakTransition(f1, Successor(d)).streak == Some(GetOr(f1.streak, 0) + 1)
  {
    var f1 := StreakTransition(f, d);
    PredecessorOfSuccessor(d);
    StreakAfterStoredDay(f1, d, Successor(d));
  }

  /** Skipping a day resets the streak. */
  lemma MissedDayResets(f: StreakFields, d: Date)
    requires ValidDate(d)
    ensures var later := Successor(Successor(d));
      StreakTransition(StreakTransition(f, d), later).streak == Some(1)
  {
    var later := Successor(Successor(d));
    PredecessorOfSuccessor(Successor(d));
    StreakAfterStoredDay(StreakTransition(f, d), d, later);
  }

  /** The scenario "first solve on day D, again on D+1, then on D+3": streaks 1, 2, 1. */
  lemma StreakScenario(d: Date)
    requires ValidDate(d) && d != Date(1, 2, 1970)
    ensures var f1 := StreakTransition(StreakFields(None, None, None), d);
      var f2 := StreakTransition(f1, Successor(d));
      var f3 := StreakTransition(f2, Successor(Successor(Successor(d))));
      f1 == StreakFields(Some(1), Some(1), Some(DayKey(d)))
      && f2.streak == Some(2) && f2.longest == Some(2)
      && f3.streak == Some(1) && f3.longest == Some(2)
  {
    var f0 := StreakFields(None, None, None);
    FirstSolveStartsAtOne(f0, d);
    var f1 := StreakTransition(f0, d);
    ConsecutiveDaysContinue(f0, d);
    var f2 := StreakTransition(f1, Successor(d));
    MissedDayResets(f1, Successor(d));
  }

  /** The transition applied for each day in turn. */
  function Replay(f: StreakFields, days: seq<Date>): StreakFields
    requires forall i :: 0 <= i < |days| ==> ValidDate(days[i])
  {
    if days == [] then f else StreakTransition(Replay(f, days[..|days| - 1]), days[|days| - 1])
  }

  /** The longest streak never decreases along a run of solves. */
  lemma {:induction false} ReplayLongestGrows(f: StreakFields, days: seq<Date>, k: nat)
    requires forall i :: 0 <= i < |days| ==> ValidDate(days[i])
    requires k <= |days|
    ensures GetOr(Replay(f, days).longest, 0) >= GetOr(Replay(f, days[..k]).longest, 0)
  {
    if k < |days| {
      assert days[..|days| - 1][..k] == days[..k];
      ReplayLongestGrows(f, days[..|days| - 1], k);
    } else {
      assert days[..k] == days;
    }
  }

  /** After any run of solves, the longest streak is at least every streak observed along the way. */
  lemma {:induction false} LongestDominatesHistory(f: StreakFields, days: seq<Date>, k: nat)
    requires forall i :: 0 <= i < |days| ==> ValidDate(days[i])
    requires 1 <= k <= |days|
    ensures GetOr(Replay(f, days).longest, 0) >= GetOr(Replay(f, days[..k]).streak, 0)
  {
    assert days[..k][..k - 1] == days[..k - 1];
    TransitionKeepsLongest(Replay(f, days[..k - 1]), days[k - 1]);
    ReplayLongestGrows(f, days, k);
  }

  /**
   * The streak update touches only `u`'s streak, longest and last-solved fields and the job queue;
   * the job carries the new streak and is emitted exactly when a subreddit and a scheduler are known.
   */
  lemma StreakUpdateFrame(s: StoreState, u: string, today: Date, subreddit: Option<string>, hasScheduler: bool)
    requires ValidDate(today)
    ensures var r := StreakUpdate(s, u, today, subreddit, hasScheduler);
      && r.dailySolved == s.dailySolved && r.generatedSolved == s.generatedSolved
      && r.dailyCounts == s.dailyCounts && r.dailyBoard == s.dailyBoard && r.streakBoard == s.streakBoard
      && (forall v :: v != u ==> FieldsOf(r, v) == FieldsOf(s, v))
      && r.jobs == s.jobs + (if JobRuns(subreddit, hasScheduler)
                             then [StreakUpJob(u, NewStreak(FieldsOf(s, u), today), subreddit.value)] else [])
  {
  }

  /** A solve of any day other than today's changes nothing. */
  lemma OtherDayChangesNothing(s: StoreState, u: string, puzzleDay: string, today: Date,
                               subreddit: Option<string>, hasScheduler: bool)
    requires ValidDate(today) && puzzleDay != DayKey(today)
    ensures DailySolvedStats(s, u, puzzleDay, today, subreddit, hasScheduler) == s
  {
  }

  /**
   * With the already-solved guard commented out, a second solve on the same day finds today as
   * the last solved day, which is not yesterday, so the streak drops back to 1 while the longest
   * streak keeps its value (it is raised only if it was below 1); each call also schedules
   * another job.
   */
  lemma SecondSolveSameDayResets(s: StoreState, u: string, today: Date, subreddit: Option<string>, hasScheduler: bool)
    requires ValidDate(today) && u != ""
    ensures var once := DailySolvedStats(s, u, DayKey(today), today, subreddit, hasScheduler);
      var twice := DailySolvedStats(once, u, DayKey(today), today, subreddit, hasScheduler);
      && StoredCount(twice.streak, u) == 1
      && StoredCount(twice.longest, u) == (if StoredCount(once.longest, u) < 1 then 1 else StoredCount(once.longest, u))
      && |twice.jobs| == |once.jobs| + (if JobRuns(subreddit, hasScheduler) then 1 else 0)
  {
    var once := DailySolvedStats(s, u, DayKey(today), today, subreddit, hasScheduler);
    assert FieldsOf(once, u).lastSolved == Some(DayKey(today));
    StreakAfterStoredDay(FieldsOf(once, u), today, today);
    assert NewStreak(FieldsOf(once, u), today) == 1;
  }

  /** Today's solve by a new user: streak 1, longest 1, last solved today, one job. */
  lemma FirstDailySolve(u: string, today: Date, subreddit: string)
    requires u != "" && subreddit != "" && ValidDate(today) && today != Date(1, 2, 1970)
    ensures var r := DailySolvedStats(EmptyState, u, DayKey(today), today, Some(subreddit), true);
      r.streak == map[u := 1] && r.longest == map[u := 1] && r.lastSolved == map[u := DayKey(today)]
      && r.jobs == [StreakUpJob(u, 1, subreddit)]
  {
    FirstSolveStartsAtOne(FieldsOf(EmptyState, u), today);
  }

  /** The day identifier of 1 June 2025 is "6-1-2025". */
  lemma DayKeyExample()
    ensures DayKey(Date(6, 1, 2025)) == "6-1-2025"
  {
    assert NatToString(2025) == "2025" by {
      assert NatToString(2) == "2";
      assert NatToString(20) == "20";
      assert NatToString(202) == "202";
    }
  }

  /** A user with streak 5 who last solved on 6-1-2025 and solves on 6-2-2025 gets streak 6. */
  lemma NextDayExample(f: StreakFields)
    requires f.streak == Some(5) && f.lastSolved == Some("6-1-2025")
    ensures NewStreak(f, Date(6, 2, 2025)) == 6
  {
    DayKeyExample();
    StreakAfterStoredDay(f, Date(6, 1, 2025), Date(6, 2, 2025));
  }

  /** The same user solving next on 6-5-2025 gets streak 1. */
  lemma GapExample(f: StreakFields)
    requires f.lastSolved == Some("6-1-2025")
    ensures NewStreak(f, Date(6, 5, 2025)) == 1
  {
    DayKeyExample();
    StreakAfterStoredDay(f, Date(6, 1, 2025), Date(6, 5, 2025));
  }

  /** Adding a solved day twice is adding it once. */
  lemma AddDailySolvedIdempotent(s: StoreState, u: string, puzzleDay: string)
    ensures AddDailySolved(AddDailySolved(s, u, puzzleDay), u, puzzleDay) == AddDailySolved(s, u, puzzleDay)
  {
  }

  /**
   * A valid add appends the day once at the end when it is absent and changes nothing otherwise,
   * so a list without duplicates stays without duplicates; nothing but `u`'s list changes.
   */
  lemma AddDailySolvedAppendsOnce(s: StoreState, u: string, puzzleDay: string)
    requires !InvalidArguments(u, puzzleDay)
    ensures var r := AddDailySolved(s, u, puzzleDay);
      && StoredList(r.dailySolved, u) == AddIfAbsent(StoredList(s.dailySolved, u), puzzleDay)
      && (NoDuplicates(StoredList(s.dailySolved, u)) ==> NoDuplicates(StoredList(r.dailySolved, u)))
      && r == s.(dailySolved := r.dailySolved)
      && forall v :: v != u ==> Field(r.dailySolved, v) == Field(s.dailySolved, v)
  {
    if NoDuplicates(StoredList(s.dailySolved, u)) {
      AddIfAbsentKeepsNoDuplicates(StoredList(s.dailySolved, u), puzzleDay);
    }
  }

  /**
   * The user-generated solved list behaves the same way: the id is appended once, a second add
   * changes nothing, a list without duplicates stays so, and nothing but `u`'s list changes.
   */
  lemma AddGeneratedSolvedAppendsOnce(s: StoreState, u: string, puzzleId: string)
    requires !InvalidArguments(u, puzzleId)
    ensures var r := AddGeneratedSolved(s, u, puzzleId);
      && StoredList(r.generatedSolved, u) == AddIfAbsent(StoredList(s.generatedSolved, u), puzzleId)
      && AddGeneratedSolved(r, u, puzzleId) == r
      && (NoDuplicates(StoredList(s.generatedSolved, u)) ==> NoDuplicates(StoredList(r.generatedSolved, u)))
      && r == s.(generatedSolved := r.generatedSolved)
      && forall v :: v != u ==> Field(r.generatedSolved, v) == Field(s.generatedSolved, v)
  {
    if NoDuplicates(StoredList(s.generatedSolved, u)) {
      AddIfAbsentKeepsNoDuplicates(StoredList(s.generatedSolved, u), puzzleId);
    }
  }

  /** An empty username, day or puzzle id leaves the store as it was. */
  lemma InvalidArgumentsChangeNothing(s: StoreState, u: string, key: string, today: Date,
                                      subreddit: Option<string>, hasScheduler: bool)
    requires ValidDate(today) && InvalidArguments(u, key)
    ensures AddDailySolved(s, u, key) == s
    ensures AddGeneratedSolved(s, u, key) == s
    ensures DailySolvedStats(s, u, key, today, subreddit, hasScheduler) == s
  {
  }

  // ---------------------------------------------------------------------------------
  // The service.

  class UserService {
    /** `this.redis`. */
    const store: Store
    /** Whether `this.scheduler` is present. */
    const hasScheduler: bool

    constructor (store: Store, hasScheduler: bool)
      ensures this.store == store && this.hasScheduler == hasScheduler
    {
      this.store := store;
      this.hasScheduler := hasScheduler;
    }

    /** `getUserStreak`: the stored streak, 0 when missing. */
    method GetUserStreak(username: string) returns (r: Result<int>)
      ensures username == "" <==> r.Err?
      ensures r.Ok? ==> r.value == StoredCount(store.streak, username)
    {
      if username == "" {
        return Err("Invalid username.");
      }
      var streak := Field(store.streak, username);
      r := Ok(if streak.Some? then streak.value else 0);
    }

    /** `getUserLongestStreak`: the stored longest streak, 0 when missing. */
    method GetUserLongestStreak(username: string) returns (r: Result<int>)
      ensures username == "" <==> r.Err?
      ensures r.Ok? ==> r.value == StoredCount(store.longest, username)
    {
      if username == "" {
        return Err("Invalid username.");
      }
      var longestStreak := Field(store.longest, username);
      r := Ok(if longestStreak.Some? then longestStreak.value else 0);
    }

    /** `getUserDailySolvedCount`: the sum of all per-day counts, 0 when there are none. */
    method GetUserDailySolvedCount(username: string) returns (r: Result<int>)
      ensures username == "" <==> r.Err?
      ensures r.Ok? ==> r.value == Total(GetOr(Field(store.dailyCounts, username), []))
    {
      if username == "" {
        return Err("Invalid username.");
      }
      var data := GetOr(Field(store.dailyCounts, username), []);
      var acc := 0;
      var i := 0;
      while i < |data|
        invariant 0 <= i <= |data|
        invariant acc == Total(data[..i])
      {
        assert data[..i + 1][..i] == data[..i];
        acc := acc + data[i].count;
        i := i + 1;
      }
      assert data[..i] == data;
      r := Ok(acc);
    }

    /** `getUserLastSolved`: the stored date, '' when missing. */
    method GetUserLastSolved(username: string) returns (r: Result<string>)
      ensures username == "" <==> r.Err?
      ensures r.Ok? ==> r.value == GetOr(Field(store.lastSolved, username), "")
    {
      if username == "" {
        return Err("Invalid username.");
      }
      var lastSolved := Field(store.lastSolved, username);
      r := Ok(if lastSolved.Some? then lastSolved.value else "");
    }

    /** `addUserGeneratedSolvedPuzzle`. */
    method AddUserGeneratedSolvedPuzzle(username: string, puzzleId: string) returns (r: Outcome)
      modifies store
      ensures r.Failed? <==> InvalidArguments(username, puzzleId)
      ensures store.State() == AddGeneratedSolved(old(store.State()), username, puzzleId)
    {
      if username == "" || puzzleId == "" {
        return Failed("Invalid username or puzzle ID.");
      }
      var solvedPuzzles := StoredList(store.generatedSolved, username);
      if puzzleId !in solvedPuzzles {
        solvedPuzzles := solvedPuzzles + [puzzleId];
        store.generatedSolved := store.generatedSolved[username := solvedPuzzles];
      }
      r := Done;
    }

    /** `getUserGeneratedSolvedPuzzleList`: the stored list, empty when missing. */
    method GetUserGeneratedSolvedPuzzleList(username: string) returns (r: Result<seq<string>>)
      ensures username == "" <==> r.Err?
      ensures r.Ok? ==> r.value == StoredList(store.generatedSolved, username)
    {
      if username == "" {
        return Err("Invalid username.");
      }
      r := Ok(StoredList(store.generatedSolved, username));
    }

    /** `getUserGeneratedPuzzleSolvedCount`: the length of the stored list (no username check). */
    method GetUserGeneratedPuzzleSolvedCount(username: string) returns (n: int)
      ensures n == |StoredList(store.generatedSolved, username)|
      ensures username !in store.generatedSolved ==> n == 0
    {
      var solvedPuzzles := StoredList(store.generatedSolved, username);
      n := |solvedPuzzles|;
    }

    /** `addDailySolvedPuzzle`. */
    method AddDailySolvedPuzzle(username: string, puzzleDay: string) returns (r: Outcome)
      modifies store
      ensures r.Failed? <==> InvalidArguments(username, puzzleDay)
      ensures store.State() == AddDailySolved(old(store.State()), username, puzzleDay)
    {
      if username == "" || puzzleDay == "" {
        return Failed("Invalid username or day.");
      }
      var solvedDays := StoredList(store.dailySolved, username);
      if puzzleDay !in solvedDays {
        solvedDays := solvedDays + [puzzleDay];
        store.dailySolved := store.dailySolved[username := solvedDays];
      }
      r := Done;
    }

    /**
     * `updateUserDailySolvedStats`, with `today` standing for `new Date()` and `subreddit` for the
     * name `getCurrentSubreddit()` returns (`None` without a Reddit client).
     */
    method UpdateUserDailySolvedStats(username: string, puzzleDay: string, today: Date, subreddit: Option<string>)
      returns (r: Outcome)
      requires ValidDate(today)
      modifies store
      ensures r.Failed? <==> InvalidArguments(username, puzzleDay)
      ensures store.State() == DailySolvedStats(old(store.State()), username, puzzleDay, today, subreddit, hasScheduler)
    {
      if username == "" || puzzleDay == "" {
        return Failed("Invalid username or day.");
      }
      var day := DayKey(today);
      var isTodayPuzzleDay := day == puzzleDay;
      if isTodayPuzzleDay {
        HandleStreakUpdate(username, today, subreddit);
      }
      r := Done;
    }

    /** `handleStreakUpdate(username, day)` where `day` is today's key. */
    method HandleStreakUpdate(username: string, today: Date, subreddit: Option<string>)
      requires ValidDate(today)
      modifies store
      ensures store.State() == StreakUpdate(old(store.State()), username, today, subreddit, hasScheduler)
    {
      ghost var s0 := store.State();
      var currentDay := DayKey(today);
      var lastDailySolved := Field(store.lastSolved, username);
      var lastSolvedDay := if lastDailySolved.Some? && lastDailySolved.value != ""
                           then ParseDayKey(lastDailySolved.value) else Some(Epoch);
      var isYesterday := lastSolvedDay == Some(Predecessor(today));
      var newStreak;
      if isYesterday {
        // hIncrBy: a missing field counts from 0
        newStreak := StoredCount(store.streak, username) + 1;
        store.streak := store.streak[username := newStreak];
      } else {
        newStreak := 1;
      }
      if newStreak == 1 {
        store.streak := store.streak[username := 1];
      }
      assert newStreak == NewStreak(FieldsOf(s0, username), today);
      assert store.streak == s0.streak[username := newStreak];
      var longestStreak := StoredCount(store.longest, username);
      if newStreak > longestStreak {
        store.longest := store.longest[username := newStreak];
      }
      store.lastSolved := store.lastSolved[username := currentDay];
      if subreddit.Some? && subreddit.value != "" && hasScheduler {
        store.jobs := store.jobs + [StreakUpJob(username, newStreak, subreddit.value)];
      }
    }

    /** `getDailySolvedPuzzles`: the stored list, empty when missing. */
    method GetDailySolvedPuzzles(username: string) returns (r: Result<seq<string>>)
      ensures username == "" <==> r.Err?
      ensures r.Ok? ==> r.value == StoredList(store.dailySolved, username)
    {
      if username == "" {
        return Err("Invalid username.");
      }
      r := Ok(StoredList(store.dailySolved, username));
    }
  }
}
