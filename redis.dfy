/**
 * The key-value store the services share (one Redis instance). Each per-user hash field of
 * server/ServiceBase.ts's key scheme is a typed map from username to the field's value, an
 * absent key being a missing field; the two daily sorted sets are maps from member to score;
 * the scheduler's queue records the jobs it was asked to run.
 */
module Redis {

  /** One field of `user:{u}:dailySolvedCount`: a day and the count stored under it. */
  datatype Bucket = Bucket(day: string, count: int)

  /** A `USER_STREAK_UP` job handed to the scheduler. */
  datatype StreakUpJob = StreakUpJob(username: string, streak: int, subredditName: string)

  /** Everything the store holds, as one value, so that a whole-store transition can be stated. */
  datatype StoreState = StoreState(
    dailySolved: map<string, seq<string>>,
    generatedSolved: map<string, seq<string>>,
    dailyCounts: map<string, seq<Bucket>>,
    streak: map<string, int>,
    longest: map<string, int>,
    lastSolved: map<string, string>,
    dailyBoard: map<string, int>,
    streakBoard: map<string, int>,
    jobs: seq<StreakUpJob>)

  /** The store as it is before anything was written. */
  const EmptyState: StoreState :=
    StoreState(map[], map[], map[], map[], map[], map[], map[], map[], [])

  class Store {
    /** `user:{u}:dailySolvedPuzzles`, field `list` (a JSON array of day identifiers). */
    var dailySolved: map<string, seq<string>>
    /** `user:{u}:solvedUGPuzzles`, field `list` (a JSON array of puzzle ids). */
    var generatedSolved: map<string, seq<string>>
    /** `user:{u}:dailySolvedCount`, all fields in the order `hGetAll` returns them. */
    var dailyCounts: map<string, seq<Bucket>>
    /** `user:{u}:streak`, field `streak`. */
    var streak: map<string, int>
    /** `user:{u}:longestStreak`, field `longest`. */
    var longest: map<string, int>
    /** `user:{u}:lastDailySolved`, field `date`. */
    var lastSolved: map<string, string>
    /** Sorted set `dailyTotalLeaderboard`. */
    var dailyBoard: map<string, int>
    /** Sorted set `dailyStreakLeaderboard`. */
    var streakBoard: map<string, int>
    /** Jobs handed to the scheduler, oldest first. */
    var jobs: seq<StreakUpJob>

    /** The whole content of the store. */
    function State(): StoreState
      reads this
    {
      StoreState(dailySolved, generatedSolved, dailyCounts, streak, longest, lastSolved,
                 dailyBoard, streakBoard, jobs)
    }

    /** An empty store. */
    constructor ()
      ensures State() == EmptyState
    {
      dailySolved, generatedSolved, dailyCounts := map[], map[], map[];
      streak, longest, lastSolved := map[], map[], map[];
      dailyBoard, streakBoard, jobs := map[], map[], [];
    }
  }
}
