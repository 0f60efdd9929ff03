/**
 * server/LeaderboardService.ts: the daily-total and daily-streak boards, refreshed from the
 * per-user progress fields by absolute upserts, and their top-N range queries.
 */
module Leaderboards {
  import opened Results
  import opened Redis
  import opened Users

  /** `LeaderboardEntry`. */
  datatype Entry = Entry(username: string, score: int)

  /** The score `updateDailyLeaderboard` writes: the stored list's length plus one, 1 without a list. */
  function DailyTotalScore(s: StoreState, u: string): int {
    if u in s.dailySolved then |s.dailySolved[u]| + 1 else 1
  }

  /** `updateDailyLeaderboard` on the whole store (it checks no username). */
  function UpdateDaily(s: StoreState, u: string): StoreState {
    s.(dailyBoard := s.dailyBoard[u := DailyTotalScore(s, u)])
  }

  /** `updateDailyStreakLeaderboard` on the whole store: `getUserStreak` rejects an empty name first. */
  function UpdateStreak(s: StoreState, u: string): StoreState {
    if u == "" then s else s.(streakBoard := s.streakBoard[u := StoredCount(s.streak, u)])
  }

  /** `updateAllDailyLeaderboards`: the daily board, then the streak board. */
  function UpdateAll(s: StoreState, u: string): StoreState {
    UpdateStreak(UpdateDaily(s, u), u)
  }

  /** Refreshing twice gives the boards refreshing once gives: the writes are absolute. */
  lemma UpdateAllIdempotent(s: StoreState, u: string)
    ensures UpdateAll(UpdateAll(s, u), u) == UpdateAll(s, u)
  {
  }

  /**
   * A refresh sets `u`'s daily score to its list length plus one and (for a non-empty name) its
   * streak score to its stored streak; every other member keeps its score and no progress field
   * or job changes.
   */
  lemma UpdateAllFrame(s: StoreState, u: string)
    ensures var r := UpdateAll(s, u);
      && r.dailyBoard == s.dailyBoard[u := if u in s.dailySolved then |s.dailySolved[u]| + 1 else 1]
      && (u != "" ==> r.streakBoard == s.streakBoard[u := StoredCount(s.streak, u)])
      && (u == "" ==> r.streakBoard == s.streakBoard)
      && r == s.(dailyBoard := r.dailyBoard, streakBoard := r.streakBoard)
      && (forall v :: v != u && v in s.dailyBoard ==> v in r.dailyBoard && r.dailyBoard[v] == s.dailyBoard[v])
      && (forall v :: v != u && v in s.streakBoard ==> v in r.streakBoard && r.streakBoard[v] == s.streakBoard[v])
  {
  }

  /** A user with no record scores 1 on the daily board and 0 on the streak board. */
  lemma NewUserScores(s: StoreState, u: string)
    requires u != "" && u !in s.dailySolved && u !in s.streak
    ensures UpdateAll(s, u).dailyBoard[u] == 1 && UpdateAll(s, u).streakBoard[u] == 0
  {
  }

  // ---------------------------------------------------------------------------------
  // Range queries.

  /**
   * The number of entries `zRange(key, 0, limit - 1, { reverse: true, by: 'rank' })` returns from a
   * set of `size` members, with Redis's convention that a negative stop index counts from the end.
   */
  function RangeCount(limit: int, size: nat): nat {
    var stop := if limit - 1 < 0 then size + (limit - 1) else limit - 1;
    if stop < 0 then 0 else if stop >= size then size else stop + 1
  }

  /** For a positive limit the query returns at most `limit` entries: `min(limit, size)`. */
  lemma RangeCountPositive(limit: int, size: nat)
    requires limit >= 1
    ensures RangeCount(limit, size) == if limit < size then limit else size
    ensures RangeCount(limit, size) <= limit
  {
  }

  /** A limit of 0 asks for ranks 0..-1, which Redis reads as the whole set. */
  lemma RangeCountZero(size: nat)
    ensures RangeCount(0, size) == size
  {
  }

  /** The member names of a run of entries. */
  function Names(entries: seq<Entry>): set<string> {
    set i | 0 <= i < |entries| :: entries[i].username
  }

  /**
   * `entries` is a top slice of `board` in reverse rank order: each entry is a distinct member
   * with its stored score, scores do not increase, and no member left out outscores an entry.
   */
  predicate IsTopSlice(board: map<string, int>, entries: seq<Entry>) {
    && (forall i :: 0 <= i < |entries| ==> entries[i].username in board && board[entries[i].username] == entries[i].score)
    && (forall i, j :: 0 <= i < j < |entries| ==> entries[i].score >= entries[j].score)
    && (forall i, j :: 0 <= i < j < |entries| ==> entries[i].username != entries[j].username)
    && (forall u, i :: u in board && u !in Names(entries) && 0 <= i < |entries| ==> board[u] <= entries[i].score)
  }

  /** Among a non-empty set of members, one has the highest score. */
  lemma {:induction false} HighestExists(board: map<string, int>, candidates: set<string>)
    requires candidates != {} && candidates <= board.Keys
    ensures exists u :: u in candidates && forall v :: v in candidates ==> board[v] <= board[u]
    decreases |candidates|
  {
    var u :| u in candidates;
    var rest := candidates - {u};
    if rest == {} {
      forall v | v in candidates ensures v == u {
        assert v !in rest;
      }
    } else {
      HighestExists(board, rest);
      var w :| w in rest && forall v :: v in rest ==> board[v] <= board[w];
      if board[u] < board[w] {
        assert forall v :: v in candidates ==> board[v] <= board[w];
      } else {
        assert forall v :: v in candidates ==> board[v] <= board[u];
      }
    }
  }

  /** Appending the highest member not yet listed keeps a top slice a top slice. */
  lemma AppendHighest(board: map<string, int>, entries: seq<Entry>, u: string)
    requires IsTopSlice(board, entries)
    requires u in board && u !in Names(entries)
    requires forall v :: v in board && v !in Names(entries) ==> board[v] <= board[u]
    ensures Names(entries + [Entry(u, board[u])]) == Names(entries) + {u}
    ensures IsTopSlice(board, entries + [Entry(u, board[u])])
  {
    var e := entries + [Entry(u, board[u])];
    assert forall i :: 0 <= i < |entries| ==> e[i] == entries[i];
    assert Names(e) == Names(entries) + {u} by {
      forall x | x in Names(e) ensures x in Names(entries) + {u} {
        var i :| 0 <= i < |e| && e[i].username == x;
        if i < |entries| { assert x in Names(entries); }
      }
      forall x | x in Names(entries) ensures x in Names(e) {
        var i :| 0 <= i < |entries| && entries[i].username == x;
        assert e[i].username == x;
      }
      assert e[|entries|].username == u;
    }
  }

  /** The range query of ranks 0..limit-1 in descending score order; ties come in any order. */
  method TopN(board: map<string, int>, limit: int) returns (entries: seq<Entry>)
    ensures |entries| == RangeCount(limit, |board|)
    ensures IsTopSlice(board, entries)
  {
    var count := RangeCount(limit, |board|);
    entries := [];
    while |entries| < count
      invariant |entries| <= count <= |board|
      invariant Names(entries) <= board.Keys && |Names(entries)| == |entries|
      invariant IsTopSlice(board, entries)
    {
      var remaining := board.Keys - Names(entries);
      assert |remaining| == |board.Keys| - |Names(entries)|;
      HighestExists(board, remaining);
      var u :| u in remaining && forall v :: v in remaining ==> board[v] <= board[u];
      AppendHighest(board, entries, u);
      entries := entries + [Entry(u, board[u])];
    }
  }

  class LeaderboardService {
    /** `this.redis`. */
    const store: Store
    /** The `UserService` built on the same context. */
    const users: UserService

    constructor (store: Store, hasScheduler: bool)
      ensures this.store == store && users.store == store
    {
      this.store := store;
      this.users := new UserService(store, hasScheduler);
    }

    /** `updateDailyLeaderboard`. */
    method UpdateDailyLeaderboard(username: string)
      modifies store
      ensures store.State() == UpdateDaily(old(store.State()), username)
    {
      var dailySolvedList := Field(store.dailySolved, username);
      var dailySolvedCount := if dailySolvedList.Some? then |dailySolvedList.value| + 1 else 1;
      store.dailyBoard := store.dailyBoard[username := dailySolvedCount];
    }

    /** `updateDailyStreakLeaderboard`: fails, writing nothing, when `getUserStreak` rejects the name. */
    method UpdateDailyStreakLeaderboard(username: string) returns (r: Outcome)
      requires users.store == store
      modifies store
      ensures r.Failed? <==> username == ""
      ensures store.State() == UpdateStreak(old(store.State()), username)
    {
      var streak := users.GetUserStreak(username);
      if streak.Err? {
        return Failed(streak.message);
      }
      store.streakBoard := store.streakBoard[username := streak.value];
      r := Done;
    }

    /** `updateAllDailyLeaderboards`: an empty name still writes the daily board before failing. */
    method UpdateAllDailyLeaderboards(username: string) returns (r: Outcome)
      requires users.store == store
      modifies store
      ensures r.Failed? <==> username == ""
      ensures store.State() == UpdateAll(old(store.State()), username)
    {
      UpdateDailyLeaderboard(username);
      r := UpdateDailyStreakLeaderboard(username);
    }

    /** `getDailyLeaderboard(limit = 10)`. */
    method GetDailyLeaderboard(limit: Option<int>) returns (entries: seq<Entry>)
      ensures |entries| == RangeCount(GetOr(limit, 10), |store.dailyBoard|)
      ensures IsTopSlice(store.dailyBoard, entries)
    {
      entries := TopN(store.dailyBoard, if limit.Some? then limit.value else 10);
    }

    /** `getDailyStreakLeaderboard(limit = 10)`. */
    method GetDailyStreakLeaderboard(limit: Option<int>) returns (entries: seq<Entry>)
      ensures |entries| == RangeCount(GetOr(limit, 10), |store.streakBoard|)
      ensures IsTopSlice(store.streakBoard, entries)
    {
      entries := TopN(store.streakBoard, if limit.Some? then limit.value else 10);
    }
  }

  /** Refreshing a user's boards twice in a row leaves the same store as refreshing once. */
  method RefreshTwice(service: LeaderboardService, username: string)
    requires service.users.store == service.store
    modifies service.store
    ensures service.store.State() == UpdateAll(old(service.store.State()), username)
  {
    var _ := service.UpdateAllDailyLeaderboards(username);
    var _ := service.UpdateAllDailyLeaderboards(username);
    UpdateAllIdempotent(old(service.store.State()), username);
  }
}
