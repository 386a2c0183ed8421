/** The server's global leaderboard: one entry per player holding the best
    game score, read back from either the current array shape or the legacy
    per-user object shape, ranked by score and then accuracy; together with
    its statistics, the legacy per-answer counters and the per-post top-50
    score list. */
module GlobalBoard {
  import opened Wrappers
  import opened Seqs
  import opened JsMath
  import opened Ranking

  /** A player's line on the board. */
  datatype Entry = Entry(username: string, score: int, accuracy: int,
                         gamesPlayed: int, lastPlayed: int)

  /** A value read from a legacy record: a number, or anything else
      (missing, null, a string, ...). */
  datatype Field = Num(n: int) | NotNumber

  /** The legacy object shape stores, per username, a score and a play count. */
  datatype LegacyStats = LegacyStats(score: Field, plays: Field)

  /** What the leaderboard key holds once parsed: nothing, the array shape, or
      the legacy object shape as its entries in property order. */
  datatype Stored =
    | Nothing
    | Entries(entries: seq<Entry>)
    | Legacy(users: seq<(string, LegacyStats)>)

  function NumberOr0(f: Field): int
  {
    if f.Num? then f.n else 0
  }

  /** A legacy record as a board entry: non-numbers count as 0, the accuracy
      is the score per play as a rounded percentage (0 without plays), and the
      entry is stamped now. */
  function FromLegacy(username: string, stats: LegacyStats, now: int): (e: Entry)
    ensures e.username == username && e.lastPlayed == now
    ensures e.score == NumberOr0(stats.score) && e.gamesPlayed == NumberOr0(stats.plays)
    ensures e.gamesPlayed > 0 ==>
      e.gamesPlayed * (2 * e.accuracy - 1) <= 200 * e.score < e.gamesPlayed * (2 * e.accuracy + 1)
    ensures e.gamesPlayed <= 0 ==> e.accuracy == 0
  {
    var plays, score := NumberOr0(stats.plays), NumberOr0(stats.score);
    Entry(username, score, if plays > 0 then RoundDiv(score * 100, plays) else 0, plays, now)
  }

  /** A legacy record with 0 <= score <= plays (as the answer counters keep it)
      gets an accuracy between 0 and 100. */
  lemma LegacyAccuracyIsPercentage(username: string, stats: LegacyStats, now: int)
    requires 0 <= NumberOr0(stats.score) <= NumberOr0(stats.plays)
    ensures 0 <= FromLegacy(username, stats, now).accuracy <= 100
  {
    var e := FromLegacy(username, stats, now);
    if e.gamesPlayed > 0 {
      RoundDivAtMost(e.score * 100, e.gamesPlayed, 100);
      MulMonotoneInverse(e.gamesPlayed, 0, 2 * e.accuracy + 1);
    }
  }

  function Normalise(users: seq<(string, LegacyStats)>, now: int): (r: seq<Entry>)
    ensures |r| == |users|
    ensures forall i :: 0 <= i < |r| ==> r[i] == FromLegacy(users[i].0, users[i].1, now)
  {
    seq(|users|, i requires 0 <= i < |users| => FromLegacy(users[i].0, users[i].1, now))
  }

  /** The board's order: higher score first, then higher accuracy. */
  function ByScoreThenAccuracy(e: Entry): Rank
  {
    Rank(e.score, e.accuracy)
  }

  function Ranked(entries: seq<Entry>): seq<Entry>
  {
    SortBy(ByScoreThenAccuracy, entries)
  }

  /** The entries held by the key, before sorting. */
  function Raw(stored: Stored, now: int): seq<Entry>
  {
    match stored
    case Nothing => []
    case Entries(entries) => entries
    case Legacy(users) => Normalise(users, now)
  }

  /** getGlobalLeaderboard: the stored entries, sorted best first. */
  function Load(stored: Stored, now: int): seq<Entry>
  {
    Ranked(Raw(stored, now))
  }

  /** The loaded board holds exactly the stored entries, sorted best first. */
  lemma LoadIsSortedPermutation(stored: Stored, now: int)
    ensures multiset(Load(stored, now)) == multiset(Raw(stored, now))
    ensures SortedBy(ByScoreThenAccuracy, Load(stored, now))
  {
    SortByPermutes(ByScoreThenAccuracy, Raw(stored, now));
  }

  /** Loading a board the server saved (already sorted) gives it back as is. */
  lemma LoadSavedBoard(board: seq<Entry>, now: int)
    requires SortedBy(ByScoreThenAccuracy, board)
    ensures Load(Entries(board), now) == board
  {
    SortBySorted(ByScoreThenAccuracy, board);
  }

  /** Usernames of a legacy object are its property names, which are distinct. */
  ghost predicate DistinctNames(users: seq<(string, LegacyStats)>)
  {
    forall i, j :: 0 <= i < j < |users| ==> users[i].0 != users[j].0
  }

  function Username(e: Entry): string
  {
    e.username
  }

  /** The key holds at most one entry per player. */
  ghost predicate OnePerPlayer(stored: Stored)
  {
    match stored
    case Nothing => true
    case Entries(entries) => UniqueBy(Username, entries)
    case Legacy(users) => DistinctNames(users)
  }

  /** Normalising a legacy object gives one entry per player. */
  lemma LegacyBoardHasOneEntryPerPlayer(users: seq<(string, LegacyStats)>, now: int)
    requires DistinctNames(users)
    ensures UniqueBy(Username, Load(Legacy(users), now))
  {
    SortByUnique(ByScoreThenAccuracy, Username, Normalise(users, now));
  }

  /** A returning player's entry after a game: the score and accuracy are
      replaced only by a strictly better score; the play count always rises and
      the entry is stamped now. */
  function Replay(e: Entry, gameScore: int, accuracy: int, now: int): (r: Entry)
    ensures r.username == e.username
    ensures r.score == if gameScore > e.score then gameScore else e.score
    ensures r.accuracy == if gameScore > e.score then accuracy else e.accuracy
    ensures r.gamesPlayed == e.gamesPlayed + 1 && r.lastPlayed == now
  {
    var best := if gameScore > e.score then e.(score := gameScore, accuracy := accuracy) else e;
    best.(gamesPlayed := e.gamesPlayed + 1, lastPlayed := now)
  }

  /** The board before sorting, after recording a game: the first entry of the
      player is replayed, or a new entry is pushed. */
  function Recorded(board: seq<Entry>, username: string, gameScore: int, accuracy: int, now: int): seq<Entry>
  {
    var i := FirstIndex((e: Entry) => e.username == username, board);
    if i >= 0 then board[i := Replay(board[i], gameScore, accuracy, now)]
    else board + [Entry(username, gameScore, accuracy, 1, now)]
  }

  /** updatePlayerScore on a loaded board: the accuracy is the rounded
      percentage of correct answers, then the game is recorded and the board
      sorted. */
  function ApplyGame(board: seq<Entry>, username: string, gameScore: int,
                     correctAnswers: int, totalQuestions: int, now: int): seq<Entry>
    requires totalQuestions != 0
  {
    Ranked(Recorded(board, username, gameScore, RoundQuotient(correctAnswers * 100, totalQuestions), now))
  }

  /** The entry the player has after the game. */
  function PlayerAfter(board: seq<Entry>, username: string, gameScore: int, accuracy: int, now: int): Entry
  {
    var i := FirstIndex((e: Entry) => e.username == username, board);
    if i >= 0 then Replay(board[i], gameScore, accuracy, now)
    else Entry(username, gameScore, accuracy, 1, now)
  }

  /** Keep-best: the saved board is sorted and differs from the old one only
      in the player's entry, replaced if the player was known and added if not. */
  lemma ApplyGameKeepsBest(board: seq<Entry>, username: string, gameScore: int,
                           correctAnswers: int, totalQuestions: int, now: int)
    requires totalQuestions != 0
    ensures var accuracy := RoundQuotient(correctAnswers * 100, totalQuestions);
      var r := ApplyGame(board, username, gameScore, correctAnswers, totalQuestions, now);
      var i := FirstIndex((e: Entry) => e.username == username, board);
      var after := PlayerAfter(board, username, gameScore, accuracy, now);
      && SortedBy(ByScoreThenAccuracy, r)
      && after.username == username
      && (i >= 0 ==> |r| == |board| && multiset(r) == multiset(board) - multiset{board[i]} + multiset{after})
      && (i < 0 ==> |r| == |board| + 1 && multiset(r) == multiset(board) + multiset{after})
  {
    var accuracy := RoundQuotient(correctAnswers * 100, totalQuestions);
    var i := FirstIndex((e: Entry) => e.username == username, board);
    SortByPermutes(ByScoreThenAccuracy, Recorded(board, username, gameScore, accuracy, now));
    if i >= 0 {
      var after := PlayerAfter(board, username, gameScore, accuracy, now);
      var updated := board[i := after];
      assert board == board[..i] + [board[i]] + board[i + 1..];
      assert updated == board[..i] + [after] + board[i + 1..];
    }
  }

  /** The answer of getPlayerRank. */
  datatype PlayerRank = PlayerRank(rank: int, entry: Option<Entry>, totalPlayers: nat)

  /** getPlayerRank: the player's 1-based position, or -1 and no entry. */
  function RankOf(board: seq<Entry>, username: string): (r: PlayerRank)
    ensures r.totalPlayers == |board|
    ensures r.rank == -1 <==> forall i :: 0 <= i < |board| ==> board[i].username != username
    ensures r.rank == -1 ==> r.entry == None
    ensures r.rank != -1 ==>
      && 1 <= r.rank <= |board|
      && r.entry == Some(board[r.rank - 1])
      && board[r.rank - 1].username == username
      && forall i :: 0 <= i < r.rank - 1 ==> board[i].username != username
  {
    var i := FirstIndex((e: Entry) => e.username == username, board);
    if i >= 0 then PlayerRank(i + 1, Some(board[i]), |board|) else PlayerRank(-1, None, |board|)
  }

  /** Loading a key with at most one entry per player gives such a board. */
  lemma LoadKeepsOneEntryPerPlayer(stored: Stored, now: int)
    requires OnePerPlayer(stored)
    ensures UniqueBy(Username, Load(stored, now))
  {
    match stored
    case Nothing =>
    case Entries(entries) => SortByUnique(ByScoreThenAccuracy, Username, entries);
    case Legacy(users) => LegacyBoardHasOneEntryPerPlayer(users, now);
  }

  /** Recording a game on a board with one entry per player keeps one entry
      per player, and the board then holds the player's new entry. */
  lemma RecordedKeepsOneEntryPerPlayer(board: seq<Entry>, username: string, gameScore: int,
                                       accuracy: int, now: int)
    requires UniqueBy(Username, board)
    ensures var updated := Recorded(board, username, gameScore, accuracy, now);
      UniqueBy(Username, updated) && PlayerAfter(board, username, gameScore, accuracy, now) in updated
  {
    var i := FirstIndex((e: Entry) => e.username == username, board);
    var after := PlayerAfter(board, username, gameScore, accuracy, now);
    var updated := Recorded(board, username, gameScore, accuracy, now);
    if i >= 0 {
      assert forall k :: 0 <= k < |updated| && k != i ==> updated[k] == board[k];
      assert updated[i] == after;
    } else {
      assert forall k :: 0 <= k < |board| ==> updated[k] == board[k];
      assert updated[|board|] == after;
    }
  }

  /** On a board with one entry per player, the rank lookup finds the entry a
      player has. */
  lemma RankFindsUniqueEntry(board: seq<Entry>, e: Entry)
    requires UniqueBy(Username, board) && e in board
    ensures RankOf(board, e.username).entry == Some(e)
  {
    var k :| 0 <= k < |board| && board[k] == e;
    var rank := RankOf(board, e.username);
    assert rank.rank != -1;
    assert board[rank.rank - 1].username == board[k].username;
  }

  /** On a board with one entry per player, recording a game keeps one entry
      per player, and the rank lookup that follows finds the player's new entry. */
  lemma SubmittedPlayerIsRanked(board: seq<Entry>, username: string, gameScore: int,
                                correctAnswers: int, totalQuestions: int, now: int)
    requires totalQuestions != 0
    requires UniqueBy(Username, board)
    ensures var r := ApplyGame(board, username, gameScore, correctAnswers, totalQuestions, now);
      var accuracy := RoundQuotient(correctAnswers * 100, totalQuestions);
      && UniqueBy(Username, r)
      && RankOf(r, username).entry == Some(PlayerAfter(board, username, gameScore, accuracy, now))
  {
    var accuracy := RoundQuotient(correctAnswers * 100, totalQuestions);
    var after := PlayerAfter(board, username, gameScore, accuracy, now);
    var updated := Recorded(board, username, gameScore, accuracy, now);
    RecordedKeepsOneEntryPerPlayer(board, username, gameScore, accuracy, now);
    SortByUnique(ByScoreThenAccuracy, Username, updated);
    SortByPermutes(ByScoreThenAccuracy, updated);
    var r := Ranked(updated);
    assert after in multiset(updated);
    assert after in r;
    RankFindsUniqueEntry(r, after);
  }

  /** The board updatePlayerScore saves keeps one entry per player and reads
      back unchanged, so the rank lookup that follows sees exactly it. */
  lemma SavedGameReadsBack(stored: Stored, username: string, gameScore: int,
                           correctAnswers: int, totalQuestions: int, now: int)
    requires totalQuestions != 0 && OnePerPlayer(stored)
    ensures var saved := ApplyGame(Load(stored, now), username, gameScore, correctAnswers, totalQuestions, now);
      OnePerPlayer(Entries(saved)) && Load(Entries(saved), now) == saved
  {
    var board := Load(stored, now);
    LoadKeepsOneEntryPerPlayer(stored, now);
    SubmittedPlayerIsRanked(board, username, gameScore, correctAnswers, totalQuestions, now);
    var saved := ApplyGame(board, username, gameScore, correctAnswers, totalQuestions, now);
    ApplyGameKeepsBest(board, username, gameScore, correctAnswers, totalQuestions, now);
    LoadSavedBoard(saved, now);
  }

  /** The answer of getLeaderboardStats. */
  datatype Stats = Stats(totalPlayers: nat, totalGames: int, averageScore: int, topScore: int)

  function Scores(board: seq<Entry>): (r: seq<int>)
    ensures |r| == |board| && forall i :: 0 <= i < |r| ==> r[i] == board[i].score
  {
    seq(|board|, i requires 0 <= i < |board| => board[i].score)
  }

  function Games(board: seq<Entry>): (r: seq<int>)
    ensures |r| == |board| && forall i :: 0 <= i < |r| ==> r[i] == board[i].gamesPlayed
  {
    seq(|board|, i requires 0 <= i < |board| => board[i].gamesPlayed)
  }

  /** getLeaderboardStats: all zero for an empty board; otherwise the number of
      players, the games of all players, the mean score rounded to the nearest
      integer and the best score. */
  function StatsOf(board: seq<Entry>): (r: Stats)
    ensures |board| == 0 ==> r == Stats(0, 0, 0, 0)
    ensures |board| > 0 ==> r.totalPlayers == |board| && r.totalGames == Sum(Games(board))
    ensures |board| > 0 ==>
      |board| * (2 * r.averageScore - 1) <= 2 * Sum(Scores(board)) < |board| * (2 * r.averageScore + 1)
    ensures |board| > 0 ==> exists i :: 0 <= i < |board| && board[i].score == r.topScore
    ensures forall i :: 0 <= i < |board| ==> board[i].score <= r.topScore
  {
    if |board| == 0 then Stats(0, 0, 0, 0)
    else
      var top := Max(Scores(board));
      assert top in Scores(board);
      Stats(|board|, Sum(Games(board)), RoundDiv(Sum(Scores(board)), |board|), top)
  }

  /** The average score never exceeds the top score. */
  lemma AverageAtMostTop(board: seq<Entry>)
    ensures StatsOf(board).averageScore <= StatsOf(board).topScore
  {
    if |board| > 0 {
      var top := StatsOf(board).topScore;
      SumAtMost(Scores(board), top);
      RoundDivAtMost(Sum(Scores(board)), |board|, top);
    }
  }

  /** On a loaded board the top score is the score of the first entry. */
  lemma TopScoreLeads(stored: Stored, now: int)
    ensures var board := Load(stored, now);
      |board| > 0 ==> StatsOf(board).topScore == board[0].score
  {
    var board := Load(stored, now);
    LoadIsSortedPermutation(stored, now);
    if |board| > 0 {
      assert forall i :: 0 < i < |board| ==> !Outranks(ByScoreThenAccuracy(board[i]), ByScoreThenAccuracy(board[0]));
    }
  }

  /** A per-answer counter of the legacy 'global_leaderboard' object. */
  datatype Counter = Counter(score: int, plays: int)

  /** /submit-answer: the user's counter (created at 0/0) gets one more play,
      and one more point when the answer was correct; no other user changes. */
  function Answer(counters: map<string, Counter>, username: string, correct: bool): (r: map<string, Counter>)
    ensures r.Keys == counters.Keys + {username}
    ensures forall u :: u in counters && u != username ==> r[u] == counters[u]
    ensures var c := if username in counters then counters[username] else Counter(0, 0);
      r[username] == Counter(c.score + (if correct then 1 else 0), c.plays + 1)
  {
    var c := if username in counters then counters[username] else Counter(0, 0);
    counters[username := Counter(c.score + (if correct then 1 else 0), c.plays + 1)]
  }

  /** Counters that were never negative and never scored more than they were
      played stay so. */
  predicate CountersSound(counters: map<string, Counter>)
  {
    forall u :: u in counters ==> 0 <= counters[u].score <= counters[u].plays
  }

  lemma AnswerKeepsCountersSound(counters: map<string, Counter>, username: string, correct: bool)
    requires CountersSound(counters)
    ensures CountersSound(Answer(counters, username, correct))
  {
  }

  /** A score saved for one post, as parsed from its hash; None when the value
      did not parse. */
  datatype ScoreRecord = ScoreRecord(username: string, score: int, accuracy: int, timestamp: int)

  datatype RankedScore = RankedScore(rank: nat, record: ScoreRecord)

  /** .filter(Boolean): the records that parsed, each as often as it was
      stored. */
  function Parsed(values: seq<Option<ScoreRecord>>): (r: seq<ScoreRecord>)
    ensures |r| <= |values|
    ensures forall x :: multiset(r)[x] == multiset(values)[Some(x)]
  {
    if values == [] then []
    else
      assert values == [values[0]] + values[1..];
      (if values[0].Some? then [values[0].value] else []) + Parsed(values[1..])
  }

  function ByScore(s: ScoreRecord): Rank
  {
    Rank(s.score, 0)
  }

  /** top is drawn from parsed, best score first, and nothing of parsed that
      was left out scores more than a record that was kept. */
  ghost predicate BestOf(parsed: seq<ScoreRecord>, top: seq<ScoreRecord>)
  {
    && multiset(top) <= multiset(parsed)
    && (forall i, j :: 0 <= i < j < |top| ==> top[i].score >= top[j].score)
    && (forall x, i :: 0 <= i < |top| && multiset(top)[x] < multiset(parsed)[x] ==> x.score <= top[i].score)
  }

  /** Any prefix of a sorted permutation of parsed is the best of parsed. */
  lemma PrefixOfSortedIsBest(parsed: seq<ScoreRecord>, sorted: seq<ScoreRecord>, k: nat)
    requires multiset(sorted) == multiset(parsed) && SortedBy(ByScore, sorted)
    requires k <= |sorted|
    ensures BestOf(parsed, sorted[..k])
  {
    var top, rest := sorted[..k], sorted[k..];
    assert sorted == top + rest;
    assert multiset(sorted) == multiset(top) + multiset(rest);
    forall i, j | 0 <= i < j < |top|
      ensures top[i].score >= top[j].score
    {
      assert !Outranks(ByScore(sorted[j]), ByScore(sorted[i]));
    }
    forall x, i | 0 <= i < |top| && multiset(top)[x] < multiset(parsed)[x]
      ensures x.score <= top[i].score
    {
      assert x in rest;
      var m :| 0 <= m < |rest| && rest[m] == x;
      assert sorted[k + m] == x;
      assert !Outranks(ByScore(sorted[k + m]), ByScore(sorted[i]));
    }
  }

  /** The 50 best parsed records, best score first. */
  function TopRecords(values: seq<Option<ScoreRecord>>): (top: seq<ScoreRecord>)
    ensures var n := |Parsed(values)|; |top| == if n < 50 then n else 50
    ensures forall i :: 0 <= i < |top| ==> Some(top[i]) in values
    ensures BestOf(Parsed(values), top)
  {
    var parsed := Parsed(values);
    var sorted := SortBy(ByScore, parsed);
    SortByPermutes(ByScore, parsed);
    var top := Take(sorted, 50);
    PrefixOfSortedIsBest(parsed, sorted, |top|);
    forall i | 0 <= i < |top|
      ensures Some(top[i]) in values
    {
      assert top[i] in multiset(parsed);
    }
    top
  }

  /** The records of a ranked list, in its order. */
  function Records(r: seq<RankedScore>): seq<ScoreRecord>
  {
    seq(|r|, i requires 0 <= i < |r| => r[i].record)
  }

  /** Ranks 1, 2, ... given to a list of records. */
  function RankedRecords(top: seq<ScoreRecord>): (r: seq<RankedScore>)
    ensures |r| == |top| && Records(r) == top
    ensures forall i :: 0 <= i < |r| ==> r[i].rank == i + 1 && r[i].record == top[i]
  {
    seq(|top|, i requires 0 <= i < |top| => RankedScore(i + 1, top[i]))
  }

  /** The per-post leaderboard: the 50 best parsed records, best score first,
      ranked from 1. */
  function TopScores(values: seq<Option<ScoreRecord>>): (r: seq<RankedScore>)
    ensures var n := |Parsed(values)|; |r| == if n < 50 then n else 50
    ensures forall i :: 0 <= i < |r| ==> r[i].rank == i + 1 && Some(r[i].record) in values
    ensures BestOf(Parsed(values), Records(r))
  {
    RankedRecords(TopRecords(values))
  }
}
