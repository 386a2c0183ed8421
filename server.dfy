/** The server's routes over its key-value store: the balanced question
    selector, the fake-post and truth-post trackers, the fresh truth post
    picker and the global leaderboard. Each store key family is one field of
    the store; a route reads its keys, decides with the functions of the other
    modules, and writes its keys back. */
module Server {
  import opened Wrappers
  import opened Seqs
  import opened JsMath
  import opened Ranking
  import opened Catalogue
  import opened RoundSelection
  import opened Tracking
  import opened GlobalBoard

  /** The messages the routes answer with. */
  const SessionRequired := "Session ID is required"
  const PostIdRequired := "Post ID is required"
  const FreshPostArgsRequired := "Subreddit and sessionId are required"
  const FetchFailed := "Failed to fetch fresh truth posts from Reddit"
  const MissingFields := "Missing required fields: username, gameScore, correctAnswers, totalQuestions"
  const UsernameRequired := "Username is required"
  const AccessDenied := "Access denied. Only moderators can reset the leaderboard."
  const ResetDone := "Leaderboard has been reset successfully!"
  const PostIdMissing := "postId is required"

  /** The answer of /api/balanced-questions. */
  datatype QuestionResponse =
    | Question(subreddit: string, questionType: Kind, usedCount: nat, totalAvailable: nat,
               balance: Balance, poolRefreshed: bool, globalUsedFakePosts: nat)
    | Fallback(subreddit: string, usedCount: nat, totalAvailable: nat, poolRefreshed: bool)

  /** The subreddit answered when the chosen kind has no entry at all. */
  const FallbackSubreddit := "AskReddit"

  /** The post as /api/fetch-fresh-truth-posts returns it. */
  datatype PostView = PostView(id: string, title: string, body: string,
                               subreddit: string, author: string, upvotes: int)

  datatype FreshPostResponse = FreshPostResponse(post: PostView, totalAvailable: nat, sessionUsedCount: nat)

  /** The answer of /api/fake-post-stats. */
  datatype FakePostStats = FakePostStats(usedPosts: nat, totalPosts: nat, availablePosts: int, usagePercentage: int)

  /** The fixed estimate of how many fake posts exist. */
  const EstimatedFakePosts := 25

  /** The answer of /api/submit-game-score. */
  datatype SubmitResponse = SubmitResponse(playerRank: int, playerEntry: Option<Entry>, totalPlayers: nat)

  /** The answer of /leaderboard and /api/global-leaderboard. */
  datatype BoardResponse = BoardResponse(leaderboard: seq<Entry>, stats: Stats)

  function UsedOf(usedQuestions: map<string, seq<string>>, sessionId: string): seq<string>
  {
    if sessionId in usedQuestions then usedQuestions[sessionId] else []
  }

  function BalanceOf(balances: map<string, Balance>, sessionId: string): Balance
  {
    if sessionId in balances then balances[sessionId] else NoRounds
  }

  function LogOf(logs: map<string, PostLog>, sessionId: string): PostLog
  {
    if sessionId in logs then logs[sessionId] else map[]
  }

  /** The used names after a selection: a pick stores the new list, a refresh
      without a pick only deletes the session's list. */
  function UsedAfter(usedQuestions: map<string, seq<string>>, sessionId: string, sel: Selection): map<string, seq<string>>
  {
    if sel.Picked? then usedQuestions[sessionId := sel.used]
    else if sel.cleared then usedQuestions - {sessionId}
    else usedQuestions
  }

  /** The balances after a selection: only a pick stores one. */
  function BalancesAfter(balances: map<string, Balance>, sessionId: string, sel: Selection): map<string, Balance>
  {
    if sel.Picked? then balances[sessionId := sel.balance] else balances
  }

  /** A selection keeps every session's used names duplicate-free and every
      balance balanced. */
  lemma SelectionKeepsSessionsSound(usedQuestions: map<string, seq<string>>, balances: map<string, Balance>,
                                    catalogue: seq<Source>, sessionId: string, coinRoll: real, pickRoll: real)
    requires 0.0 <= pickRoll < 1.0
    requires forall sid :: sid in usedQuestions ==> Distinct(usedQuestions[sid])
    requires forall sid :: sid in balances ==> Balanced(balances[sid])
    ensures var sel := Select(catalogue, UsedOf(usedQuestions, sessionId), BalanceOf(balances, sessionId), coinRoll, pickRoll);
      && (forall sid :: sid in UsedAfter(usedQuestions, sessionId, sel) ==> Distinct(UsedAfter(usedQuestions, sessionId, sel)[sid]))
      && (forall sid :: sid in BalancesAfter(balances, sessionId, sel) ==> Balanced(BalancesAfter(balances, sessionId, sel)[sid]))
  {
    var used, b := UsedOf(usedQuestions, sessionId), BalanceOf(balances, sessionId);
    PickKeepsSessionSound(catalogue, used, b, coinRoll, pickRoll);
  }

  /** The answer for a selection, given how many fake posts are tracked. */
  function Response(catalogue: seq<Source>, sel: Selection, fakePosts: nat): QuestionResponse
  {
    match sel
    case NoEntry(_) => Fallback(FallbackSubreddit, 0, |catalogue|, false)
    case Picked(entry, kind, used, balance, poolRefreshed, _) =>
      Question(BaseName(entry.name), kind, |used|, |catalogue|, balance, poolRefreshed, fakePosts)
  }

  /** /api/leaderboard for the post in context, given the values of its score
      hash (None for a value that does not parse): the 50 best parsed
      records, best score first, ranked from 1. */
  function PostLeaderboard(postId: string, values: seq<Option<ScoreRecord>>): (r: Result<seq<RankedScore>, string>)
    ensures postId == "" <==> r == Failure(PostIdMissing)
    ensures r.Success? ==>
      var n := |Parsed(values)|;
      && |r.value| == (if n < 50 then n else 50)
      && (forall i :: 0 <= i < |r.value| ==> r.value[i].rank == i + 1 && Some(r.value[i].record) in values)
      && BestOf(Parsed(values), Records(r.value))
  {
    if postId == "" then Failure(PostIdMissing) else Success(TopScores(values))
  }

  class Store {
    var usedQuestions: map<string, seq<string>>  // used_questions:<sessionId>
    var balances: map<string, Balance>           // balance:<sessionId>
    var usedFakePosts: seq<string>               // global_used_fake_posts
    var usedTruthPosts: PostLog                  // global_used_truth_posts
    var sessionTruthPosts: map<string, PostLog>  // session_used_truth_posts:<sessionId>
    var leaderboard: Stored                      // leaderboard
    var answerCounters: map<string, Counter>     // global_leaderboard

    /** What every route keeps: used-name and fake-post lists without
        duplicates (they serialise sets), balanced sessions, one leaderboard
        entry per player, sound answer counters. */
    ghost predicate Valid()
      reads this
    {
      && (forall sid :: sid in usedQuestions ==> Distinct(usedQuestions[sid]))
      && (forall sid :: sid in balances ==> Balanced(balances[sid]))
      && Distinct(usedFakePosts)
      && OnePerPlayer(leaderboard)
      && CountersSound(answerCounters)
    }

    /** An empty store. */
    constructor()
      ensures Valid()
      ensures usedQuestions == map[] && balances == map[] && usedFakePosts == []
      ensures usedTruthPosts == map[] && sessionTruthPosts == map[]
      ensures leaderboard == Nothing && answerCounters == map[]
    {
      usedQuestions, balances, usedFakePosts := map[], map[], [];
      usedTruthPosts, sessionTruthPosts := map[], map[];
      leaderboard, answerCounters := Nothing, map[];
    }

    /** /api/balanced-questions?sessionId=... over the given catalogue (the
        route passes Subreddits). The refresh deletes the used names even when
        the fallback is then answered; only a pick writes the used names and
        the balance. */
    method BalancedQuestion(catalogue: seq<Source>, sessionId: string, coinRoll: real, pickRoll: real)
      returns (r: Result<QuestionResponse, string>)
      requires Valid() && 0.0 <= pickRoll < 1.0
      modifies this
      ensures Valid()
      ensures sessionId == "" ==> r == Failure(SessionRequired) && unchanged(this)
      ensures sessionId != "" ==>
        var sel := Select(catalogue, UsedOf(old(usedQuestions), sessionId),
                          BalanceOf(old(balances), sessionId), coinRoll, pickRoll);
        && r == Success(Response(catalogue, sel, |usedFakePosts|))
        && usedQuestions == UsedAfter(old(usedQuestions), sessionId, sel)
        && balances == BalancesAfter(old(balances), sessionId, sel)
      ensures usedFakePosts == old(usedFakePosts) && usedTruthPosts == old(usedTruthPosts)
      ensures sessionTruthPosts == old(sessionTruthPosts)
      ensures leaderboard == old(leaderboard) && answerCounters == old(answerCounters)
    {
      if sessionId == "" {
        return Failure(SessionRequired);
      }
      var sel := Select(catalogue, UsedOf(usedQuestions, sessionId), BalanceOf(balances, sessionId),
                        coinRoll, pickRoll);
      SelectionKeepsSessionsSound(usedQuestions, balances, catalogue, sessionId, coinRoll, pickRoll);
      usedQuestions, balances := UsedAfter(usedQuestions, sessionId, sel), BalancesAfter(balances, sessionId, sel);
      r := Success(Response(catalogue, sel, |usedFakePosts|));
    }

    /** /api/track-fake-post: adds the id to the global set and answers its size. */
    method TrackFakePost(postId: string) returns (r: Result<nat, string>)
      requires Valid()
      modifies this
      ensures Valid()
      ensures postId == "" ==> r == Failure(PostIdRequired) && usedFakePosts == old(usedFakePosts)
      ensures postId != "" ==> usedFakePosts == SetAdd(old(usedFakePosts), postId) && r == Success(|usedFakePosts|)
      ensures usedQuestions == old(usedQuestions) && balances == old(balances)
      ensures usedTruthPosts == old(usedTruthPosts) && sessionTruthPosts == old(sessionTruthPosts)
      ensures leaderboard == old(leaderboard) && answerCounters == old(answerCounters)
    {
      if postId == "" {
        return Failure(PostIdRequired);
      }
      usedFakePosts := SetAdd(usedFakePosts, postId);
      r := Success(|usedFakePosts|);
    }

    /** /api/fake-post-stats against the fixed estimate of 25 fake posts. The
        used count is the size of the stored Set, which Valid() keeps free of
        duplicates (Seqs.DistinctSize). */
    method FakePostStatistics() returns (r: FakePostStats)
      requires Valid()
      ensures r.usedPosts == |usedFakePosts| && r.totalPosts == EstimatedFakePosts
      ensures r.availablePosts == EstimatedFakePosts - |usedFakePosts|
      ensures 25 * (2 * r.usagePercentage - 1) <= 200 * |usedFakePosts| < 25 * (2 * r.usagePercentage + 1)
    {
      var used := |usedFakePosts|;
      r := FakePostStats(used, EstimatedFakePosts, EstimatedFakePosts - used,
                         RoundDiv(used * 100, EstimatedFakePosts));
    }

    /** /api/track-truth-post: stamps the post into the global log, prunes
        entries older than five hours, and answers the log size. */
    method TrackTruthPost(postId: string, subreddit: string, now: int) returns (r: Result<nat, string>)
      requires Valid()
      modifies this
      ensures Valid()
      ensures postId == "" ==> r == Failure(PostIdRequired) && usedTruthPosts == old(usedTruthPosts)
      ensures postId != "" ==>
        usedTruthPosts == Track(old(usedTruthPosts), postId, subreddit, now) && r == Success(|usedTruthPosts|)
      ensures usedQuestions == old(usedQuestions) && balances == old(balances)
      ensures usedFakePosts == old(usedFakePosts) && sessionTruthPosts == old(sessionTruthPosts)
      ensures leaderboard == old(leaderboard) && answerCounters == old(answerCounters)
    {
      if postId == "" {
        return Failure(PostIdRequired);
      }
      var stamp := PostStamp(now, if subreddit == "" then UnknownSubreddit else subreddit);
      usedTruthPosts := Prune(usedTruthPosts[postId := stamp], now - PruneAge);
      r := Success(|usedTruthPosts|);
    }

    /** /api/recent-truth-posts: the ids in the session's truth-post log. */
    method RecentTruthPosts(sessionId: string) returns (r: Result<set<string>, string>)
      ensures sessionId == "" ==> r == Failure(SessionRequired)
      ensures sessionId != "" ==> r == Success(LogOf(sessionTruthPosts, sessionId).Keys)
    {
      if sessionId == "" {
        return Failure(SessionRequired);
      }
      r := Success(LogOf(sessionTruthPosts, sessionId).Keys);
    }

    /** /api/fetch-fresh-truth-posts, given the first non-empty listing the
        fetches returned ([] if none did): picks a candidate, records it in the
        session's log under the post's own subreddit, and answers it with its
        body truncated. */
    method FetchFreshTruthPost(subreddit: string, sessionId: string, posts: seq<RedditPost>,
                               pickRoll: real, now: int)
      returns (r: Result<FreshPostResponse, string>)
      requires Valid() && 0.0 <= pickRoll < 1.0
      modifies this
      ensures Valid()
      ensures subreddit == "" || sessionId == "" ==>
        r == Failure(FreshPostArgsRequired) && sessionTruthPosts == old(sessionTruthPosts)
      ensures subreddit != "" && sessionId != "" ==>
        var log := LogOf(old(sessionTruthPosts), sessionId);
        match PickFreshPost(posts, log, pickRoll)
        case Failure(_) =>
          r == Failure(FetchFailed) && sessionTruthPosts == old(sessionTruthPosts)
        case Success(pick) =>
          var p := pick.post;
          var log' := log[p.id := PostStamp(now, p.subreddit)];
          && sessionTruthPosts == old(sessionTruthPosts)[sessionId := log']
          && r == Success(FreshPostResponse(
                    PostView(p.id, p.title, TruncateBody(p.selftext), p.subreddit, p.author, p.ups),
                    pick.totalAvailable, |log'|))
      ensures usedQuestions == old(usedQuestions) && balances == old(balances)
      ensures usedFakePosts == old(usedFakePosts) && usedTruthPosts == old(usedTruthPosts)
      ensures leaderboard == old(leaderboard) && answerCounters == old(answerCounters)
    {
      if subreddit == "" || sessionId == "" {
        return Failure(FreshPostArgsRequired);
      }
      var log := LogOf(sessionTruthPosts, sessionId);
      var pick := PickFreshPost(posts, log, pickRoll);
      if pick.Failure? {
        return Failure(FetchFailed);
      }
      var p := pick.value.post;
      log := log[p.id := PostStamp(now, p.subreddit)];
      sessionTruthPosts := sessionTruthPosts[sessionId := log];
      r := Success(FreshPostResponse(
             PostView(p.id, p.title, TruncateBody(p.selftext), p.subreddit, p.author, p.ups),
             pick.value.totalAvailable, |log|));
    }

    /** /leaderboard and /api/global-leaderboard: the loaded board and its
        statistics. */
    method GlobalLeaderboard(now: int) returns (r: BoardResponse)
      ensures r.leaderboard == Load(leaderboard, now) && r.stats == StatsOf(r.leaderboard)
    {
      var board := Load(leaderboard, now);
      r := BoardResponse(board, StatsOf(board));
    }

    /** /api/submit-game-score: records the game on the loaded board, saves
        the sorted board in the array shape, and answers the player's rank
        on the board read back. A complete request with a total of zero
        questions is outside the model. */
    method SubmitGameScore(username: string, gameScore: Option<int>, correctAnswers: Option<int>,
                           totalQuestions: Option<int>, now: int)
      returns (r: Result<SubmitResponse, string>)
      requires Valid()
      requires totalQuestions == Some(0) ==> username == "" || gameScore.None? || correctAnswers.None?
      modifies this
      ensures Valid()
      ensures username == "" || gameScore.None? || correctAnswers.None? || totalQuestions.None? ==>
        && r == Failure(MissingFields)
        && leaderboard == old(leaderboard)
      ensures username != "" && gameScore.Some? && correctAnswers.Some? && totalQuestions.Some? ==>
        var saved := ApplyGame(Load(old(leaderboard), now), username, gameScore.value,
                               correctAnswers.value, totalQuestions.value, now);
        var rank := RankOf(saved, username);
        && leaderboard == Entries(saved)
        && r == Success(SubmitResponse(rank.rank, rank.entry, rank.totalPlayers))
      ensures usedQuestions == old(usedQuestions) && balances == old(balances)
      ensures usedFakePosts == old(usedFakePosts) && usedTruthPosts == old(usedTruthPosts)
      ensures sessionTruthPosts == old(sessionTruthPosts) && answerCounters == old(answerCounters)
    {
      if username == "" || gameScore.None? || correctAnswers.None? || totalQuestions.None? {
        return Failure(MissingFields);
      }
      var saved := ApplyGame(Load(leaderboard, now), username, gameScore.value,
                             correctAnswers.value, totalQuestions.value, now);
      SavedGameReadsBack(leaderboard, username, gameScore.value, correctAnswers.value, totalQuestions.value, now);
      leaderboard := Entries(saved);
      var rank := RankOf(Load(leaderboard, now), username);
      r := Success(SubmitResponse(rank.rank, rank.entry, rank.totalPlayers));
    }

    /** /submit-answer: counts one play, and one point when correct, for the
        user in the legacy counters. */
    method SubmitAnswer(username: string, correct: bool) returns (r: Result<Counter, string>)
      requires Valid()
      modifies this
      ensures Valid()
      ensures username == "" ==> r == Failure(UsernameRequired) && answerCounters == old(answerCounters)
      ensures username != "" ==>
        answerCounters == Answer(old(answerCounters), username, correct) && r == Success(answerCounters[username])
      ensures usedQuestions == old(usedQuestions) && balances == old(balances)
      ensures usedFakePosts == old(usedFakePosts) && usedTruthPosts == old(usedTruthPosts)
      ensures sessionTruthPosts == old(sessionTruthPosts) && leaderboard == old(leaderboard)
    {
      if username == "" {
        return Failure(UsernameRequired);
      }
      AnswerKeepsCountersSound(answerCounters, username, correct);
      answerCounters := Answer(answerCounters, username, correct);
      r := Success(answerCounters[username]);
    }

    /** /reset-leaderboard and /api/reset-leaderboard: a moderator empties the
        board; anyone else is refused. */
    method ResetLeaderboard(isModerator: bool) returns (r: Result<string, string>)
      requires Valid()
      modifies this
      ensures Valid()
      ensures !isModerator ==>
        r == Failure(AccessDenied) && leaderboard == old(leaderboard)
      ensures isModerator ==>
        leaderboard == Entries([]) && r == Success(ResetDone)
      ensures usedQuestions == old(usedQuestions) && balances == old(balances)
      ensures usedFakePosts == old(usedFakePosts) && usedTruthPosts == old(usedTruthPosts)
      ensures sessionTruthPosts == old(sessionTruthPosts) && answerCounters == old(answerCounters)
    {
      if !isModerator {
        return Failure(AccessDenied);
      }
      leaderboard := Entries([]);
      r := Success(ResetDone);
    }
  }
}
