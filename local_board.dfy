/** The browser-side leaderboard: the 50 best game scores kept under one
    key of an optional local storage, best score first. */
module LocalBoard {
  import opened Wrappers
  import opened Seqs
  import opened Text
  import opened JsMath
  import opened Ranking

  datatype LocalEntry = LocalEntry(username: string, score: int, timestamp: int, accuracy: int)

  /** The storage key and the number of scores kept. */
  const Key := "truth-or-troll-leaderboard"
  const MaxEntries := 50

  /** The name recorded when the trimmed name is empty. */
  const Anonymous := "Anonymous"

  /** The lists held in local storage, by key. */
  type Storage = map<string, seq<LocalEntry>>

  function ByScore(e: LocalEntry): Rank
  {
    Rank(e.score, 0)
  }

  /** getLeaderboard: nothing without storage or without a stored list,
      otherwise the stored list sorted by score, best first. */
  function Loaded(storage: Option<Storage>): seq<LocalEntry>
  {
    if storage.Some? && Key in storage.value then SortBy(ByScore, storage.value[Key]) else []
  }

  /** The loaded list is empty without a stored list, and otherwise holds
      exactly the stored entries, sorted best first. */
  lemma LoadedIsSortedPermutation(storage: Option<Storage>)
    ensures storage.None? || Key !in storage.value ==> Loaded(storage) == []
    ensures storage.Some? && Key in storage.value ==> multiset(Loaded(storage)) == multiset(storage.value[Key])
    ensures SortedBy(ByScore, Loaded(storage))
  {
    if storage.Some? && Key in storage.value {
      SortByPermutes(ByScore, storage.value[Key]);
    }
  }

  /** The entry addScore records: the trimmed name or "Anonymous", and the
      score per round (a round is worth 100 points, so this is the rounded
      percentage of a perfect game). */
  function NewEntry(username: string, score: int, totalRounds: int, now: int): (e: LocalEntry)
    requires totalRounds != 0
    ensures e.username == if Trim(username) == "" then Anonymous else Trim(username)
    ensures e.score == score && e.timestamp == now
    ensures totalRounds > 0 ==>
      totalRounds * 100 * (2 * e.accuracy - 1) <= 2 * (score * 100) < totalRounds * 100 * (2 * e.accuracy + 1)
    ensures totalRounds < 0 ==>
      -(totalRounds * 100) * (2 * e.accuracy - 1) <= -2 * (score * 100) < -(totalRounds * 100) * (2 * e.accuracy + 1)
  {
    var name := Trim(username);
    LocalEntry(if name == "" then Anonymous else name, score, now, RoundQuotient(score * 100, totalRounds * 100))
  }

  /** A score between 0 and a perfect 100 per round gives an accuracy between
      0 and 100. */
  lemma AccuracyIsPercentage(username: string, score: int, totalRounds: int, now: int)
    requires 0 < totalRounds && 0 <= score <= 100 * totalRounds
    ensures 0 <= NewEntry(username, score, totalRounds, now).accuracy <= 100
  {
    var a := NewEntry(username, score, totalRounds, now).accuracy;
    RoundDivAtMost(score * 100, totalRounds * 100, 100);
    MulMonotoneInverse(100 * totalRounds, 0, 2 * a + 1);
  }

  /** The list addScore stores: the loaded list with the new entry pushed,
      sorted, cut to the first 50. */
  function Added(board: seq<LocalEntry>, e: LocalEntry): (r: seq<LocalEntry>)
    ensures |r| == if |board| + 1 < MaxEntries then |board| + 1 else MaxEntries
    ensures SortedBy(ByScore, r)
    ensures multiset(r) <= multiset(board) + multiset{e}
  {
    var sorted := SortBy(ByScore, board + [e]);
    SortByPermutes(ByScore, board + [e]);
    var r := Take(sorted, MaxEntries);
    assert sorted == r + sorted[|r|..];
    r
  }

  /** On a sorted list the push-and-sort is an insertion: the new entry goes
      behind every entry with a score at least its own, and it is kept exactly
      when the list has room or the entry beats the 50th score. A new score
      tied with the 50th is dropped, because the sort is stable. */
  lemma AddedToSortedBoard(board: seq<LocalEntry>, e: LocalEntry)
    requires SortedBy(ByScore, board)
    ensures Added(board, e) == Take(Insert(ByScore, board, e), MaxEntries)
    ensures InsertPos(ByScore, board, e) < MaxEntries
      <==> |board| < MaxEntries || e.score > board[MaxEntries - 1].score
  {
    SortByAppend(ByScore, board, e);
    var k := InsertPos(ByScore, board, e);
    if |board| >= MaxEntries && e.score <= board[MaxEntries - 1].score {
      forall i | 0 <= i < MaxEntries
        ensures !Outranks(ByScore(e), ByScore(board[i]))
      {
        assert !Outranks(ByScore(board[MaxEntries - 1]), ByScore(board[i]));
      }
      assert k >= MaxEntries;
    }
  }

  /** A full board keeps its 50 entries when the new score is not better than
      the 50th. */
  lemma TieWithLastIsDropped(board: seq<LocalEntry>, e: LocalEntry)
    requires SortedBy(ByScore, board)
    requires |board| >= MaxEntries && e.score <= board[MaxEntries - 1].score
    ensures Added(board, e) == board[..MaxEntries]
  {
    AddedToSortedBoard(board, e);
    var k := InsertPos(ByScore, board, e);
    var ins := Insert(ByScore, board, e);
    assert ins[..MaxEntries] == board[..MaxEntries] by {
      forall i | 0 <= i < MaxEntries
        ensures ins[i] == board[i]
      {
        assert i < k;
      }
    }
  }

  /** Local storage after addScore; without storage nothing is written, and
      the lists stored under other keys are left as they were. */
  function AfterAdd(storage: Option<Storage>, e: LocalEntry): (r: Option<Storage>)
    ensures r.Some? <==> storage.Some?
    ensures storage.Some? ==> forall k :: k in storage.value && k != Key ==> k in r.value && r.value[k] == storage.value[k]
  {
    if storage.None? then storage else Some(storage.value[Key := Added(Loaded(storage), e)])
  }

  /** After addScore the loaded list is exactly the list stored: sorted, one
      entry longer up to 50. */
  lemma AddScoreThenLoad(storage: Option<Storage>, e: LocalEntry)
    requires storage.Some?
    ensures Loaded(AfterAdd(storage, e)) == Added(Loaded(storage), e)
    ensures |Loaded(AfterAdd(storage, e))| == if |Loaded(storage)| + 1 < MaxEntries then |Loaded(storage)| + 1 else MaxEntries
  {
    var added := Added(Loaded(storage), e);
    assert AfterAdd(storage, e).value[Key] == added;
    SortBySorted(ByScore, added);
  }

  /** Local storage after clearLeaderboard. */
  function Cleared(storage: Option<Storage>): (r: Option<Storage>)
    ensures Loaded(r) == []
    ensures storage.None? ==> r == storage
    ensures storage.Some? ==> r.Some? && forall k :: k in storage.value && k != Key ==> k in r.value && r.value[k] == storage.value[k]
  {
    if storage.None? then storage else Some(storage.value - {Key})
  }

  /** The name comparison of getUserRank. */
  predicate SameUser(e: LocalEntry, username: string)
  {
    ToLower(e.username) == ToLower(username)
  }

  /** The user's scores on the board. */
  function UserScores(board: seq<LocalEntry>, username: string): (r: seq<int>)
    ensures forall x :: x in r ==> exists j :: 0 <= j < |board| && SameUser(board[j], username) && board[j].score == x
    ensures forall j :: 0 <= j < |board| && SameUser(board[j], username) ==> board[j].score in r
    ensures |r| == 0 <==> forall j :: 0 <= j < |board| ==> !SameUser(board[j], username)
  {
    if board == [] then []
    else
      var rest := UserScores(board[1..], username);
      assert forall j :: 1 <= j < |board| ==> board[j] == board[1..][j - 1];
      (if SameUser(board[0], username) then [board[0].score] else []) + rest
  }

  /** getUserRank: -1 when no entry belongs to the user (case-insensitively);
      otherwise one more than the index of the first entry, of any user, whose
      score equals the user's best score. That rank is never behind any of the
      user's own best entries. */
  function UserRank(board: seq<LocalEntry>, username: string): (r: int)
    ensures r == -1 <==> forall j :: 0 <= j < |board| ==> !SameUser(board[j], username)
    ensures r != -1 ==>
      && 1 <= r <= |board|
      && (forall j :: 0 <= j < |board| && SameUser(board[j], username) ==> board[j].score <= board[r - 1].score)
      && (exists j :: 0 <= j < |board| && SameUser(board[j], username) && board[j].score == board[r - 1].score)
      && (forall j :: 0 <= j < r - 1 ==> board[j].score != board[r - 1].score)
      && (forall j :: 0 <= j < |board| && SameUser(board[j], username) && board[j].score == board[r - 1].score ==> r <= j + 1)
  {
    var scores := UserScores(board, username);
    if |scores| == 0 then -1
    else
      var best := Max(scores);
      var i := FirstIndex((e: LocalEntry) => e.score == best, board);
      assert i >= 0;
      i + 1
  }

  /** The rank goes to the first entry with the user's best score even when
      that entry belongs to someone else. */
  lemma RankMayPointToAnotherUser()
    ensures UserRank([LocalEntry("ana", 700, 1, 70), LocalEntry("bo", 700, 2, 70)], "bo") == 1
  {
    var board := [LocalEntry("ana", 700, 1, 70), LocalEntry("bo", 700, 2, 70)];
    assert SameUser(board[1], "bo");
    var r := UserRank(board, "bo");
    assert board[0].score == 700 && board[1].score == 700;
  }

  /** The browser's leaderboard: local storage, or None where there is none
      (server-side rendering). */
  class LocalLeaderboard {
    var storage: Option<Storage>

    constructor(storage: Option<Storage>)
      ensures this.storage == storage
    {
      this.storage := storage;
    }

    method GetLeaderboard() returns (r: seq<LocalEntry>)
      ensures r == Loaded(storage)
    {
      r := Loaded(storage);
    }

    /** addScore(username, score, totalRounds) at time now. */
    method AddScore(username: string, score: int, totalRounds: int, now: int)
      requires totalRounds != 0
      modifies this
      ensures storage == AfterAdd(old(storage), NewEntry(username, score, totalRounds, now))
    {
      var board := Loaded(storage);
      var e := NewEntry(username, score, totalRounds, now);
      var sorted := Added(board, e);
      if storage.Some? {
        storage := Some(storage.value[Key := sorted]);
      }
    }

    method GetUserRank(username: string, score: int) returns (r: int)
      ensures r == UserRank(Loaded(storage), username)
    {
      r := UserRank(Loaded(storage), username);
    }

    method ClearLeaderboard()
      modifies this
      ensures storage == Cleared(old(storage))
    {
      storage := Cleared(storage);
    }
  }
}
