/** The decision logic of the balanced-questions route: which kind of round
    comes next, which catalogue entries are still unused in the session, when
    the session's pool is refreshed, and which entry is picked. */
module RoundSelection {
  import opened Seqs
  import opened Text
  import opened JsMath
  import opened Catalogue

  /** How many truth and troll rounds a session has been served. */
  datatype Balance = Balance(truth: int, troll: int)

  /** The balance of a session with no stored balance. */
  const NoRounds := Balance(0, 0)

  /** The invariant the catch-up rule keeps: the counts never differ by more than one. */
  predicate Balanced(b: Balance)
  {
    0 <= b.truth && 0 <= b.troll && -1 <= b.truth - b.troll <= 1
  }

  /** The kind of the next round: a coin flip on a tie (a roll below 0.5 means
      truth), otherwise the kind served less often. */
  function ChooseKind(b: Balance, coinRoll: real): (k: Kind)
    ensures b.truth < b.troll ==> k == Truth
    ensures b.truth > b.troll ==> k == Troll
    ensures b.truth == b.troll ==> (k == Truth <==> coinRoll < 0.5)
  {
    if b.truth == b.troll then (if coinRoll < 0.5 then Truth else Troll)
    else if b.truth < b.troll then Truth
    else Troll
  }

  /** balance[selectedType]++. */
  function Record(b: Balance, k: Kind): (r: Balance)
  {
    if k == Truth then b.(truth := b.truth + 1) else b.(troll := b.troll + 1)
  }

  /** Serving the chosen kind raises exactly its counter, so a balanced
      session stays balanced and the total grows by one. */
  lemma ChosenKindKeepsBalance(b: Balance, coinRoll: real)
    requires Balanced(b)
    ensures var r := Record(b, ChooseKind(b, coinRoll));
      Balanced(r) && r.truth + r.troll == b.truth + b.troll + 1
  {
  }

  /** The balance after a session of rounds with the given coin rolls. */
  function Play(b: Balance, coinRolls: seq<real>): Balance
    decreases |coinRolls|
  {
    if coinRolls == [] then b
    else Play(Record(b, ChooseKind(b, coinRolls[0])), coinRolls[1..])
  }

  /** From a balanced start, every round keeps the balance and adds one round. */
  lemma {:induction false} PlayKeepsBalance(b: Balance, coinRolls: seq<real>)
    requires Balanced(b)
    ensures var r := Play(b, coinRolls);
      Balanced(r) && r.truth + r.troll == b.truth + b.troll + |coinRolls|
    decreases |coinRolls|
  {
    if coinRolls != [] {
      ChosenKindKeepsBalance(b, coinRolls[0]);
      PlayKeepsBalance(Record(b, ChooseKind(b, coinRolls[0])), coinRolls[1..]);
    }
  }

  /** A session of an even number of rounds from no rounds ends level, e.g. 5/5
      after 10 rounds, whatever the coin rolls. */
  lemma {:induction false} EvenSessionEndsLevel(coinRolls: seq<real>)
    requires |coinRolls| % 2 == 0
    ensures Play(NoRounds, coinRolls) == Balance(|coinRolls| / 2, |coinRolls| / 2)
  {
    LevelPairsStayLevel(NoRounds, coinRolls);
  }

  lemma {:induction false} LevelPairsStayLevel(b: Balance, coinRolls: seq<real>)
    requires b.truth == b.troll && |coinRolls| % 2 == 0
    ensures Play(b, coinRolls) == Balance(b.truth + |coinRolls| / 2, b.troll + |coinRolls| / 2)
    decreases |coinRolls|
  {
    if coinRolls != [] {
      var b1 := Record(b, ChooseKind(b, coinRolls[0]));
      var b2 := Record(b1, ChooseKind(b1, coinRolls[1]));
      assert b2 == Balance(b.truth + 1, b.troll + 1);
      assert coinRolls[1..][1..] == coinRolls[2..];
      LevelPairsStayLevel(b2, coinRolls[2..]);
    }
  }

  /** What one call of the route decides, before anything is persisted. */
  datatype Selection =
    | Picked(entry: Source, kind: Kind, used: seq<string>, balance: Balance,
             poolRefreshed: bool, cleared: bool)
      // an entry was chosen; used and balance are the new session state
    | NoEntry(cleared: bool)
      // the chosen kind's pool was empty: the route answers with its fallback

  /** The selection the route makes for a session whose used names are used
      and whose balance is b. */
  function Select(catalogue: seq<Source>, used: seq<string>, b: Balance,
                  coinRoll: real, pickRoll: real): Selection
    requires 0.0 <= pickRoll < 1.0
  {
    var truthSources, trollSources := OfKind(catalogue, Truth), OfKind(catalogue, Troll);
    var availableTruth, availableTroll := Available(truthSources, used), Available(trollSources, used);
    var cleared := |availableTruth| == 0 || |availableTroll| == 0;
    var poolTruth := if cleared then availableTruth + truthSources else availableTruth;
    var poolTroll := if cleared then availableTroll + trollSources else availableTroll;
    var kept := if cleared then [] else used;
    var kind := ChooseKind(b, coinRoll);
    var pool := if kind == Truth then poolTruth else poolTroll;
    if |pool| == 0 then NoEntry(cleared)
    else
      var entry := pool[PickIndex(pickRoll, |pool|)];
      Picked(entry, kind, SetAdd(kept, entry.name), Record(b, kind),
             |poolTruth| == |truthSources| && |poolTroll| == |trollSources|, cleared)
  }

  /** Every name of kind k in the catalogue is in used. */
  ghost predicate Exhausted(catalogue: seq<Source>, used: seq<string>, k: Kind)
  {
    forall i :: 0 <= i < |catalogue| && catalogue[i].kind == k ==> catalogue[i].name in used
  }

  /** An available list is empty exactly when its kind is exhausted. */
  lemma AvailableEmptyIffExhausted(catalogue: seq<Source>, used: seq<string>, k: Kind)
    ensures |Available(OfKind(catalogue, k), used)| == 0 <==> Exhausted(catalogue, used, k)
  {
    var sources := OfKind(catalogue, k);
    var avail := Available(sources, used);
    if |avail| == 0 {
      forall i | 0 <= i < |catalogue| && catalogue[i].kind == k
        ensures catalogue[i].name in used
      {
        assert catalogue[i] in sources;
        var j :| 0 <= j < |sources| && sources[j] == catalogue[i];
        assert sources[j] !in avail;
      }
    } else {
      var e := avail[0];
      assert e in sources && e.name !in used;
      var i :| 0 <= i < |catalogue| && catalogue[i] == e;
      assert !Exhausted(catalogue, used, k);
    }
  }

  /** The pool is refreshed (the used names cleared) exactly when one of the
      two kinds has no unused entry left. */
  lemma RefreshWhenAKindIsExhausted(catalogue: seq<Source>, used: seq<string>, b: Balance,
                                    coinRoll: real, pickRoll: real)
    requires 0.0 <= pickRoll < 1.0
    ensures Select(catalogue, used, b, coinRoll, pickRoll).cleared
      <==> Exhausted(catalogue, used, Truth) || Exhausted(catalogue, used, Troll)
  {
    AvailableEmptyIffExhausted(catalogue, used, Truth);
    AvailableEmptyIffExhausted(catalogue, used, Troll);
  }

  /** The picked entry is a catalogue entry of the kind the balance rule chose,
      and the balance records one more round of that kind. */
  lemma PickHasChosenKind(catalogue: seq<Source>, used: seq<string>, b: Balance,
                          coinRoll: real, pickRoll: real)
    requires 0.0 <= pickRoll < 1.0
    ensures var r := Select(catalogue, used, b, coinRoll, pickRoll);
      r.Picked? ==>
        && r.kind == ChooseKind(b, coinRoll)
        && r.entry.kind == r.kind
        && r.entry in catalogue
        && r.balance == Record(b, r.kind)
        && (Balanced(b) ==> Balanced(r.balance))
  {
    var r := Select(catalogue, used, b, coinRoll, pickRoll);
    if r.Picked? {
      var sources := OfKind(catalogue, r.kind);
      assert r.entry in Available(sources, used) + sources;
      assert r.entry in sources;
    }
  }

  /** Without a refresh the picked name was unused and is appended to the used
      names; after a refresh the used names are just the picked one. A
      duplicate-free list stays duplicate-free. */
  lemma PickIsRecordedOnce(catalogue: seq<Source>, used: seq<string>, b: Balance,
                           coinRoll: real, pickRoll: real)
    requires 0.0 <= pickRoll < 1.0
    ensures var r := Select(catalogue, used, b, coinRoll, pickRoll);
      r.Picked? ==>
        && (r.cleared ==> r.used == [r.entry.name])
        && (!r.cleared ==> r.entry.name !in used && r.used == used + [r.entry.name])
        && (Distinct(used) ==> Distinct(r.used))
  {
    var r := Select(catalogue, used, b, coinRoll, pickRoll);
    if r.Picked? && !r.cleared {
      var sources := OfKind(catalogue, r.kind);
      assert r.entry in Available(sources, used);
    }
  }

  /** An available list keeps its whole catalogue list exactly when no name of
      that kind has been used. */
  lemma AvailableFullIffUnused(catalogue: seq<Source>, used: seq<string>, k: Kind)
    ensures |Available(OfKind(catalogue, k), used)| == |OfKind(catalogue, k)|
      <==> forall i :: 0 <= i < |catalogue| && catalogue[i].kind == k ==> catalogue[i].name !in used
  {
    var sources := OfKind(catalogue, k);
    var p := (s: Source) => s.name !in used;
    FilterKeepsAll(p, sources);
    if forall j :: 0 <= j < |sources| ==> p(sources[j]) {
      forall i | 0 <= i < |catalogue| && catalogue[i].kind == k
        ensures catalogue[i].name !in used
      {
        assert catalogue[i] in sources;
        var j :| 0 <= j < |sources| && sources[j] == catalogue[i];
        assert p(sources[j]);
      }
    } else {
      var j :| 0 <= j < |sources| && !p(sources[j]);
      assert sources[j] in catalogue;
      var i :| 0 <= i < |catalogue| && catalogue[i] == sources[j];
      assert catalogue[i].kind == k && catalogue[i].name in used;
    }
  }

  /** A pick keeps a session's stored state sound: the used names stay
      duplicate-free and the balance stays balanced. */
  lemma PickKeepsSessionSound(catalogue: seq<Source>, used: seq<string>, b: Balance,
                              coinRoll: real, pickRoll: real)
    requires 0.0 <= pickRoll < 1.0
    requires Distinct(used) && Balanced(b)
    ensures var r := Select(catalogue, used, b, coinRoll, pickRoll);
      r.Picked? ==> Distinct(r.used) && Balanced(r.balance)
  {
    PickIsRecordedOnce(catalogue, used, b, coinRoll, pickRoll);
    PickHasChosenKind(catalogue, used, b, coinRoll, pickRoll);
  }

  /** The route reports poolRefreshed when both pools have exactly the length
      of their catalogue lists. Read back: without a refresh, when no catalogue
      name has been used yet; after a refresh, only when both kinds were
      exhausted at once. */
  lemma PoolRefreshedMeaning(catalogue: seq<Source>, used: seq<string>, b: Balance,
                             coinRoll: real, pickRoll: real)
    requires 0.0 <= pickRoll < 1.0
    ensures var r := Select(catalogue, used, b, coinRoll, pickRoll);
      r.Picked? ==>
        (r.poolRefreshed <==>
          if r.cleared then Exhausted(catalogue, used, Truth) && Exhausted(catalogue, used, Troll)
          else forall i :: 0 <= i < |catalogue| ==> catalogue[i].name !in used)
  {
    var truthSources, trollSources := OfKind(catalogue, Truth), OfKind(catalogue, Troll);
    var availableTruth, availableTroll := Available(truthSources, used), Available(trollSources, used);
    AvailableEmptyIffExhausted(catalogue, used, Truth);
    AvailableEmptyIffExhausted(catalogue, used, Troll);
    if |availableTruth| != 0 && |availableTroll| != 0 {
      UnclearedPoolsFullIffUnused(catalogue, used);
    }
  }

  /** Without a refresh both pools are full exactly when no catalogue name is used. */
  lemma UnclearedPoolsFullIffUnused(catalogue: seq<Source>, used: seq<string>)
    ensures |Available(OfKind(catalogue, Truth), used)| == |OfKind(catalogue, Truth)|
         && |Available(OfKind(catalogue, Troll), used)| == |OfKind(catalogue, Troll)|
        <==> forall i :: 0 <= i < |catalogue| ==> catalogue[i].name !in used
  {
    AvailableFullIffUnused(catalogue, used, Truth);
    AvailableFullIffUnused(catalogue, used, Troll);
    if !forall i :: 0 <= i < |catalogue| ==> catalogue[i].name !in used {
      var i :| 0 <= i < |catalogue| && catalogue[i].name in used;
      assert catalogue[i].kind == Truth || catalogue[i].kind == Troll;
    }
  }

  /** A session's first call (nothing used yet) reports poolRefreshed whenever
      the catalogue has entries of both kinds. */
  lemma FirstCallReportsRefreshed(catalogue: seq<Source>, b: Balance, coinRoll: real, pickRoll: real)
    requires 0.0 <= pickRoll < 1.0
    requires OfKind(catalogue, Truth) != [] && OfKind(catalogue, Troll) != []
    ensures var r := Select(catalogue, [], b, coinRoll, pickRoll);
      r.Picked? && !r.cleared && r.poolRefreshed && r.used == [r.entry.name]
  {
    FilterAll((s: Source) => s.name !in [], OfKind(catalogue, Truth));
    FilterAll((s: Source) => s.name !in [], OfKind(catalogue, Troll));
    PoolRefreshedMeaning(catalogue, [], b, coinRoll, pickRoll);
  }

  /** A refresh forced by one exhausted kind while the other still has unused
      entries does not report poolRefreshed. */
  lemma OneSidedRefreshNotReported(catalogue: seq<Source>, used: seq<string>, b: Balance,
                                   coinRoll: real, pickRoll: real)
    requires 0.0 <= pickRoll < 1.0
    requires Exhausted(catalogue, used, Truth) != Exhausted(catalogue, used, Troll)
    ensures var r := Select(catalogue, used, b, coinRoll, pickRoll);
      r.Picked? ==> r.cleared && !r.poolRefreshed
  {
    RefreshWhenAKindIsExhausted(catalogue, used, b, coinRoll, pickRoll);
    PoolRefreshedMeaning(catalogue, used, b, coinRoll, pickRoll);
  }

  /** The fallback is taken exactly when the catalogue has no entry of the
      chosen kind. */
  lemma NoEntryIffKindMissing(catalogue: seq<Source>, used: seq<string>, b: Balance,
                              coinRoll: real, pickRoll: real)
    requires 0.0 <= pickRoll < 1.0
    ensures Select(catalogue, used, b, coinRoll, pickRoll).NoEntry?
      <==> OfKind(catalogue, ChooseKind(b, coinRoll)) == []
  {
    var k := ChooseKind(b, coinRoll);
    var sources := OfKind(catalogue, k);
    if sources == [] {
      assert Available(sources, used) == [];
    }
  }

  /** With the route's catalogue the fallback is never taken, and the
      subreddit returned is a topic name: the truth entry's own name, or for a
      troll entry the name of the truth entry it mirrors. */
  lemma SubredditsAlwaysPick(used: seq<string>, b: Balance, coinRoll: real, pickRoll: real)
    requires 0.0 <= pickRoll < 1.0
    ensures var r := Select(Subreddits, used, b, coinRoll, pickRoll);
      && r.Picked?
      && BaseName(r.entry.name) in TruthNames
      && (r.kind == Truth ==> BaseName(r.entry.name) == r.entry.name)
      && (r.kind == Troll ==> r.entry.name == BaseName(r.entry.name) + FakeMarker)
  {
    SubredditsMirrored();
    NoEntryIffKindMissing(Subreddits, used, b, coinRoll, pickRoll);
    PickHasChosenKind(Subreddits, used, b, coinRoll, pickRoll);
    var r := Select(Subreddits, used, b, coinRoll, pickRoll);
    SubredditTopics(r.entry);
  }
}
