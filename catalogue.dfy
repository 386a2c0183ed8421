/** The fixed catalogue of subreddit sources the round selector draws from:
    16 truth sources (real posts) and, mirroring them in the same order, 16
    troll sources (generated posts) whose names carry a "_fake" marker. */
module Catalogue {
  import opened Seqs
  import opened Text

  datatype Kind = Truth | Troll

  /** A catalogue entry: a source name and the kind of round it serves. */
  datatype Source = Source(name: string, kind: Kind)

  const FakeMarker: string := "_fake"
  const TopicCount: nat := 16

  /** The names of the truth sources of the balanced-questions route, in order. */
  const TruthNames: seq<string> := [
    "AskReddit",
    "todayilearned",
    "mildlyinteresting",
    "showerthoughts",
    "explainlikeimfive",
    "science",
    "history",
    "technology",
    "unpopularopinion",
    "AmItheAsshole",
    "relationship_advice",
    "LifeProTips",
    "YouShouldKnow",
    "NoStupidQuestions",
    "OutOfTheLoop",
    "changemyview"
  ]

  /** Entries of one kind, one per name, in order. */
  function Entries(names: seq<string>, kind: Kind): (r: seq<Source>)
    ensures |r| == |names|
    ensures forall i :: 0 <= i < |r| ==> r[i] == Source(names[i], kind)
  {
    seq(|names|, i requires 0 <= i < |names| => Source(names[i], kind))
  }

  /** Each name with the "_fake" marker appended. */
  function Marked(names: seq<string>): (r: seq<string>)
    ensures |r| == |names|
    ensures forall i :: 0 <= i < |r| ==> r[i] == names[i] + FakeMarker
  {
    seq(|names|, i requires 0 <= i < |names| => names[i] + FakeMarker)
  }

  /** A truth entry per topic name, then a troll entry per topic, in the same order. */
  function Mirrored(names: seq<string>): seq<Source>
  {
    Entries(names, Truth) + Entries(Marked(names), Troll)
  }

  /** The route's 32-entry catalogue: the truth sources, then the troll sources
      "AskReddit_fake" ... "changemyview_fake" in the same topic order. */
  const Subreddits: seq<Source> := Mirrored(TruthNames)

  /** subreddits.filter(sub => sub.type === kind). */
  function OfKind(catalogue: seq<Source>, kind: Kind): seq<Source>
  {
    Filter((s: Source) => s.kind == kind, catalogue)
  }

  /** sources.filter(sub => !usedQuestions.has(sub.name)). */
  function Available(sources: seq<Source>, used: seq<string>): seq<Source>
  {
    Filter((s: Source) => s.name !in used, sources)
  }

  /** name.replace('_fake', ''): the subreddit a source stands for. */
  function BaseName(name: string): string
  {
    ReplaceFirst(name, FakeMarker, "")
  }

  /** Every truth source name but "relationship_advice" (index 10) is free of
      underscores; shown in three groups to keep each proof small. */
  lemma NoUnderscoreInFirstNames()
    ensures forall i :: 0 <= i < 5 ==> '_' !in TruthNames[i]
  {
  }

  lemma NoUnderscoreInMiddleNames()
    ensures forall i :: 5 <= i < 10 ==> '_' !in TruthNames[i]
  {
  }

  lemma NoUnderscoreInLastNames()
    ensures forall i :: 11 <= i < TopicCount ==> '_' !in TruthNames[i]
  {
  }

  /** Only one truth source name has an underscore, ... */
  lemma UnderscoresInTruthNames()
    ensures forall n :: n in TruthNames && n != "relationship_advice" ==> '_' !in n
  {
    NoUnderscoreInFirstNames();
    NoUnderscoreInMiddleNames();
    NoUnderscoreInLastNames();
    forall n | n in TruthNames && n != "relationship_advice"
      ensures '_' !in n
    {
      var i :| 0 <= i < |TruthNames| && TruthNames[i] == n;
    }
  }

  /** ... and there it is followed by 'a'. */
  lemma UnderscoreOfRelationshipAdvice()
    ensures var n := "relationship_advice"; forall i :: 0 <= i < |n| && n[i] == '_' ==> i == 12 && n[13] == 'a'
  {
  }

  /** No truth source name contains the "_fake" marker. */
  lemma TruthNamesUnmarked()
    ensures |TruthNames| == TopicCount
    ensures forall n :: n in TruthNames ==> !Contains(n, FakeMarker)
  {
    UnderscoresInTruthNames();
    UnderscoreOfRelationshipAdvice();
    forall n | n in TruthNames
      ensures !Contains(n, FakeMarker)
    {
      NoFakeMarker(n);
    }
  }

  /** A catalogue part whose entries all have kind k is its own k-filter,
      and a part with no entry of kind k filters to nothing. */
  lemma OfKindEntries(names: seq<string>, kind: Kind, k: Kind)
    ensures OfKind(Entries(names, kind), k) == if kind == k then Entries(names, kind) else []
  {
    if kind == k {
      FilterAll((s: Source) => s.kind == k, Entries(names, kind));
    } else {
      FilterNone((s: Source) => s.kind == k, Entries(names, kind));
    }
  }

  /** The truth filter of a mirrored catalogue is its truth half. */
  lemma MirroredTruths(names: seq<string>)
    ensures OfKind(Mirrored(names), Truth) == Entries(names, Truth)
  {
    FilterConcat((s: Source) => s.kind == Truth, Entries(names, Truth), Entries(Marked(names), Troll));
    OfKindEntries(names, Truth, Truth);
    OfKindEntries(Marked(names), Troll, Truth);
  }

  /** The troll filter of a mirrored catalogue is its troll half. */
  lemma MirroredTrolls(names: seq<string>)
    ensures OfKind(Mirrored(names), Troll) == Entries(Marked(names), Troll)
  {
    FilterConcat((s: Source) => s.kind == Troll, Entries(names, Truth), Entries(Marked(names), Troll));
    OfKindEntries(names, Truth, Troll);
    OfKindEntries(Marked(names), Troll, Troll);
  }

  /** In a mirrored catalogue each kind holds one entry per topic, and the
      i-th troll entry is the i-th truth name with "_fake" appended. */
  lemma MirroredKinds(names: seq<string>)
    ensures |Mirrored(names)| == 2 * |names|
    ensures OfKind(Mirrored(names), Truth) == Entries(names, Truth)
    ensures OfKind(Mirrored(names), Troll) == Entries(Marked(names), Troll)
    ensures forall i :: 0 <= i < |names| ==>
      Mirrored(names)[i + |names|] == Source(Mirrored(names)[i].name + FakeMarker, Troll)
  {
    MirroredTruths(names);
    MirroredTrolls(names);
    MirroredPairs(names);
  }

  /** The i-th troll entry of a mirrored catalogue mirrors the i-th truth entry. */
  lemma MirroredPairs(names: seq<string>)
    ensures forall i :: 0 <= i < |names| ==>
      Mirrored(names)[i + |names|] == Source(Mirrored(names)[i].name + FakeMarker, Troll)
  {
    forall i | 0 <= i < |names|
      ensures Mirrored(names)[i + |names|] == Source(Mirrored(names)[i].name + FakeMarker, Troll)
    {
      MirroredEntry(names, i);
      MirroredEntry(names, i + |names|);
    }
  }

  /** The route's catalogue has 16 entries of each kind, mirrored. */
  lemma SubredditsMirrored()
    ensures |Subreddits| == 2 * TopicCount
    ensures |OfKind(Subreddits, Truth)| == |OfKind(Subreddits, Troll)| == TopicCount
    ensures forall i :: 0 <= i < TopicCount ==>
      Subreddits[i + TopicCount] == Source(Subreddits[i].name + FakeMarker, Troll)
  {
    MirroredKinds(TruthNames);
  }

  /** Every entry of a mirrored catalogue, by position. */
  lemma MirroredEntry(names: seq<string>, i: int)
    requires 0 <= i < 2 * |names|
    ensures i < |names| ==> Mirrored(names)[i] == Source(names[i], Truth)
    ensures i >= |names| ==> Mirrored(names)[i] == Source(names[i - |names|] + FakeMarker, Troll)
  {
    var truths, trolls := Entries(names, Truth), Entries(Marked(names), Troll);
    if i >= |names| {
      assert Mirrored(names)[i] == trolls[i - |names|];
    }
  }

  /** The subreddit a catalogue entry stands for: a truth entry's own name, and
      for a troll entry the name of its mirrored truth entry. */
  lemma BaseNamesOfSubreddits()
    ensures forall i :: 0 <= i < TopicCount ==>
      && BaseName(Subreddits[i].name) == Subreddits[i].name
      && BaseName(Subreddits[i + TopicCount].name) == Subreddits[i].name
  {
    TruthNamesUnmarked();
    forall i | 0 <= i < TopicCount
      ensures BaseName(Subreddits[i].name) == Subreddits[i].name
      ensures BaseName(Subreddits[i + TopicCount].name) == Subreddits[i].name
    {
      var n := TruthNames[i];
      assert Subreddits[i].name == n;
      assert Subreddits[i + TopicCount].name == n + FakeMarker;
      ReplaceAbsent(n, FakeMarker, "");
      assert FakeMarker[1..] == "fake";
      RemoveAppendedSuffix(n, FakeMarker);
    }
  }

  /** Every entry of the route's catalogue stands for one of the topics: a
      truth entry is named by its topic, a troll entry by its topic with the
      marker appended. */
  lemma SubredditTopics(e: Source)
    requires e in Subreddits
    ensures BaseName(e.name) in TruthNames
    ensures e.kind == Truth ==> BaseName(e.name) == e.name
    ensures e.kind == Troll ==> e.name == BaseName(e.name) + FakeMarker
  {
    SubredditsMirrored();
    BaseNamesOfSubreddits();
    var i :| 0 <= i < |Subreddits| && Subreddits[i] == e;
    if i < TopicCount {
      MirroredEntry(TruthNames, i);
    } else {
      MirroredEntry(TruthNames, i - TopicCount);
    }
  }

  /** The truth half of the catalogue, entry by entry. */
  lemma TruthHalfLiteral()
    ensures Entries(TruthNames, Truth) == [
      Source("AskReddit", Truth),
      Source("todayilearned", Truth),
      Source("mildlyinteresting", Truth),
      Source("showerthoughts", Truth),
      Source("explainlikeimfive", Truth),
      Source("science", Truth),
      Source("history", Truth),
      Source("technology", Truth),
      Source("unpopularopinion", Truth),
      Source("AmItheAsshole", Truth),
      Source("relationship_advice", Truth),
      Source("LifeProTips", Truth),
      Source("YouShouldKnow", Truth),
      Source("NoStupidQuestions", Truth),
      Source("OutOfTheLoop", Truth),
      Source("changemyview", Truth)
    ]
  {
  }

  /** The first eight marked names, spelled out. */
  lemma MarkedFirstNamesLiteral()
    ensures Marked(TruthNames)[0..8] == [
      "AskReddit_fake",
      "todayilearned_fake",
      "mildlyinteresting_fake",
      "showerthoughts_fake",
      "explainlikeimfive_fake",
      "science_fake",
      "history_fake",
      "technology_fake"
    ]
  {
    assert TruthNames[0] + FakeMarker == "AskReddit_fake";
    assert TruthNames[1] + FakeMarker == "todayilearned_fake";
    assert TruthNames[2] + FakeMarker == "mildlyinteresting_fake";
    assert TruthNames[3] + FakeMarker == "showerthoughts_fake";
    assert TruthNames[4] + FakeMarker == "explainlikeimfive_fake";
    assert TruthNames[5] + FakeMarker == "science_fake";
    assert TruthNames[6] + FakeMarker == "history_fake";
    assert TruthNames[7] + FakeMarker == "technology_fake";
  }

  /** The last eight marked names, spelled out. */
  lemma MarkedLastNamesLiteral()
    ensures Marked(TruthNames)[8..16] == [
      "unpopularopinion_fake",
      "AmItheAsshole_fake",
      "relationship_advice_fake",
      "LifeProTips_fake",
      "YouShouldKnow_fake",
      "NoStupidQuestions_fake",
      "OutOfTheLoop_fake",
      "changemyview_fake"
    ]
  {
    assert TruthNames[8] + FakeMarker == "unpopularopinion_fake";
    assert TruthNames[9] + FakeMarker == "AmItheAsshole_fake";
    assert TruthNames[10] + FakeMarker == "relationship_advice_fake";
    assert TruthNames[11] + FakeMarker == "LifeProTips_fake";
    assert TruthNames[12] + FakeMarker == "YouShouldKnow_fake";
    assert TruthNames[13] + FakeMarker == "NoStupidQuestions_fake";
    assert TruthNames[14] + FakeMarker == "OutOfTheLoop_fake";
    assert TruthNames[15] + FakeMarker == "changemyview_fake";
  }

  /** The marked names, spelled out. */
  lemma MarkedNamesLiteral()
    ensures Marked(TruthNames) == [
      "AskReddit_fake",
      "todayilearned_fake",
      "mildlyinteresting_fake",
      "showerthoughts_fake",
      "explainlikeimfive_fake",
      "science_fake",
      "history_fake",
      "technology_fake",
      "unpopularopinion_fake",
      "AmItheAsshole_fake",
      "relationship_advice_fake",
      "LifeProTips_fake",
      "YouShouldKnow_fake",
      "NoStupidQuestions_fake",
      "OutOfTheLoop_fake",
      "changemyview_fake"
    ]
  {
    MarkedFirstNamesLiteral();
    MarkedLastNamesLiteral();
    assert Marked(TruthNames) == Marked(TruthNames)[0..8] + Marked(TruthNames)[8..16];
  }

  /** The route's catalogue is the 32-entry list of the balanced-questions
      route, spelled out. */
  lemma SubredditsLiteral()
    ensures Subreddits == [
      Source("AskReddit", Truth),
      Source("todayilearned", Truth),
      Source("mildlyinteresting", Truth),
      Source("showerthoughts", Truth),
      Source("explainlikeimfive", Truth),
      Source("science", Truth),
      Source("history", Truth),
      Source("technology", Truth),
      Source("unpopularopinion", Truth),
      Source("AmItheAsshole", Truth),
      Source("relationship_advice", Truth),
      Source("LifeProTips", Truth),
      Source("YouShouldKnow", Truth),
      Source("NoStupidQuestions", Truth),
      Source("OutOfTheLoop", Truth),
      Source("changemyview", Truth)
    ] + [
      Source("AskReddit_fake", Troll),
      Source("todayilearned_fake", Troll),
      Source("mildlyinteresting_fake", Troll),
      Source("showerthoughts_fake", Troll),
      Source("explainlikeimfive_fake", Troll),
      Source("science_fake", Troll),
      Source("history_fake", Troll),
      Source("technology_fake", Troll),
      Source("unpopularopinion_fake", Troll),
      Source("AmItheAsshole_fake", Troll),
      Source("relationship_advice_fake", Troll),
      Source("LifeProTips_fake", Troll),
      Source("YouShouldKnow_fake", Troll),
      Source("NoStupidQuestions_fake", Troll),
      Source("OutOfTheLoop_fake", Troll),
      Source("changemyview_fake", Troll)
    ]
  {
    TruthHalfLiteral();
    MarkedNamesLiteral();
  }
}
