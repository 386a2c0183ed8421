/** The post trackers of the server: the global store of truth posts already
    shown, pruned by age, and the choice of a fresh truth post from a fetched
    listing, avoiding the posts a session has already seen. */
module Tracking {
  import opened Wrappers
  import opened Seqs
  import opened Text
  import opened JsMath

  /** When a truth post was shown and from which subreddit. */
  datatype PostStamp = PostStamp(timestamp: int, subreddit: string)

  /** Tracked truth posts by post id. */
  type PostLog = map<string, PostStamp>

  /** Five hours in milliseconds: tracked truth posts older than this are dropped. */
  const PruneAge := 5 * 60 * 60 * 1000

  /** The subreddit recorded when a tracking request names none. */
  const UnknownSubreddit := "unknown"

  /** The entries of log still young enough to keep at time now. */
  ghost function Fresh(log: PostLog, now: int): PostLog
  {
    map k | k in log && log[k].timestamp >= now - PruneAge :: log[k]
  }

  /** Deletes, one key at a time, every entry stamped before cutoff. */
  method Prune(log: PostLog, cutoff: int) returns (r: PostLog)
    ensures r == map k | k in log && log[k].timestamp >= cutoff :: log[k]
  {
    r := log;
    var keys := log.Keys;
    while keys != {}
      invariant keys <= log.Keys
      invariant r == map k | k in log && (k in keys || log[k].timestamp >= cutoff) :: log[k]
      decreases keys
    {
      var k :| k in keys;
      if log[k].timestamp < cutoff {
        r := r - {k};
      }
      keys := keys - {k};
    }
  }

  /** The log after tracking postId at time now: the new entry is recorded,
      then everything older than the prune age is deleted. */
  ghost function Track(log: PostLog, postId: string, subreddit: string, now: int): PostLog
  {
    var stamp := PostStamp(now, if subreddit == "" then UnknownSubreddit else subreddit);
    Fresh(log[postId := stamp], now)
  }

  /** The tracked post always survives its own pruning, with the current time
      and the given subreddit (or "unknown"); every other surviving entry is
      unchanged, and an entry is dropped exactly when it is older than the
      prune age. */
  lemma TrackKeepsNewEntry(log: PostLog, postId: string, subreddit: string, now: int)
    ensures var r := Track(log, postId, subreddit, now);
      && postId in r
      && r[postId] == PostStamp(now, if subreddit == "" then UnknownSubreddit else subreddit)
      && (forall k :: k in r ==> k == postId || (k in log && r[k] == log[k]))
      && (forall k :: k in log && k != postId ==>
            (k in r <==> log[k].timestamp >= now - PruneAge))
  {
  }

  /** A post as the Reddit listing returns it; a missing selftext is "". */
  datatype RedditPost = RedditPost(id: string, title: string, selftext: string,
                                   subreddit: string, author: string, ups: int)

  /** A post usable as a truth question: a text body longer than 50 characters
      once trimmed, neither removed nor deleted. */
  predicate Suitable(p: RedditPost)
  {
    |Trim(p.selftext)| > 50 && !Contains(p.selftext, "[removed]") && !Contains(p.selftext, "[deleted]")
  }

  /** The posts the route draws from: the suitable posts the session has not
      used, or all suitable posts if the session has used every one. */
  function Candidates(posts: seq<RedditPost>, sessionUsed: PostLog): (r: seq<RedditPost>)
    ensures forall i :: 0 <= i < |r| ==> r[i] in posts && Suitable(r[i])
  {
    var unused := Filter((p: RedditPost) => Suitable(p) && p.id !in sessionUsed, posts);
    if |unused| > 0 then unused else Filter(Suitable, posts)
  }

  /** A post is a candidate exactly when it is suitable and, unless every
      suitable post is used, not used by the session. There are no candidates
      only when no post is suitable. */
  lemma CandidatesCharacterised(posts: seq<RedditPost>, sessionUsed: PostLog)
    ensures var unusedExists := exists i :: 0 <= i < |posts| && Suitable(posts[i]) && posts[i].id !in sessionUsed;
      forall p :: p in posts ==>
        (p in Candidates(posts, sessionUsed) <==>
          Suitable(p) && (unusedExists ==> p.id !in sessionUsed))
    ensures |Candidates(posts, sessionUsed)| == 0 <==> forall i :: 0 <= i < |posts| ==> !Suitable(posts[i])
  {
    var q := (p: RedditPost) => Suitable(p) && p.id !in sessionUsed;
    var unused := Filter(q, posts);
    if |unused| == 0 {
      if forall i :: 0 <= i < |posts| ==> !Suitable(posts[i]) {
        FilterNone(Suitable, posts);
      } else {
        var i :| 0 <= i < |posts| && Suitable(posts[i]);
        assert posts[i] in Filter(Suitable, posts);
      }
    } else {
      assert unused[0] in posts;
    }
  }

  /** The answer to a fresh-truth-post request, before tracking. */
  datatype FreshPick = FreshPick(post: RedditPost, totalAvailable: nat)

  /** The post the route picks from the first non-empty listing it fetched
      ([] when every fetch failed), or a failure. */
  function PickFreshPost(posts: seq<RedditPost>, sessionUsed: PostLog, pickRoll: real): (r: Result<FreshPick, string>)
    requires 0.0 <= pickRoll < 1.0
    ensures r.Success? ==> r.value.post in posts && Suitable(r.value.post)
    ensures r.Success? ==> r.value.totalAvailable == |Candidates(posts, sessionUsed)|
  {
    if |posts| == 0 then Failure("No posts found from any Reddit API strategy")
    else
      var candidates := Candidates(posts, sessionUsed);
      if |candidates| == 0 then Failure("No suitable text posts found")
      else Success(FreshPick(candidates[PickIndex(pickRoll, |candidates|)], |candidates|))
  }

  /** A pick fails exactly when no fetched post is suitable, and it repeats a
      post of the session only when the session has used every suitable one. */
  lemma PickAvoidsSessionPosts(posts: seq<RedditPost>, sessionUsed: PostLog, pickRoll: real)
    requires 0.0 <= pickRoll < 1.0
    ensures PickFreshPost(posts, sessionUsed, pickRoll).Failure?
      <==> forall i :: 0 <= i < |posts| ==> !Suitable(posts[i])
    ensures var r := PickFreshPost(posts, sessionUsed, pickRoll);
      r.Success? && r.value.post.id in sessionUsed ==>
        forall i :: 0 <= i < |posts| && Suitable(posts[i]) ==> posts[i].id in sessionUsed
  {
    CandidatesCharacterised(posts, sessionUsed);
    var r := PickFreshPost(posts, sessionUsed, pickRoll);
    if r.Success? {
      assert r.value.post in Candidates(posts, sessionUsed);
    }
  }

  /** A body longer than 300 characters is cut to 300 with "..." appended. */
  const BodyLimit := 300

  function TruncateBody(body: string): (r: string)
    ensures |body| <= BodyLimit ==> r == body
    ensures |body| > BodyLimit ==> |r| == BodyLimit + 3 && r[..BodyLimit] == body[..BodyLimit] && r[BodyLimit..] == "..."
  {
    if |body| > BodyLimit then body[..BodyLimit] + "..." else body
  }
}
