/** The in-memory moderation store of src/lib/moderationService.ts: a list of
    tweets, seeded from the mock data, that new tweets are prepended to and
    whose statuses moderators change. The one-second and 300 ms delays are
    presentation latency and every operation is modelled as immediate;
    `Date.now()` and `new Date()` become the parameters `nowMillis` and
    `timestamp`; listener notification is left out. */
module Moderation {
  import opened Text
  import opened Wrappers
  import opened Ranking
  import opened MockData

  /** The statuses a moderator can set: every status except pending. */
  type ReviewStatus = s: Status | s != Pending witness Approved

  // ---------------------------------------------------------------------------
  // The classifier of processTweet (src/lib/moderationService.ts:26-44).
  // Unlike the analysis service it does NOT lower-case the content.

  predicate IsNegative(content: string)
  {
    Contains(content, "bad") || Contains(content, "hate") || Contains(content, "terrible")
  }

  predicate ContainsProfanity(content: string)
  {
    Contains(content, "damn") || Contains(content, "hell")
  }

  predicate ContainsThreat(content: string)
  {
    Contains(content, "kill") || Contains(content, "destroy") || Contains(content, "hurt")
  }

  /** Starts at approved; a threat rejects, otherwise a negative word or a
      profanity flags. */
  function ClassifyStatus(content: string): Status
  {
    if ContainsThreat(content) then Rejected
    else if IsNegative(content) || ContainsProfanity(content) then Flagged
    else Approved
  }

  /** Rejected exactly on a threat word, flagged exactly on a negative or
      profane word without a threat word, approved otherwise, never pending. */
  lemma ClassifyStatusSpec(content: string)
    ensures ClassifyStatus(content) == Rejected <==> ContainsThreat(content)
    ensures ClassifyStatus(content) == Flagged
            <==> !ContainsThreat(content) && (IsNegative(content) || ContainsProfanity(content))
    ensures ClassifyStatus(content) == Approved
            <==> !ContainsThreat(content) && !IsNegative(content) && !ContainsProfanity(content)
    ensures ClassifyStatus(content) != Pending
  {
  }

  /** The profile picture every processed tweet gets. */
  const TestUserAvatar: string := AvatarUrl("1472099645785-5658abf4ff4e")

  /** The four scores, in hundredths, of a processed tweet. */
  function NewScores(content: string): seq<CategoryScore>
  {
    [CategoryScore("Harassment", if IsNegative(content) then 60 else 10),
     CategoryScore("Negativity", if IsNegative(content) then 75 else 5),
     CategoryScore("Profanity", if ContainsProfanity(content) then 80 else 2),
     CategoryScore("Threats", if ContainsThreat(content) then 90 else 1)]
  }

  /** The tweet processTweet builds; `nowMillis` is `Date.now()`, `timestamp`
      is the clock reading behind `new Date().toISOString()`. */
  function NewTweet(content: string, nowMillis: int, timestamp: int): Tweet
  {
    Tweet("tweet-" + IntToDecimal(nowMillis), "Test User", "testuser", TestUserAvatar,
      content, None, timestamp, ClassifyStatus(content),
      TweetAnalysis(NewScores(content), None))
  }

  /** The new tweet keeps the content and the clock reading, carries the
      classifier's status, has no image and no summary, and scores Harassment,
      Negativity, Profanity and Threats in that order, each high exactly when
      its signal holds. */
  lemma NewTweetShape(content: string, nowMillis: int, timestamp: int)
    ensures NewTweet(content, nowMillis, timestamp).content == content
    ensures NewTweet(content, nowMillis, timestamp).timestamp == timestamp
    ensures NewTweet(content, nowMillis, timestamp).status == ClassifyStatus(content)
    ensures NewTweet(content, nowMillis, timestamp).image.None?
    ensures NewTweet(content, nowMillis, timestamp).analysis.summary.None?
    ensures |NewTweet(content, nowMillis, timestamp).analysis.categories| == 4
    ensures NewTweet(content, nowMillis, timestamp).analysis.categories[0].name == "Harassment"
    ensures NewTweet(content, nowMillis, timestamp).analysis.categories[1].name == "Negativity"
    ensures NewTweet(content, nowMillis, timestamp).analysis.categories[2].name == "Profanity"
    ensures NewTweet(content, nowMillis, timestamp).analysis.categories[3].name == "Threats"
  {
  }

  /** Every processed-tweet score is high exactly when its signal holds. */
  lemma NewScoresSignals(content: string)
    ensures NewScores(content)[0].score >= 50 <==> IsNegative(content)
    ensures NewScores(content)[1].score >= 50 <==> IsNegative(content)
    ensures NewScores(content)[2].score >= 50 <==> ContainsProfanity(content)
    ensures NewScores(content)[3].score >= 50 <==> ContainsThreat(content)
  {
  }

  /** Two distinct clock readings give two distinct ids. */
  lemma NewTweetIdsDistinct(a: int, b: int, content: string, timestamp: int)
    requires a != b
    ensures NewTweet(content, a, timestamp).id != NewTweet(content, b, timestamp).id
  {
    DecimalRoundTrip(a);
    DecimalRoundTrip(b);
    assert NewTweet(content, a, timestamp).id[6..] == IntToDecimal(a);
    assert NewTweet(content, b, timestamp).id[6..] == IntToDecimal(b);
  }

  // ---------------------------------------------------------------------------
  // Lookup and status update (src/lib/moderationService.ts:76-86)

  /** `tweets.findIndex(t => t.id === id)`: the first index with that id, or
      -1 when there is none. */
  function FindIndex(ts: seq<Tweet>, id: string): (r: int)
    ensures -1 <= r < |ts|
    ensures r == -1 <==> forall i :: 0 <= i < |ts| ==> ts[i].id != id
    ensures r >= 0 ==> ts[r].id == id && forall j :: 0 <= j < r ==> ts[j].id != id
  {
    if ts == [] then -1
    else if ts[0].id == id then 0
    else var k := FindIndex(ts[1..], id); if k == -1 then -1 else k + 1
  }

  /** The store after setting the status of the first tweet with `id`; the
      store itself when no tweet has that id. */
  function Update(ts: seq<Tweet>, id: string, s: Status): seq<Tweet>
  {
    var k := FindIndex(ts, id);
    if k == -1 then ts else ts[k := ts[k].(status := s)]
  }

  /** What updateTweetStatus resolves or rejects with. */
  function UpdateResult(ts: seq<Tweet>, id: string, s: Status): Result<Tweet, string>
  {
    var k := FindIndex(ts, id);
    if k == -1 then Err("Tweet not found") else Ok(Update(ts, id, s)[k])
  }

  /** An unknown id changes nothing and reports "Tweet not found". */
  lemma UpdateMissing(ts: seq<Tweet>, id: string, s: Status)
    requires forall i :: 0 <= i < |ts| ==> ts[i].id != id
    ensures Update(ts, id, s) == ts
    ensures UpdateResult(ts, id, s) == Err("Tweet not found")
  {
  }

  /** A known id changes the status of its first tweet and nothing else: the
      length, the order, that tweet's other fields and every other tweet stay
      as they were, and the reported tweet is the updated one. */
  lemma UpdateOnlyStatus(ts: seq<Tweet>, id: string, s: Status, k: nat)
    requires k < |ts| && ts[k].id == id
    requires forall j :: 0 <= j < k ==> ts[j].id != id
    ensures |Update(ts, id, s)| == |ts|
    ensures Update(ts, id, s)[k] == ts[k].(status := s)
    ensures forall j :: 0 <= j < |ts| && j != k ==> Update(ts, id, s)[j] == ts[j]
    ensures UpdateResult(ts, id, s) == Ok(ts[k].(status := s))
  {
    assert FindIndex(ts, id) == k;
  }

  /** Updates keep every id, so the same tweet is found again. */
  lemma UpdateKeepsIds(ts: seq<Tweet>, id: string, s: Status, other: string)
    ensures FindIndex(Update(ts, id, s), other) == FindIndex(ts, other)
  {
    var u := Update(ts, id, s);
    assert forall i :: 0 <= i < |ts| ==> u[i].id == ts[i].id;
  }

  /** Setting the same status twice is setting it once. */
  lemma UpdateIdempotent(ts: seq<Tweet>, id: string, s: Status)
    ensures Update(Update(ts, id, s), id, s) == Update(ts, id, s)
  {
    UpdateKeepsIds(ts, id, s, id);
  }

  // ---------------------------------------------------------------------------
  // Views (src/lib/moderationService.ts:12-19) and counts

  /** `tweet => tweet.status === status`. */
  function HasStatusName(status: string): Tweet -> bool
  {
    (t: Tweet) => StatusName(t.status) == status
  }

  /** The status view keeps exactly the tweets with that status, in store
      order; a string naming no status keeps nothing. */
  lemma ByStatusView(ts: seq<Tweet>, status: string)
    ensures IsSubseq(Filter(ts, HasStatusName(status)), ts)
    ensures forall i :: 0 <= i < |ts| && StatusName(ts[i].status) == status ==> ts[i] in Filter(ts, HasStatusName(status))
    ensures forall t :: t in Filter(ts, HasStatusName(status)) ==> StatusName(t.status) == status
    ensures ParseStatus(status).None? ==> Filter(ts, HasStatusName(status)) == []
  {
    FilterIsSubseq(ts, HasStatusName(status));
    if ParseStatus(status).None? && Filter(ts, HasStatusName(status)) != [] {
      var t := Filter(ts, HasStatusName(status))[0];
      StatusNameRoundTrip(t.status);
    }
  }

  /** The view for a status has as many tweets as there are with it. */
  lemma {:induction false} ByStatusCount(ts: seq<Tweet>, s: Status)
    ensures |Filter(ts, HasStatusName(StatusName(s)))| == CountStatus(ts, s)
  {
    if ts != [] {
      ByStatusCount(ts[1..], s);
      StatusNameInjective(ts[0].status, s);
    }
  }

  /** The dashboard's total, the sum of the four view lengths, is the store
      size (src/pages/Index.tsx:40-50). */
  lemma DashboardTotal(ts: seq<Tweet>)
    ensures |Filter(ts, HasStatusName("approved"))| + |Filter(ts, HasStatusName("rejected"))|
            + |Filter(ts, HasStatusName("flagged"))| + |Filter(ts, HasStatusName("pending"))| == |ts|
  {
    ByStatusCount(ts, Approved);
    ByStatusCount(ts, Rejected);
    ByStatusCount(ts, Flagged);
    ByStatusCount(ts, Pending);
    StatusCountsSum(ts);
  }

  /** Prepending a tweet adds one to the count of its status only. */
  lemma CountPrepend(t: Tweet, ts: seq<Tweet>, s: Status)
    ensures CountStatus([t] + ts, s) == CountStatus(ts, s) + (if t.status == s then 1 else 0)
  {
    assert ([t] + ts)[1..] == ts;
  }

  /** Replacing one element's status moves it between two counts. */
  lemma {:induction false} CountSetStatus(ts: seq<Tweet>, k: nat, s: Status, c: Status)
    requires k < |ts|
    ensures CountStatus(ts[k := ts[k].(status := s)], c)
            == CountStatus(ts, c) - (if ts[k].status == c then 1 else 0) + (if s == c then 1 else 0)
  {
    var u := ts[k := ts[k].(status := s)];
    if k > 0 {
      assert u[1..] == ts[1..][k - 1 := ts[k].(status := s)];
      CountSetStatus(ts[1..], k - 1, s, c);
    } else {
      assert u[1..] == ts[1..];
    }
  }

  /** Neither operation ever adds a pending tweet: a processed tweet is never
      pending and a review never sets pending. */
  lemma PendingNeverGrows(ts: seq<Tweet>, content: string, nowMillis: int, timestamp: int, id: string, s: ReviewStatus)
    ensures CountStatus([NewTweet(content, nowMillis, timestamp)] + ts, Pending) == CountStatus(ts, Pending)
    ensures CountStatus(Update(ts, id, s), Pending) <= CountStatus(ts, Pending)
  {
    CountPrepend(NewTweet(content, nowMillis, timestamp), ts, Pending);
    var k := FindIndex(ts, id);
    if k != -1 {
      CountSetStatus(ts, k, s, Pending);
    }
  }

  // ---------------------------------------------------------------------------
  // The store

  class ModerationService {
    /** The store, newest first. */
    var tweets: seq<Tweet>

    /** A fresh store holds a copy of the seed. */
    constructor()
      ensures tweets == MockTweets
    {
      tweets := MockTweets;
    }

    /** `getAllTweets()`: a copy of the store. */
    method GetAllTweets() returns (r: seq<Tweet>)
      ensures r == tweets
    {
      r := tweets;
    }

    /** `getTweetsByStatus(status)`: the tweets whose status string is
        `status`, in store order. */
    method GetTweetsByStatus(status: string) returns (r: seq<Tweet>)
      ensures r == Filter(tweets, HasStatusName(status))
      ensures IsSubseq(r, tweets)
      ensures forall t :: t in r ==> StatusName(t.status) == status
      ensures forall i :: 0 <= i < |tweets| && StatusName(tweets[i].status) == status ==> tweets[i] in r
    {
      r := Filter(tweets, HasStatusName(status));
      ByStatusView(tweets, status);
    }

    /** `processTweet(content)`: classifies the content and puts the new tweet
        at the front; everything already stored follows unchanged. */
    method ProcessTweet(content: string, nowMillis: int, timestamp: int) returns (t: Tweet)
      modifies this
      ensures t == NewTweet(content, nowMillis, timestamp)
      ensures tweets == [t] + old(tweets)
      ensures |tweets| == |old(tweets)| + 1 && tweets[0] == t && tweets[1..] == old(tweets)
    {
      t := NewTweet(content, nowMillis, timestamp);
      tweets := [t] + tweets;
    }

    /** `updateTweetStatus(id, newStatus)`: sets the status of the first tweet
        with that id and reports the updated tweet; an unknown id is an error
        and leaves the store as it was. */
    method UpdateTweetStatus(id: string, newStatus: ReviewStatus) returns (r: Result<Tweet, string>)
      modifies this
      ensures tweets == Update(old(tweets), id, newStatus)
      ensures r == UpdateResult(old(tweets), id, newStatus)
      ensures r.Err? <==> forall i :: 0 <= i < |old(tweets)| ==> old(tweets)[i].id != id
      ensures r.Err? ==> r.error == "Tweet not found" && tweets == old(tweets)
      ensures r.Ok? ==> r.value.id == id && r.value.status == newStatus && r.value in tweets
    {
      var k := FindIndex(tweets, id);
      if k == -1 {
        r := Err("Tweet not found");
        return;
      }
      tweets := tweets[k := tweets[k].(status := newStatus)];
      r := Ok(tweets[k]);
    }
  }
}
