/** The tweet record, the ten-tweet seed the moderation store starts from, and
    the dashboard's mock statistics (src/lib/mockData.ts). Scores are integer
    hundredths; a timestamp is the instant's epoch milliseconds, which is what
    the source's ISO strings denote and what `new Date(ts).getTime()` reads
    back. */
module MockData {
  import opened Wrappers
  import opened Text

  /** The four review states of a tweet. */
  datatype Status = Flagged | Approved | Rejected | Pending

  /** The string the source stores for a status. */
  function StatusName(s: Status): string
  {
    match s
    case Flagged => "flagged"
    case Approved => "approved"
    case Rejected => "rejected"
    case Pending => "pending"
  }

  /** Reads a status string back; every other string names no status. */
  function ParseStatus(name: string): (r: Option<Status>)
    ensures r.Some? ==> StatusName(r.value) == name
  {
    if name == "flagged" then Some(Flagged)
    else if name == "approved" then Some(Approved)
    else if name == "rejected" then Some(Rejected)
    else if name == "pending" then Some(Pending)
    else None
  }

  /** The status strings are distinct and read back to their status. */
  lemma StatusNameRoundTrip(s: Status)
    ensures ParseStatus(StatusName(s)) == Some(s)
  {
  }

  lemma StatusNameInjective(a: Status, b: Status)
    ensures StatusName(a) == StatusName(b) <==> a == b
  {
    StatusNameRoundTrip(a);
    StatusNameRoundTrip(b);
  }

  /** One category score of a stored analysis. */
  datatype CategoryScore = CategoryScore(name: string, score: int)

  /** `summary` is optional. */
  datatype TweetAnalysis = TweetAnalysis(categories: seq<CategoryScore>, summary: Option<string>)

  /** `image` is optional. */
  datatype Tweet = Tweet(
    id: string,
    name: string,
    username: string,
    profileImage: string,
    content: string,
    image: Option<string>,
    timestamp: int,
    status: Status,
    analysis: TweetAnalysis)

  /** The seed's profile pictures and attached images share their URL shape. */
  function AvatarUrl(photo: string): string
  {
    "https://images.unsplash.com/photo-" + photo + "?ixlib=rb-1.2.1&auto=format&fit=facearea&facepad=2&w=256&h=256&q=80"
  }

  function ImageUrl(photo: string): string
  {
    "https://images.unsplash.com/photo-" + photo + "?ixlib=rb-1.2.1&auto=format&fit=crop&w=800&q=80"
  }

  /** The four categories every seed analysis has, in this order, with an
      optional Misinformation score before Threats. */
  function Scores(harassment: int, negativity: int, profanity: int, misinformation: Option<int>, threats: int): seq<CategoryScore>
  {
    [CategoryScore("Harassment", harassment), CategoryScore("Negativity", negativity), CategoryScore("Profanity", profanity)]
    + (if misinformation.Some? then [CategoryScore("Misinformation", misinformation.value)] else [])
    + [CategoryScore("Threats", threats)]
  }

  const Summary001: string := "This tweet contains strong negative sentiment and brand criticism, but doesn't violate platform policies."

  const Content001: string :=
    "Just had the worst customer service experience ever at @TechStore. The staff was rude and unhelpful. Never shopping there again! \U{F8FF}\U{FC}\U{F2}\U{B0}"

  const Seed001: Tweet :=
    Tweet("tweet-001", "Alex Johnson", "alexj", AvatarUrl("1472099645785-5658abf4ff4e"),
      Content001,
      None, 1684161120000, Flagged,
      TweetAnalysis(Scores(25, 82, 5, None, 2), Some(Summary001)))

  const Content002: string :=
    "Excited to announce that my new photography book is now available! Check it out at the link below. #Photography #NewRelease"

  const Seed002: Tweet :=
    Tweet("tweet-002", "Sarah Miller", "sarahmil", AvatarUrl("1438761681033-6461ffad8d80"),
      Content002,
      Some(ImageUrl("1605721911519-3dfeb3be25e7")), 1684169100000, Approved,
      TweetAnalysis(Scores(1, 2, 0, None, 0), None))

  const Content003: string :=
    "Can someone please tell @InternetProvider to fix their terrible service? I've been without internet for 3 days now! #BadService #Frustrated"

  const Seed003: Tweet :=
    Tweet("tweet-003", "Mike Wilson", "mikewilson", AvatarUrl("1500648767791-00dcc994a43e"),
      Content003,
      None, 1684146000000, Pending,
      TweetAnalysis(Scores(15, 68, 2, None, 1), None))

  const Content004: string :=
    "Anyone know how to get rid of these stupid ads? They're ruining my experience on this platform. Might have to quit soon if this keeps up."

  const Seed004: Tweet :=
    Tweet("tweet-004", "Jessica Lee", "jesslee", AvatarUrl("1494790108377-be9c29b29330"),
      Content004,
      None, 1684174320000, Flagged,
      TweetAnalysis(Scores(8, 65, 20, None, 2), None))

  const Content005: string :=
    "Fake news alert! @NewsChannel is spreading lies again. Don't believe anything they say. They're all corrupt!"

  const Seed005: Tweet :=
    Tweet("tweet-005", "David Brown", "dbrown", AvatarUrl("1507003211169-0a1dd7228f2d"),
      Content005,
      None, 1684143120000, Rejected,
      TweetAnalysis(Scores(35, 78, 5, Some(85), 3), None))

  const Content006: string :=
    "Happy birthday to the most amazing friend ever! @LucySmith You make every day brighter. \U{201A}\U{F9}\U{A7}\U{D4}\U{220F}\U{E8} #BirthdayLove"

  const Seed006: Tweet :=
    Tweet("tweet-006", "Emma Taylor", "emma_t", AvatarUrl("1573140247632-f8fd74997d5c"),
      Content006,
      Some(ImageUrl("1530103862676-de8c9debad1d")), 1684183500000, Approved,
      TweetAnalysis(Scores(0, 0, 0, None, 0), None))

  const Content007: string :=
    "I'm going to destroy everyone who voted for @Politician! You'll all regret it. Watch your backs."

  const Seed007: Tweet :=
    Tweet("tweet-007", "Ryan Cooper", "rcooper", AvatarUrl("1570295999919-56ceb5ecca61"),
      Content007,
      None, 1684135080000, Rejected,
      TweetAnalysis(Scores(85, 92, 10, None, 88), None))

  const Content008: string :=
    "Just finished this amazing new sci-fi novel! Highly recommend it to anyone who loves the genre. What are you reading right now?"

  const Seed008: Tweet :=
    Tweet("tweet-008", "Olivia Parker", "oparker", AvatarUrl("1580489944761-15a19d654956"),
      Content008,
      None, 1684165800000, Approved,
      TweetAnalysis(Scores(0, 1, 0, None, 0), None))

  const Content009: string :=
    "Why is no one talking about the side effects of this vaccine? My cousin got it and now has serious health issues. Be careful people! #VaccineAlert"

  const Seed009: Tweet :=
    Tweet("tweet-009", "Nicholas Grant", "ngrant", AvatarUrl("1520409364224-63400afe26e5"),
      Content009,
      None, 1684150020000, Flagged,
      TweetAnalysis(Scores(5, 55, 0, Some(75), 1), None))

  const Content010: string :=
    "Just launched my new website! It's been months of hard work, but I'm so proud of the result. Check it out: website.com #WebDesign #Launch"

  const Seed010: Tweet :=
    Tweet("tweet-010", "Sophie Allen", "sallen", AvatarUrl("1531123897727-8f129e1688ce"),
      Content010,
      Some(ImageUrl("1507238691740-187a5b1d37b8")), 1684170300000, Approved,
      TweetAnalysis(Scores(0, 0, 0, None, 0), None))

  /** `mockTweets`, the store's initial state. */
  const MockTweets: seq<Tweet> :=
    [Seed001, Seed002, Seed003, Seed004, Seed005, Seed006, Seed007, Seed008, Seed009, Seed010]

  /** "tweet-" followed by the three-digit, zero-padded position. */
  function SeedId(k: nat): string
    requires k < 1000
  {
    "tweet-" + [DigitChar(k / 100), DigitChar(k / 10 % 10), DigitChar(k % 10)]
  }

  /** The statuses of a sequence of tweets, in order. */
  function StatusList(ts: seq<Tweet>): (r: seq<Status>)
    ensures |r| == |ts|
  {
    seq(|ts|, i requires 0 <= i < |ts| => ts[i].status)
  }

  /** The number of tweets with a status. */
  function CountStatus(ts: seq<Tweet>, s: Status): (n: nat)
    ensures n <= |ts|
  {
    if ts == [] then 0 else (if ts[0].status == s then 1 else 0) + CountStatus(ts[1..], s)
  }

  // ---------------------------------------------------------------------------
  // Facts about statuses and the seed

  /** Every tweet has exactly one of the four statuses, so the four counts add
      up to the number of tweets. */
  lemma {:induction false} StatusCountsSum(ts: seq<Tweet>)
    ensures CountStatus(ts, Flagged) + CountStatus(ts, Approved) + CountStatus(ts, Rejected)
            + CountStatus(ts, Pending) == |ts|
  {
    if ts != [] {
      StatusCountsSum(ts[1..]);
    }
  }

  /** The number of occurrences of a status in a list of statuses. */
  function Occurrences(ss: seq<Status>, s: Status): nat
  {
    if ss == [] then 0 else (if ss[0] == s then 1 else 0) + Occurrences(ss[1..], s)
  }

  /** Counting the tweets with a status is counting its occurrences among
      their statuses. */
  lemma {:induction false} CountIsOccurrences(ts: seq<Tweet>, s: Status)
    ensures CountStatus(ts, s) == Occurrences(StatusList(ts), s)
  {
    if ts != [] {
      CountIsOccurrences(ts[1..], s);
      assert StatusList(ts)[1..] == StatusList(ts[1..]);
    }
  }

  lemma SeedIdInjective(a: nat, b: nat)
    requires a < 1000 && b < 1000 && a != b
    ensures SeedId(a) != SeedId(b)
  {
    assert a == (a / 100) * 100 + (a / 10 % 10) * 10 + a % 10;
    assert b == (b / 100) * 100 + (b / 10 % 10) * 10 + b % 10;
    assert SeedId(a)[6..] != SeedId(b)[6..];
  }

  /** The seed's ids, in order. */
  const SeedIdList: seq<string> := [
    "tweet-001", "tweet-002", "tweet-003", "tweet-004", "tweet-005",
    "tweet-006", "tweet-007", "tweet-008", "tweet-009", "tweet-010"]

  lemma SeedIdListIsSeedIds()
    ensures forall i :: 0 <= i < |SeedIdList| ==> SeedIdList[i] == SeedId(i + 1)
  {
  }

  lemma SeedTweetIds()
    ensures |MockTweets| == |SeedIdList|
    ensures forall i :: 0 <= i < |MockTweets| ==> MockTweets[i].id == SeedIdList[i]
  {
  }

  /** Ten tweets, with ids tweet-001 ... tweet-010 in order. */
  lemma SeedIds()
    ensures |MockTweets| == 10
    ensures forall i :: 0 <= i < |MockTweets| ==> MockTweets[i].id == SeedId(i + 1)
  {
    SeedIdListIsSeedIds();
    SeedTweetIds();
  }

  /** The seed ids are pairwise distinct. */
  lemma SeedIdsDistinct()
    ensures forall i, j :: 0 <= i < j < |MockTweets| ==> MockTweets[i].id != MockTweets[j].id
  {
    SeedIds();
    forall i, j | 0 <= i < j < |MockTweets| ensures MockTweets[i].id != MockTweets[j].id {
      SeedIdInjective(i + 1, j + 1);
    }
  }

  /** The seed's statuses, in order. */
  const SeedStatusList: seq<Status> :=
    [Flagged, Approved, Pending, Flagged, Rejected, Approved, Rejected, Approved, Flagged, Approved]

  lemma SeedStatuses()
    ensures StatusList(MockTweets) == SeedStatusList
  {
  }

  lemma SeedStatusListCounts()
    ensures Occurrences(SeedStatusList, Approved) == 4
    ensures Occurrences(SeedStatusList, Flagged) == 3
    ensures Occurrences(SeedStatusList, Rejected) == 2
    ensures Occurrences(SeedStatusList, Pending) == 1
  {
  }

  /** The seed holds 4 approved, 3 flagged, 2 rejected and 1 pending tweet. */
  lemma SeedStatusCounts()
    ensures CountStatus(MockTweets, Approved) == 4
    ensures CountStatus(MockTweets, Flagged) == 3
    ensures CountStatus(MockTweets, Rejected) == 2
    ensures CountStatus(MockTweets, Pending) == 1
  {
    SeedStatuses();
    SeedStatusListCounts();
    CountIsOccurrences(MockTweets, Approved);
    CountIsOccurrences(MockTweets, Flagged);
    CountIsOccurrences(MockTweets, Rejected);
    CountIsOccurrences(MockTweets, Pending);
  }

  /** The shape of every seed analysis: 4 or 5 categories, scores in [0, 1]. */
  predicate WellScored(t: Tweet)
  {
    4 <= |t.analysis.categories| <= 5
    && forall c :: c in t.analysis.categories ==> 0 <= c.score <= 100
  }

  lemma ScoresShape(harassment: int, negativity: int, profanity: int, misinformation: Option<int>, threats: int)
    ensures |Scores(harassment, negativity, profanity, misinformation, threats)| == if misinformation.Some? then 5 else 4
    ensures forall c :: c in Scores(harassment, negativity, profanity, misinformation, threats) ==>
      c.score == harassment || c.score == negativity || c.score == profanity || c.score == threats
      || (misinformation.Some? && c.score == misinformation.value)
  {
  }

  lemma ScoresWellScored(t: Tweet, harassment: int, negativity: int, profanity: int, misinformation: Option<int>, threats: int)
    requires t.analysis.categories == Scores(harassment, negativity, profanity, misinformation, threats)
    requires 0 <= harassment <= 100 && 0 <= negativity <= 100 && 0 <= profanity <= 100 && 0 <= threats <= 100
    requires misinformation.Some? ==> 0 <= misinformation.value <= 100
    ensures WellScored(t)
  {
    ScoresShape(harassment, negativity, profanity, misinformation, threats);
  }

  /** Each seed tweet's analysis is well scored. */
  lemma FirstSeedsWellScored()
    ensures WellScored(Seed001) && WellScored(Seed002) && WellScored(Seed003) && WellScored(Seed004) && WellScored(Seed005)
  {
    ScoresWellScored(Seed001, 25, 82, 5, None, 2);
    ScoresWellScored(Seed002, 1, 2, 0, None, 0);
    ScoresWellScored(Seed003, 15, 68, 2, None, 1);
    ScoresWellScored(Seed004, 8, 65, 20, None, 2);
    assert WellScored(Seed005) by { ScoresShape(35, 78, 5, Some(85), 3); }
  }

  lemma LastSeedsWellScored()
    ensures WellScored(Seed006) && WellScored(Seed007) && WellScored(Seed008) && WellScored(Seed009) && WellScored(Seed010)
  {
    ScoresWellScored(Seed006, 0, 0, 0, None, 0);
    ScoresWellScored(Seed007, 85, 92, 10, None, 88);
    ScoresWellScored(Seed008, 0, 1, 0, None, 0);
    assert WellScored(Seed009) by { ScoresShape(5, 55, 0, Some(75), 1); }
    ScoresWellScored(Seed010, 0, 0, 0, None, 0);
  }

  /** Ten facts about ten tweets give the fact for every element of the
      ten-element list. This only carries the per-tweet lemmas over to
      MockTweets: stated over the seed constant directly, the same step
      exceeds the verifier's resource budget, because every mention of
      MockTweets brings in the seed's string literals. */
  lemma WellScoredList(ts: seq<Tweet>, a: Tweet, b: Tweet, c: Tweet, d: Tweet, e: Tweet,
                       f: Tweet, g: Tweet, h: Tweet, i: Tweet, j: Tweet)
    requires ts == [a, b, c, d, e, f, g, h, i, j]
    requires WellScored(a) && WellScored(b) && WellScored(c) && WellScored(d) && WellScored(e)
    requires WellScored(f) && WellScored(g) && WellScored(h) && WellScored(i) && WellScored(j)
    ensures forall k :: 0 <= k < |ts| ==> WellScored(ts[k])
  {
  }

  /** Every seed analysis has 4 or 5 categories, all scores in [0, 1]. */
  lemma SeedScores()
    ensures forall i :: 0 <= i < |MockTweets| ==> WellScored(MockTweets[i])
  {
    FirstSeedsWellScored();
    LastSeedsWellScored();
    WellScoredList(MockTweets, Seed001, Seed002, Seed003, Seed004, Seed005,
                   Seed006, Seed007, Seed008, Seed009, Seed010);
  }

  // ---------------------------------------------------------------------------
  // mockStatistics

  datatype DayCounts = DayCounts(name: string, flagged: nat, approved: nat, rejected: nat)

  datatype CategoryCount = CategoryCount(name: string, count: nat, color: string)

  datatype Statistics = Statistics(
    totalTweets: nat,
    flaggedTweets: nat,
    approvedTweets: nat,
    rejectedTweets: nat,
    avgResponseTime: string,
    responseRate: nat,
    chartData: seq<DayCounts>,
    categories: seq<CategoryCount>)

  const MockStatistics: Statistics := Statistics(
    254, 47, 187, 20, "2.4 min", 94,
    [DayCounts("Mon", 12, 45, 2),
     DayCounts("Tue", 8, 32, 3),
     DayCounts("Wed", 10, 38, 5),
     DayCounts("Thu", 5, 42, 2),
     DayCounts("Fri", 7, 35, 4),
     DayCounts("Sat", 2, 15, 1),
     DayCounts("Sun", 3, 12, 3)],
    [CategoryCount("Harassment", 18, "#ff3b30"),
     CategoryCount("Misinformation", 12, "#ffcc00"),
     CategoryCount("Profanity", 9, "#ff9500"),
     CategoryCount("Threats", 8, "#ff2d55")])

  function SumCategoryCounts(cs: seq<CategoryCount>): nat
  {
    if cs == [] then 0 else cs[0].count + SumCategoryCounts(cs[1..])
  }

  function SumFlagged(ds: seq<DayCounts>): nat
  {
    if ds == [] then 0 else ds[0].flagged + SumFlagged(ds[1..])
  }

  function SumApproved(ds: seq<DayCounts>): nat
  {
    if ds == [] then 0 else ds[0].approved + SumApproved(ds[1..])
  }

  function SumRejected(ds: seq<DayCounts>): nat
  {
    if ds == [] then 0 else ds[0].rejected + SumRejected(ds[1..])
  }

  /** The total is the sum of the three reviewed counts: 254 = 47 + 187 + 20. */
  lemma StatisticsTotal()
    ensures MockStatistics.totalTweets
            == MockStatistics.flaggedTweets + MockStatistics.approvedTweets + MockStatistics.rejectedTweets
  {
  }

  /** The category counts add up to the flagged count, 18 + 12 + 9 + 8 = 47,
      the denominator of the dashboard's bar widths. */
  lemma CategoryCountsSum()
    ensures SumCategoryCounts(MockStatistics.categories) == MockStatistics.flaggedTweets
  {
  }

  /** The weekly chart agrees with the flagged and rejected totals, but its
      approved column adds up to 219, not to the 187 approved tweets. */
  lemma ChartTotals()
    ensures SumFlagged(MockStatistics.chartData) == MockStatistics.flaggedTweets
    ensures SumRejected(MockStatistics.chartData) == MockStatistics.rejectedTweets
    ensures SumApproved(MockStatistics.chartData) == 219 != MockStatistics.approvedTweets
  {
  }

}
