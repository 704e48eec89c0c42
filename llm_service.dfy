/** The simulated LLM analysis of src/lib/llmService.ts: a four-entry local
    policy catalogue, keyword-overlap policy retrieval, and a keyword classifier
    that lower-cases its input. Scores are integer hundredths (0.8 is 80);
    policy relevance is in fifths (0.2 is 1, the cap 1 is 5). The one-second
    `setTimeout` is presentation latency and the analysis is modelled as
    immediate. */
module LlmService {
  import opened Text
  import opened Wrappers
  import opened Ranking
  import opened Relevance

  /** An entry of the local catalogue (src/lib/llmService.ts:25-50). */
  datatype LocalPolicy = LocalPolicy(id: string, name: string, description: string, keywords: seq<string>)

  const LocalHarassment := LocalPolicy(
    "policy-1",
    "Harassment Policy",
    "Content targeting individuals with intent to harm, bully, or belittle is not allowed.",
    ["harass", "bully", "attack", "insult", "hate"])
  const LocalProfanity := LocalPolicy(
    "policy-2",
    "Profanity Policy",
    "Excessive or targeted profanity that creates a hostile environment is moderated.",
    ["damn", "hell", "profanity", "swear"])
  const LocalThreat := LocalPolicy(
    "policy-3",
    "Threat Policy",
    "Direct or indirect threats of violence are strictly prohibited.",
    ["kill", "hurt", "destroy", "threat", "violence", "attack"])
  const LocalMisinformation := LocalPolicy(
    "policy-4",
    "Misinformation Policy",
    "Content that deliberately spreads false information that could cause harm.",
    ["fake", "lie", "untrue", "conspiracy", "hoax"])

  const LocalCatalogue: seq<LocalPolicy> := [LocalHarassment, LocalProfanity, LocalThreat, LocalMisinformation]

  datatype Decision = Approved | Flagged | Rejected

  /** A policy reference; `relevance` in fifths. */
  datatype PolicyMatch = PolicyMatch(policyName: string, relevance: int, description: string)

  /** A category score; `score` in hundredths. */
  datatype CategoryScore = CategoryScore(name: string, score: int, explanation: string)

  /** `LLMAnalysisResult`; `suggestedActions` is the optional field. */
  datatype AnalysisResult = AnalysisResult(
    decision: Decision,
    reasoning: string,
    categories: seq<CategoryScore>,
    detectedTopics: seq<string>,
    policyReferences: seq<PolicyMatch>,
    suggestedActions: Option<seq<string>>)

  // ---------------------------------------------------------------------------
  // Policy retrieval (src/lib/llmService.ts:53-72)

  /** The mapped record of one policy: its name, capped relevance and description. */
  function ToMatch(p: LocalPolicy, content: string): PolicyMatch
  {
    PolicyMatch(p.name, KeywordRelevance(p.keywords, content), p.description)
  }

  /** `policyKnowledgeBase.map(...)`, in catalogue order. */
  function ScoreAll(ps: seq<LocalPolicy>, content: string): (r: seq<PolicyMatch>)
    ensures |r| == |ps|
    ensures forall i :: 0 <= i < |ps| ==> r[i] == ToMatch(ps[i], content)
  {
    if ps == [] then [] else [ToMatch(ps[0], content)] + ScoreAll(ps[1..], content)
  }

  function MatchRelevance(m: PolicyMatch): int { m.relevance }

  predicate IsRelevant(m: PolicyMatch) { m.relevance > 0 }

  /** Map, keep positive relevance, stable sort by descending relevance; no
      truncation. */
  function RetrieveFrom(ps: seq<LocalPolicy>, content: string): seq<PolicyMatch>
  {
    SortDesc(Filter(ScoreAll(ps, content), IsRelevant), MatchRelevance)
  }

  /** `retrieveRelevantPolicies`, over the local catalogue. */
  function RetrieveRelevantPolicies(content: string): seq<PolicyMatch>
  {
    RetrieveFrom(LocalCatalogue, content)
  }

  /** For any catalogue: a policy is referenced exactly when one of its
      keywords occurs in the content (ignoring case), and then with relevance
      min(number of matching keywords, 5) fifths; every reference comes from a
      catalogue policy. */
  lemma RetrieveMembers(ps: seq<LocalPolicy>, content: string)
    ensures forall i :: 0 <= i < |ps| ==>
      (ToMatch(ps[i], content) in RetrieveFrom(ps, content)
       <==> exists k :: k in ps[i].keywords && ContainsIgnoreCase(content, k))
    ensures forall i :: 0 <= i < |ps| ==>
      ToMatch(ps[i], content).relevance == Capped(MatchCount(ps[i].keywords, content))
    ensures forall m :: m in RetrieveFrom(ps, content) ==>
      exists i :: 0 <= i < |ps| && m == ToMatch(ps[i], content)
  {
    var scored := ScoreAll(ps, content);
    SortDescMembers(Filter(scored, IsRelevant), MatchRelevance);
    forall i | 0 <= i < |ps| {
      RelevancePositive(ps[i].keywords, content);
    }
    forall m | m in RetrieveFrom(ps, content)
      ensures exists i :: 0 <= i < |ps| && m == ToMatch(ps[i], content)
    {
      var i :| 0 <= i < |scored| && scored[i] == m;
    }
  }

  /** For any catalogue: references have relevance in (0, 1] (one to five
      fifths), are sorted by non-increasing relevance, are at most one per
      catalogue entry, and within one relevance value keep catalogue order
      (the sort is stable). */
  lemma RetrieveRanking(ps: seq<LocalPolicy>, content: string)
    ensures forall m :: m in RetrieveFrom(ps, content) ==> 1 <= m.relevance <= 5
    ensures SortedDesc(RetrieveFrom(ps, content), MatchRelevance)
    ensures |RetrieveFrom(ps, content)| <= |ps|
    ensures forall v :: v > 0 ==>
      Select(RetrieveFrom(ps, content), MatchRelevance, v)
      == Select(ScoreAll(ps, content), MatchRelevance, v)
  {
    var scored := ScoreAll(ps, content);
    var kept := Filter(scored, IsRelevant);
    SortDescProps(kept, MatchRelevance);
    SortDescMembers(kept, MatchRelevance);
    forall v | v > 0
      ensures Select(kept, MatchRelevance, v) == Select(scored, MatchRelevance, v)
    {
      SelectOfPositive(scored, IsRelevant, MatchRelevance, v);
    }
  }

  /** The local catalogue has four entries, so at most four references. */
  lemma RetrieveAtMostFour(content: string)
    ensures |RetrieveRelevantPolicies(content)| <= 4
  {
    RetrieveRanking(LocalCatalogue, content);
  }

  /** A catalogue entry is referenced whenever one of its lower-case
      keywords occurs in the lower-cased content. */
  lemma KeywordCited(ps: seq<LocalPolicy>, i: int, content: string, k: string)
    requires 0 <= i < |ps| && k in ps[i].keywords
    requires Lower(k) == k && Contains(Lower(content), k)
    ensures ToMatch(ps[i], content) in RetrieveFrom(ps, content)
  {
    RetrieveMembers(ps, content);
  }

  /** The references drawn from `ps` include the policy with that name. */
  predicate Cites(ps: seq<LocalPolicy>, content: string, name: string)
  {
    exists m :: m in RetrieveFrom(ps, content) && m.policyName == name
  }

  /** The threat words of the decision are keywords of the Threat Policy, so
      every rejection cites that policy. */
  lemma RejectionCitesThreatPolicy(content: string)
    ensures DecisionOf(content) == Rejected ==> Cites(LocalCatalogue, content, "Threat Policy")
  {
    RejectionCites(LocalCatalogue, 2, content);
  }

  /** The same for any catalogue with an entry named "Threat Policy" whose
      keywords include the three threat words. */
  lemma RejectionCites(ps: seq<LocalPolicy>, i: int, content: string)
    requires 0 <= i < |ps| && ps[i].name == "Threat Policy"
    requires "kill" in ps[i].keywords && "hurt" in ps[i].keywords && "destroy" in ps[i].keywords
    ensures DecisionOf(content) == Rejected ==> Cites(ps, content, "Threat Policy")
  {
    ThreatWordsLower();
    var l := Lower(content);
    if Contains(l, "kill") {
      KeywordCited(ps, i, content, "kill");
    } else if Contains(l, "hurt") {
      KeywordCited(ps, i, content, "hurt");
    } else if Contains(l, "destroy") {
      KeywordCited(ps, i, content, "destroy");
    }
    assert ToMatch(ps[i], content).policyName == "Threat Policy";
  }

  lemma ThreatWordsLower()
    ensures Lower("kill") == "kill" && Lower("hurt") == "hurt" && Lower("destroy") == "destroy"
  {
  }

  /** Lower-casing the content first changes no reference. */
  lemma {:induction false} ScoreAllOfLower(ps: seq<LocalPolicy>, content: string)
    ensures ScoreAll(ps, Lower(content)) == ScoreAll(ps, content)
  {
    if ps != [] {
      RelevanceOfLower(ps[0].keywords, content);
      ScoreAllOfLower(ps[1..], content);
    }
  }

  // ---------------------------------------------------------------------------
  // Signals (src/lib/llmService.ts:79-89); every test lower-cases the content

  predicate ContainsHarassment(content: string)
  {
    Contains(Lower(content), "bad") || Contains(Lower(content), "hate")
  }

  predicate ContainsProfanity(content: string)
  {
    Contains(Lower(content), "damn") || Contains(Lower(content), "hell")
  }

  predicate ContainsThreat(content: string)
  {
    Contains(Lower(content), "kill") || Contains(Lower(content), "destroy") || Contains(Lower(content), "hurt")
  }

  predicate IsNegative(content: string)
  {
    ContainsHarassment(content) || ContainsProfanity(content) || ContainsThreat(content)
  }

  // ---------------------------------------------------------------------------
  // Categories (src/lib/llmService.ts:92-121), in this fixed order

  const HarassmentFound := "The content contains language that appears to be targeting others in a negative way."
  const HarassmentNone := "No significant harassment detected in the content."
  const NegativityFound := "The overall tone of the content is negative, which may create an unwelcoming environment."
  const NegativityNone := "The content maintains a generally neutral or positive tone."
  const ProfanityFound := "The content contains words that may be considered profane or inappropriate."
  const ProfanityNone := "No significant profanity detected in the content."
  const ThreatFound := "The content contains language that could be interpreted as threatening violence."
  const ThreatNone := "No threatening language detected in the content."

  /** A category whose score and explanation depend on one signal. */
  function Category(name: string, signal: bool, high: int, low: int, found: string, none: string): CategoryScore
  {
    CategoryScore(name, if signal then high else low, if signal then found else none)
  }

  function Categories(content: string): seq<CategoryScore>
  {
    [ Category("Harassment", ContainsHarassment(content), 80, 10, HarassmentFound, HarassmentNone),
      Category("Negativity", IsNegative(content), 75, 20, NegativityFound, NegativityNone),
      Category("Profanity", ContainsProfanity(content), 70, 5, ProfanityFound, ProfanityNone),
      Category("Threats", ContainsThreat(content), 90, 1, ThreatFound, ThreatNone) ]
  }

  // ---------------------------------------------------------------------------
  // Decision (src/lib/llmService.ts:124-147)

  function DecisionOf(content: string): Decision
  {
    if ContainsThreat(content) then Rejected
    else if ContainsHarassment(content) || ContainsProfanity(content) then Flagged
    else Approved
  }

  const RejectedReasoning := "The content contains language that may be interpreted as threatening, which violates our platform's safety policies."
  const FlaggedReasoning := "The content contains potentially harmful language that requires human review to determine if it violates platform policies."
  const ApprovedReasoning := "The content appears to comply with our platform policies and has been approved."

  const RejectedActions: seq<string> := [
    "Remove threatening language",
    "Rephrase to express disagreement respectfully",
    "Focus on constructive criticism rather than personal attacks"]
  const FlaggedActions: seq<string> := [
    "Consider using more respectful language",
    "Focus on the topic rather than individuals",
    "Express criticism constructively"]

  function ReasoningOf(d: Decision): string
  {
    match d
    case Rejected => RejectedReasoning
    case Flagged => FlaggedReasoning
    case Approved => ApprovedReasoning
  }

  function SuggestedActionsOf(d: Decision): Option<seq<string>>
  {
    match d
    case Rejected => Some(RejectedActions)
    case Flagged => Some(FlaggedActions)
    case Approved => None
  }

  // ---------------------------------------------------------------------------
  // Topics (src/lib/llmService.ts:153-158): successive pushes in this order

  const LlmTopicNames: seq<string> := ["Politics", "Gaming", "Food", "Entertainment", "Technology"]

  function PushIf(b: bool, topic: string): seq<string>
  {
    if b then [topic] else []
  }

  /** The topic list from the five topic signals, pushed in this order. */
  function TopicsOf(politics: bool, gaming: bool, food: bool, entertainment: bool, technology: bool): seq<string>
  {
    PushIf(politics, "Politics") + (PushIf(gaming, "Gaming") + (PushIf(food, "Food")
    + (PushIf(entertainment, "Entertainment") + PushIf(technology, "Technology"))))
  }

  function DetectedTopics(content: string): seq<string>
  {
    var l := Lower(content);
    TopicsOf(Contains(l, "politic"), Contains(l, "game"), Contains(l, "food"),
      Contains(l, "movie") || Contains(l, "film"), Contains(l, "tech") || Contains(l, "computer"))
  }

  // ---------------------------------------------------------------------------
  // The analysis (src/lib/llmService.ts:75-170)

  /** The analysis with policy references drawn from the catalogue `ps`. */
  function Analyze(ps: seq<LocalPolicy>, content: string): AnalysisResult
  {
    var d := DecisionOf(content);
    AnalysisResult(
      d,
      ReasoningOf(d),
      Categories(content),
      DetectedTopics(content),
      RetrieveFrom(ps, content),
      SuggestedActionsOf(d))
  }

  /** `analyzeTweetContent(content)`, over the four-entry local catalogue. */
  function AnalyzeTweetContent(content: string): AnalysisResult
  {
    Analyze(LocalCatalogue, content)
  }

  // ---------------------------------------------------------------------------
  // Properties of the analysis

  /** Rejected exactly when the lower-cased content contains "kill",
      "destroy" or "hurt". */
  lemma DecisionRejected(ps: seq<LocalPolicy>, content: string)
    ensures Analyze(ps, content).decision == Rejected
      <==> Contains(Lower(content), "kill") || Contains(Lower(content), "destroy")
           || Contains(Lower(content), "hurt")
  {
  }

  /** Flagged exactly when no threat word occurs and one of "bad", "hate",
      "damn", "hell" does. */
  lemma DecisionFlagged(ps: seq<LocalPolicy>, content: string)
    ensures Analyze(ps, content).decision == Flagged
      <==> !(Contains(Lower(content), "kill") || Contains(Lower(content), "destroy")
             || Contains(Lower(content), "hurt"))
           && (Contains(Lower(content), "bad") || Contains(Lower(content), "hate")
               || Contains(Lower(content), "damn") || Contains(Lower(content), "hell"))
  {
  }

  /** Approved exactly when none of the three signals holds. */
  lemma DecisionApproved(ps: seq<LocalPolicy>, content: string)
    ensures Analyze(ps, content).decision == Approved <==> !IsNegative(content)
  {
  }

  /** The decision by thresholds on the category scores alone: Threats above
      0.8 rejects; otherwise Harassment or Profanity above 0.6 flags. */
  function DecisionFromScores(cs: seq<CategoryScore>): Decision
    requires |cs| == 4
  {
    if cs[3].score > 80 then Rejected
    else if cs[0].score > 60 || cs[2].score > 60 then Flagged
    else Approved
  }

  /** The decision carries no hidden state: it is determined by the category
      scores it is returned with. */
  lemma DecisionFollowsScores(ps: seq<LocalPolicy>, content: string)
    ensures |Analyze(ps, content).categories| == 4
    ensures Analyze(ps, content).decision == DecisionFromScores(Analyze(ps, content).categories)
  {
  }

  /** Exactly three suggested actions for a flagged or rejected decision, none
      for an approved one. */
  lemma SuggestedActionsRule(ps: seq<LocalPolicy>, content: string)
    ensures Analyze(ps, content).suggestedActions.Some?
            <==> Analyze(ps, content).decision != Approved
    ensures Analyze(ps, content).suggestedActions.Some?
            ==> |Analyze(ps, content).suggestedActions.value| == 3
  {
  }

  /** The reasoning text identifies the decision: the three texts differ. */
  lemma ReasoningIdentifiesDecision(ps: seq<LocalPolicy>, content: string, d: Decision)
    ensures Analyze(ps, content).reasoning == ReasoningOf(d) <==> Analyze(ps, content).decision == d
  {
    assert |RejectedReasoning| == 116 && |FlaggedReasoning| == 123 && |ApprovedReasoning| == 79;
  }

  /** Four categories in the fixed order Harassment, Negativity, Profanity,
      Threats (not sorted by score). */
  lemma CategoryOrder(ps: seq<LocalPolicy>, content: string)
    ensures |Analyze(ps, content).categories| == 4
    ensures Analyze(ps, content).categories[0].name == "Harassment"
    ensures Analyze(ps, content).categories[1].name == "Negativity"
    ensures Analyze(ps, content).categories[2].name == "Profanity"
    ensures Analyze(ps, content).categories[3].name == "Threats"
  {
  }

  /** Each score is one of its two constants; Negativity is high exactly
      when some signal holds. */
  lemma CategoryScores(ps: seq<LocalPolicy>, content: string)
    ensures |Analyze(ps, content).categories| == 4
    ensures Analyze(ps, content).categories[0].score == (if ContainsHarassment(content) then 80 else 10)
    ensures Analyze(ps, content).categories[1].score == (if IsNegative(content) then 75 else 20)
    ensures Analyze(ps, content).categories[2].score == (if ContainsProfanity(content) then 70 else 5)
    ensures Analyze(ps, content).categories[3].score == (if ContainsThreat(content) then 90 else 1)
  {
  }

  /** Every score of the category list the analysis reports is within
      [0, 1]. */
  lemma CategoryScoresInRange(content: string)
    ensures forall i :: 0 <= i < |Categories(content)| ==> 0 <= Categories(content)[i].score <= 100
  {
  }

  /** Detected topics are a duplicate-free subsequence of Politics, Gaming,
      Food, Entertainment, Technology, in that order. */
  lemma DetectedTopicsOrdered(content: string)
    ensures IsSubseq(DetectedTopics(content), LlmTopicNames)
    ensures NoDuplicates(DetectedTopics(content))
  {
    var l := Lower(content);
    TopicsOfOrdered(Contains(l, "politic"), Contains(l, "game"), Contains(l, "food"),
      Contains(l, "movie") || Contains(l, "film"), Contains(l, "tech") || Contains(l, "computer"));
  }

  /** A topic is detected exactly when its keyword (or one of its two
      keywords) occurs in the lower-cased content. */
  lemma DetectedTopicsMembers(content: string)
    ensures "Politics" in DetectedTopics(content) <==> Contains(Lower(content), "politic")
    ensures "Gaming" in DetectedTopics(content) <==> Contains(Lower(content), "game")
    ensures "Food" in DetectedTopics(content) <==> Contains(Lower(content), "food")
    ensures "Entertainment" in DetectedTopics(content)
            <==> Contains(Lower(content), "movie") || Contains(Lower(content), "film")
    ensures "Technology" in DetectedTopics(content)
            <==> Contains(Lower(content), "tech") || Contains(Lower(content), "computer")
  {
    var l := Lower(content);
    TopicsOfMembers(Contains(l, "politic"), Contains(l, "game"), Contains(l, "food"),
      Contains(l, "movie") || Contains(l, "film"), Contains(l, "tech") || Contains(l, "computer"));
  }

  /** Each topic name is in the list exactly when its test holds. */
  lemma TopicsOfMembers(politics: bool, gaming: bool, food: bool, entertainment: bool, technology: bool)
    ensures "Politics" in TopicsOf(politics, gaming, food, entertainment, technology) <==> politics
    ensures "Gaming" in TopicsOf(politics, gaming, food, entertainment, technology) <==> gaming
    ensures "Food" in TopicsOf(politics, gaming, food, entertainment, technology) <==> food
    ensures "Entertainment" in TopicsOf(politics, gaming, food, entertainment, technology) <==> entertainment
    ensures "Technology" in TopicsOf(politics, gaming, food, entertainment, technology) <==> technology
  {
    TopicNamesDistinct();
  }

  lemma TopicsOfOrdered(politics: bool, gaming: bool, food: bool, entertainment: bool, technology: bool)
    ensures IsSubseq(TopicsOf(politics, gaming, food, entertainment, technology), LlmTopicNames)
    ensures NoDuplicates(TopicsOf(politics, gaming, food, entertainment, technology))
  {
    TopicsOfSubseq(politics, gaming, food, entertainment, technology);
    TopicNamesDistinct();
    SubseqNoDuplicates(TopicsOf(politics, gaming, food, entertainment, technology), LlmTopicNames);
  }

  lemma TopicsOfSubseq(politics: bool, gaming: bool, food: bool, entertainment: bool, technology: bool)
    ensures IsSubseq(TopicsOf(politics, gaming, food, entertainment, technology), LlmTopicNames)
  {
    PushesSubseq(politics, gaming, food, entertainment, technology,
      "Politics", "Gaming", "Food", "Entertainment", "Technology");
  }

  /** Five conditional pushes give a subsequence of the five names. */
  lemma PushesSubseq(b0: bool, b1: bool, b2: bool, b3: bool, b4: bool,
                     n0: string, n1: string, n2: string, n3: string, n4: string)
    ensures IsSubseq(PushIf(b0, n0) + (PushIf(b1, n1) + (PushIf(b2, n2) + (PushIf(b3, n3) + PushIf(b4, n4)))),
                     [n0, n1, n2, n3, n4])
  {
    var t4 := PushIf(b4, n4);
    var t3 := PushIf(b3, n3) + t4;
    var t2 := PushIf(b2, n2) + t3;
    var t1 := PushIf(b1, n1) + t2;
    assert IsSubseq(t4, [n4]);
    PushIfSubseq(b3, n3, t4, [n4]);
    PushIfSubseq(b2, n2, t3, [n3, n4]);
    PushIfSubseq(b1, n1, t2, [n2, n3, n4]);
    PushIfSubseq(b0, n0, t1, [n1, n2, n3, n4]);
    assert [n0] + [n1, n2, n3, n4] == [n0, n1, n2, n3, n4];
  }

  lemma TopicNamesDistinct()
    ensures NoDuplicates(LlmTopicNames)
  {
  }

  lemma PushIfSubseq(b: bool, topic: string, rest: seq<string>, names: seq<string>)
    requires IsSubseq(rest, names)
    ensures IsSubseq(PushIf(b, topic) + rest, [topic] + names)
  {
    if b {
      assert ([topic] + rest)[1..] == rest;
    } else {
      assert PushIf(b, topic) + rest == rest;
      SubseqOfTail(rest, [topic] + names);
    }
  }

  /** The analysis does not change when the content is lower-cased first,
      because every test lower-cases its input. */
  lemma AnalysisIgnoresCase(ps: seq<LocalPolicy>, content: string)
    ensures Analyze(ps, Lower(content)) == Analyze(ps, content)
  {
    LowerIdempotent(content);
    ScoreAllOfLower(ps, content);
  }
}
