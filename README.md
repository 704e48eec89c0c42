# Tweet moderation pipeline in Dafny

This project models the keyword-driven content-moderation pipeline of a tweet-moderation dashboard. It covers four parts:

- **LLM analysis.** A simulated analysis (`analyzeTweetContent`) classifies a tweet from lower-cased keywords. It scores a four-entry local policy catalogue (`retrieveRelevantPolicies`) and tags topics.
- **Retrieval service.** `getRelevantContext` ranks a ten-entry policy catalogue, keeps the top three policies and formats them as text. `detectTopics` tags topics from a fixed, ordered topic map.
- **Moderation store.** `ModerationService` is an in-memory queue of tweets, seeded with ten tweets. It classifies and prepends new tweets, with a case-sensitive classifier of its own. It also updates a tweet's status by id and serves views by status.
- **Moderator panel.** The queue view filters by status and by a case-insensitive search, sorts stably by timestamp in either direction, and toggles the sort direction.

The modelling conventions are:

- **Scores** are integer hundredths, so 0.8 is 80.
- **Policy relevance** is in fifths: `min(number of matching keywords, 5)`. 0.2 per keyword is 1, and the cap of 1 is 5. The source's accumulated `0.2` sums grow with the match count, so the `> 0` filter, the cap and the order are all the same in fifths.
- **Timestamps** are epoch milliseconds, which is what `new Date(t).getTime()` returns. The seed's ISO strings are written as those integers.
- **`toLowerCase`** is ASCII lower-casing; **`includes`** is substring search (`Text.Contains`); **`` `${n}` ``** is decimal rendering (`Text.IntToDecimal`).
- **The stable `sort`** (ECMAScript 2019 requires `Array.prototype.sort` to be stable) is a functional insertion sort by a key, `Ranking.SortDesc`. Its stability is stated as "for every key value, the elements with that key keep their order" (`Ranking.Select`).
- **The two classifiers are separate definitions.** The analysis lower-cases its input (`LlmService`). The store does not, and also counts "terrible" as negative (`Moderation`). `Classifiers` proves where they agree and where they do not.

Modules:

- `Text` — lower-casing, substring search and decimal rendering.
- `Ranking` — filter, subsequence, stable sort and prefix.
- `Relevance` — keyword-match scoring.
- `Wrappers` — `Option` and `Result`.
- `KnowledgeBase` — the ten-entry catalogue.
- `LlmService` — the simulated analysis.
- `RagService` — the retrieval service.
- `MockData` — the tweet record, the seed and the statistics.
- `Moderation` — the store: a `class` whose `tweets` field its methods update.
- `ModeratorPanel` — the queue view.
- `Classifiers` — compares the two classifiers.

Four facts about the code shape the model:

- **Category order.** Analysis categories come in the fixed order Harassment, Negativity, Profanity, Threats; the code does not sort them by score.
- **No truncation in the analysis.** The analysis lists every policy with at least one keyword match; only `getRelevantContext` keeps the first three.
- **A simple classifier.** The analysis classifier is plain substring search of the lower-cased content for seven words: "bad", "hate", "damn", "hell", "kill", "destroy" and "hurt".
- **Topics are a list.** Detected topics form a list in the fixed order Politics, Gaming, Food, Entertainment, Technology.

The seed data are constants, each characterised by lemmas in the table below:

| constant | source | characterised by |
|---|---|---|
| `KnowledgeBase.Catalogue` | src/lib/knowledgeBase.ts:3-124 | CatalogueIds, CatalogueIdsDistinct, CatalogueNames, NamesDistinct, StoredRelevanceIsZero, KeywordAndExampleCounts, SharedKeywords, CompoundKeywords |
| `LlmService.LocalCatalogue` | src/lib/llmService.ts:25-50 | RetrieveAtMostFour, RejectionCitesThreatPolicy |
| `MockData.MockTweets` | src/lib/mockData.ts:20-197 | SeedTweetIds, SeedIds, SeedIdsDistinct, SeedStatuses, SeedStatusCounts, SeedScores |
| `MockData.MockStatistics` | src/lib/mockData.ts:199-221 | StatisticsTotal, CategoryCountsSum, ChartTotals |

## Model

| member | source | states |
|---|---|---|
| Text.Lower | src/lib/llmService.ts:57 | `toLowerCase`: same length, each character ASCII lower-cased |
| Text.LowerIdempotent | src/lib/llmService.ts:79-87 | lower-casing twice equals lower-casing once |
| Text.ContainsIff | src/lib/llmService.ts:57 | `includes` is true exactly when the pattern occurs at some index of the string |
| Text.ContainsOccurs | src/components/ModeratorPanel.tsx:32-35 | substring search agrees with the occurrence predicate |
| Text.ContainsEmpty | src/components/ModeratorPanel.tsx:33 | the empty pattern occurs in every string |
| Text.ContainsInLeft | src/lib/llmService.ts:57 | a pattern found in the left part of a concatenation is found in the whole |
| Text.ContainsInRight | src/lib/llmService.ts:57 | a pattern found in the right part of a concatenation is found in the whole |
| Text.MissingChar | src/lib/moderationService.ts:26-35 | a pattern with a character the string lacks is not found |
| Text.ContainsIgnoreCaseOfLower | src/lib/ragService.ts:15 | lower-casing the text first changes no case-insensitive test |
| Text.IntToDecimal | src/lib/ragService.ts:35 | decimal rendering is non-empty, all digits for n >= 0, with a leading '-' for n < 0 |
| Text.DecimalRoundTrip | src/lib/ragService.ts:35 | reading the rendered decimal back gives the number, so rendering is injective |
| Ranking.SortDesc | src/lib/ragService.ts:26 | the stable descending sort that `.sort((a, b) => b.relevance - a.relevance)` here and in llmService.ts:69, and the timestamp sort in ModeratorPanel.tsx:40-46, perform; characterised by SortDescProps, SortDescMembers and SortDescOfSorted |
| Ranking.Filter | src/lib/ragService.ts:25 | `filter`: keeps exactly the elements the predicate accepts, and keeps nothing else |
| Ranking.FilterIsSubseq | src/components/ModeratorPanel.tsx:30 | a filtered list is a subsequence of its input |
| Ranking.FilterConcat | src/lib/ragService.ts:25 | filtering distributes over concatenation |
| Ranking.SubseqNoDuplicates | src/lib/llmService.ts:153-158 | a subsequence of a duplicate-free list is duplicate-free |
| Ranking.SortDescProps | src/lib/ragService.ts:26 | the stable sort is sorted non-increasing by key and a permutation, and keeps the relative order of every key class |
| Ranking.SortDescMembers | src/lib/ragService.ts:26 | the sort has exactly the members of its input |
| Ranking.SortDescOfSorted | src/lib/ragService.ts:26 | sorting an already sorted list returns it unchanged |
| Ranking.SelectOfPositive | src/lib/ragService.ts:25 | filtering on a positive key, as `.filter(item => item.relevance > 0)` here and in llmService.ts:68 does, leaves every positive key class unchanged, order included |
| Ranking.SelectConcat | src/lib/ragService.ts:27 | the elements of one key class in a concatenation are those of the first part followed by those of the second |
| Ranking.Take | src/lib/ragService.ts:27 | `slice(0, k)`: min(k, length) elements, and the input is that prefix followed by the rest |
| Relevance.MatchCount | src/lib/ragService.ts:14-18 | the number of matching keywords is at most the number of keywords |
| Relevance.KeywordRelevance | src/lib/ragService.ts:14-22 | relevance is at most 5 and at most the keyword count, and reaches the cap exactly when five or more keywords match |
| Relevance.RelevancePositive | src/lib/ragService.ts:14-25 | relevance is positive exactly when some keyword occurs in the text, ignoring case |
| Relevance.AllMatch | src/lib/ragService.ts:14-18 | when every keyword occurs, the match count is the keyword count |
| Relevance.CapReachable | src/lib/ragService.ts:22 | with five or more keywords, the concatenation of the keywords reaches the cap |
| Relevance.ConcatContains | src/lib/ragService.ts:15 | every keyword occurs, ignoring case, in the concatenation of the keywords |
| Relevance.RelevanceOfLower | src/lib/llmService.ts:57 | lower-casing the text first does not change the match count |
| KnowledgeBase.CatalogueIds | src/lib/knowledgeBase.ts:3-124 | exactly ten entries, with ids "policy-1" … "policy-10" in order |
| KnowledgeBase.PolicyIdInjective | src/lib/knowledgeBase.ts:5 | distinct positions give distinct ids |
| KnowledgeBase.CatalogueIdsDistinct | src/lib/knowledgeBase.ts:3-124 | the catalogue ids are pairwise distinct |
| KnowledgeBase.StoredRelevanceIsZero | src/lib/knowledgeBase.ts:9 | every entry's stored relevance is 0 |
| KnowledgeBase.KeywordAndExampleCounts | src/lib/knowledgeBase.ts:8-14 | every entry has at least five keywords and exactly three examples |
| KnowledgeBase.CatalogueNames | src/lib/knowledgeBase.ts:6 | the entry names, in catalogue order |
| KnowledgeBase.PolicyNamesDistinct | src/lib/knowledgeBase.ts:6 | no two names are equal |
| KnowledgeBase.NamesDistinct | src/lib/knowledgeBase.ts:3-124 | the catalogue's names are pairwise distinct |
| KnowledgeBase.SharedKeywords | src/lib/knowledgeBase.ts:8-20 | "hate" belongs to policy-1 and policy-2; "attack" belongs to policy-1 and policy-4 |
| KnowledgeBase.CompoundKeywords | src/lib/knowledgeBase.ts:32-68 | "kill myself" and "end my life" are keywords of policy-6; "f-word" is a keyword of policy-3 |
| LlmService.AnalyzeTweetContent | src/lib/llmService.ts:75-170 | `analyzeTweetContent`: Analyze over the four-entry local catalogue; characterised by the Decision*, Category*, SuggestedActionsRule, DetectedTopics*, Retrieve* and AnalysisIgnoresCase lemmas |
| LlmService.Analyze | src/lib/llmService.ts:124-167 | the analysis result from decision, reasoning, categories, topics, references and actions, for any catalogue; characterised by the same lemmas |
| LlmService.RetrieveFrom | src/lib/llmService.ts:53-72 | `retrieveRelevantPolicies`: score, keep positive relevance, stable descending sort, no truncation; characterised by RetrieveMembers and RetrieveRanking |
| LlmService.RetrieveRelevantPolicies | src/lib/llmService.ts:150 | RetrieveFrom over the local catalogue; characterised by RetrieveAtMostFour |
| LlmService.DecisionOf | src/lib/llmService.ts:124-147 | the decision chain threat, then harassment or profanity, then approval; characterised by DecisionRejected, DecisionFlagged, DecisionApproved and DecisionFollowsScores |
| LlmService.ReasoningOf | src/lib/llmService.ts:130-146 | the reasoning text of each decision; characterised by ReasoningIdentifiesDecision |
| LlmService.SuggestedActionsOf | src/lib/llmService.ts:131-147 | three actions on rejection or flagging, none on approval; characterised by SuggestedActionsRule |
| LlmService.Categories | src/lib/llmService.ts:89-121 | the four category scores; characterised by CategoryOrder, CategoryScores and CategoryScoresInRange |
| LlmService.DetectedTopics | src/lib/llmService.ts:153-158 | the five conditional topic pushes; characterised by DetectedTopicsMembers and DetectedTopicsOrdered |
| LlmService.ReasoningIdentifiesDecision | src/lib/llmService.ts:130-146 | the reported reasoning is a decision's text exactly when the reported decision is that decision |
| LlmService.DetectedTopicsMembers | src/lib/llmService.ts:153-158 | each of the five topics is detected exactly when its keyword, or one of its two keywords, occurs in the lower-cased content |
| LlmService.TopicsOfMembers | src/lib/llmService.ts:154-158 | each topic name is in the pushed list exactly when its test holds |
| LlmService.ScoreAll | src/lib/llmService.ts:54-67 | `map`: one reference per catalogue entry, in order, with its name, capped relevance and description |
| LlmService.RetrieveMembers | src/lib/llmService.ts:53-71 | a policy is referenced exactly when one of its keywords occurs, ignoring case; its relevance is min(matches, 5) fifths; every reference comes from the catalogue |
| LlmService.RetrieveRanking | src/lib/llmService.ts:64-71 | references have relevance in (0, 1], are sorted non-increasing, number at most one per entry, and keep catalogue order within a relevance value |
| LlmService.RetrieveAtMostFour | src/lib/llmService.ts:25-71 | at most four references over the local catalogue, with no truncation |
| LlmService.KeywordCited | src/lib/llmService.ts:53-71 | an entry is referenced whenever one of its lower-case keywords occurs in the lower-cased content |
| LlmService.RejectionCites | src/lib/llmService.ts:85-87 | for any catalogue with a "Threat Policy" entry holding kill, hurt and destroy, a rejected post references that entry |
| LlmService.RejectionCitesThreatPolicy | src/lib/llmService.ts:128-150 | every rejected post's references include the Threat Policy of the local catalogue |
| LlmService.ScoreAllOfLower | src/lib/llmService.ts:57 | lower-casing the content first changes no reference |
| LlmService.DecisionRejected | src/lib/llmService.ts:85-87 | rejected exactly when the lower-cased content contains "kill", "destroy" or "hurt" (decision rule at lines 128-135) |
| LlmService.DecisionFlagged | src/lib/llmService.ts:79-83 | flagged exactly when there is no threat word and one of "bad", "hate", "damn", "hell" occurs (rule at lines 136-143) |
| LlmService.DecisionApproved | src/lib/llmService.ts:144-147 | approved exactly when none of the three signals holds |
| LlmService.DecisionFollowsScores | src/lib/llmService.ts:92-147 | the decision is fixed by the category scores alone: Threats above 0.8 rejects; otherwise Harassment or Profanity above 0.6 flags |
| LlmService.SuggestedActionsRule | src/lib/llmService.ts:124-147 | suggested actions are present exactly when the decision is not approved, and then there are three |
| LlmService.CategoryOrder | src/lib/llmService.ts:92-121 | four categories in the fixed order Harassment, Negativity, Profanity, Threats |
| LlmService.CategoryScores | src/lib/llmService.ts:89-121 | each score is its high constant exactly when its signal holds; Negativity is high exactly when any signal holds |
| LlmService.CategoryScoresInRange | src/lib/llmService.ts:92-121 | every category score is within [0, 1] |
| LlmService.DetectedTopicsOrdered | src/lib/llmService.ts:153-158 | detected topics are a duplicate-free subsequence of Politics, Gaming, Food, Entertainment, Technology |
| LlmService.TopicsOfOrdered | src/lib/llmService.ts:153-158 | the same, for any values of the five topic tests |
| LlmService.TopicsOfSubseq | src/lib/llmService.ts:153-158 | the pushes form a subsequence of the five topic names |
| LlmService.PushesSubseq | src/lib/llmService.ts:154-158 | five conditional pushes form a subsequence of the five pushed names |
| LlmService.PushIfSubseq | src/lib/llmService.ts:154 | one conditional push in front of a subsequence gives a subsequence of the longer list |
| LlmService.TopicNamesDistinct | src/lib/llmService.ts:154-158 | the five topic names are distinct |
| LlmService.AnalysisIgnoresCase | src/lib/llmService.ts:79-158 | the whole analysis is unchanged when the content is lower-cased first |
| RagService.GetRelevantContext | src/lib/ragService.ts:7-37 | `getRelevantContext` over the ten-entry catalogue; characterised by ContextShape, ContextPrintsZero and SharedKeywordRaisesTwo |
| RagService.ContextFrom | src/lib/ragService.ts:11-36 | the fixed sentence when nothing matches, otherwise the joined blocks of the top policies, for any catalogue; characterised by ContextShape and PrintedRelevanceIsZero |
| RagService.TopPolicies | src/lib/ragService.ts:25-27 | filter, stable descending sort and the first three; characterised by TopPoliciesAreRelevant, TopPoliciesAreHighest, TopPoliciesOrder and TopPoliciesEmpty |
| RagService.FormatPolicy | src/lib/ragService.ts:35 | one policy block of name, description and relevance; characterised by FormatPolicyStart, NotFixedSentence and PrintedRelevanceIsZero |
| RagService.Join | src/lib/ragService.ts:36 | `join(sep)`; characterised by JoinStartsWith, JoinSnoc and JoinLength |
| RagService.TopicsOf | src/lib/ragService.ts:54-58 | the names of the map entries with a matching keyword, in map order; characterised by TopicsOfSnoc, TopicsOfSubseq, TopicsOfMembers and TopicsOfSpec |
| RagService.RankAll | src/lib/ragService.ts:11-24 | `map`: one ranked item per catalogue entry, in order |
| RagService.RankedMembers | src/lib/ragService.ts:11-26 | the ranked list holds exactly the entries with positive relevance, sorted non-increasing |
| RagService.TopPoliciesAreRelevant | src/lib/ragService.ts:25-27 | at most three policies are included, fewer only when fewer are relevant, each relevant and from the catalogue |
| RagService.TopPoliciesAreHighest | src/lib/ragService.ts:26-27 | every relevant entry left out is no more relevant than any included policy |
| RagService.TopPoliciesOrder | src/lib/ragService.ts:26 | included policies are non-increasing in relevance; within a relevance value they are a prefix of that value's entries in catalogue order |
| RagService.TopPoliciesEmpty | src/lib/ragService.ts:25-29 | nothing is included exactly when no keyword of any entry occurs |
| RagService.ContextShape | src/lib/ragService.ts:29-36 | the fixed sentence exactly when nothing matches; otherwise one to three formatted blocks joined by blank lines, starting with "Policy: " and the first name |
| RagService.FormatAll | src/lib/ragService.ts:34-35 | one block per included policy, in order |
| RagService.FormatPolicyStart | src/lib/ragService.ts:35 | a block starts with "Policy: " and the policy's name |
| RagService.JoinStartsWith | src/lib/ragService.ts:36 | `join` starts with the first part |
| RagService.JoinSnoc | src/lib/ragService.ts:36 | joining one more part appends the separator and that part |
| RagService.JoinLength | src/lib/ragService.ts:36 | the joined text is as long as the parts together plus one separator per pair of neighbours |
| RagService.NotFixedSentence | src/lib/ragService.ts:30-35 | a block is never the fixed no-policy sentence |
| RagService.PrintedRelevanceIsZero | src/lib/ragService.ts:35 | the printed percentage is the entry's stored relevance, not the computed one: "Relevance: 0%" when the stored values are 0 |
| RagService.ContextPrintsZero | src/lib/knowledgeBase.ts:9 | over the ten-entry catalogue every block says "Relevance: 0%" |
| RagService.SharedKeywordRaisesTwo | src/lib/knowledgeBase.ts:8-20 | text containing "hate" in any case ranks both policy-1 and policy-2 |
| RagService.AnyKeywordIff | src/lib/ragService.ts:55 | `some`: true exactly when one of the keywords occurs, ignoring case |
| RagService.TopicsOfSnoc | src/lib/ragService.ts:54-58 | one more map entry adds its topic at the end exactly when it matches |
| RagService.DetectTopics | src/lib/ragService.ts:40-61 | the returned topics are those of the fixed topic map that match, in map order |
| RagService.CollectTopics | src/lib/ragService.ts:43-58 | the loop over any topic map returns the matching topics in map order |
| RagService.TopicsOfSubseq | src/lib/ragService.ts:54-58 | detected topics are a subsequence of the map's names |
| RagService.TopicsOfMembers | src/lib/ragService.ts:54-58 | with distinct names, a topic is detected exactly when one of its keywords occurs |
| RagService.TopicsOfSpec | src/lib/ragService.ts:43-60 | with distinct names, the topics are a duplicate-free subsequence of the names, and include a topic exactly when one of its keywords occurs |
| RagService.TopicTableNames | src/lib/ragService.ts:45-52 | the map's names are Politics, Technology, Entertainment, Sports, Health, Finance, and they are distinct |
| RagService.DetectTopicsSpec | src/lib/ragService.ts:43-60 | the result is a duplicate-free subsequence of those six names |
| RagService.SubstringNotWord | src/lib/ragService.ts:47 | "ai" anywhere in the lower-cased text, even inside a word, yields Technology |
| MockData.ParseStatus | src/lib/mockData.ts:10 | parsing a status string gives the status whose name it is |
| MockData.StatusNameRoundTrip | src/lib/mockData.ts:10 | every status's name parses back to that status |
| MockData.StatusNameInjective | src/lib/mockData.ts:10 | two statuses have the same name exactly when they are equal |
| MockData.StatusList | src/lib/mockData.ts:10 | one status per tweet |
| MockData.CountStatus | src/lib/mockData.ts:10 | a status count is at most the number of tweets |
| MockData.StatusCountsSum | src/lib/mockData.ts:10 | the four status counts sum to the number of tweets |
| MockData.CountIsOccurrences | src/lib/mockData.ts:10 | a status count equals the occurrences of that status in the status list |
| MockData.SeedIdInjective | src/lib/mockData.ts:22 | distinct numbers below 1000 give distinct zero-padded seed ids |
| MockData.SeedIdListIsSeedIds | src/lib/mockData.ts:22-180 | the seed ids are "tweet-001" … "tweet-010" |
| MockData.SeedTweetIds | src/lib/mockData.ts:20-197 | the seed's tweets carry those ids, in order |
| MockData.SeedIds | src/lib/mockData.ts:20-197 | exactly ten seed tweets, with ids tweet-001 … tweet-010 in order |
| MockData.SeedIdsDistinct | src/lib/mockData.ts:20-197 | the seed ids are pairwise distinct |
| MockData.SeedStatuses | src/lib/mockData.ts:28-187 | the seed's statuses, in order |
| MockData.SeedStatusListCounts | src/lib/mockData.ts:28-187 | that status list has 4 approved, 3 flagged, 2 rejected and 1 pending |
| MockData.SeedStatusCounts | src/lib/mockData.ts:20-197 | the seed has 4 approved, 3 flagged, 2 rejected and 1 pending tweets |
| MockData.ScoresShape | src/lib/mockData.ts:30-35 | a seed analysis has four categories, or five when Misinformation is present, each with one of the given scores |
| MockData.ScoresWellScored | src/lib/mockData.ts:30-35 | scores in [0, 1] give a well-scored analysis |
| MockData.FirstSeedsWellScored | src/lib/mockData.ts:20-108 | tweets 001 to 005 have 4 or 5 categories, all scores in [0, 1] |
| MockData.LastSeedsWellScored | src/lib/mockData.ts:109-197 | tweets 006 to 010 have 4 or 5 categories, all scores in [0, 1] |
| MockData.SeedScores | src/lib/mockData.ts:20-197 | every seed analysis has 4 or 5 categories, all scores in [0, 1] |
| MockData.StatisticsTotal | src/lib/mockData.ts:200-203 | totalTweets = flagged + approved + rejected (254 = 47 + 187 + 20) |
| MockData.CategoryCountsSum | src/lib/mockData.ts:215-220 | the category counts sum to flaggedTweets (18 + 12 + 9 + 8 = 47) |
| MockData.ChartTotals | src/lib/mockData.ts:206-214 | the weekly chart's flagged and rejected columns sum to the totals; its approved column sums to 219, not 187 |
| Moderation.ClassifyStatus | src/lib/moderationService.ts:26-44 | the store's case-sensitive classifier; characterised by ClassifyStatusSpec |
| Moderation.NewScores | src/lib/moderationService.ts:56-61 | the four new category scores; characterised by NewScoresSignals |
| Moderation.NewTweet | src/lib/moderationService.ts:47-63 | the new tweet record; characterised by NewTweetShape and NewTweetIdsDistinct |
| Moderation.Update | src/lib/moderationService.ts:76-86 | the list after a status change of the first tweet with that id; characterised by UpdateMissing, UpdateOnlyStatus, UpdateKeepsIds and UpdateIdempotent |
| Moderation.UpdateResult | src/lib/moderationService.ts:76-89 | "Tweet not found" for an unknown id, the updated tweet otherwise; characterised by UpdateMissing and UpdateOnlyStatus |
| Moderation.ClassifyStatusSpec | src/lib/moderationService.ts:26-44 | case-sensitive: rejected exactly on "kill"/"destroy"/"hurt"; flagged exactly with no threat and one of "bad", "hate", "terrible", "damn", "hell"; otherwise approved; never pending |
| Moderation.NewTweetShape | src/lib/moderationService.ts:47-63 | the new tweet keeps the content and the given timestamp, carries the classifier's status, has no image and no summary, and has the four categories in order |
| Moderation.NewScoresSignals | src/lib/moderationService.ts:56-61 | each new score is at least 0.5 exactly when its signal holds |
| Moderation.NewTweetIdsDistinct | src/lib/moderationService.ts:48 | different clock readings give different ids |
| Moderation.FindIndex | src/lib/moderationService.ts:76 | `findIndex`: -1 exactly when no tweet has the id; otherwise the first index with that id |
| Moderation.UpdateMissing | src/lib/moderationService.ts:76-81 | an unknown id leaves the list unchanged and fails with "Tweet not found" |
| Moderation.UpdateOnlyStatus | src/lib/moderationService.ts:76-89 | with a known id only the status of the first match changes; length, order and every other tweet are kept; the result is the updated tweet |
| Moderation.UpdateKeepsIds | src/lib/moderationService.ts:83-86 | an update changes no lookup by id |
| Moderation.UpdateIdempotent | src/lib/moderationService.ts:83-86 | updating twice with the same id and status equals updating once |
| Moderation.ByStatusView | src/lib/moderationService.ts:17-19 | the status view is a subsequence holding exactly the tweets with that status name; an unknown status name gives nothing |
| Moderation.ByStatusCount | src/lib/moderationService.ts:17-19 | the view for a status has as many tweets as there are with it |
| Moderation.DashboardTotal | src/pages/Index.tsx:40-50 | the four view lengths sum to the store size |
| Moderation.CountPrepend | src/lib/moderationService.ts:65 | prepending a tweet adds one to the count of its status only |
| Moderation.CountSetStatus | src/lib/moderationService.ts:83-86 | changing one tweet's status moves one from the old status's count to the new one's |
| Moderation.PendingNeverGrows | src/lib/moderationService.ts:38-86 | neither processing nor updating ever adds a pending tweet |
| Moderation.ModerationService.constructor | src/lib/moderationService.ts:8 | the store starts as the ten-tweet seed |
| Moderation.ModerationService.GetAllTweets | src/lib/moderationService.ts:12-14 | returns the store's tweets |
| Moderation.ModerationService.GetTweetsByStatus | src/lib/moderationService.ts:17-19 | returns exactly the store's tweets with that status name, in store order |
| Moderation.ModerationService.ProcessTweet | src/lib/moderationService.ts:22-70 | the classified new tweet is put at index 0 and all earlier tweets follow unchanged |
| Moderation.ModerationService.UpdateTweetStatus | src/lib/moderationService.ts:73-92 | fails with "Tweet not found", leaving the store unchanged, exactly when no tweet has the id; otherwise sets only that tweet's status and returns it |
| ModeratorPanel.Toggle | src/components/ModeratorPanel.tsx:52-54 | `toggleSortOrder`; characterised by ToggleFlips |
| ModeratorPanel.FilteredTweets | src/components/ModeratorPanel.tsx:30-37 | the status and search filter; characterised by FilteredSpec, StatusFilterSpec, SearchSpec, EmptyQueryPassesAll and NoFilterNoQuery |
| ModeratorPanel.SortedTweets | src/components/ModeratorPanel.tsx:40-46 | the filtered list sorted by timestamp in the chosen order; characterised by SortedIsPermutation, NewestOrder, OldestOrder and SortIsStable |
| ModeratorPanel.ToggleFlips | src/components/ModeratorPanel.tsx:52-54 | the toggle always changes the order, and toggling twice restores it |
| ModeratorPanel.FilteredSpec | src/components/ModeratorPanel.tsx:30-37 | the filtered list is a subsequence holding exactly the tweets that pass both the status filter and the search |
| ModeratorPanel.StatusFilterSpec | src/components/ModeratorPanel.tsx:31 | "all" excludes nothing by status; any other filter keeps exactly the tweets whose status is the filter |
| ModeratorPanel.SearchSpec | src/components/ModeratorPanel.tsx:32-35 | a tweet passes exactly when the lower-cased query occurs in its lower-cased content, username or name |
| ModeratorPanel.EmptyQueryPassesAll | src/components/ModeratorPanel.tsx:32-35 | the empty query passes every tweet |
| ModeratorPanel.NoFilterNoQuery | src/components/ModeratorPanel.tsx:30-37 | with filter "all" and the empty query the view is the whole input |
| ModeratorPanel.SortedIsPermutation | src/components/ModeratorPanel.tsx:40 | the sorted list is a permutation of the filtered list |
| ModeratorPanel.NewestOrder | src/components/ModeratorPanel.tsx:41-42 | newest first: timestamps never increase |
| ModeratorPanel.OldestOrder | src/components/ModeratorPanel.tsx:43-44 | oldest first: timestamps never decrease |
| ModeratorPanel.SelectNegated | src/components/ModeratorPanel.tsx:44 | the tweets of one timestamp are the same under the ascending and the descending key |
| ModeratorPanel.SortIsStable | src/components/ModeratorPanel.tsx:40-46 | in both orders, tweets with equal timestamps keep their filtered order |
| Classifiers.AgreeOnLowerCase | src/lib/moderationService.ts:26-44 | on lower-case content without "terrible", the store's status is the analysis decision |
| Classifiers.UpperCaseThreat | src/lib/llmService.ts:85-87 | "KILL" is rejected by the analysis but approved by the store |
| Classifiers.TerribleOnlyInStore | src/lib/moderationService.ts:26-28 | on lower-case content whose only keyword is "terrible", the analysis approves and the store flags |
| Classifiers.NoOtherKeyword | src/lib/moderationService.ts:26-35 | content without d, h and k has no classifier keyword except possibly "terrible" |
| Classifiers.TerribleHasNoOtherKeyword | src/lib/moderationService.ts:26-35 | "terrible" meets all six conditions of TerribleOnlyInStore: it is lower case, contains "terrible" and contains none of the other keywords |
| Classifiers.LowerContainsSelf | src/lib/llmService.ts:79 | content without upper-case letters is its own lower-casing and contains itself |
| Classifiers.TerribleLacksLetters | src/lib/moderationService.ts:26-35 | "terrible" contains none of the keywords other than "terrible" |
| Classifiers.TerribleDisagrees | src/lib/moderationService.ts:26-44 | the post "terrible" is approved by the analysis and flagged by the store |

## Left out

- `setTimeout` delays in the analysis and the store are presentation latency. Every operation is modelled as immediate, and the `Promise` wrappers are dropped. A rejected promise is an `Err` result.
- `Date.now()` and `new Date()`, used for a new tweet's id and timestamp, are the `nowMillis` and `timestamp` parameters of `ProcessTweet`. The ISO timestamp strings are epoch milliseconds, and date parsing is not modelled.
- `subscribe` and `notifyListeners` are callback closures with no effect on the store's contents, so they are not modelled.
- `twitterApiService.ts` (localStorage, logging and a timer-faked connection), `openaiService.ts` (a stub) and the training store, model loading and CSV import are not part of this model.
- Rendering is not modelled: `Index`, `StatisticsPanel`, `TweetCard` and the other view components, TweetCard's colour thresholds and the action-to-status mapping. Only the dashboard total they compute from the store is modelled, in `Moderation.DashboardTotal`.
- Floating-point arithmetic is replaced by integer hundredths and fifths. `Math.round(relevance * 100)` is exact on the stored values, which are whole hundredths.
- Unicode case folding: lower-casing only maps A–Z. The seed's non-ASCII characters are kept as code points.
- `avgResponseTime` and `responseRate` of the mock statistics are kept as data; nothing is stated about them.
- `LlmService.CategoryScoresInRange`: stated over the category list the analysis reports (`Categories`), which `LlmService.Analyze` returns unchanged.
- `RagService.PrintedRelevanceIsZero`: stated for any catalogue whose stored relevances are 0; `RagService.ContextPrintsZero` is the ten-entry instance.
- `Classifiers.TerribleOnlyInStore`: stated for any content meeting its conditions; `Classifiers.TerribleHasNoOtherKeyword` shows that "terrible" meets them, and `Classifiers.TerribleDisagrees` is that instance.
