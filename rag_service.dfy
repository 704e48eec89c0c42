/** The retrieval service of src/lib/ragService.ts over the ten-entry
    catalogue: ranked policy context as text, and keyword-bucket topic
    detection. Both methods are `async` in the source but do no I/O; they are
    modelled as immediate. */
module RagService {
  import opened Text
  import opened Ranking
  import opened Relevance
  import opened KnowledgeBase

  // ---------------------------------------------------------------------------
  // getRelevantContext (src/lib/ragService.ts:6-37)

  /** A catalogue entry with its computed relevance, in fifths. */
  datatype RankedPolicy = RankedPolicy(policy: Policy, relevance: int)

  function Rank(p: Policy, text: string): RankedPolicy
  {
    RankedPolicy(p, KeywordRelevance(p.keywords, text))
  }

  /** `policyKnowledgeBase.map(...)`, in catalogue order. */
  function RankAll(ps: seq<Policy>, text: string): (r: seq<RankedPolicy>)
    ensures |r| == |ps|
    ensures forall i :: 0 <= i < |ps| ==> r[i] == Rank(ps[i], text)
  {
    if ps == [] then [] else [Rank(ps[0], text)] + RankAll(ps[1..], text)
  }

  function RankRelevance(item: RankedPolicy): int { item.relevance }

  predicate IsRelevant(item: RankedPolicy) { item.relevance > 0 }

  /** The number of policies that are included. */
  const Limit: nat := 3

  /** The policies that are all ranked before truncation. */
  function Ranked(ps: seq<Policy>, text: string): seq<RankedPolicy>
  {
    SortDesc(Filter(RankAll(ps, text), IsRelevant), RankRelevance)
  }

  /** Map, keep positive relevance, stable sort by descending relevance, keep
      the first three. */
  function TopPolicies(ps: seq<Policy>, text: string): seq<RankedPolicy>
  {
    Take(Ranked(ps, text), Limit)
  }

  const NoPolicyMessage: string := "No specific policy guidelines " + "found for this content."

  /** One block of the context. The percentage is `Math.round(relevance * 100)`
      of the catalogue entry's STORED relevance (its hundredths), not of the
      computed one. */
  function FormatPolicy(item: RankedPolicy): string
  {
    "Policy: " + item.policy.name
    + "\nDescription: " + item.policy.description
    + "\nRelevance: " + IntToDecimal(item.policy.relevance) + "%"
  }

  function FormatAll(items: seq<RankedPolicy>): (r: seq<string>)
    ensures |r| == |items|
    ensures forall i :: 0 <= i < |items| ==> r[i] == FormatPolicy(items[i])
  {
    if items == [] then [] else [FormatPolicy(items[0])] + FormatAll(items[1..])
  }

  /** `parts.join(sep)`. */
  function Join(parts: seq<string>, sep: string): string
  {
    if parts == [] then ""
    else if |parts| == 1 then parts[0]
    else parts[0] + sep + Join(parts[1..], sep)
  }

  function ContextFrom(ps: seq<Policy>, text: string): string
  {
    var top := TopPolicies(ps, text);
    if |top| == 0 then NoPolicyMessage else Join(FormatAll(top), "\n\n")
  }

  /** `getRelevantContext(text)`. */
  function GetRelevantContext(text: string): string
  {
    ContextFrom(Catalogue, text)
  }

  // ---------------------------------------------------------------------------
  // Properties of the context, for any catalogue

  /** Some keyword of some entry occurs in the text. */
  ghost predicate AnyPolicyMatches(ps: seq<Policy>, text: string)
  {
    exists i, k :: 0 <= i < |ps| && k in ps[i].keywords && ContainsIgnoreCase(text, k)
  }

  lemma RankedMembers(ps: seq<Policy>, text: string)
    ensures forall x :: x in Ranked(ps, text) ==> x in RankAll(ps, text) && x.relevance > 0
    ensures forall i :: 0 <= i < |ps| && Rank(ps[i], text).relevance > 0 ==> Rank(ps[i], text) in Ranked(ps, text)
    ensures SortedDesc(Ranked(ps, text), RankRelevance)
  {
    var kept := Filter(RankAll(ps, text), IsRelevant);
    SortDescMembers(kept, RankRelevance);
    SortDescProps(kept, RankRelevance);
  }

  /** At most three policies are included, fewer only when fewer are relevant;
      each is a catalogue entry with its computed relevance, which is
      positive. */
  lemma TopPoliciesAreRelevant(ps: seq<Policy>, text: string)
    ensures |TopPolicies(ps, text)| <= Limit
    ensures |TopPolicies(ps, text)| < Limit ==> TopPolicies(ps, text) == Ranked(ps, text)
    ensures forall x :: x in TopPolicies(ps, text) ==>
      x.relevance > 0 && exists i :: 0 <= i < |ps| && x == Rank(ps[i], text)
  {
    RankedMembers(ps, text);
    var top := TopPolicies(ps, text);
    forall x | x in top
      ensures x.relevance > 0 && exists i :: 0 <= i < |ps| && x == Rank(ps[i], text)
    {
      var j :| 0 <= j < |top| && top[j] == x;
      assert x in Ranked(ps, text);
      var r := RankAll(ps, text);
      var i :| 0 <= i < |r| && r[i] == x;
    }
  }

  /** The included policies are the most relevant ones: a relevant entry that
      is left out is no more relevant than any included one. */
  lemma TopPoliciesAreHighest(ps: seq<Policy>, text: string)
    ensures forall i, j ::
      (0 <= i < |TopPolicies(ps, text)| && 0 <= j < |ps|
       && Rank(ps[j], text).relevance > 0 && Rank(ps[j], text) !in TopPolicies(ps, text))
      ==> Rank(ps[j], text).relevance <= TopPolicies(ps, text)[i].relevance
  {
    RankedMembers(ps, text);
    var s := Ranked(ps, text);
    var top := TopPolicies(ps, text);
    var rest := s[|top|..];
    forall i, j | 0 <= i < |top| && 0 <= j < |ps|
      && Rank(ps[j], text).relevance > 0 && Rank(ps[j], text) !in top
      ensures Rank(ps[j], text).relevance <= top[i].relevance
    {
      var y := Rank(ps[j], text);
      assert y in top + rest;
      var m :| 0 <= m < |rest| && rest[m] == y;
      assert s[|top| + m] == y;
      assert top[i] == s[i];
    }
  }

  /** Included policies are in non-increasing relevance; within one relevance
      value they are the first entries of that value in catalogue order. */
  lemma TopPoliciesOrder(ps: seq<Policy>, text: string)
    ensures SortedDesc(TopPolicies(ps, text), RankRelevance)
    ensures forall v :: v > 0 ==> IsPrefix(Select(TopPolicies(ps, text), RankRelevance, v),
                                          Select(RankAll(ps, text), RankRelevance, v))
  {
    var all := RankAll(ps, text);
    var kept := Filter(all, IsRelevant);
    var s := Ranked(ps, text);
    SortDescProps(kept, RankRelevance);
    var top := TopPolicies(ps, text);
    forall v | v > 0
      ensures IsPrefix(Select(top, RankRelevance, v), Select(all, RankRelevance, v))
    {
      SelectOfPositive(all, IsRelevant, RankRelevance, v);
      var rest := s[|top|..];
      assert s == top + rest;
      SelectConcat(top, rest, RankRelevance, v);
    }
  }

  /** Nothing is included exactly when no keyword of any entry occurs. */
  lemma TopPoliciesEmpty(ps: seq<Policy>, text: string)
    ensures |TopPolicies(ps, text)| == 0 <==> !AnyPolicyMatches(ps, text)
  {
    RankedMembers(ps, text);
    forall i | 0 <= i < |ps| {
      RelevancePositive(ps[i].keywords, text);
    }
    if |TopPolicies(ps, text)| == 0 {
      assert Ranked(ps, text) == [];
    } else {
      var x := Ranked(ps, text)[0];
      var r := RankAll(ps, text);
      var i :| 0 <= i < |r| && r[i] == x;
      assert Rank(ps[i], text).relevance > 0;
    }
  }

  /** When no keyword occurs, the context is the fixed sentence; otherwise it is
      the blocks of the included policies joined by blank lines, starting with
      the first block, so it never equals the fixed sentence. */
  lemma ContextShape(ps: seq<Policy>, text: string)
    ensures !AnyPolicyMatches(ps, text) ==> ContextFrom(ps, text) == NoPolicyMessage
    ensures AnyPolicyMatches(ps, text) ==> 1 <= |TopPolicies(ps, text)| <= Limit
    ensures AnyPolicyMatches(ps, text) ==> ContextFrom(ps, text) == Join(FormatAll(TopPolicies(ps, text)), "\n\n")
    ensures AnyPolicyMatches(ps, text) ==>
      IsPrefix("Policy: " + TopPolicies(ps, text)[0].policy.name, ContextFrom(ps, text))
    ensures AnyPolicyMatches(ps, text) ==> ContextFrom(ps, text) != NoPolicyMessage
  {
    TopPoliciesEmpty(ps, text);
    TopPoliciesAreRelevant(ps, text);
    var top := TopPolicies(ps, text);
    if AnyPolicyMatches(ps, text) {
      var parts := FormatAll(top);
      JoinStartsWith(parts, "\n\n");
      FormatPolicyStart(top[0]);
      PrefixTrans("Policy: " + top[0].policy.name, parts[0], Join(parts, "\n\n"));
      NotFixedSentence(top[0].policy.name, ContextFrom(ps, text));
    }
  }

  /** A block starts with "Policy: " and the policy's name. */
  lemma FormatPolicyStart(item: RankedPolicy)
    ensures IsPrefix("Policy: " + item.policy.name, FormatPolicy(item))
  {
    var head := "Policy: " + item.policy.name;
    var f := FormatPolicy(item);
    assert f == head + (f[|head|..]);
  }

  lemma PrefixTrans(a: string, b: string, c: string)
    requires IsPrefix(a, b) && IsPrefix(b, c)
    ensures IsPrefix(a, c)
  {
    assert c[..|a|] == b[..|b|][..|a|];
  }

  lemma NotFixedSentence(name: string, c: string)
    requires IsPrefix("Policy: " + name, c)
    ensures c != NoPolicyMessage
  {
    assert c[0] == 'P';
    assert NoPolicyMessage[0] == 'N';
  }

  lemma {:induction false} JoinStartsWith(parts: seq<string>, sep: string)
    requires |parts| >= 1
    ensures IsPrefix(parts[0], Join(parts, sep))
  {
    if |parts| > 1 {
      var j := Join(parts, sep);
      assert j == parts[0] + (sep + Join(parts[1..], sep));
      assert j[..|parts[0]|] == parts[0];
    }
  }

  /** Appending a part to a non-empty list appends the separator and that
      part to the joined text. */
  lemma {:induction false} JoinSnoc(parts: seq<string>, p: string, sep: string)
    requires |parts| >= 1
    ensures Join(parts + [p], sep) == Join(parts, sep) + sep + p
    decreases |parts|
  {
    if |parts| > 1 {
      assert (parts + [p])[1..] == parts[1..] + [p];
      JoinSnoc(parts[1..], p, sep);
    } else {
      assert (parts + [p])[1..] == [p];
    }
  }

  /** The joined text is as long as all parts together plus one separator
      between each pair of neighbours: nothing is dropped or added. */
  lemma {:induction false} JoinLength(parts: seq<string>, sep: string)
    requires |parts| >= 1
    ensures |Join(parts, sep)| == PartsLength(parts) + (|parts| - 1) * |sep|
    decreases |parts|
  {
    if |parts| > 1 {
      JoinLength(parts[1..], sep);
    }
  }

  /** Total length of the parts. */
  function PartsLength(parts: seq<string>): nat
  {
    if parts == [] then 0 else |parts[0]| + PartsLength(parts[1..])
  }

  // ---------------------------------------------------------------------------
  // Properties over the ten-entry catalogue

  /** In a catalogue whose stored relevances are all 0, as they are in the
      ten-entry one, every block the service prints says "Relevance: 0%". */
  lemma PrintedRelevanceIsZero(ps: seq<Policy>, text: string)
    requires forall p :: p in ps ==> p.relevance == 0
    ensures forall x :: x in TopPolicies(ps, text) ==>
      FormatPolicy(x) == "Policy: " + x.policy.name + "\nDescription: " + x.policy.description + "\nRelevance: 0%"
  {
    TopPoliciesAreRelevant(ps, text);
    assert IntToDecimal(0) == "0";
  }

  /** The ten-entry catalogue meets that condition. */
  lemma ContextPrintsZero(text: string)
    ensures forall x :: x in TopPolicies(Catalogue, text) ==>
      FormatPolicy(x) == "Policy: " + x.policy.name + "\nDescription: " + x.policy.description + "\nRelevance: 0%"
  {
    StoredRelevanceIsZero();
    PrintedRelevanceIsZero(Catalogue, text);
  }

  /** A single word can raise several policies: "hate" makes both policy-1 and
      policy-2 relevant. */
  lemma SharedKeywordRaisesTwo(text: string)
    requires ContainsIgnoreCase(text, "hate")
    ensures Rank(Catalogue[0], text) in Ranked(Catalogue, text)
    ensures Rank(Catalogue[1], text) in Ranked(Catalogue, text)
  {
    RankedMembers(Catalogue, text);
    RelevancePositive(Catalogue[0].keywords, text);
    RelevancePositive(Catalogue[1].keywords, text);
  }

  // ---------------------------------------------------------------------------
  // detectTopics (src/lib/ragService.ts:39-60)

  /** The topic map, in insertion order. */
  const TopicKeywords: seq<(string, seq<string>)> := [
    ("Politics", ["politic", "government", "election", "democrat", "republican", "congress", "senate"]),
    ("Technology", ["tech", "computer", "software", "hardware", "programming", "ai", "algorithm"]),
    ("Entertainment", ["movie", "film", "music", "celebrity", "actor", "actress", "hollywood"]),
    ("Sports", ["sport", "game", "team", "player", "championship", "league", "score"]),
    ("Health", ["health", "medical", "doctor", "disease", "patient", "hospital", "treatment"]),
    ("Finance", ["finance", "money", "bank", "investment", "stock", "market", "economy"])
  ]

  const TopicNames: seq<string> := ["Politics", "Technology", "Entertainment", "Sports", "Health", "Finance"]

  /** `keywords.some(k => text.toLowerCase().includes(k.toLowerCase()))`. */
  function AnyKeyword(keywords: seq<string>, text: string): bool
  {
    if keywords == [] then false
    else ContainsIgnoreCase(text, keywords[0]) || AnyKeyword(keywords[1..], text)
  }

  lemma {:induction false} AnyKeywordIff(keywords: seq<string>, text: string)
    ensures AnyKeyword(keywords, text) <==> exists k :: k in keywords && ContainsIgnoreCase(text, k)
  {
    if keywords != [] {
      AnyKeywordIff(keywords[1..], text);
      assert forall k :: k in keywords ==> k == keywords[0] || k in keywords[1..];
    }
  }

  /** The topics of a table whose keyword lists match, in table order. */
  function TopicsOf(table: seq<(string, seq<string>)>, text: string): seq<string>
  {
    if table == [] then []
    else (if AnyKeyword(table[0].1, text) then [table[0].0] else []) + TopicsOf(table[1..], text)
  }

  function Names(table: seq<(string, seq<string>)>): seq<string>
  {
    if table == [] then [] else [table[0].0] + Names(table[1..])
  }

  lemma {:induction false} TopicsOfSnoc(table: seq<(string, seq<string>)>, e: (string, seq<string>), text: string)
    ensures TopicsOf(table + [e], text) == TopicsOf(table, text) + (if AnyKeyword(e.1, text) then [e.0] else [])
  {
    if table == [] {
      assert [] + [e] == [e];
    } else {
      assert (table + [e])[1..] == table[1..] + [e];
      TopicsOfSnoc(table[1..], e, text);
    }
  }

  /** `detectTopics(text)`: walks the topic map and pushes every topic one of
      whose keywords occurs in the text. */
  method DetectTopics(text: string) returns (topics: seq<string>)
    ensures topics == TopicsOf(TopicKeywords, text)
  {
    topics := CollectTopics(TopicKeywords, text);
  }

  /** The loop of `detectTopics` over the entries of a topic map. */
  method CollectTopics(table: seq<(string, seq<string>)>, text: string) returns (topics: seq<string>)
    ensures topics == TopicsOf(table, text)
  {
    topics := [];
    var i := 0;
    while i < |table|
      invariant 0 <= i <= |table|
      invariant topics == TopicsOf(table[..i], text)
    {
      var (topic, keywords) := table[i];
      TopicsOfSnoc(table[..i], table[i], text);
      assert table[..i + 1] == table[..i] + [table[i]];
      if AnyKeyword(keywords, text) {
        topics := topics + [topic];
      }
      i := i + 1;
    }
    assert table[..i] == table;
  }

  lemma {:induction false} TopicsOfSubseq(table: seq<(string, seq<string>)>, text: string)
    ensures IsSubseq(TopicsOf(table, text), Names(table))
  {
    if table != [] {
      TopicsOfSubseq(table[1..], text);
      var rest := TopicsOf(table[1..], text);
      if AnyKeyword(table[0].1, text) {
        assert ([table[0].0] + rest)[1..] == rest;
      } else {
        assert TopicsOf(table, text) == rest;
        SubseqOfTail(rest, Names(table));
      }
    }
  }

  /** A topic of the table is detected exactly when one of its keywords
      occurs in the text, provided names are distinct. */
  lemma {:induction false} TopicsOfMembers(table: seq<(string, seq<string>)>, text: string, i: nat)
    requires i < |table|
    requires NoDuplicates(Names(table))
    ensures table[i].0 in TopicsOf(table, text) <==> AnyKeyword(table[i].1, text)
  {
    NamesAt(table);
    TopicsOfSubseq(table[1..], text);
    SubseqMembers(TopicsOf(table[1..], text), Names(table[1..]));
    assert Names(table)[1..] == Names(table[1..]);
    if i > 0 {
      assert NoDuplicates(Names(table[1..]));
      TopicsOfMembers(table[1..], text, i - 1);
      assert Names(table)[0] != Names(table)[i];
    } else {
      assert forall j :: 0 <= j < |Names(table[1..])| ==> Names(table)[j + 1] == Names(table[1..])[j];
      assert table[0].0 !in Names(table[1..]);
    }
  }

  lemma {:induction false} NamesAt(table: seq<(string, seq<string>)>)
    ensures |Names(table)| == |table|
    ensures forall i :: 0 <= i < |table| ==> Names(table)[i] == table[i].0
  {
    if table != [] {
      NamesAt(table[1..]);
    }
  }

  /** For a topic map with distinct names, the detected topics are a
      duplicate-free subsequence of the names, in map order, and a topic is
      included exactly when one of its keywords is a case-insensitive
      substring of the text. */
  lemma TopicsOfSpec(table: seq<(string, seq<string>)>, text: string)
    requires NoDuplicates(Names(table))
    ensures IsSubseq(TopicsOf(table, text), Names(table))
    ensures NoDuplicates(TopicsOf(table, text))
    ensures forall i :: 0 <= i < |table| ==>
      (table[i].0 in TopicsOf(table, text)
       <==> exists k :: k in table[i].1 && ContainsIgnoreCase(text, k))
  {
    TopicsOfSubseq(table, text);
    SubseqNoDuplicates(TopicsOf(table, text), Names(table));
    forall i | 0 <= i < |table|
      ensures table[i].0 in TopicsOf(table, text)
              <==> exists k :: k in table[i].1 && ContainsIgnoreCase(text, k)
    {
      TopicsOfMembers(table, text, i);
      AnyKeywordIff(table[i].1, text);
    }
  }

  /** The source's map has the six names Politics, Technology, Entertainment,
      Sports, Health, Finance, in that order, and they are distinct. */
  lemma TopicTableNames()
    ensures Names(TopicKeywords) == TopicNames
    ensures NoDuplicates(TopicNames)
  {
    NamesAt(TopicKeywords);
  }

  /** The detected topics are a duplicate-free subsequence of Politics,
      Technology, Entertainment, Sports, Health, Finance. */
  lemma DetectTopicsSpec(text: string)
    ensures IsSubseq(TopicsOf(TopicKeywords, text), TopicNames)
    ensures NoDuplicates(TopicsOf(TopicKeywords, text))
  {
    TopicTableNames();
    TopicsOfSpec(TopicKeywords, text);
  }

  /** Matching is on substrings, not words: "ai" inside any word, as in
      "said", makes the text a Technology text. */
  lemma SubstringNotWord(text: string)
    requires Contains(Lower(text), "ai")
    ensures "Technology" in TopicsOf(TopicKeywords, text)
  {
    assert "ai" in TopicKeywords[1].1 && Lower("ai") == "ai";
    TopicTableNames();
    TopicsOfSpec(TopicKeywords, text);
  }
}
