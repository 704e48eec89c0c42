/** The keyword-overlap relevance that both policy retrievers compute
    (src/lib/llmService.ts:53-65 and src/lib/ragService.ts:10-23): 0.2 per
    keyword of the policy that occurs in the text, compared case-insensitively,
    capped at 1. The model counts in fifths: relevance k stands for k * 0.2, so
    the cap 1 is 5. JavaScript's accumulated sums of 0.2 grow strictly with the
    number of matches, so the `> 0` filter, the cap and every comparison of the
    sort agree with the fifths. */
module Relevance {
  import opened Text

  /** The number of keywords (counted with repetition, as `reduce` does) that
      occur in the text, ignoring ASCII case. */
  function MatchCount(keywords: seq<string>, text: string): (n: nat)
    ensures n <= |keywords|
  {
    if keywords == [] then 0
    else
      (if ContainsIgnoreCase(text, keywords[0]) then 1 else 0) + MatchCount(keywords[1..], text)
  }

  /** `Math.min(score, 1)`, in fifths. */
  function Capped(n: nat): nat
  {
    if n < 5 then n else 5
  }

  /** The relevance of a keyword list for a text, in fifths. */
  function KeywordRelevance(keywords: seq<string>, text: string): (r: nat)
    ensures r <= 5 && r <= |keywords|
    ensures r == 5 <==> MatchCount(keywords, text) >= 5
  {
    Capped(MatchCount(keywords, text))
  }

  /** The relevance is positive exactly when some keyword occurs in the text. */
  lemma {:induction false} RelevancePositive(keywords: seq<string>, text: string)
    ensures KeywordRelevance(keywords, text) > 0
            <==> exists k :: k in keywords && ContainsIgnoreCase(text, k)
  {
    if keywords != [] {
      RelevancePositive(keywords[1..], text);
      assert forall k :: k in keywords ==> k == keywords[0] || k in keywords[1..];
    }
  }

  /** Every keyword matching gives the full count of matches. */
  lemma {:induction false} AllMatch(keywords: seq<string>, text: string)
    requires forall k :: k in keywords ==> ContainsIgnoreCase(text, k)
    ensures MatchCount(keywords, text) == |keywords|
  {
    if keywords != [] {
      AllMatch(keywords[1..], text);
    }
  }

  /** With at least five keywords, the cap 1 (five fifths) is reachable: the
      text made of the keywords themselves reaches it. */
  lemma {:induction false} CapReachable(keywords: seq<string>)
    requires |keywords| >= 5
    ensures KeywordRelevance(keywords, Concat(keywords)) == 5
  {
    forall k | k in keywords ensures ContainsIgnoreCase(Concat(keywords), k) {
      ConcatContains(keywords, k);
    }
    AllMatch(keywords, Concat(keywords));
  }

  /** All keywords written one after the other. */
  function Concat(keywords: seq<string>): string
  {
    if keywords == [] then "" else keywords[0] + Concat(keywords[1..])
  }

  lemma {:induction false} ConcatContains(keywords: seq<string>, k: string)
    requires k in keywords
    ensures ContainsIgnoreCase(Concat(keywords), k)
  {
    var a, b := Lower(keywords[0]), Lower(Concat(keywords[1..]));
    LowerConcat(keywords[0], Concat(keywords[1..]));
    assert Lower(Concat(keywords)) == a + b;
    if k == keywords[0] {
      ContainsSelf(a);
      ContainsInLeft(a, b, a);
    } else {
      ConcatContains(keywords[1..], k);
      ContainsInRight(a, b, Lower(k));
    }
  }

  /** Lower-casing the text first does not change the relevance. */
  lemma {:induction false} RelevanceOfLower(keywords: seq<string>, text: string)
    ensures MatchCount(keywords, Lower(text)) == MatchCount(keywords, text)
  {
    if keywords != [] {
      ContainsIgnoreCaseOfLower(text, keywords[0]);
      RelevanceOfLower(keywords[1..], text);
    }
  }
}
