/** The analysis service and the moderation store classify content with two
    different keyword rules: the analysis service lower-cases the content
    (src/lib/llmService.ts:79-87), the store does not and also counts
    "terrible" as negative (src/lib/moderationService.ts:26-35). */
module Classifiers {
  import opened Text
  import LlmService
  import Moderation
  import MockData

  /** The store status that corresponds to an analysis decision. */
  function StatusOf(d: LlmService.Decision): MockData.Status
  {
    match d
    case Approved => MockData.Approved
    case Flagged => MockData.Flagged
    case Rejected => MockData.Rejected
  }

  /** On content that is already lower-case and does not contain "terrible"
      the two rules agree. */
  lemma AgreeOnLowerCase(content: string)
    requires Lower(content) == content
    requires !Contains(content, "terrible")
    ensures StatusOf(LlmService.DecisionOf(content)) == Moderation.ClassifyStatus(content)
  {
  }

  /** An upper-case threat is rejected by the analysis service but approved by
      the store. */
  lemma UpperCaseThreat()
    ensures LlmService.DecisionOf("KILL") == LlmService.Rejected
    ensures Moderation.ClassifyStatus("KILL") == MockData.Approved
  {
    assert Lower("KILL") == "kill";
    ContainsSelf("kill");
  }

  /** On lower-case content whose only keyword is "terrible", the analysis
      service approves and the store flags. */
  lemma TerribleOnlyInStore(content: string)
    requires Lower(content) == content
    requires Contains(content, "terrible")
    requires !Contains(content, "bad") && !Contains(content, "hate")
    requires !Moderation.ContainsProfanity(content) && !Moderation.ContainsThreat(content)
    ensures LlmService.DecisionOf(content) == LlmService.Approved
    ensures Moderation.ClassifyStatus(content) == MockData.Flagged
  {
  }

  /** Content without the letters d, h and k has none of the keywords
      except possibly "terrible". */
  lemma NoOtherKeyword(s: string)
    requires 'd' !in s && 'h' !in s && 'k' !in s
    ensures !Contains(s, "bad") && !Contains(s, "hate")
    ensures !Moderation.ContainsProfanity(s) && !Moderation.ContainsThreat(s)
  {
    MissingChar(s, "bad", 2);
    MissingChar(s, "hate", 0);
    MissingChar(s, "damn", 0);
    MissingChar(s, "hell", 0);
    MissingChar(s, "kill", 0);
    MissingChar(s, "destroy", 0);
    MissingChar(s, "hurt", 0);
  }

  /** Such content exists: "terrible" is already lower case, contains
      "terrible" and none of the other keywords. */
  lemma TerribleHasNoOtherKeyword()
    ensures Lower("terrible") == "terrible"
    ensures Contains("terrible", "terrible")
    ensures !Contains("terrible", "bad") && !Contains("terrible", "hate")
    ensures !Moderation.ContainsProfanity("terrible") && !Moderation.ContainsThreat("terrible")
  {
    LowerContainsSelf("terrible");
    TerribleLacksLetters("terrible");
  }

  /** "terrible" has none of the letters d, h and k, so none of the other
      keywords. The string is a parameter fixed by the requires, rather than
      the literal itself, only so that the verifier reasons about a variable
      and does not unfold every search over the literal: proved directly on
      "terrible", the same facts exceed the verifier's resource budget. */
  lemma TerribleLacksLetters(s: string)
    requires s == "terrible"
    ensures !Contains(s, "bad") && !Contains(s, "hate")
    ensures !Moderation.ContainsProfanity(s) && !Moderation.ContainsThreat(s)
  {
    NoOtherKeyword(s);
  }

  /** Content without upper-case letters is its own lower-casing and
      contains itself. */
  lemma LowerContainsSelf(s: string)
    requires forall i :: 0 <= i < |s| ==> !('A' <= s[i] <= 'Z')
    ensures Lower(s) == s && Contains(s, s)
  {
    ContainsSelf(s);
  }

  /** The post "terrible" is approved by the analysis and flagged by the
      moderation store. */
  lemma TerribleDisagrees()
    ensures LlmService.DecisionOf("terrible") == LlmService.Approved
    ensures Moderation.ClassifyStatus("terrible") == MockData.Flagged
  {
    TerribleHasNoOtherKeyword();
    TerribleOnlyInStore("terrible");
  }
}
