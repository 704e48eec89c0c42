/** The expanded policy catalogue the retrieval service ranks over
    (src/lib/knowledgeBase.ts). Pure data. */
module KnowledgeBase {
  import opened Text

  /** One catalogue entry. `relevance` is the entry's own stored relevance in
      hundredths (the source's number times 100); the source stores 0 for
      every entry and never updates it. */
  datatype Policy = Policy(
    id: string,
    name: string,
    description: string,
    keywords: seq<string>,
    relevance: int,
    examples: seq<string>)

  const Description1: string :=
    "Content targeting individuals with intent to harm, bully, or belittle is not allowed. This "
    + "includes repeated unwanted communications, threats, or content that creates a hostile environment for others."
  const Examples1: seq<string> := [
    "Repeated unwanted mentions or replies",
    "Name-calling or personal attacks",
    "Encouraging others to harass someone"]
  const Entry1: Policy := Policy(
    "policy-1", "Harassment Policy", Description1,
    ["harass", "bully", "attack", "insult", "hate", "target", "mock", "ridicule", "hostile"],
    0, Examples1)

  const Description2: string :=
    "Content promoting hatred, violence or discrimination against protected groups based on attributes "
    + "such as race, ethnicity, gender, religion, sexual orientation, or disability is prohibited."
  const Examples2: seq<string> := [
    "Using derogatory terms for specific groups",
    "Promoting stereotypes that dehumanize groups",
    "Calling for violence against protected categories"]
  const Entry2: Policy := Policy(
    "policy-2", "Hate Speech Policy", Description2,
    ["hate", "racist", "sexist", "bigot", "discriminate", "slur", "stereotype", "intolerant"],
    0, Examples2)

  const Description3: string :=
    "Excessive or targeted profanity that creates a hostile environment is moderated. While occasional mild profanity "
    + "is permitted, content that uses profanity excessively or specifically to attack others may be flagged."
  const Examples3: seq<string> := [
    "Excessive use of profanity in a single post",
    "Using profanity specifically to insult others",
    "Bypassing filters with alternate spellings of profane words"]
  const Entry3: Policy := Policy(
    "policy-3", "Profanity Policy", Description3,
    ["damn", "hell", "profanity", "swear", "curse", "f-word", "obscene", "vulgar"],
    0, Examples3)

  const Description4: string :=
    "Direct or indirect threats of violence are strictly prohibited. This includes content that expresses a wish "
    + "for harm to come to individuals or groups, or content that describes specific violent acts against others."
  const Examples4: seq<string> := [
    "Threatening physical harm to individuals or groups",
    "Wishing death or injury on others",
    "Describing plans for violent acts"]
  const Entry4: Policy := Policy(
    "policy-4", "Threat Policy", Description4,
    ["kill", "hurt", "destroy", "threat", "violence", "attack", "harm", "bomb", "shoot", "murder", "die"],
    0, Examples4)

  const Description5: string :=
    "Content that deliberately spreads false information that could cause harm is "
    + "prohibited. This includes health misinformation, election misinformation, or false information during crises."
  const Examples5: seq<string> := [
    "Spreading known medical falsehoods that could cause harm",
    "Deliberately misrepresenting election processes",
    "Sharing manipulated media presented as authentic"]
  const Entry5: Policy := Policy(
    "policy-5", "Misinformation Policy", Description5,
    ["fake", "lie", "untrue", "conspiracy", "hoax", "false", "mislead", "disinformation", "propaganda"],
    0, Examples5)

  const Description6: string :=
    "Content that promotes, encourages, or glorifies self-harm or suicide is "
    + "prohibited. This includes detailed descriptions, instructions, or encouragement of self-harming behaviors."
  const Examples6: seq<string> := [
    "Encouraging self-harming behaviors",
    "Providing instructions for suicidal actions",
    "Glorifying or romanticizing suicide"]
  const Entry6: Policy := Policy(
    "policy-6", "Self-Harm & Suicide Policy", Description6,
    ["suicide", "self-harm", "kill myself", "cutting", "anorexia", "eating disorder", "end my life"],
    0, Examples6)

  const Description7: string :=
    "Content that sexualizes minors, exploits children, or puts children at risk is strictly prohibited and "
    + "will be reported to authorities. This includes sexualized comments about minors and content that endangers children."
  const Examples7: seq<string> := [
    "Sexualized content involving minors",
    "Sharing personal information of minors",
    "Content that endangers the wellbeing of children"]
  const Entry7: Policy := Policy(
    "policy-7", "Child Safety Policy", Description7,
    ["child", "minor", "underage", "kid", "teen", "exploitation", "abuse", "pedophilia"],
    0, Examples7)

  const Description8: string :=
    "Sharing someone's private information without consent is prohibited. This includes doxxing, "
    + "unauthorized sharing of personal photos, or revealing private conversations without permission."
  const Examples8: seq<string> := [
    "Sharing someone's home address or phone number",
    "Posting screenshots of private conversations",
    "Sharing non-public personal information"]
  const Entry8: Policy := Policy(
    "policy-8", "Privacy Violation Policy", Description8,
    ["dox", "private", "personal", "address", "phone", "email", "leak", "expose", "privacy"],
    0, Examples8)

  const Description9: string :=
    "Excessively graphic, gory, or disturbing content must be properly labeled. Extremely graphic content "
    + "showing gratuitous violence, severe injuries, or death may be removed even with proper warnings."
  const Examples9: seq<string> := [
    "Extremely graphic injury or death images",
    "Gratuitous violence for shock value",
    "Unlabeled disturbing content"]
  const Entry9: Policy := Policy(
    "policy-9", "Graphic Content Policy", Description9,
    ["graphic", "gore", "blood", "injury", "death", "disturbing", "violent", "gruesome"],
    0, Examples9)

  const Description10: string :=
    "Content that manipulates the platform through inauthentic interactions, excessive posting, or "
    + "coordinated campaigns is prohibited. This includes artificially boosting engagement and spam."
  const Examples10: seq<string> := [
    "Posting the same content repeatedly",
    "Using bots to artificially boost engagement",
    "Coordinated harassment campaigns"]
  const Entry10: Policy := Policy(
    "policy-10", "Spam & Manipulation Policy", Description10,
    ["spam", "bot", "fake account", "artificial", "engagement", "manipulation", "coordinated", "amplification"],
    0, Examples10)

  const Catalogue: seq<Policy> := [
    Entry1, Entry2, Entry3, Entry4, Entry5, Entry6, Entry7, Entry8, Entry9, Entry10]

  /** "policy-" followed by the entry's 1-based position. */
  function PolicyId(k: nat): string
  {
    "policy-" + IntToDecimal(k)
  }

  // ---------------------------------------------------------------------------
  // Facts about the catalogue

  /** Distinct positions give distinct ids. */
  lemma PolicyIdInjective(a: nat, b: nat)
    requires a != b
    ensures PolicyId(a) != PolicyId(b)
  {
    DecimalRoundTrip(a);
    DecimalRoundTrip(b);
    assert PolicyId(a)[7..] == IntToDecimal(a);
    assert PolicyId(b)[7..] == IntToDecimal(b);
  }

  /** Ten entries, with ids policy-1 ... policy-10 in order. */
  lemma CatalogueIds()
    ensures |Catalogue| == 10
    ensures forall i :: 0 <= i < |Catalogue| ==> Catalogue[i].id == PolicyId(i + 1)
  {
    assert NatToDigits(10) == NatToDigits(1) + [DigitChar(0)];
    forall i | 0 <= i < |Catalogue| ensures Catalogue[i].id == PolicyId(i + 1) {
    }
  }

  /** The ids are pairwise distinct. */
  lemma CatalogueIdsDistinct()
    ensures forall i, j :: 0 <= i < j < |Catalogue| ==> Catalogue[i].id != Catalogue[j].id
  {
    CatalogueIds();
    forall i, j | 0 <= i < j < |Catalogue| ensures Catalogue[i].id != Catalogue[j].id {
      PolicyIdInjective(i + 1, j + 1);
    }
  }

  /** Every stored relevance is 0. */
  lemma StoredRelevanceIsZero()
    ensures forall p :: p in Catalogue ==> p.relevance == 0
  {
  }

  /** Every entry has at least five keywords, so every entry can reach the
      relevance cap, and exactly three examples. */
  lemma KeywordAndExampleCounts()
    ensures forall p :: p in Catalogue ==> |p.keywords| >= 5 && |p.examples| == 3
  {
  }

  /** The entry names, in catalogue order. */
  const PolicyNames: seq<string> := [
    "Harassment Policy", "Hate Speech Policy", "Profanity Policy", "Threat Policy",
    "Misinformation Policy", "Self-Harm & Suicide Policy", "Child Safety Policy",
    "Privacy Violation Policy", "Graphic Content Policy", "Spam & Manipulation Policy"]

  lemma CatalogueNames()
    ensures |Catalogue| == |PolicyNames|
    ensures forall i :: 0 <= i < |Catalogue| ==> Catalogue[i].name == PolicyNames[i]
  {
  }

  /** No two names are equal. */
  lemma PolicyNamesDistinct()
    ensures forall i, j :: 0 <= i < j < |PolicyNames| ==> PolicyNames[i] != PolicyNames[j]
  {
    forall i, j | 0 <= i < j < |PolicyNames| ensures PolicyNames[i] != PolicyNames[j] {
      var a, b := PolicyNames[i], PolicyNames[j];
      if |a| == |b| {
        assert a[0] != b[0] || a[1] != b[1] || a[2] != b[2];
      }
    }
  }

  /** Names are distinct, so a policy is identified by its name. */
  lemma NamesDistinct()
    ensures forall i, j :: 0 <= i < j < |Catalogue| ==> Catalogue[i].name != Catalogue[j].name
  {
    CatalogueNames();
    PolicyNamesDistinct();
  }

  /** Keywords are shared: "hate" belongs to policy-1 and policy-2, "attack" to
      policy-1 and policy-4. */
  lemma SharedKeywords()
    ensures "hate" in Catalogue[0].keywords && "hate" in Catalogue[1].keywords
    ensures "attack" in Catalogue[0].keywords && "attack" in Catalogue[3].keywords
  {
    assert Catalogue[0].keywords[4] == "hate" && Catalogue[1].keywords[0] == "hate";
    assert Catalogue[0].keywords[2] == "attack" && Catalogue[3].keywords[5] == "attack";
  }

  /** Some keywords contain a space or a hyphen, so they match only those
      characters in sequence. */
  lemma CompoundKeywords()
    ensures "kill myself" in Catalogue[5].keywords && "end my life" in Catalogue[5].keywords
    ensures "f-word" in Catalogue[2].keywords
  {
    assert Catalogue[5].keywords[2] == "kill myself" && Catalogue[5].keywords[6] == "end my life";
    assert Catalogue[2].keywords[5] == "f-word";
  }
}
