/** How the matcher's keyword table (backend/app/matcher.py:26-91) lines up
    with the question catalog (backend/app/questions.py:12-399): after
    `full_name`, the table's keys are the catalog's keys in catalog order,
    and only the three pitch questions have no keywords. */
module Coverage {
  import opened Wrappers
  import opened Keywords
  import opened Questions

  /** Entry `i` of `ks` has the key of record `i` of `qs`. */
  predicate Aligned(ks: seq<(string, seq<Keyword>)>, qs: seq<Question>) {
    |ks| == |qs| && forall i :: 0 <= i < |ks| ==> ks[i].0 == qs[i].key
  }

  lemma AlignedConcat(k1: seq<(string, seq<Keyword>)>, k2: seq<(string, seq<Keyword>)>,
                      q1: seq<Question>, q2: seq<Question>)
    requires Aligned(k1, q1) && Aligned(k2, q2)
    ensures Aligned(k1 + k2, q1 + q2)
  {
  }

  lemma PersonalAligned()
    ensures Aligned(NameKeywords[1..], NameQuestions)
    ensures Aligned(ContactKeywords, ContactQuestions)
    ensures Aligned(LinkKeywords, LinkQuestions)
  {
  }

  lemma BackgroundAligned()
    ensures Aligned(EducationKeywords, EducationQuestions)
    ensures Aligned(WorkHistoryKeywords, WorkHistoryQuestions)
    ensures Aligned(AvailabilityKeywords, AvailabilityQuestions)
  {
  }

  lemma LogisticsAligned()
    ensures Aligned(MobilityKeywords, MobilityQuestions)
    ensures Aligned(LegalKeywords, LegalQuestions)
    ensures Aligned(ScreeningKeywords, ScreeningQuestions)
  {
  }

  lemma ClosingAligned()
    ensures Aligned(SelfIdKeywords, SelfIdQuestions)
    ensures Aligned(AccessibilityKeywords, AccessibilityQuestions)
  {
  }

  /** Past `full_name`, the keyword table is its sections joined in order. */
  lemma TableAfterFullName()
    ensures KeywordTable[0].0 == "full_name"
    ensures KeywordTable[1..] == NameKeywords[1..] + ContactKeywords + LinkKeywords + EducationKeywords + WorkHistoryKeywords + AvailabilityKeywords + MobilityKeywords + LegalKeywords + ScreeningKeywords + SelfIdKeywords + AccessibilityKeywords
  {
    assert KeywordTable[0] == NameKeywords[0];
  }

  lemma SectionsAligned()
    ensures Aligned(NameKeywords[1..] + ContactKeywords + LinkKeywords + EducationKeywords + WorkHistoryKeywords + AvailabilityKeywords + MobilityKeywords + LegalKeywords + ScreeningKeywords + SelfIdKeywords + AccessibilityKeywords, ThroughAccessibility)
  {
    PersonalAligned();
    BackgroundAligned();
    LogisticsAligned();
    ClosingAligned();
    AlignedConcat(NameKeywords[1..], ContactKeywords, NameQuestions, ContactQuestions);
    AlignedConcat(NameKeywords[1..] + ContactKeywords, LinkKeywords, ThroughContact, LinkQuestions);
    AlignedConcat(NameKeywords[1..] + ContactKeywords + LinkKeywords, EducationKeywords, ThroughLink, EducationQuestions);
    AlignedConcat(NameKeywords[1..] + ContactKeywords + LinkKeywords + EducationKeywords, WorkHistoryKeywords, ThroughEducation, WorkHistoryQuestions);
    AlignedConcat(NameKeywords[1..] + ContactKeywords + LinkKeywords + EducationKeywords + WorkHistoryKeywords, AvailabilityKeywords, ThroughWorkHistory, AvailabilityQuestions);
    AlignedConcat(NameKeywords[1..] + ContactKeywords + LinkKeywords + EducationKeywords + WorkHistoryKeywords + AvailabilityKeywords, MobilityKeywords, ThroughAvailability, MobilityQuestions);
    AlignedConcat(NameKeywords[1..] + ContactKeywords + LinkKeywords + EducationKeywords + WorkHistoryKeywords + AvailabilityKeywords + MobilityKeywords, LegalKeywords, ThroughMobility, LegalQuestions);
    AlignedConcat(NameKeywords[1..] + ContactKeywords + LinkKeywords + EducationKeywords + WorkHistoryKeywords + AvailabilityKeywords + MobilityKeywords + LegalKeywords, ScreeningKeywords, ThroughLegal, ScreeningQuestions);
    AlignedConcat(NameKeywords[1..] + ContactKeywords + LinkKeywords + EducationKeywords + WorkHistoryKeywords + AvailabilityKeywords + MobilityKeywords + LegalKeywords + ScreeningKeywords, SelfIdKeywords, ThroughScreening, SelfIdQuestions);
    AlignedConcat(NameKeywords[1..] + ContactKeywords + LinkKeywords + EducationKeywords + WorkHistoryKeywords + AvailabilityKeywords + MobilityKeywords + LegalKeywords + ScreeningKeywords + SelfIdKeywords, AccessibilityKeywords, ThroughSelfId, AccessibilityQuestions);
  }

  /** Past its first entry, the keyword table follows the catalog record by
      record, up to the pitch questions. */
  lemma TableFollowsCatalog()
    ensures KeywordTable[0].0 == "full_name"
    ensures Aligned(KeywordTable[1..], ThroughAccessibility)
    ensures Catalog == ThroughAccessibility + PitchQuestions
  {
    TableAfterFullName();
    SectionsAligned();
  }

  /** No record of `qs` has key `key`. */
  predicate LacksKey(qs: seq<Question>, key: string) {
    forall j :: 0 <= j < |qs| ==> qs[j].key != key
  }

  lemma LacksKeyConcat(a: seq<Question>, b: seq<Question>, key: string)
    requires LacksKey(a, key) && LacksKey(b, key)
    ensures LacksKey(a + b, key)
  {
  }

  lemma FullNameNotInEarlySections()
    ensures LacksKey(NameQuestions, "full_name")
    ensures LacksKey(ContactQuestions, "full_name")
    ensures LacksKey(LinkQuestions, "full_name")
    ensures LacksKey(EducationQuestions, "full_name")
    ensures LacksKey(WorkHistoryQuestions, "full_name")
    ensures LacksKey(AvailabilityQuestions, "full_name")
  {
  }

  lemma FullNameNotInLateSections()
    ensures LacksKey(MobilityQuestions, "full_name")
    ensures LacksKey(LegalQuestions, "full_name")
    ensures LacksKey(ScreeningQuestions, "full_name")
    ensures LacksKey(SelfIdQuestions, "full_name")
    ensures LacksKey(AccessibilityQuestions, "full_name")
    ensures LacksKey(PitchQuestions, "full_name")
  {
  }

  /** `full_name` is not a catalog key. */
  lemma FullNameNotInCatalog()
    ensures LacksKey(Catalog, "full_name")
  {
    FullNameNotInEarlySections();
    FullNameNotInLateSections();
    LacksKeyConcat(NameQuestions, ContactQuestions, "full_name");
    LacksKeyConcat(ThroughContact, LinkQuestions, "full_name");
    LacksKeyConcat(ThroughLink, EducationQuestions, "full_name");
    LacksKeyConcat(ThroughEducation, WorkHistoryQuestions, "full_name");
    LacksKeyConcat(ThroughWorkHistory, AvailabilityQuestions, "full_name");
    LacksKeyConcat(ThroughAvailability, MobilityQuestions, "full_name");
    LacksKeyConcat(ThroughMobility, LegalQuestions, "full_name");
    LacksKeyConcat(ThroughLegal, ScreeningQuestions, "full_name");
    LacksKeyConcat(ThroughScreening, SelfIdQuestions, "full_name");
    LacksKeyConcat(ThroughSelfId, AccessibilityQuestions, "full_name");
    LacksKeyConcat(ThroughAccessibility, PitchQuestions, "full_name");
  }

  /** Every key of the keyword table names a catalog question, except
      `full_name`, which the matcher synthesises from the first and last
      names instead. */
  lemma KeywordKeysNameQuestions()
    ensures KeywordTable[0].0 == "full_name" && GetQuestionByKey("full_name") == None
    ensures forall i :: 1 <= i < |KeywordTable| ==> GetQuestionByKey(KeywordTable[i].0) == Some(Catalog[i - 1])
  {
    TableFollowsCatalog();
    FullNameNotInCatalog();
    forall i | 1 <= i < |KeywordTable|
      ensures GetQuestionByKey(KeywordTable[i].0) == Some(Catalog[i - 1])
    {
      KeywordKeyNamesQuestion(i);
    }
  }

  lemma KeywordKeyNamesQuestion(i: int)
    requires 1 <= i < |KeywordTable|
    ensures GetQuestionByKey(KeywordTable[i].0) == Some(Catalog[i - 1])
  {
    TableFollowsCatalog();
    var ks := KeywordTable[1..];
    assert KeywordTable[i].0 == ks[i - 1].0;
    assert Catalog[i - 1] == ThroughAccessibility[i - 1];
    LookupFindsEveryRecord(i - 1);
  }

  /** The three pitch questions, the last of the catalog, have no keywords:
      the matcher never fills them from a form field. */
  lemma PitchQuestionsHaveNoKeywords()
    ensures |Catalog| == 49
    ensures Catalog[46].key == "career_summary_bullets" && Catalog[47].key == "why_this_role_generic"
    ensures Catalog[48].key == "notable_projects"
    ensures forall i, m :: 0 <= i < |KeywordTable| && 46 <= m < |Catalog| ==> KeywordTable[i].0 != Catalog[m].key
  {
    TableFollowsCatalog();
    FullNameNotInCatalog();
    CatalogKeysDistinct();
    forall i, m | 0 <= i < |KeywordTable| && 46 <= m < |Catalog|
      ensures KeywordTable[i].0 != Catalog[m].key
    {
      if i == 0 {
        assert Catalog[m] == PitchQuestions[m - 46];
      } else {
        assert KeywordTable[i].0 == KeywordTable[1..][i - 1].0 == Catalog[i - 1].key;
      }
    }
  }
}
