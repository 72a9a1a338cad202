/** The question catalog of backend/app/questions.py: an ordered list of
    question records, looked up by key and grouped by category. */
module Questions {
  import opened Wrappers

  /** One catalog record. `inputType` is the record's "type" entry; `options`
      is None where the record has no "options" entry. */
  datatype Question = Question(key: string, category: string, question: string,
                               inputType: string, options: Option<seq<string>>, required: bool)

  // Personal information: names (questions.py:14-41)
  const NameQuestions: seq<Question> := [
    Question("first_name", "personal",
             "What is your first name?",
             "text", None, true),
    Question("middle_name", "personal",
             "What is your middle name? (Optional)",
             "text", None, false),
    Question("last_name", "personal",
             "What is your last name?",
             "text", None, true),
    Question("preferred_name", "personal",
             "What do you like to be called? (Preferred name)",
             "text", None, false)
  ]

  // Personal information: contact and address (questions.py:42-90)
  const ContactQuestions: seq<Question> := [
    Question("email", "personal",
             "What is your email address?",
             "email", None, true),
    Question("phone", "personal",
             "What is your phone number?",
             "tel", None, true),
    Question("street_address", "personal",
             "What is your street address?",
             "text", None, false),
    Question("city", "personal",
             "What city do you live in?",
             "text", None, true),
    Question("state_province", "personal",
             "What is your state/province?",
             "text", None, false),
    Question("postal_code", "personal",
             "What is your postal/zip code?",
             "text", None, false),
    Question("country", "personal",
             "What country do you live in?",
             "text", None, true)
  ]

  // Professional links (questions.py:93-134)
  const LinkQuestions: seq<Question> := [
    Question("linkedin_url", "professional_links",
             "What is your LinkedIn profile URL?",
             "url", None, false),
    Question("portfolio_url", "professional_links",
             "What is your personal website or portfolio URL?",
             "url", None, false),
    Question("github_url", "professional_links",
             "What is your GitHub profile URL?",
             "url", None, false),
    Question("behance_url", "professional_links",
             "What is your Behance profile URL?",
             "url", None, false),
    Question("dribbble_url", "professional_links",
             "What is your Dribbble profile URL?",
             "url", None, false),
    Question("twitter_handle", "professional_links",
             "What is your Twitter/X handle?",
             "text", None, false)
  ]

  // Education (questions.py:137-172)
  const EducationQuestions: seq<Question> := [
    Question("highest_degree", "education",
             "What is your highest level of education?",
             "select", Some(["High School Diploma", "Associate's Degree", "Bachelor's Degree", "Master's Degree", "PhD", "Professional Degree"]), true),
    Question("school_name", "education",
             "What is the name of your most recent school/university?",
             "text", None, false),
    Question("major_field_of_study", "education",
             "What was your major/field of study?",
             "text", None, false),
    Question("graduation_date", "education",
             "When did you graduate (or when do you expect to graduate)?",
             "date", None, false),
    Question("gpa", "education",
             "What was your GPA? (Optional, often for entry-level)",
             "text", None, false)
  ]

  // Work history (most recent role) (questions.py:175-209)
  const WorkHistoryQuestions: seq<Question> := [
    Question("current_company", "work_history",
             "What is your current/most recent company name?",
             "text", None, false),
    Question("current_job_title", "work_history",
             "What is your current/most recent job title?",
             "text", None, false),
    Question("current_job_start_date", "work_history",
             "When did you start this role? (Month/Year)",
             "text", None, false),
    Question("current_job_end_date", "work_history",
             "When did this role end? (Leave blank if current, or enter Month/Year)",
             "text", None, false),
    Question("current_job_duties", "work_history",
             "Briefly describe your responsibilities in this role",
             "textarea", None, false)
  ]

  // Logistics: start date, work type and salary (questions.py:212-233)
  const AvailabilityQuestions: seq<Question> := [
    Question("availability_date", "logistics",
             "What is the earliest date you can start working?",
             "date", None, false),
    Question("work_type_preference", "logistics",
             "What type of work are you seeking?",
             "select", Some(["Full-time", "Part-time", "Contract", "Internship", "Any"]), false),
    Question("salary_expectation", "logistics",
             "What is your desired annual salary? (e.g., 75000)",
             "text", None, false)
  ]

  // Logistics: relocation, travel and notice (questions.py:234-256)
  const MobilityQuestions: seq<Question> := [
    Question("willing_to_relocate", "logistics",
             "Are you willing to relocate for this position?",
             "select", Some(["Yes", "No", "Maybe"]), false),
    Question("willing_to_travel", "logistics",
             "Are you willing to travel for work?",
             "select", Some(["Yes, up to 25%", "Yes, up to 50%", "Yes, up to 75%", "No"]), false),
    Question("notice_period", "logistics",
             "What is your notice period at your current job? (e.g., 2 weeks, 30 days)",
             "text", None, false)
  ]

  // Work authorization and legal (questions.py:259-282)
  const LegalQuestions: seq<Question> := [
    Question("legally_authorized_to_work", "legal",
             "Are you legally authorized to work in the country where this job is located?",
             "select", Some(["Yes", "No"]), true),
    Question("require_visa_sponsorship", "legal",
             "Will you now or in the future require visa sponsorship?",
             "select", Some(["Yes", "No"]), false),
    Question("age_over_18", "legal",
             "Are you 18 years of age or older?",
             "select", Some(["Yes", "No"]), true)
  ]

  // Screening and disclosures (questions.py:285-315)
  const ScreeningQuestions: seq<Question> := [
    Question("how_did_you_hear", "screening",
             "How did you hear about this position?",
             "select", Some(["LinkedIn", "Indeed", "Company Website", "Referral", "Recruiter", "Other"]), false),
    Question("employee_referral_name", "screening",
             "If you were referred by an employee, what is their name?",
             "text", None, false),
    Question("previously_applied", "screening",
             "Have you previously applied to or worked for this company?",
             "select", Some(["Yes", "No"]), false),
    Question("relatives_at_company", "screening",
             "Do you have any relatives currently working for this company?",
             "select", Some(["Yes", "No"]), false)
  ]

  // Voluntary self-identification (questions.py:318-358)
  const SelfIdQuestions: seq<Question> := [
    Question("gender", "self_id",
             "What is your gender? (Optional - for government reporting)",
             "select", Some(["Male", "Female", "Non-binary", "Decline to self-identify"]), false),
    Question("race_ethnicity", "self_id",
             "What is your race/ethnicity? (Optional - for government reporting)",
             "select", Some(["Hispanic or Latino", "White", "Black or African American", "Asian", "Native Hawaiian or Pacific Islander", "American Indian or Alaska Native", "Two or more races", "Decline to self-identify"]), false),
    Question("veteran_status", "self_id",
             "Are you a protected veteran? (Optional - for government reporting)",
             "select", Some(["Yes", "No", "Decline to self-identify"]), false),
    Question("disability_status", "self_id",
             "Do you have a disability? (Optional - for government reporting)",
             "select", Some(["Yes", "No", "Decline to self-identify"]), false)
  ]

  // Accessibility and accommodations (questions.py:361-375)
  const AccessibilityQuestions: seq<Question> := [
    Question("require_accommodations", "accessibility",
             "Do you require any accommodations during the interview process?",
             "select", Some(["Yes", "No"]), false),
    Question("accommodation_details", "accessibility",
             "If yes, please describe what accommodations you need",
             "textarea", None, false)
  ]

  // Experience and pitch, for generated answers (questions.py:378-398)
  const PitchQuestions: seq<Question> := [
    Question("career_summary_bullets", "pitch",
             "Bullet points of your key achievements/career summary",
             "textarea", None, false),
    Question("why_this_role_generic", "pitch",
             "What generally motivates you to apply for new roles?",
             "textarea", None, false),
    Question("notable_projects", "pitch",
             "Briefly mention 2-3 notable projects you've built",
             "textarea", None, false)
  ]
  /** `QUESTION_CATALOG` (questions.py:12-399), its sections in source order. */
  const Catalog: seq<Question> :=
    NameQuestions + ContactQuestions + LinkQuestions + EducationQuestions + WorkHistoryQuestions
    + AvailabilityQuestions + MobilityQuestions + LegalQuestions + ScreeningQuestions + SelfIdQuestions
    + AccessibilityQuestions + PitchQuestions

  // ----- `get_question_by_key` (questions.py:413-418) -----

  /** The first record of `qs` whose key is `key`, or None. */
  function FindByKey(qs: seq<Question>, key: string): (r: Option<Question>)
    ensures r.None? <==> forall i :: 0 <= i < |qs| ==> qs[i].key != key
    ensures r.Some? ==> exists i ::
      && 0 <= i < |qs| && qs[i] == r.value && r.value.key == key
      && forall i' :: 0 <= i' < i ==> qs[i'].key != key
  {
    if qs == [] then None
    else if qs[0].key == key then Some(qs[0])
    else
      var r := FindByKey(qs[1..], key);
      assert forall i :: 1 <= i < |qs| ==> qs[i] == qs[1..][i - 1];
      r
  }

  /** `get_question_by_key`: the first catalog record with this key. */
  function GetQuestionByKey(key: string): (r: Option<Question>)
    ensures r.None? <==> forall i :: 0 <= i < |Catalog| ==> Catalog[i].key != key
    ensures r.Some? ==> r.value in Catalog && r.value.key == key
  {
    FindByKey(Catalog, key)
  }

  /** No two records share a key. */
  predicate DistinctKeys(qs: seq<Question>) {
    forall i, j :: 0 <= i < j < |qs| ==> qs[i].key != qs[j].key
  }

  /** With distinct keys, looking up a record's key finds that record. */
  lemma FindByKeyUnique(qs: seq<Question>, i: int)
    requires DistinctKeys(qs) && 0 <= i < |qs|
    ensures FindByKey(qs, qs[i].key) == Some(qs[i])
  {
    var r := FindByKey(qs, qs[i].key);
    var k :|
      && 0 <= k < |qs| && qs[k] == r.value && r.value.key == qs[i].key
      && forall i' :: 0 <= i' < k ==> qs[i'].key != qs[i].key;
    assert k == i;
  }

  // ----- `get_questions_by_category` (questions.py:402-410) -----

  /** The categories of `qs` in order of first occurrence: the key order of
      the dictionary the loop builds. */
  function CategoryOrder(qs: seq<Question>): (r: seq<string>)
    ensures forall c :: c in r <==> exists i :: 0 <= i < |qs| && qs[i].category == c
    ensures forall i, j :: 0 <= i < j < |r| ==> r[i] != r[j]
    decreases |qs|
  {
    if qs == [] then []
    else
      var prefix := qs[..|qs| - 1];
      var order := CategoryOrder(prefix);
      assert forall i :: 0 <= i < |prefix| ==> prefix[i] == qs[i];
      if qs[|qs| - 1].category in order then order else order + [qs[|qs| - 1].category]
  }

  /** The records of `qs` in category `c`, in catalog order: the list the
      loop builds for `c`. */
  function Filter(qs: seq<Question>, c: string): (r: seq<Question>)
    ensures forall q :: q in r ==> q in qs && q.category == c
    ensures r == [] <==> forall i :: 0 <= i < |qs| ==> qs[i].category != c
    decreases |qs|
  {
    if qs == [] then []
    else
      var prefix := qs[..|qs| - 1];
      var last := qs[|qs| - 1];
      assert forall i :: 0 <= i < |prefix| ==> prefix[i] == qs[i];
      Filter(prefix, c) + (if last.category == c then [last] else [])
  }

  /** The loop of `get_questions_by_category` over `qs`: `order` is the key
      order of the dictionary it builds and `groups` its contents. */
  method GroupByCategory(qs: seq<Question>) returns (order: seq<string>, groups: map<string, seq<Question>>)
    ensures order == CategoryOrder(qs)
    ensures forall c :: c in groups <==> c in order
    ensures forall c :: c in groups ==> groups[c] == Filter(qs, c)
  {
    order, groups := [], map[];
    for k := 0 to |qs|
      invariant order == CategoryOrder(qs[..k])
      invariant forall c :: c in groups <==> c in order
      invariant forall c :: c in groups ==> groups[c] == Filter(qs[..k], c)
    {
      var q := qs[k];
      var cat := q.category;
      assert qs[..k + 1][..k] == qs[..k];
      if cat !in groups {
        order := order + [cat];
        groups := groups[cat := []];
      }
      groups := groups[cat := groups[cat] + [q]];
    }
    assert qs[..|qs|] == qs;
  }

  /** `get_questions_by_category` (questions.py:402-410): the catalog grouped
      by category. */
  method GetQuestionsByCategory() returns (order: seq<string>, groups: map<string, seq<Question>>)
    ensures order == CategoryOrder(Catalog)
    ensures forall c :: c in groups <==> c in order
    ensures forall c :: c in groups ==> groups[c] == Filter(Catalog, c)
  {
    order, groups := GroupByCategory(Catalog);
  }

  /** Grouping distributes over concatenation: each group keeps the records
      in their catalog order. */
  lemma {:induction false} FilterConcat(a: seq<Question>, b: seq<Question>, c: string)
    ensures Filter(a + b, c) == Filter(a, c) + Filter(b, c)
    decreases |b|
  {
    if b == [] {
      assert a + b == a;
    } else {
      var b' := b[..|b| - 1];
      var last := b[|b| - 1];
      var tail := if last.category == c then [last] else [];
      assert (a + b)[..|a + b| - 1] == a + b';
      assert (a + b)[|a + b| - 1] == last;
      assert Filter(a + b, c) == Filter(a + b', c) + tail;
      FilterConcat(a, b', c);
      assert Filter(b, c) == Filter(b', c) + tail;
      assert Filter(a, c) + Filter(b', c) + tail == Filter(a, c) + (Filter(b', c) + tail);
    }
  }

  /** Every record lands in the group of its own category and in no other,
      as often as it occurs in `qs`. */
  lemma {:induction false} FilterCount(qs: seq<Question>, c: string, q: Question)
    ensures multiset(Filter(qs, c))[q] == if q.category == c then multiset(qs)[q] else 0
    decreases |qs|
  {
    if qs != [] {
      var prefix := qs[..|qs| - 1];
      var last := qs[|qs| - 1];
      FilterCount(prefix, c, q);
      assert qs == prefix + [last];
      assert multiset(qs) == multiset(prefix) + multiset{last};
      assert Filter(qs, c) == Filter(prefix, c) + (if last.category == c then [last] else []);
    }
  }

  /** `c` first occurs in `qs` at index `k`. */
  ghost predicate FirstOccurrence(qs: seq<Question>, c: string, k: int) {
    0 <= k < |qs| && qs[k].category == c && forall k' :: 0 <= k' < k ==> qs[k'].category != c
  }

  /** Categories are listed in the order of their first occurrences. */
  lemma {:induction false} CategoryOrderFollowsFirstOccurrence(qs: seq<Question>, i: int, j: int, ki: int, kj: int)
    requires 0 <= i < j < |CategoryOrder(qs)|
    requires FirstOccurrence(qs, CategoryOrder(qs)[i], ki) && FirstOccurrence(qs, CategoryOrder(qs)[j], kj)
    ensures ki < kj
    decreases |qs|
  {
    var prefix := qs[..|qs| - 1];
    var order := CategoryOrder(prefix);
    assert forall k :: 0 <= k < |prefix| ==> prefix[k] == qs[k];
    if j < |order| {
      assert CategoryOrder(qs)[i] == order[i] && CategoryOrder(qs)[j] == order[j];
      var c := order[j];
      assert exists k :: 0 <= k < |prefix| && prefix[k].category == c;
      assert kj < |prefix|;
      assert ki < |prefix|;
      CategoryOrderFollowsFirstOccurrence(prefix, i, j, ki, kj);
    } else {
      assert CategoryOrder(qs)[j] == qs[|qs| - 1].category && qs[|qs| - 1].category !in order;
      assert kj == |qs| - 1;
    }
  }

  // ----- Facts about the catalog's data -----

  // The catalog from each section on, for proofs that go section by section.
  ghost const FromContact: seq<Question> := ContactQuestions + FromLink
  ghost const FromLink: seq<Question> := LinkQuestions + FromEducation
  ghost const FromEducation: seq<Question> := EducationQuestions + FromWorkHistory
  ghost const FromWorkHistory: seq<Question> := WorkHistoryQuestions + FromAvailability
  ghost const FromAvailability: seq<Question> := AvailabilityQuestions + FromMobility
  ghost const FromMobility: seq<Question> := MobilityQuestions + FromLegal
  ghost const FromLegal: seq<Question> := LegalQuestions + FromScreening
  ghost const FromScreening: seq<Question> := ScreeningQuestions + FromSelfId
  ghost const FromSelfId: seq<Question> := SelfIdQuestions + FromAccessibility
  ghost const FromAccessibility: seq<Question> := AccessibilityQuestions + PitchQuestions

  /** The record kinds the catalog declares (questions.py:7). */
  predicate ValidInputType(t: string) {
    t == "text" || t == "email" || t == "tel" || t == "url" || t == "select" || t == "date" || t == "textarea"
  }

  /** A record has a known kind, carries options exactly when it is a
      select, and a select offers at least one option. */
  predicate WellFormed(q: Question) {
    && ValidInputType(q.inputType)
    && (q.options.Some? <==> q.inputType == "select")
    && (q.options.Some? ==> q.options.value != [])
  }

  /** No key of `a` is a key of `b`. */
  predicate KeysApart(a: seq<Question>, b: seq<Question>) {
    forall i, j :: 0 <= i < |a| && 0 <= j < |b| ==> a[i].key != b[j].key
  }

  lemma KeysApartConcat(a: seq<Question>, b: seq<Question>, c: seq<Question>)
    requires KeysApart(a, b) && KeysApart(a, c)
    ensures KeysApart(a, b + c)
  {
  }

  lemma DistinctKeysConcat(a: seq<Question>, b: seq<Question>)
    requires DistinctKeys(a) && DistinctKeys(b) && KeysApart(a, b)
    ensures DistinctKeys(a + b)
  {
  }

  /** Every record of `qs` is well formed. */
  predicate AllWellFormed(qs: seq<Question>) {
    forall i :: 0 <= i < |qs| ==> WellFormed(qs[i])
  }

  lemma AllWellFormedConcat(a: seq<Question>, b: seq<Question>)
    requires AllWellFormed(a) && AllWellFormed(b)
    ensures AllWellFormed(a + b)
  {
  }

  lemma PersonalWellFormed()
    ensures AllWellFormed(NameQuestions)
    ensures AllWellFormed(ContactQuestions)
    ensures AllWellFormed(LinkQuestions)
  {
  }

  lemma BackgroundWellFormed()
    ensures AllWellFormed(EducationQuestions)
    ensures AllWellFormed(WorkHistoryQuestions)
    ensures AllWellFormed(AvailabilityQuestions)
  {
  }

  lemma LogisticsWellFormed()
    ensures AllWellFormed(MobilityQuestions)
    ensures AllWellFormed(LegalQuestions)
    ensures AllWellFormed(ScreeningQuestions)
  {
  }

  lemma ClosingWellFormed()
    ensures AllWellFormed(SelfIdQuestions)
    ensures AllWellFormed(AccessibilityQuestions)
    ensures AllWellFormed(PitchQuestions)
  {
  }

  /** Every catalog record is well formed. */
  lemma CatalogWellFormed()
    ensures forall i :: 0 <= i < |Catalog| ==> WellFormed(Catalog[i])
  {
    PersonalWellFormed();
    BackgroundWellFormed();
    LogisticsWellFormed();
    ClosingWellFormed();
    AllWellFormedConcat(NameQuestions, ContactQuestions);
    AllWellFormedConcat(ThroughContact, LinkQuestions);
    AllWellFormedConcat(ThroughLink, EducationQuestions);
    AllWellFormedConcat(ThroughEducation, WorkHistoryQuestions);
    AllWellFormedConcat(ThroughWorkHistory, AvailabilityQuestions);
    AllWellFormedConcat(ThroughAvailability, MobilityQuestions);
    AllWellFormedConcat(ThroughMobility, LegalQuestions);
    AllWellFormedConcat(ThroughLegal, ScreeningQuestions);
    AllWellFormedConcat(ThroughScreening, SelfIdQuestions);
    AllWellFormedConcat(ThroughSelfId, AccessibilityQuestions);
    AllWellFormedConcat(ThroughAccessibility, PitchQuestions);
    assert Catalog == ThroughAccessibility + PitchQuestions;
  }

  lemma PitchDistinct()
    ensures DistinctKeys(PitchQuestions)
  {
  }

  /** Each section's keys are distinct and apart from every later section's.
      One lemma per pair of sections keeps each proof obligation small. */
  lemma NameApartContact()
    ensures KeysApart(NameQuestions, ContactQuestions)
  {
  }

  lemma NameApartLink()
    ensures KeysApart(NameQuestions, LinkQuestions)
  {
  }

  lemma NameApartEducation()
    ensures KeysApart(NameQuestions, EducationQuestions)
  {
  }

  lemma NameApartWorkHistory()
    ensures KeysApart(NameQuestions, WorkHistoryQuestions)
  {
  }

  lemma NameApartAvailability()
    ensures KeysApart(NameQuestions, AvailabilityQuestions)
  {
  }

  lemma NameApartMobility()
    ensures KeysApart(NameQuestions, MobilityQuestions)
  {
  }

  lemma NameApartLegal()
    ensures KeysApart(NameQuestions, LegalQuestions)
  {
  }

  lemma NameApartScreening()
    ensures KeysApart(NameQuestions, ScreeningQuestions)
  {
  }

  lemma NameApartSelfId()
    ensures KeysApart(NameQuestions, SelfIdQuestions)
  {
  }

  lemma NameApartAccessibility()
    ensures KeysApart(NameQuestions, AccessibilityQuestions)
  {
  }

  lemma NameApartPitch()
    ensures KeysApart(NameQuestions, PitchQuestions)
  {
  }

  lemma ContactApartLink()
    ensures KeysApart(ContactQuestions, LinkQuestions)
  {
  }

  lemma ContactApartEducation()
    ensures KeysApart(ContactQuestions, EducationQuestions)
  {
  }

  lemma ContactApartWorkHistory()
    ensures KeysApart(ContactQuestions, WorkHistoryQuestions)
  {
  }

  lemma ContactApartAvailability()
    ensures KeysApart(ContactQuestions, AvailabilityQuestions)
  {
  }

  lemma ContactApartMobility()
    ensures KeysApart(ContactQuestions, MobilityQuestions)
  {
  }

  lemma ContactApartLegal()
    ensures KeysApart(ContactQuestions, LegalQuestions)
  {
  }

  lemma ContactApartScreening()
    ensures KeysApart(ContactQuestions, ScreeningQuestions)
  {
  }

  lemma ContactApartSelfId()
    ensures KeysApart(ContactQuestions, SelfIdQuestions)
  {
  }

  lemma ContactApartAccessibility()
    ensures KeysApart(ContactQuestions, AccessibilityQuestions)
  {
  }

  lemma ContactApartPitch()
    ensures KeysApart(ContactQuestions, PitchQuestions)
  {
  }

  lemma LinkApartEducation()
    ensures KeysApart(LinkQuestions, EducationQuestions)
  {
  }

  lemma LinkApartWorkHistory()
    ensures KeysApart(LinkQuestions, WorkHistoryQuestions)
  {
  }

  lemma LinkApartAvailability()
    ensures KeysApart(LinkQuestions, AvailabilityQuestions)
  {
  }

  lemma LinkApartMobility()
    ensures KeysApart(LinkQuestions, MobilityQuestions)
  {
  }

  lemma LinkApartLegal()
    ensures KeysApart(LinkQuestions, LegalQuestions)
  {
  }

  lemma LinkApartScreening()
    ensures KeysApart(LinkQuestions, ScreeningQuestions)
  {
  }

  lemma LinkApartSelfId()
    ensures KeysApart(LinkQuestions, SelfIdQuestions)
  {
  }

  lemma LinkApartAccessibility()
    ensures KeysApart(LinkQuestions, AccessibilityQuestions)
  {
  }

  lemma LinkApartPitch()
    ensures KeysApart(LinkQuestions, PitchQuestions)
  {
  }

  lemma EducationApartWorkHistory()
    ensures KeysApart(EducationQuestions, WorkHistoryQuestions)
  {
  }

  lemma EducationApartAvailability()
    ensures KeysApart(EducationQuestions, AvailabilityQuestions)
  {
  }

  lemma EducationApartMobility()
    ensures KeysApart(EducationQuestions, MobilityQuestions)
  {
  }

  lemma EducationApartLegal()
    ensures KeysApart(EducationQuestions, LegalQuestions)
  {
  }

  lemma EducationApartScreening()
    ensures KeysApart(EducationQuestions, ScreeningQuestions)
  {
  }

  lemma EducationApartSelfId()
    ensures KeysApart(EducationQuestions, SelfIdQuestions)
  {
  }

  lemma EducationApartAccessibility()
    ensures KeysApart(EducationQuestions, AccessibilityQuestions)
  {
  }

  lemma EducationApartPitch()
    ensures KeysApart(EducationQuestions, PitchQuestions)
  {
  }

  lemma WorkHistoryApartAvailability()
    ensures KeysApart(WorkHistoryQuestions, AvailabilityQuestions)
  {
  }

  lemma WorkHistoryApartMobility()
    ensures KeysApart(WorkHistoryQuestions, MobilityQuestions)
  {
  }

  lemma WorkHistoryApartLegal()
    ensures KeysApart(WorkHistoryQuestions, LegalQuestions)
  {
  }

  lemma WorkHistoryApartScreening()
    ensures KeysApart(WorkHistoryQuestions, ScreeningQuestions)
  {
  }

  lemma WorkHistoryApartSelfId()
    ensures KeysApart(WorkHistoryQuestions, SelfIdQuestions)
  {
  }

  lemma WorkHistoryApartAccessibility()
    ensures KeysApart(WorkHistoryQuestions, AccessibilityQuestions)
  {
  }

  lemma WorkHistoryApartPitch()
    ensures KeysApart(WorkHistoryQuestions, PitchQuestions)
  {
  }

  lemma AvailabilityApartMobility()
    ensures KeysApart(AvailabilityQuestions, MobilityQuestions)
  {
  }

  lemma AvailabilityApartLegal()
    ensures KeysApart(AvailabilityQuestions, LegalQuestions)
  {
  }

  lemma AvailabilityApartScreening()
    ensures KeysApart(AvailabilityQuestions, ScreeningQuestions)
  {
  }

  lemma AvailabilityApartSelfId()
    ensures KeysApart(AvailabilityQuestions, SelfIdQuestions)
  {
  }

  lemma AvailabilityApartAccessibility()
    ensures KeysApart(AvailabilityQuestions, AccessibilityQuestions)
  {
  }

  lemma AvailabilityApartPitch()
    ensures KeysApart(AvailabilityQuestions, PitchQuestions)
  {
  }

  lemma MobilityApartLegal()
    ensures KeysApart(MobilityQuestions, LegalQuestions)
  {
  }

  lemma MobilityApartScreening()
    ensures KeysApart(MobilityQuestions, ScreeningQuestions)
  {
  }

  lemma MobilityApartSelfId()
    ensures KeysApart(MobilityQuestions, SelfIdQuestions)
  {
  }

  lemma MobilityApartAccessibility()
    ensures KeysApart(MobilityQuestions, AccessibilityQuestions)
  {
  }

  lemma MobilityApartPitch()
    ensures KeysApart(MobilityQuestions, PitchQuestions)
  {
  }

  lemma LegalApartScreening()
    ensures KeysApart(LegalQuestions, ScreeningQuestions)
  {
  }

  lemma LegalApartSelfId()
    ensures KeysApart(LegalQuestions, SelfIdQuestions)
  {
  }

  lemma LegalApartAccessibility()
    ensures KeysApart(LegalQuestions, AccessibilityQuestions)
  {
  }

  lemma LegalApartPitch()
    ensures KeysApart(LegalQuestions, PitchQuestions)
  {
  }

  lemma ScreeningApartSelfId()
    ensures KeysApart(ScreeningQuestions, SelfIdQuestions)
  {
  }

  lemma ScreeningApartAccessibility()
    ensures KeysApart(ScreeningQuestions, AccessibilityQuestions)
  {
  }

  lemma ScreeningApartPitch()
    ensures KeysApart(ScreeningQuestions, PitchQuestions)
  {
  }

  lemma SelfIdApartAccessibility()
    ensures KeysApart(SelfIdQuestions, AccessibilityQuestions)
  {
  }

  lemma SelfIdApartPitch()
    ensures KeysApart(SelfIdQuestions, PitchQuestions)
  {
  }

  lemma AccessibilityApartPitch()
    ensures KeysApart(AccessibilityQuestions, PitchQuestions)
  {
  }

  lemma NameApart()
    ensures DistinctKeys(NameQuestions)
    ensures KeysApart(NameQuestions, FromContact)
  {
    NameApartPitch();
    NameApartAccessibility();
    KeysApartConcat(NameQuestions, AccessibilityQuestions, PitchQuestions);
    NameApartSelfId();
    KeysApartConcat(NameQuestions, SelfIdQuestions, FromAccessibility);
    NameApartScreening();
    KeysApartConcat(NameQuestions, ScreeningQuestions, FromSelfId);
    NameApartLegal();
    KeysApartConcat(NameQuestions, LegalQuestions, FromScreening);
    NameApartMobility();
    KeysApartConcat(NameQuestions, MobilityQuestions, FromLegal);
    NameApartAvailability();
    KeysApartConcat(NameQuestions, AvailabilityQuestions, FromMobility);
    NameApartWorkHistory();
    KeysApartConcat(NameQuestions, WorkHistoryQuestions, FromAvailability);
    NameApartEducation();
    KeysApartConcat(NameQuestions, EducationQuestions, FromWorkHistory);
    NameApartLink();
    KeysApartConcat(NameQuestions, LinkQuestions, FromEducation);
    NameApartContact();
    KeysApartConcat(NameQuestions, ContactQuestions, FromLink);
  }

  lemma ContactApart()
    ensures DistinctKeys(ContactQuestions)
    ensures KeysApart(ContactQuestions, FromLink)
  {
    ContactApartPitch();
    ContactApartAccessibility();
    KeysApartConcat(ContactQuestions, AccessibilityQuestions, PitchQuestions);
    ContactApartSelfId();
    KeysApartConcat(ContactQuestions, SelfIdQuestions, FromAccessibility);
    ContactApartScreening();
    KeysApartConcat(ContactQuestions, ScreeningQuestions, FromSelfId);
    ContactApartLegal();
    KeysApartConcat(ContactQuestions, LegalQuestions, FromScreening);
    ContactApartMobility();
    KeysApartConcat(ContactQuestions, MobilityQuestions, FromLegal);
    ContactApartAvailability();
    KeysApartConcat(ContactQuestions, AvailabilityQuestions, FromMobility);
    ContactApartWorkHistory();
    KeysApartConcat(ContactQuestions, WorkHistoryQuestions, FromAvailability);
    ContactApartEducation();
    KeysApartConcat(ContactQuestions, EducationQuestions, FromWorkHistory);
    ContactApartLink();
    KeysApartConcat(ContactQuestions, LinkQuestions, FromEducation);
  }

  lemma LinkApart()
    ensures DistinctKeys(LinkQuestions)
    ensures KeysApart(LinkQuestions, FromEducation)
  {
    LinkApartPitch();
    LinkApartAccessibility();
    KeysApartConcat(LinkQuestions, AccessibilityQuestions, PitchQuestions);
    LinkApartSelfId();
    KeysApartConcat(LinkQuestions, SelfIdQuestions, FromAccessibility);
    LinkApartScreening();
    KeysApartConcat(LinkQuestions, ScreeningQuestions, FromSelfId);
    LinkApartLegal();
    KeysApartConcat(LinkQuestions, LegalQuestions, FromScreening);
    LinkApartMobility();
    KeysApartConcat(LinkQuestions, MobilityQuestions, FromLegal);
    LinkApartAvailability();
    KeysApartConcat(LinkQuestions, AvailabilityQuestions, FromMobility);
    LinkApartWorkHistory();
    KeysApartConcat(LinkQuestions, WorkHistoryQuestions, FromAvailability);
    LinkApartEducation();
    KeysApartConcat(LinkQuestions, EducationQuestions, FromWorkHistory);
  }

  lemma EducationApart()
    ensures DistinctKeys(EducationQuestions)
    ensures KeysApart(EducationQuestions, FromWorkHistory)
  {
    EducationApartPitch();
    EducationApartAccessibility();
    KeysApartConcat(EducationQuestions, AccessibilityQuestions, PitchQuestions);
    EducationApartSelfId();
    KeysApartConcat(EducationQuestions, SelfIdQuestions, FromAccessibility);
    EducationApartScreening();
    KeysApartConcat(EducationQuestions, ScreeningQuestions, FromSelfId);
    EducationApartLegal();
    KeysApartConcat(EducationQuestions, LegalQuestions, FromScreening);
    EducationApartMobility();
    KeysApartConcat(EducationQuestions, MobilityQuestions, FromLegal);
    EducationApartAvailability();
    KeysApartConcat(EducationQuestions, AvailabilityQuestions, FromMobility);
    EducationApartWorkHistory();
    KeysApartConcat(EducationQuestions, WorkHistoryQuestions, FromAvailability);
  }

  lemma WorkHistoryApart()
    ensures DistinctKeys(WorkHistoryQuestions)
    ensures KeysApart(WorkHistoryQuestions, FromAvailability)
  {
    WorkHistoryApartPitch();
    WorkHistoryApartAccessibility();
    KeysApartConcat(WorkHistoryQuestions, AccessibilityQuestions, PitchQuestions);
    WorkHistoryApartSelfId();
    KeysApartConcat(WorkHistoryQuestions, SelfIdQuestions, FromAccessibility);
    WorkHistoryApartScreening();
    KeysApartConcat(WorkHistoryQuestions, ScreeningQuestions, FromSelfId);
    WorkHistoryApartLegal();
    KeysApartConcat(WorkHistoryQuestions, LegalQuestions, FromScreening);
    WorkHistoryApartMobility();
    KeysApartConcat(WorkHistoryQuestions, MobilityQuestions, FromLegal);
    WorkHistoryApartAvailability();
    KeysApartConcat(WorkHistoryQuestions, AvailabilityQuestions, FromMobility);
  }

  lemma AvailabilityApart()
    ensures DistinctKeys(AvailabilityQuestions)
    ensures KeysApart(AvailabilityQuestions, FromMobility)
  {
    AvailabilityApartPitch();
    AvailabilityApartAccessibility();
    KeysApartConcat(AvailabilityQuestions, AccessibilityQuestions, PitchQuestions);
    AvailabilityApartSelfId();
    KeysApartConcat(AvailabilityQuestions, SelfIdQuestions, FromAccessibility);
    AvailabilityApartScreening();
    KeysApartConcat(AvailabilityQuestions, ScreeningQuestions, FromSelfId);
    AvailabilityApartLegal();
    KeysApartConcat(AvailabilityQuestions, LegalQuestions, FromScreening);
    AvailabilityApartMobility();
    KeysApartConcat(AvailabilityQuestions, MobilityQuestions, FromLegal);
  }

  lemma MobilityApart()
    ensures DistinctKeys(MobilityQuestions)
    ensures KeysApart(MobilityQuestions, FromLegal)
  {
    MobilityApartPitch();
    MobilityApartAccessibility();
    KeysApartConcat(MobilityQuestions, AccessibilityQuestions, PitchQuestions);
    MobilityApartSelfId();
    KeysApartConcat(MobilityQuestions, SelfIdQuestions, FromAccessibility);
    MobilityApartScreening();
    KeysApartConcat(MobilityQuestions, ScreeningQuestions, FromSelfId);
    MobilityApartLegal();
    KeysApartConcat(MobilityQuestions, LegalQuestions, FromScreening);
  }

  lemma LegalApart()
    ensures DistinctKeys(LegalQuestions)
    ensures KeysApart(LegalQuestions, FromScreening)
  {
    LegalApartPitch();
    LegalApartAccessibility();
    KeysApartConcat(LegalQuestions, AccessibilityQuestions, PitchQuestions);
    LegalApartSelfId();
    KeysApartConcat(LegalQuestions, SelfIdQuestions, FromAccessibility);
    LegalApartScreening();
    KeysApartConcat(LegalQuestions, ScreeningQuestions, FromSelfId);
  }

  lemma ScreeningApart()
    ensures DistinctKeys(ScreeningQuestions)
    ensures KeysApart(ScreeningQuestions, FromSelfId)
  {
    ScreeningApartPitch();
    ScreeningApartAccessibility();
    KeysApartConcat(ScreeningQuestions, AccessibilityQuestions, PitchQuestions);
    ScreeningApartSelfId();
    KeysApartConcat(ScreeningQuestions, SelfIdQuestions, FromAccessibility);
  }

  lemma SelfIdApart()
    ensures DistinctKeys(SelfIdQuestions)
    ensures KeysApart(SelfIdQuestions, FromAccessibility)
  {
    SelfIdApartPitch();
    SelfIdApartAccessibility();
    KeysApartConcat(SelfIdQuestions, AccessibilityQuestions, PitchQuestions);
  }

  lemma AccessibilityApart()
    ensures DistinctKeys(AccessibilityQuestions)
    ensures KeysApart(AccessibilityQuestions, PitchQuestions)
  {
    AccessibilityApartPitch();
  }

  /** No two catalog records share a key. */
  lemma CatalogKeysDistinct()
    ensures DistinctKeys(Catalog)
  {
    PitchDistinct();
    AccessibilityApart();
    DistinctKeysConcat(AccessibilityQuestions, PitchQuestions);
    SelfIdApart();
    DistinctKeysConcat(SelfIdQuestions, FromAccessibility);
    ScreeningApart();
    DistinctKeysConcat(ScreeningQuestions, FromSelfId);
    LegalApart();
    DistinctKeysConcat(LegalQuestions, FromScreening);
    MobilityApart();
    DistinctKeysConcat(MobilityQuestions, FromLegal);
    AvailabilityApart();
    DistinctKeysConcat(AvailabilityQuestions, FromMobility);
    WorkHistoryApart();
    DistinctKeysConcat(WorkHistoryQuestions, FromAvailability);
    EducationApart();
    DistinctKeysConcat(EducationQuestions, FromWorkHistory);
    LinkApart();
    DistinctKeysConcat(LinkQuestions, FromEducation);
    ContactApart();
    DistinctKeysConcat(ContactQuestions, FromLink);
    NameApart();
    DistinctKeysConcat(NameQuestions, FromContact);
    assert Catalog == NameQuestions + FromContact;
  }

  /** Every record is found by its own key: the first match is the only one. */
  lemma LookupFindsEveryRecord(i: int)
    requires 0 <= i < |Catalog|
    ensures GetQuestionByKey(Catalog[i].key) == Some(Catalog[i])
  {
    CatalogKeysDistinct();
    FindByKeyUnique(Catalog, i);
  }

  // ----- The catalog's groups -----

  // The catalog up to each section, for proofs that go section by section.
  ghost const ThroughContact: seq<Question> := NameQuestions + ContactQuestions
  ghost const ThroughLink: seq<Question> := ThroughContact + LinkQuestions
  ghost const ThroughEducation: seq<Question> := ThroughLink + EducationQuestions
  ghost const ThroughWorkHistory: seq<Question> := ThroughEducation + WorkHistoryQuestions
  ghost const ThroughAvailability: seq<Question> := ThroughWorkHistory + AvailabilityQuestions
  ghost const ThroughMobility: seq<Question> := ThroughAvailability + MobilityQuestions
  ghost const ThroughLegal: seq<Question> := ThroughMobility + LegalQuestions
  ghost const ThroughScreening: seq<Question> := ThroughLegal + ScreeningQuestions
  ghost const ThroughSelfId: seq<Question> := ThroughScreening + SelfIdQuestions
  ghost const ThroughAccessibility: seq<Question> := ThroughSelfId + AccessibilityQuestions

  /** Every record of `qs` is in category `c`. */
  predicate InCategory(qs: seq<Question>, c: string) {
    forall i :: 0 <= i < |qs| ==> qs[i].category == c
  }

  lemma PersonalCategories()
    ensures InCategory(NameQuestions, "personal")
    ensures InCategory(ContactQuestions, "personal")
    ensures InCategory(LinkQuestions, "professional_links")
  {
  }

  lemma BackgroundCategories()
    ensures InCategory(EducationQuestions, "education")
    ensures InCategory(WorkHistoryQuestions, "work_history")
    ensures InCategory(AvailabilityQuestions, "logistics")
  {
  }

  lemma LogisticsCategories()
    ensures InCategory(MobilityQuestions, "logistics")
    ensures InCategory(LegalQuestions, "legal")
    ensures InCategory(ScreeningQuestions, "screening")
  {
  }

  lemma ClosingCategories()
    ensures InCategory(SelfIdQuestions, "self_id")
    ensures InCategory(AccessibilityQuestions, "accessibility")
    ensures InCategory(PitchQuestions, "pitch")
  {
  }

  /** Each section holds records of a single category. */
  lemma SectionCategories()
    ensures InCategory(NameQuestions, "personal")
    ensures InCategory(ContactQuestions, "personal")
    ensures InCategory(LinkQuestions, "professional_links")
    ensures InCategory(EducationQuestions, "education")
    ensures InCategory(WorkHistoryQuestions, "work_history")
    ensures InCategory(AvailabilityQuestions, "logistics")
    ensures InCategory(MobilityQuestions, "logistics")
    ensures InCategory(LegalQuestions, "legal")
    ensures InCategory(ScreeningQuestions, "screening")
    ensures InCategory(SelfIdQuestions, "self_id")
    ensures InCategory(AccessibilityQuestions, "accessibility")
    ensures InCategory(PitchQuestions, "pitch")
  {
    PersonalCategories();
    BackgroundCategories();
    LogisticsCategories();
    ClosingCategories();
  }

  /** Appending records of one category `d` extends only the group of `d`. */
  lemma FilterAppendSection(a: seq<Question>, b: seq<Question>, c: string, d: string)
    requires InCategory(b, d)
    ensures Filter(a + b, c) == Filter(a, c) + (if c == d then b else [])
  {
    FilterConcat(a, b, c);
    FilterSection(b, c, d);
  }

  lemma {:induction false} FilterSection(b: seq<Question>, c: string, d: string)
    requires InCategory(b, d)
    ensures Filter(b, c) == if c == d then b else []
    decreases |b|
  {
    if b != [] {
      var prefix := b[..|b| - 1];
      FilterSection(prefix, c, d);
      assert b == prefix + [b[|b| - 1]];
    }
  }

  /** The groups `get_questions_by_category` returns for the catalog: each
      category's sections, in source order. */
  lemma CatalogGroups(c: string)
    ensures Filter(Catalog, c) ==
      (if c == "personal" then NameQuestions else [])
      + (if c == "personal" then ContactQuestions else [])
      + (if c == "professional_links" then LinkQuestions else [])
      + (if c == "education" then EducationQuestions else [])
      + (if c == "work_history" then WorkHistoryQuestions else [])
      + (if c == "logistics" then AvailabilityQuestions else [])
      + (if c == "logistics" then MobilityQuestions else [])
      + (if c == "legal" then LegalQuestions else [])
      + (if c == "screening" then ScreeningQuestions else [])
      + (if c == "self_id" then SelfIdQuestions else [])
      + (if c == "accessibility" then AccessibilityQuestions else [])
      + (if c == "pitch" then PitchQuestions else [])
  {
    SectionCategories();
    FilterSection(NameQuestions, c, "personal");
    FilterAppendSection(NameQuestions, ContactQuestions, c, "personal");
    FilterAppendSection(ThroughContact, LinkQuestions, c, "professional_links");
    FilterAppendSection(ThroughLink, EducationQuestions, c, "education");
    FilterAppendSection(ThroughEducation, WorkHistoryQuestions, c, "work_history");
    FilterAppendSection(ThroughWorkHistory, AvailabilityQuestions, c, "logistics");
    FilterAppendSection(ThroughAvailability, MobilityQuestions, c, "logistics");
    FilterAppendSection(ThroughMobility, LegalQuestions, c, "legal");
    FilterAppendSection(ThroughLegal, ScreeningQuestions, c, "screening");
    FilterAppendSection(ThroughScreening, SelfIdQuestions, c, "self_id");
    FilterAppendSection(ThroughSelfId, AccessibilityQuestions, c, "accessibility");
    FilterAppendSection(ThroughAccessibility, PitchQuestions, c, "pitch");
  }
}
