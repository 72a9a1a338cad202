/** Worked cases of `FieldMatcher` on the real keyword table, including the
    tie-breaks that follow from the strict `>` of the scan, the keywords that
    normalisation makes unreachable, and option projection. */
module Scenarios {
  import opened Wrappers
  import opened Text
  import opened Keywords
  import opened Matcher

  // ----- Search texts -----

  /** Normalising a search text whose lower-cased form is already clean and
      whose stripped form is in normal form. */
  lemma SearchTextVia(fieldLabel: string, fieldName: string, c: string, t: string)
    requires Lower(fieldLabel + " " + fieldName) == c && Clean(c) == c
    requires TrimStart(c) == c && TrimEnd(c) == t
    requires forall i :: 0 <= i < |t| ==> IsNormalChar(t[i])
    requires forall i :: 0 <= i < |t| - 1 ==> !(t[i] == ' ' && t[i + 1] == ' ')
    requires |t| > 0 ==> t[|t| - 1] != ' '
    ensures SearchText(fieldLabel, fieldName) == t
  {
    assert |fieldLabel + " " + fieldName| > 0;
    CollapseFixed(t);
  }

  /** Text that does not start with whitespace is left alone by `TrimStart`. */
  lemma TrimStartKeeps(t: string)
    requires t != [] && !IsSpace(t[0])
    ensures TrimStart(t) == t
  {
  }

  lemma LastNameLowered()
    ensures Lower("Last Name" + " " + "") == "last name "
  {
    assert "Last Name" + " " + "" == "Last Name ";
  }

  lemma LastNameCleaned()
    ensures Clean("last name ") == "last name "
  {
  }

  lemma LastNameUnindented()
    ensures TrimStart("last name ") == "last name "
  {
    TrimStartKeeps("last name ");
  }

  lemma LastNameTrimmed()
    ensures TrimEnd("last name ") == "last name"
  {
  }

  lemma StartDateLowered()
    ensures Lower("Start Date" + " " + "") == "start date "
  {
    assert "Start Date" + " " + "" == "Start Date ";
  }

  lemma StartDateCleaned()
    ensures Clean("start date ") == "start date "
  {
  }

  lemma StartDateUnindented()
    ensures TrimStart("start date ") == "start date "
  {
    TrimStartKeeps("start date ");
  }

  lemma StartDateTrimmed()
    ensures TrimEnd("start date ") == "start date"
  {
  }

  lemma FullNameLowered()
    ensures Lower("Full Name" + " " + "") == "full name "
  {
    assert "Full Name" + " " + "" == "Full Name ";
  }

  lemma FullNameCleaned()
    ensures Clean("full name ") == "full name "
  {
  }

  lemma FullNameUnindented()
    ensures TrimStart("full name ") == "full name "
  {
    TrimStartKeeps("full name ");
  }

  lemma FullNameTrimmed()
    ensures TrimEnd("full name ") == "full name"
  {
  }

  lemma MiddleNameLowered()
    ensures Lower("Middle Name" + " " + "") == "middle name "
  {
    assert "Middle Name" + " " + "" == "Middle Name ";
  }

  lemma MiddleNameCleaned()
    ensures Clean("middle name ") == "middle name "
  {
  }

  lemma MiddleNameUnindented()
    ensures TrimStart("middle name ") == "middle name "
  {
    TrimStartKeeps("middle name ");
  }

  lemma MiddleNameTrimmed()
    ensures TrimEnd("middle name ") == "middle name"
  {
  }

  // ----- Ties go to the earlier entry -----

  /** A keyword does not occur at position `p` when one of its characters
      differs from the text there. */
  lemma MismatchAt(text: string, kw: string, p: int, d: int)
    requires 0 <= p && 0 <= d < |kw| && p + d < |text| && text[p + d] != kw[d]
    ensures !OccursAt(text, kw, p)
  {
  }

  // ----- Sweeps over the keyword table -----

  /** Every keyword of entries `i` up to (not including) `n` of `table`
      satisfies `p`. Written by index, so that it can be evaluated on the
      literal tables. */
  predicate EveryFrom(table: Table, i: nat, n: nat, p: string -> bool)
    decreases n - i
  {
    i >= n || i >= |table| || (EveryKeywordFrom(table[i].1, 0, p) && EveryFrom(table, i + 1, n, p))
  }

  predicate EveryKeywordFrom(kws: seq<Keyword>, j: nat, p: string -> bool)
    decreases |kws| - j
  {
    j >= |kws| || (p(kws[j]) && EveryKeywordFrom(kws, j + 1, p))
  }

  lemma {:induction false} EveryKeywordFromMeans(kws: seq<Keyword>, j: nat, p: string -> bool)
    requires EveryKeywordFrom(kws, j, p)
    ensures forall j' :: j <= j' < |kws| ==> p(kws[j'])
    decreases |kws| - j
  {
    if j < |kws| {
      EveryKeywordFromMeans(kws, j + 1, p);
    }
  }

  lemma {:induction false} EveryFromMeans(table: Table, i: nat, n: nat, p: string -> bool)
    requires EveryFrom(table, i, n, p)
    ensures forall i', j :: i <= i' < n && i' < |table| && 0 <= j < |table[i'].1| ==> p(table[i'].1[j])
    decreases n - i
  {
    if i < n && i < |table| {
      EveryKeywordFromMeans(table[i].1, 0, p);
      EveryFromMeans(table, i + 1, n, p);
    }
  }

  /** Every keyword of the first `n` entries of `table` satisfies `p`. */
  ghost predicate EveryBefore(table: Table, n: int, p: string -> bool) {
    forall i, j :: 0 <= i < n && i < |table| && 0 <= j < |table[i].1| ==> p(table[i].1[j])
  }

  lemma EveryFromBefore(table: Table, n: nat, p: string -> bool)
    requires EveryFrom(table, 0, n, p)
    ensures EveryBefore(table, n, p)
  {
    EveryFromMeans(table, 0, n, p);
  }

  lemma EveryBeforeConcat(a: Table, b: Table, n: int, p: string -> bool)
    requires EveryBefore(a, |a|, p) && EveryBefore(b, n, p)
    ensures EveryBefore(a + b, |a| + n, p)
  {
    forall i, j | 0 <= i < |a| + n && i < |a + b| && 0 <= j < |(a + b)[i].1|
      ensures p((a + b)[i].1[j])
    {
      if i >= |a| {
        assert (a + b)[i] == b[i - |a|];
      }
    }
  }

  lemma EveryBeforeExtend(a: Table, b: Table, n: int, p: string -> bool)
    requires EveryBefore(a, n, p) && n <= |a|
    ensures EveryBefore(a + b, n, p)
  {
    forall i, j | 0 <= i < n && i < |a + b| && 0 <= j < |(a + b)[i].1|
      ensures p((a + b)[i].1[j])
    {
      assert (a + b)[i] == a[i];
    }
  }

  /** Neither "last" nor "l" runs straight into "name" in "last name". */
  lemma LastNameLacks(kw: string)
    requires kw == "lastname" || kw == "lname"
    ensures !Contains("last name", kw)
  {
    var t := "last name";
    ContainsIff(t, kw);
    forall p | 0 <= p <= |t| - |kw|
      ensures !OccursAt(t, kw, p)
    {
      MismatchAt(t, kw, p, if p == 0 then 4 else 0);
    }
  }

  /** "surname" could only start at the "s" of "last", where "t" follows. */
  lemma LastNameLacksSurname()
    ensures !Contains("last name", "surname")
  {
    var t := "last name";
    ContainsIff(t, "surname");
    forall p | 0 <= p <= |t| - 7
      ensures !OccursAt(t, "surname", p)
    {
      MismatchAt(t, "surname", p, if p == 2 then 1 else 0);
    }
  }

  lemma LastNameSectionMiss(j: int)
    requires 1 <= j < |NameKeywords[3].1|
    ensures !Contains("last name", NameKeywords[3].1[j])
  {
    var kw := NameKeywords[3].1[j];
    if kw == "surname" {
      LastNameLacksSurname();
    } else if kw == "family" {
      MissingFirstChar("last name", kw);
    } else {
      LastNameLacks(kw);
    }
  }

  lemma LastNameKeywordsMiss(j: int)
    requires 1 <= j < |KeywordTable[3].1|
    ensures !Hit(KeywordTable, "last name", 3, j)
  {
    assert KeywordTable[3] == NameKeywords[3];
    LastNameSectionMiss(j);
  }

  lemma LastNameTie()
    ensures KeywordTable[0].0 == "full_name" && KeywordTable[3].0 == "last_name"
    ensures Hit(KeywordTable, "last name", 3, 0)
    ensures forall j :: !IsBestHit(KeywordTable, "last name", 3, j)
  {
    var t := "last name";
    assert KeywordTable[0] == NameKeywords[0];
    assert KeywordTable[3] == NameKeywords[3];
    ContainsAt(t, "name", 5);
    ContainsAt(t, "last", 0);
    assert Hit(KeywordTable, t, 0, 2) && KeywordLength(KeywordTable, 0, 2) == 4;
    forall j | IsBestHit(KeywordTable, t, 3, j)
      ensures false
    {
      if j != 0 {
        LastNameKeywordsMiss(j);
      }
    }
  }

  /** "Last Name" hits `name` of full_name and `last` of last_name, both four
      characters long; full_name comes first, so last_name is never chosen. */
  lemma LastNameIsNotLastName()
    ensures KeywordTable[0].0 == "full_name" && KeywordTable[3].0 == "last_name"
    ensures Hit(KeywordTable, SearchText("Last Name", ""), 3, 0)
    ensures forall j :: !IsBestHit(KeywordTable, SearchText("Last Name", ""), 3, j)
    ensures IsBestHit(KeywordTable, SearchText("Last Name", ""), 0, 2)
  {
    LastNameLowered();
    LastNameCleaned();
    LastNameUnindented();
    LastNameTrimmed();
    SearchTextVia("Last Name", "", "last name ", "last name");
    LastNameTie();
    LastNameBest();
  }

  /** The characters of "last name". */
  predicate InLastName(c: char) {
    c == 'l' || c == 'a' || c == 's' || c == 't' || c == ' ' || c == 'n' || c == 'm' || c == 'e'
  }

  lemma LastNameChar(kw: string, k: int)
    requires Contains("last name", kw) && 0 <= k < |kw|
    ensures InLastName(kw[k])
  {
    LastNameCharAt("last name", kw, k);
  }

  /** `LastNameChar` with the text passed in, so that the solver does not
      unfold the search over the literal. */
  lemma LastNameCharAt(t: string, kw: string, k: int)
    requires t == "last name" && Contains(t, kw) && 0 <= k < |kw|
    ensures InLastName(kw[k])
  {
    ContainsIff(t, kw);
    var p :| OccursAt(t, kw, p);
    assert kw[k] == t[p + k];
    assert |t| == 9;
    assert forall m :: 0 <= m < 9 ==> InLastName(t[m]);
  }

  /** The keywords longer than four characters that "last name" could
      hold by their characters alone; each is ruled out by position. */
  predicate LastNameLookalike(kw: string) {
    kw == "lname" || kw == "mname" || kw == "lastname" || kw == "state"
  }

  /** A keyword that "last name" cannot hold unless it is at most four
      characters long: it is longer than the text, is a lookalike, or has a
      foreign character among its first five. */
  predicate FitsLastName(kw: string) {
    || |kw| <= 4 || |kw| > 9
    || !InLastName(kw[0]) || !InLastName(kw[1]) || !InLastName(kw[2])
    || !InLastName(kw[3]) || !InLastName(kw[4]) || LastNameLookalike(kw)
  }

  lemma LookalikeMisses(kw: string)
    requires LastNameLookalike(kw)
    ensures !Contains("last name", kw)
  {
    var t := "last name";
    ContainsIff(t, kw);
    forall p | 0 <= p <= |t| - |kw|
      ensures !OccursAt(t, kw, p)
    {
      MismatchAt(t, kw, p, if kw == "state" && p == 2 then 2 else if p == 0 && kw[0] == 'l' then 4 else 0);
    }
  }

  lemma NameFitLastName()
    ensures EveryBefore(NameKeywords, |NameKeywords|, FitsLastName)
  {
    EveryFromBefore(NameKeywords, 5, FitsLastName);
  }

  lemma ContactFitLastName()
    ensures EveryBefore(ContactKeywords, |ContactKeywords|, FitsLastName)
  {
    EveryFromBefore(ContactKeywords, 7, FitsLastName);
  }

  lemma LinkFitLastName()
    ensures EveryBefore(LinkKeywords, |LinkKeywords|, FitsLastName)
  {
    EveryFromBefore(LinkKeywords, 6, FitsLastName);
  }

  lemma EducationFitLastName()
    ensures EveryBefore(EducationKeywords, |EducationKeywords|, FitsLastName)
  {
    EveryFromBefore(EducationKeywords, 5, FitsLastName);
  }

  lemma WorkHistoryFitLastName()
    ensures EveryBefore(WorkHistoryKeywords, |WorkHistoryKeywords|, FitsLastName)
  {
    EveryFromBefore(WorkHistoryKeywords, 5, FitsLastName);
  }

  lemma AvailabilityFitLastName()
    ensures EveryBefore(AvailabilityKeywords, |AvailabilityKeywords|, FitsLastName)
  {
    EveryFromBefore(AvailabilityKeywords, 3, FitsLastName);
  }

  lemma MobilityFitLastName()
    ensures EveryBefore(MobilityKeywords, |MobilityKeywords|, FitsLastName)
  {
    EveryFromBefore(MobilityKeywords, 3, FitsLastName);
  }

  lemma LegalFitLastName()
    ensures EveryBefore(LegalKeywords, |LegalKeywords|, FitsLastName)
  {
    EveryFromBefore(LegalKeywords, 3, FitsLastName);
  }

  lemma ScreeningFitLastName()
    ensures EveryBefore(ScreeningKeywords, |ScreeningKeywords|, FitsLastName)
  {
    EveryFromBefore(ScreeningKeywords, 4, FitsLastName);
  }

  lemma SelfIdFitLastName()
    ensures EveryBefore(SelfIdKeywords, |SelfIdKeywords|, FitsLastName)
  {
    EveryFromBefore(SelfIdKeywords, 4, FitsLastName);
  }

  lemma AccessibilityFitLastName()
    ensures EveryBefore(AccessibilityKeywords, |AccessibilityKeywords|, FitsLastName)
  {
    EveryFromBefore(AccessibilityKeywords, 2, FitsLastName);
  }

  lemma TableFitsLastName()
    ensures forall i, j :: 0 <= i < |KeywordTable| && 0 <= j < |KeywordTable[i].1| ==>
      FitsLastName(KeywordTable[i].1[j])
  {
    var p := FitsLastName;
    NameFitLastName();
    ContactFitLastName();
    LinkFitLastName();
    EducationFitLastName();
    WorkHistoryFitLastName();
    AvailabilityFitLastName();
    MobilityFitLastName();
    LegalFitLastName();
    ScreeningFitLastName();
    SelfIdFitLastName();
    AccessibilityFitLastName();
    EveryBeforeConcat(NameKeywords, ContactKeywords, |ContactKeywords|, p);
    EveryBeforeConcat(NameKeywords + ContactKeywords, LinkKeywords, |LinkKeywords|, p);
    EveryBeforeConcat(NameKeywords + ContactKeywords + LinkKeywords, EducationKeywords, |EducationKeywords|, p);
    EveryBeforeConcat(NameKeywords + ContactKeywords + LinkKeywords + EducationKeywords, WorkHistoryKeywords, |WorkHistoryKeywords|, p);
    EveryBeforeConcat(NameKeywords + ContactKeywords + LinkKeywords + EducationKeywords + WorkHistoryKeywords, AvailabilityKeywords, |AvailabilityKeywords|, p);
    EveryBeforeConcat(NameKeywords + ContactKeywords + LinkKeywords + EducationKeywords + WorkHistoryKeywords + AvailabilityKeywords, MobilityKeywords, |MobilityKeywords|, p);
    EveryBeforeConcat(NameKeywords + ContactKeywords + LinkKeywords + EducationKeywords + WorkHistoryKeywords + AvailabilityKeywords + MobilityKeywords, LegalKeywords, |LegalKeywords|, p);
    EveryBeforeConcat(NameKeywords + ContactKeywords + LinkKeywords + EducationKeywords + WorkHistoryKeywords + AvailabilityKeywords + MobilityKeywords + LegalKeywords, ScreeningKeywords, |ScreeningKeywords|, p);
    EveryBeforeConcat(NameKeywords + ContactKeywords + LinkKeywords + EducationKeywords + WorkHistoryKeywords + AvailabilityKeywords + MobilityKeywords + LegalKeywords + ScreeningKeywords, SelfIdKeywords, |SelfIdKeywords|, p);
    EveryBeforeConcat(NameKeywords + ContactKeywords + LinkKeywords + EducationKeywords + WorkHistoryKeywords + AvailabilityKeywords + MobilityKeywords + LegalKeywords + ScreeningKeywords + SelfIdKeywords, AccessibilityKeywords, |AccessibilityKeywords|, p);
  }

  /** No keyword of the table longer than four characters occurs in "last name". */
  lemma LastNameShortHits()
    ensures forall i, j :: Hit(KeywordTable, "last name", i, j) ==> KeywordLength(KeywordTable, i, j) <= 4
  {
    TableFitsLastName();
    forall i, j | Hit(KeywordTable, "last name", i, j)
      ensures KeywordLength(KeywordTable, i, j) <= 4
    {
      var kw := KeywordTable[i].1[j];
      if LastNameLookalike(kw) {
        LookalikeMisses(kw);
      } else if 4 < |kw| <= 9 {
        LastNameChar(kw, 0);
        LastNameChar(kw, 1);
        LastNameChar(kw, 2);
        LastNameChar(kw, 3);
        LastNameChar(kw, 4);
      }
    }
  }

  lemma FullNameEntry()
    ensures 0 < |KeywordTable| && KeywordTable[0].0 == "full_name"
    ensures |KeywordTable[0].1| == 4 && KeywordTable[0].1[2] == "name"
    ensures |KeywordTable[0].1[0]| == 9 && |KeywordTable[0].1[1]| == 13
  {
    assert KeywordTable[0] == NameKeywords[0];
  }

  /** `name` of full_name is the hit the scan keeps for "last name". */
  lemma LastNameBest()
    ensures KeywordTable[0].0 == "full_name"
    ensures IsBestHit(KeywordTable, "last name", 0, 2)
  {
    FullNameEntry();
    ContainsAt("last name", "name", 5);
    LastNameShortHits();
  }

  lemma StartDateEntries()
    ensures 28 < |KeywordTable|
    ensures KeywordTable[25].0 == "current_job_start_date" && KeywordTable[28].0 == "availability_date"
    ensures |KeywordTable[25].1| == 3 && KeywordTable[25].1[0] == "start date"
    ensures |KeywordTable[28].1| == 5 && KeywordTable[28].1[1] == "start date"
  {
    assert KeywordTable[25] == WorkHistoryKeywords[2];
    assert KeywordTable[28] == AvailabilityKeywords[0];
  }

  lemma StartDateHits()
    ensures KeywordTable[25].0 == "current_job_start_date" && KeywordTable[28].0 == "availability_date"
    ensures Hit(KeywordTable, "start date", 25, 0) && KeywordLength(KeywordTable, 25, 0) == 10
    ensures Hit(KeywordTable, "start date", 28, 1)
  {
    StartDateEntries();
    ContainsAt("start date", "start date", 0);
  }

  predicate NotStartDate(kw: string) {
    kw != "start date"
  }

  lemma NameLackStartDate()
    ensures EveryBefore(NameKeywords, |NameKeywords|, NotStartDate)
  {
    EveryFromBefore(NameKeywords, 5, NotStartDate);
  }

  lemma ContactLackStartDate()
    ensures EveryBefore(ContactKeywords, |ContactKeywords|, NotStartDate)
  {
    EveryFromBefore(ContactKeywords, 7, NotStartDate);
  }

  lemma LinkLackStartDate()
    ensures EveryBefore(LinkKeywords, |LinkKeywords|, NotStartDate)
  {
    EveryFromBefore(LinkKeywords, 6, NotStartDate);
  }

  lemma EducationLackStartDate()
    ensures EveryBefore(EducationKeywords, |EducationKeywords|, NotStartDate)
  {
    EveryFromBefore(EducationKeywords, 5, NotStartDate);
  }

  lemma WorkHistoryLackStartDate()
    ensures EveryBefore(WorkHistoryKeywords, 2, NotStartDate)
  {
    EveryFromBefore(WorkHistoryKeywords, 2, NotStartDate);
  }

  /** No keyword of the 25 entries before current_job_start_date is "start date". */
  lemma EarlyEntriesLackStartDate()
    ensures EveryBefore(KeywordTable, 25, NotStartDate)
  {
    var p := NotStartDate;
    NameLackStartDate();
    ContactLackStartDate();
    LinkLackStartDate();
    EducationLackStartDate();
    WorkHistoryLackStartDate();
    EveryBeforeConcat(NameKeywords, ContactKeywords, |ContactKeywords|, p);
    EveryBeforeConcat(NameKeywords + ContactKeywords, LinkKeywords, |LinkKeywords|, p);
    EveryBeforeConcat(NameKeywords + ContactKeywords + LinkKeywords, EducationKeywords, |EducationKeywords|, p);
    EveryBeforeConcat(NameKeywords + ContactKeywords + LinkKeywords + EducationKeywords, WorkHistoryKeywords, 2, p);
    EveryBeforeExtend(NameKeywords + ContactKeywords + LinkKeywords + EducationKeywords + WorkHistoryKeywords, AvailabilityKeywords, 25, p);
    EveryBeforeExtend(NameKeywords + ContactKeywords + LinkKeywords + EducationKeywords + WorkHistoryKeywords + AvailabilityKeywords, MobilityKeywords, 25, p);
    EveryBeforeExtend(NameKeywords + ContactKeywords + LinkKeywords + EducationKeywords + WorkHistoryKeywords + AvailabilityKeywords + MobilityKeywords, LegalKeywords, 25, p);
    EveryBeforeExtend(NameKeywords + ContactKeywords + LinkKeywords + EducationKeywords + WorkHistoryKeywords + AvailabilityKeywords + MobilityKeywords + LegalKeywords, ScreeningKeywords, 25, p);
    EveryBeforeExtend(NameKeywords + ContactKeywords + LinkKeywords + EducationKeywords + WorkHistoryKeywords + AvailabilityKeywords + MobilityKeywords + LegalKeywords + ScreeningKeywords, SelfIdKeywords, 25, p);
    EveryBeforeExtend(NameKeywords + ContactKeywords + LinkKeywords + EducationKeywords + WorkHistoryKeywords + AvailabilityKeywords + MobilityKeywords + LegalKeywords + ScreeningKeywords + SelfIdKeywords, AccessibilityKeywords, 25, p);
  }

  /** `start date` of current_job_start_date is the hit the scan keeps for
      "start date": it spans the text, and no earlier keyword equals it. */
  lemma StartDateBest()
    ensures IsBestHit(KeywordTable, "start date", 25, 0)
  {
    var t := "start date";
    StartDateHits();
    EarlyEntriesLackStartDate();
    forall i, j | Hit(KeywordTable, t, i, j) && Precedes(i, j, 25, 0)
      ensures KeywordLength(KeywordTable, i, j) < |t|
    {
      var kw := KeywordTable[i].1[j];
      if |kw| == |t| {
        ContainsWhole(t, kw);
      }
    }
    WholeTextHit(KeywordTable, t, 25, 0);
  }

  lemma StartDateTie()
    ensures KeywordTable[25].0 == "current_job_start_date" && KeywordTable[28].0 == "availability_date"
    ensures Hit(KeywordTable, "start date", 28, 1)
    ensures forall i, j :: IsBestHit(KeywordTable, "start date", i, j) ==> i <= 25
  {
    StartDateHits();
    WholeTextHit(KeywordTable, "start date", 25, 0);
  }

  /** "Start Date" is a whole keyword of both current_job_start_date and
      availability_date; the first wins, so availability_date is never
      chosen for it. */
  lemma StartDateIsNotAvailability()
    ensures KeywordTable[25].0 == "current_job_start_date" && KeywordTable[28].0 == "availability_date"
    ensures Hit(KeywordTable, SearchText("Start Date", ""), 28, 1)
    ensures forall i, j :: IsBestHit(KeywordTable, SearchText("Start Date", ""), i, j) ==> i <= 25
    ensures IsBestHit(KeywordTable, SearchText("Start Date", ""), 25, 0)
  {
    StartDateLowered();
    StartDateCleaned();
    StartDateUnindented();
    StartDateTrimmed();
    SearchTextVia("Start Date", "", "start date ", "start date");
    StartDateTie();
    StartDateBest();
  }

  lemma RaggedLastNameLowered()
    ensures Lower("Last\t  Name:" + " " + "") == "last\t  name: "
  {
    assert "Last\t  Name:" + " " + "" == "Last\t  Name: ";
  }

  lemma RaggedLastNameCleaned()
    ensures Clean("last\t  name: ") == "last\t  name  "
  {
  }

  lemma RaggedLastNameStripped()
    ensures Strip("last\t  name  ") == "last\t  name"
  {
    assert TrimStart("last\t  name  ") == "last\t  name  ";
    assert TrimEnd("last\t  name  ") == "last\t  name";
  }

  /** The pieces of "last\t  name" from its last word on. */
  lemma RaggedWordPieces(t: string)
    requires t == "last\t  name"
    ensures RunPiecesFrom(t, 7) == "name"
  {
    assert |t| == 11;
    assert RunPiecesFrom(t, 11) == "";
    assert RunPiecesFrom(t, 10) == "e";
    assert RunPiecesFrom(t, 9) == "me";
    assert RunPiecesFrom(t, 8) == "ame";
  }

  /** The tab and the two spaces give one space. */
  lemma RaggedRunPieces(t: string)
    requires t == "last\t  name"
    ensures RunPiecesFrom(t, 4) == " name"
  {
    RaggedWordPieces(t);
    assert t[3] == 't' && t[4] == '\t' && t[5] == ' ' && t[6] == ' ';
    assert RunPiecesFrom(t, 6) == "name";
    assert RunPiecesFrom(t, 5) == "name";
  }

  lemma RaggedPieces(t: string)
    requires t == "last\t  name"
    ensures RunPiecesFrom(t, 0) == "last name"
  {
    RaggedRunPieces(t);
    assert RunPiecesFrom(t, 3) == "t name";
    assert RunPiecesFrom(t, 2) == "st name";
    assert RunPiecesFrom(t, 1) == "ast name";
  }

  lemma RaggedLastNameCollapsed()
    ensures Collapse("last\t  name") == "last name"
  {
    CollapseRuns("last\t  name");
    RaggedPieces("last\t  name");
  }

  /** A label with a tab, a run of spaces and a trailing colon searches the
      same text as "Last Name": the colon becomes a space, the ends are
      stripped and the whitespace run becomes one space. So the scan keeps
      full_name's `name` for it too. */
  lemma RaggedLastNameText()
    ensures SearchText("Last\t  Name:", "") == "last name"
    ensures IsBestHit(KeywordTable, SearchText("Last\t  Name:", ""), 0, 2)
  {
    RaggedLastNameLowered();
    RaggedLastNameCleaned();
    RaggedLastNameStripped();
    RaggedLastNameCollapsed();
    LastNameBest();
  }

  // ----- Synthesised full name -----

  lemma FullNameBest()
    ensures KeywordTable[0].0 == "full_name"
    ensures IsBestHit(KeywordTable, "full name", 0, 0)
    ensures forall i, j :: IsBestHit(KeywordTable, "full name", i, j) ==> i == 0
  {
    var t := "full name";
    assert KeywordTable[0] == NameKeywords[0];
    ContainsAt(t, "full name", 0);
    assert Hit(KeywordTable, t, 0, 0);
    WholeTextHit(KeywordTable, t, 0, 0);
    forall i, j | IsBestHit(KeywordTable, t, i, j)
      ensures i == 0
    {
      BestHitUnique(KeywordTable, t, i, j, 0, 0);
    }
  }

  lemma AdaResolves()
    ensures FieldMatcher(map["first_name" := "Ada", "last_name" := "Lovelace"]).Resolve("full_name")
      == Some("Ada Lovelace")
  {
    var m := map["first_name" := "Ada", "last_name" := "Lovelace"];
    assert "full_name" != "first_name" && "full_name" != "last_name";
    assert "full_name" !in m;
    assert m["first_name"] + " " + m["last_name"] == "Ada Lovelace";
  }

  /** With first and last names stored but no full name, a "Full Name" text
      field is filled with the two joined by a space. */
  lemma FullNameIsSynthesised()
    ensures var m := FieldMatcher(map["first_name" := "Ada", "last_name" := "Lovelace"]);
      forall i, j :: IsBestHit(KeywordTable, SearchText("Full Name", ""), i, j) ==>
        Fill(m.Resolve(KeywordTable[i].0), []) == Some("Ada Lovelace")
    ensures IsBestHit(KeywordTable, SearchText("Full Name", ""), 0, 0)
  {
    FullNameLowered();
    FullNameCleaned();
    FullNameUnindented();
    FullNameTrimmed();
    SearchTextVia("Full Name", "", "full name ", "full name");
    FullNameBest();
    AdaResolves();
  }

  // ----- Suggestion takes the first entry, not the longest keyword -----

  lemma MiddleNameFirstEntry()
    ensures KeywordTable[0].0 == "full_name"
    ensures FirstHitEntry(KeywordTable, "middle name", 0) == 0
  {
    var t := "middle name";
    assert KeywordTable[0] == NameKeywords[0];
    ContainsAt(t, "name", 7);
    assert Hit(KeywordTable, t, 0, 2);
  }

  /** "Middle Name" is suggested as full_name: the first entry already hits
      through `name`. */
  lemma MiddleNameSuggestsFullName()
    ensures FieldMatcher(map[]).SuggestQuestionKey("Middle Name", "") == Some("full_name")
  {
    MiddleNameLowered();
    MiddleNameCleaned();
    MiddleNameUnindented();
    MiddleNameTrimmed();
    SearchTextVia("Middle Name", "", "middle name ", "middle name");
    MiddleNameFirstEntry();
  }

  // ----- Keywords normalisation makes unreachable -----

  /** Keyword `j` of entry `i` of the keyword table is `kw`, which holds a
      character normalised text never contains; so it is never hit. */
  lemma KeywordNeverHits(fieldLabel: string, fieldName: string, i: int, j: int, kw: string, k: int)
    requires 0 <= i < |KeywordTable| && 0 <= j < |KeywordTable[i].1| && KeywordTable[i].1[j] == kw
    requires 0 <= k < |kw| && !IsNormalChar(kw[k])
    ensures !Hit(KeywordTable, SearchText(fieldLabel, fieldName), i, j)
  {
    UnmatchableKeyword(fieldLabel, fieldName, kw, k);
  }

  lemma EmailVariantEntry()
    ensures 5 < |KeywordTable| && 1 < |KeywordTable[5].1| && KeywordTable[5].1[1] == "e-mail"
  {
    assert KeywordTable[5] == ContactKeywords[0];
  }

  lemma EmailVariantNeverHits(fieldLabel: string, fieldName: string)
    ensures KeywordTable[5].1[1] == "e-mail"
    ensures !Hit(KeywordTable, SearchText(fieldLabel, fieldName), 5, 1)
  {
    EmailVariantEntry();
    KeywordNeverHits(fieldLabel, fieldName, 5, 1, "e-mail", 1);
  }

  lemma LinkedInDomainEntry()
    ensures 12 < |KeywordTable| && 1 < |KeywordTable[12].1| && KeywordTable[12].1[1] == "linkedin.com"
  {
    assert KeywordTable[12] == LinkKeywords[0];
  }

  lemma LinkedInDomainNeverHits(fieldLabel: string, fieldName: string)
    ensures KeywordTable[12].1[1] == "linkedin.com"
    ensures !Hit(KeywordTable, SearchText(fieldLabel, fieldName), 12, 1)
  {
    LinkedInDomainEntry();
    KeywordNeverHits(fieldLabel, fieldName, 12, 1, "linkedin.com", 8);
  }

  lemma GithubDomainEntry()
    ensures 14 < |KeywordTable| && 1 < |KeywordTable[14].1| && KeywordTable[14].1[1] == "github.com"
  {
    assert KeywordTable[14] == LinkKeywords[2];
  }

  lemma GithubDomainNeverHits(fieldLabel: string, fieldName: string)
    ensures KeywordTable[14].1[1] == "github.com"
    ensures !Hit(KeywordTable, SearchText(fieldLabel, fieldName), 14, 1)
  {
    GithubDomainEntry();
    KeywordNeverHits(fieldLabel, fieldName, 14, 1, "github.com", 6);
  }

  lemma BehanceDomainEntry()
    ensures 15 < |KeywordTable| && 1 < |KeywordTable[15].1| && KeywordTable[15].1[1] == "behance.net"
  {
    assert KeywordTable[15] == LinkKeywords[3];
  }

  lemma BehanceDomainNeverHits(fieldLabel: string, fieldName: string)
    ensures KeywordTable[15].1[1] == "behance.net"
    ensures !Hit(KeywordTable, SearchText(fieldLabel, fieldName), 15, 1)
  {
    BehanceDomainEntry();
    KeywordNeverHits(fieldLabel, fieldName, 15, 1, "behance.net", 7);
  }

  lemma DribbbleDomainEntry()
    ensures 16 < |KeywordTable| && 1 < |KeywordTable[16].1| && KeywordTable[16].1[1] == "dribbble.com"
  {
    assert KeywordTable[16] == LinkKeywords[4];
  }

  lemma DribbbleDomainNeverHits(fieldLabel: string, fieldName: string)
    ensures KeywordTable[16].1[1] == "dribbble.com"
    ensures !Hit(KeywordTable, SearchText(fieldLabel, fieldName), 16, 1)
  {
    DribbbleDomainEntry();
    KeywordNeverHits(fieldLabel, fieldName, 16, 1, "dribbble.com", 8);
  }

  lemma TwitterDomainEntry()
    ensures 17 < |KeywordTable| && 1 < |KeywordTable[17].1| && KeywordTable[17].1[1] == "x.com"
  {
    assert KeywordTable[17] == LinkKeywords[5];
  }

  lemma TwitterDomainNeverHits(fieldLabel: string, fieldName: string)
    ensures KeywordTable[17].1[1] == "x.com"
    ensures !Hit(KeywordTable, SearchText(fieldLabel, fieldName), 17, 1)
  {
    TwitterDomainEntry();
    KeywordNeverHits(fieldLabel, fieldName, 17, 1, "x.com", 1);
  }

  lemma FullTimeEntry()
    ensures 29 < |KeywordTable| && 2 < |KeywordTable[29].1| && KeywordTable[29].1[2] == "full-time"
  {
    assert KeywordTable[29] == AvailabilityKeywords[1];
  }

  lemma FullTimeNeverHits(fieldLabel: string, fieldName: string)
    ensures KeywordTable[29].1[2] == "full-time"
    ensures !Hit(KeywordTable, SearchText(fieldLabel, fieldName), 29, 2)
  {
    FullTimeEntry();
    KeywordNeverHits(fieldLabel, fieldName, 29, 2, "full-time", 4);
  }

  lemma PartTimeEntry()
    ensures 29 < |KeywordTable| && 3 < |KeywordTable[29].1| && KeywordTable[29].1[3] == "part-time"
  {
    assert KeywordTable[29] == AvailabilityKeywords[1];
  }

  lemma PartTimeNeverHits(fieldLabel: string, fieldName: string)
    ensures KeywordTable[29].1[3] == "part-time"
    ensures !Hit(KeywordTable, SearchText(fieldLabel, fieldName), 29, 3)
  {
    PartTimeEntry();
    KeywordNeverHits(fieldLabel, fieldName, 29, 3, "part-time", 4);
  }

  /** The keywords with `-` or `.` can never occur in a search text. */
  lemma PunctuatedKeywordsNeverHit(fieldLabel: string, fieldName: string)
    ensures KeywordTable[5].1[1] == "e-mail"
    ensures KeywordTable[12].1[1] == "linkedin.com" && KeywordTable[14].1[1] == "github.com"
    ensures KeywordTable[15].1[1] == "behance.net" && KeywordTable[16].1[1] == "dribbble.com"
    ensures KeywordTable[17].1[1] == "x.com"
    ensures KeywordTable[29].1[2] == "full-time" && KeywordTable[29].1[3] == "part-time"
    ensures var t := SearchText(fieldLabel, fieldName);
      && !Hit(KeywordTable, t, 5, 1)
      && !Hit(KeywordTable, t, 12, 1) && !Hit(KeywordTable, t, 14, 1)
      && !Hit(KeywordTable, t, 15, 1) && !Hit(KeywordTable, t, 16, 1)
      && !Hit(KeywordTable, t, 17, 1)
      && !Hit(KeywordTable, t, 29, 2) && !Hit(KeywordTable, t, 29, 3)
  {
    EmailVariantNeverHits(fieldLabel, fieldName);
    LinkedInDomainNeverHits(fieldLabel, fieldName);
    GithubDomainNeverHits(fieldLabel, fieldName);
    BehanceDomainNeverHits(fieldLabel, fieldName);
    DribbbleDomainNeverHits(fieldLabel, fieldName);
    TwitterDomainNeverHits(fieldLabel, fieldName);
    FullTimeNeverHits(fieldLabel, fieldName);
    PartTimeNeverHits(fieldLabel, fieldName);
  }

  // ----- Projection onto options -----

  /** "Y" is contained in "yes", so the partial pass already picks "Yes". */
  lemma ShortYesProjects()
    ensures Projection("Y", ["Yes", "No"]) == Some("Yes")
  {
    assert Lower("Y") == "y";
    assert Lower("Yes") == "yes" && Lower("No") == "no";
    assert Contains("yes", "y");
  }

  /** "true" neither equals nor overlaps "yes"/"no"; the yes/no pass maps it
      to "Yes". */
  lemma TrueProjectsToYes()
    ensures Projection("true", ["Yes", "No"]) == Some("Yes")
  {
    assert Lower("true") == "true";
    assert Lower("Yes") == "yes" && Lower("No") == "no";
    assert !Contains("yes", "true") && !Contains("true", "yes");
    assert !Contains("no", "true") && !Contains("true", "no");
  }

  /** A keyword whose first character does not occur in the text is not in it. */
  lemma MissingFirstChar(text: string, kw: string)
    requires kw != [] && forall i :: 0 <= i < |text| ==> text[i] != kw[0]
    ensures !Contains(text, kw)
  {
    ContainsIff(text, kw);
  }

  lemma AuthorizedLower()
    ensures Lower("Yes") == "yes"
    ensures Lower("Authorized") == "authorized"
    ensures Lower("Requires Sponsorship") == "requires sponsorship"
  {
  }

  lemma YesNotInAuthorized()
    ensures !Contains("authorized", "yes")
  {
    MissingFirstChar("authorized", "yes");
  }

  lemma YesNotInSponsorship()
    ensures !Contains("requires sponsorship", "yes")
  {
    MissingFirstChar("requires sponsorship", "yes");
  }

  /** Neither option fits inside "yes": both are longer. */
  lemma AuthorizedNotInYes()
    ensures !Contains("yes", "authorized") && !Contains("yes", "requires sponsorship")
  {
  }

  /** A "Yes" answer has no counterpart among the options of an
      authorisation question, so `match_field` fills in the raw answer. */
  lemma YesFallsBackToAnswer()
    ensures Projection("Yes", ["Authorized", "Requires Sponsorship"]) == None
    ensures Fill(Some("Yes"), ["Authorized", "Requires Sponsorship"]) == Some("Yes")
  {
    var opts := ["Authorized", "Requires Sponsorship"];
    AuthorizedLower();
    YesNotInAuthorized();
    YesNotInSponsorship();
    AuthorizedNotInYes();
    assert !Fits(Exact, "yes", opts[0]) && !Fits(Exact, "yes", opts[1]);
    assert !Fits(Partial, "yes", opts[0]) && !Fits(Partial, "yes", opts[1]);
    assert !Fits(Affirmative, "yes", opts[0]) && !Fits(Affirmative, "yes", opts[1]);
  }
}
