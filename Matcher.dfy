/** `FieldMatcher` (backend/app/matcher.py): decides whether a scraped form
    field asks for generated prose, which question key it refers to, and which
    stored answer (projected onto the field's options) fills it.

    The Python object only ever reads its fields after `__init__`, so it is
    modelled as a value: a datatype holding the answer map, with the two fixed
    tables as module constants (module Keywords). */
module Matcher {
  import opened Wrappers
  import opened Text
  import opened Keywords

  /** `normalize(f"{field_label} {field_name}")`: the text that `match_field`,
      `suggest_question_key` and `is_creative_field` search. It is in normal
      form: lower case, word characters and single inner spaces. */
  function SearchText(fieldLabel: string, fieldName: string): (t: string)
    ensures IsNormalized(t)
  {
    NormalizeIsNormalized(fieldLabel + " " + fieldName);
    Normalize(fieldLabel + " " + fieldName)
  }

  /** `any(kw in text for kw in phrases)`. */
  function AnyContains(text: string, phrases: seq<Keyword>): (r: bool)
    ensures r <==> exists k :: 0 <= k < |phrases| && Contains(text, phrases[k])
  {
    if phrases == [] then false
    else if Contains(text, phrases[0]) then true
    else
      var rest := AnyContains(text, phrases[1..]);
      assert forall k :: 1 <= k < |phrases| ==> phrases[k] == phrases[1..][k - 1];
      rest
  }

  // ----- The keyword scan of `match_field` (matcher.py:109-121) -----

  /** A keyword table: keys in scan order, each with its keywords. */
  type Table = seq<(string, seq<Keyword>)>

  /** Keyword `j` of table entry `i` occurs in the search text `t`. */
  ghost predicate Hit(table: Table, t: string, i: int, j: int) {
    0 <= i < |table| && 0 <= j < |table[i].1| && Contains(t, table[i].1[j])
  }

  ghost predicate AnyHit(table: Table, t: string) {
    exists i, j :: Hit(table, t, i, j)
  }

  function KeywordLength(table: Table, i: int, j: int): nat
    requires 0 <= i < |table| && 0 <= j < |table[i].1|
  {
    |table[i].1[j]|
  }

  /** Position (i1, j1) is visited before (i2, j2) by the nested scan. */
  predicate Precedes(i1: int, j1: int, i2: int, j2: int) {
    i1 < i2 || (i1 == i2 && j1 < j2)
  }

  /** (i, j) is the hit the scan keeps: no hit is longer, and every hit
      visited before it is strictly shorter, since replacing the best needs
      a strictly greater length. */
  ghost predicate IsBestHit(table: Table, t: string, i: int, j: int) {
    && Hit(table, t, i, j)
    && (forall i', j' :: Hit(table, t, i', j') ==> KeywordLength(table, i', j') <= KeywordLength(table, i, j))
    && (forall i', j' :: Hit(table, t, i', j') && Precedes(i', j', i, j) ==>
          KeywordLength(table, i', j') < KeywordLength(table, i, j))
  }

  /** What the scan knows after visiting every position before (i, j). */
  ghost predicate ScannedBefore(table: Table, t: string, i: int, j: int,
                                best: Option<string>, bestLen: int, bi: int, bj: int)
  {
    && (best.None? ==> bestLen == 0 && forall i', j' :: Hit(table, t, i', j') ==> !Precedes(i', j', i, j))
    && (best.Some? ==>
          && Hit(table, t, bi, bj) && Precedes(bi, bj, i, j)
          && best.value == table[bi].0 && bestLen == KeywordLength(table, bi, bj)
          && (forall i', j' :: Hit(table, t, i', j') && Precedes(i', j', i, j) ==>
                KeywordLength(table, i', j') <= bestLen)
          && (forall i', j' :: Hit(table, t, i', j') && Precedes(i', j', bi, bj) ==>
                KeywordLength(table, i', j') < bestLen))
  }

  /** The nested loop of `match_field`: the key owning the longest keyword
      found in `t`, the earliest such in table order, or None. */
  method LongestMatch(table: Table, t: string) returns (best: Option<string>)
    ensures best.None? <==> !AnyHit(table, t)
    ensures best.Some? ==> exists i, j :: IsBestHit(table, t, i, j) && best.value == table[i].0
  {
    best := None;
    var bestLen := 0;
    ghost var bi, bj := 0, 0;
    var i := 0;
    while i < |table|
      invariant 0 <= i <= |table|
      invariant ScannedBefore(table, t, i, 0, best, bestLen, bi, bj)
    {
      var keywords := table[i].1;
      var j := 0;
      while j < |keywords|
        invariant 0 <= j <= |keywords|
        invariant ScannedBefore(table, t, i, j, best, bestLen, bi, bj)
      {
        var kw := keywords[j];
        if Contains(t, kw) {
          if |kw| > bestLen {
            bestLen := |kw|;
            best := Some(table[i].0);
            bi, bj := i, j;
          }
        }
        j := j + 1;
      }
      i := i + 1;
    }
    if best.Some? {
      assert IsBestHit(table, t, bi, bj);
    }
  }

  /** Two positions that both satisfy `IsBestHit` are the same position, so
      the scan's choice is determined by the table and the text alone. */
  lemma BestHitUnique(table: Table, t: string, i1: int, j1: int, i2: int, j2: int)
    requires IsBestHit(table, t, i1, j1) && IsBestHit(table, t, i2, j2)
    ensures i1 == i2 && j1 == j2
  {
  }

  /** A keyword that spans the whole search text is at least as long as any
      hit, so no later position can be the best hit; if every earlier hit is
      shorter, it is the best hit itself. */
  lemma WholeTextHit(table: Table, t: string, i: int, j: int)
    requires Hit(table, t, i, j) && KeywordLength(table, i, j) == |t|
    ensures forall i', j' :: IsBestHit(table, t, i', j') ==> !Precedes(i, j, i', j')
    ensures (forall i', j' :: Hit(table, t, i', j') && Precedes(i', j', i, j) ==>
               KeywordLength(table, i', j') < |t|)
      ==> IsBestHit(table, t, i, j)
  {
  }

  /** A keyword holding a character that normalised text never contains (a
      `-`, a `.`, an upper-case letter) is never found in a search text. */
  lemma UnmatchableKeyword(fieldLabel: string, fieldName: string, kw: string, k: int)
    requires 0 <= k < |kw| && !IsNormalChar(kw[k])
    ensures !Contains(SearchText(fieldLabel, fieldName), kw)
  {
    var t := SearchText(fieldLabel, fieldName);
    if Contains(t, kw) {
      ContainsOnlyNormal(t, kw, k);
    }
  }

  // ----- Option projection, `_match_to_option` (matcher.py:141-168) -----

  /** The three passes of `_match_to_option`; the yes/no pass is split in two. */
  datatype Rule = Exact | Partial | Affirmative | Negative

  /** Option `option` satisfies `rule` for the lower-cased answer. */
  predicate Fits(rule: Rule, answerLower: string, option: string) {
    var o := Lower(option);
    match rule
    case Exact => o == answerLower
    case Partial => Contains(o, answerLower) || Contains(answerLower, o)
    case Affirmative => o == "yes" || o == "y"
    case Negative => o == "no" || o == "n"
  }

  /** `answer_lower in ['yes', 'y', 'true', '1']`. */
  predicate IsAffirmative(answerLower: string) {
    answerLower == "yes" || answerLower == "y" || answerLower == "true" || answerLower == "1"
  }

  /** `answer_lower in ['no', 'n', 'false', '0']`. */
  predicate IsNegative(answerLower: string) {
    answerLower == "no" || answerLower == "n" || answerLower == "false" || answerLower == "0"
  }

  /** Index of the first option satisfying `rule`, or `|options|` if none does. */
  function FirstFit(rule: Rule, answerLower: string, options: seq<string>): (k: nat)
    ensures k <= |options|
    ensures k < |options| ==> Fits(rule, answerLower, options[k])
    ensures forall k' :: 0 <= k' < k ==> !Fits(rule, answerLower, options[k'])
  {
    if options == [] then 0
    else if Fits(rule, answerLower, options[0]) then 0
    else
      var k := FirstFit(rule, answerLower, options[1..]);
      assert forall k' :: 1 <= k' < k + 1 ==> options[k'] == options[1..][k' - 1];
      k + 1
  }

  /** `FirstFit` is pinned down by the scan's outcome: `k` fits (or is the
      length) and no option before it fits. */
  lemma FirstFitIs(rule: Rule, answerLower: string, options: seq<string>, k: nat)
    requires k <= |options| && (k < |options| ==> Fits(rule, answerLower, options[k]))
    requires forall k' :: 0 <= k' < k ==> !Fits(rule, answerLower, options[k'])
    ensures FirstFit(rule, answerLower, options) == k
  {
  }

  /** The option among `options` at index `k`, if `k` is in range. */
  function OptionAt(options: seq<string>, k: nat): (r: Option<string>)
    ensures r.Some? <==> k < |options|
    ensures r.Some? ==> r.value == options[k]
  {
    if k < |options| then Some(options[k]) else None
  }

  /** What `_match_to_option` returns: the first exact match, else the first
      partial match, else for a yes-like (no-like) answer the first yes (no)
      option, else None. */
  function Projection(answer: string, options: seq<string>): (r: Option<string>)
    ensures r.Some? ==> r.value in options
  {
    var a := Lower(answer);
    var exact := FirstFit(Exact, a, options);
    var partial := FirstFit(Partial, a, options);
    if exact < |options| then Some(options[exact])
    else if partial < |options| then Some(options[partial])
    else if IsAffirmative(a) then OptionAt(options, FirstFit(Affirmative, a, options))
    else if IsNegative(a) then OptionAt(options, FirstFit(Negative, a, options))
    else None
  }

  /** An exact match is also a partial match (a string contains itself). */
  lemma ExactFitsPartially(answerLower: string, option: string)
    requires Fits(Exact, answerLower, option)
    ensures Fits(Partial, answerLower, option)
  {
    var o := Lower(option);
    assert OccursAt(o, answerLower, 0);
    ContainsIff(o, answerLower);
  }

  /** Projection yields nothing exactly when no option contains or is
      contained in the answer, and the answer is not a yes/no word with a
      matching yes/no option. */
  lemma ProjectionNoneIff(answer: string, options: seq<string>)
    ensures var a := Lower(answer);
      Projection(answer, options).None? <==>
        && (forall k :: 0 <= k < |options| ==> !Fits(Partial, a, options[k]))
        && (IsAffirmative(a) ==> forall k :: 0 <= k < |options| ==> !Fits(Affirmative, a, options[k]))
        && (IsNegative(a) ==> forall k :: 0 <= k < |options| ==> !Fits(Negative, a, options[k]))
  {
    var a := Lower(answer);
    var exact := FirstFit(Exact, a, options);
    if exact < |options| {
      ExactFitsPartially(a, options[exact]);
    }
  }

  /** An empty stored answer is contained in every option, so it projects
      onto the first option unless some option is itself empty. */
  lemma EmptyAnswerTakesFirstOption(options: seq<string>)
    requires options != [] && forall k :: 0 <= k < |options| ==> options[k] != ""
    ensures Projection("", options) == Some(options[0])
  {
    assert Lower("") == "";
    assert Contains(Lower(options[0]), "");
    assert forall k :: 0 <= k < |options| ==> |Lower(options[k])| > 0;
    assert FirstFit(Exact, "", options) == |options|;
  }

  /** The value `match_field` returns once an answer is resolved
      (matcher.py:134-139): with a non-empty option list the projected
      option, falling back to the answer itself when the projection is None
      or the empty string; without options the answer as stored. */
  function Fill(answer: Option<string>, options: seq<string>): (r: Option<string>)
    ensures r.Some? <==> answer.Some?
    ensures options == [] ==> r == answer
    ensures r.Some? && options != [] ==> r.value in options || r.value == answer.value
    ensures answer.Some? && options != [] ==>
      var m := Projection(answer.value, options);
      (m.Some? && m.value != "" ==> r == m) && (m.None? || m.value == "" ==> r == answer)
  {
    match answer
    case None => None
    case Some(a) =>
      if options == [] then Some(a)
      else
        var m := Projection(a, options);
        if m.Some? && m.value != "" then m else Some(a)
  }

  // ----- The first-hit scan of `suggest_question_key` (matcher.py:170-181) -----

  /** The key of the first entry of `table` with any keyword in `t`. */
  function FirstHitKey(table: Table, t: string): (r: Option<string>)
    ensures r.None? <==> !AnyHit(table, t)
    ensures r.Some? ==> exists i, j ::
      && Hit(table, t, i, j) && table[i].0 == r.value
      && forall i', j' :: 0 <= i' < i ==> !Hit(table, t, i', j')
  {
    var k := FirstHitEntry(table, t, 0);
    if k < |table| then Some(table[k].0) else None
  }

  /** The first table entry at or after `i` with any keyword in `t`, or
      `|table|`. */
  function FirstHitEntry(table: Table, t: string, i: nat): (k: nat)
    requires i <= |table|
    ensures i <= k <= |table|
    ensures k < |table| ==> exists j :: Hit(table, t, k, j)
    ensures forall i', j :: i <= i' < k ==> !Hit(table, t, i', j)
    decreases |table| - i
  {
    if i == |table| then i
    else if AnyContains(t, table[i].1) then
      assert exists j :: Hit(table, t, i, j) by {
        var j :| 0 <= j < |table[i].1| && Contains(t, table[i].1[j]);
        assert Hit(table, t, i, j);
      }
      i
    else FirstHitEntry(table, t, i + 1)
  }

  /** The entry `suggest_question_key` names never comes after the entry
      `match_field` picks: the first entry with a hit precedes every hit. */
  lemma SuggestionPrecedesMatch(table: Table, t: string, i: int, j: int)
    requires IsBestHit(table, t, i, j)
    ensures FirstHitEntry(table, t, 0) <= i
  {
  }

  datatype FieldMatcher = FieldMatcher(answers: map<string, string>) {

    /** The answer for `key`: the stored one, or for `full_name` without a
        stored value the first and last names joined by a space
        (matcher.py:123-132). */
    function Resolve(key: string): (r: Option<string>)
      ensures r.Some? <==>
        key in answers || (key == "full_name" && "first_name" in answers && "last_name" in answers)
      ensures key in answers ==> r == Some(answers[key])
      ensures key !in answers && r.Some? ==> r.value == answers["first_name"] + " " + answers["last_name"]
    {
      if key in answers then Some(answers[key])
      else if key == "full_name" && "first_name" in answers && "last_name" in answers then
        Some(answers["first_name"] + " " + answers["last_name"])
      else None
    }

    /** `match_field`: None when no keyword occurs in the search text;
        otherwise the answer of the key owning the longest (earliest among
        equally long) keyword, projected onto `options`. `fieldType` does not
        appear in the postcondition: it cannot change the result. */
    method MatchField(fieldLabel: string, fieldName: string, fieldType: string, options: seq<string>)
      returns (r: Option<string>)
      ensures var t := SearchText(fieldLabel, fieldName);
        !AnyHit(KeywordTable, t) ==> r == None
      ensures var t := SearchText(fieldLabel, fieldName);
        AnyHit(KeywordTable, t) ==> exists i, j :: IsBestHit(KeywordTable, t, i, j)
      ensures var t := SearchText(fieldLabel, fieldName);
        forall i, j :: IsBestHit(KeywordTable, t, i, j) ==> r == Fill(Resolve(KeywordTable[i].0), options)
    {
      var searchText := SearchText(fieldLabel, fieldName);
      var bestKey := LongestMatch(KeywordTable, searchText);
      if bestKey.None? {
        return None;
      }
      var key := bestKey.value;
      ghost var i0, j0 :| IsBestHit(KeywordTable, searchText, i0, j0) && key == KeywordTable[i0].0;
      forall i, j | IsBestHit(KeywordTable, searchText, i, j)
        ensures KeywordTable[i].0 == key
      {
        BestHitUnique(KeywordTable, searchText, i, j, i0, j0);
      }
      var answer: string;
      if key in answers {
        answer := answers[key];
      } else if key == "full_name" && "first_name" in answers && "last_name" in answers {
        answer := answers["first_name"] + " " + answers["last_name"];
      } else {
        return None;
      }
      if (fieldType == "select" || fieldType == "radio" || options != []) && options != [] {
        var matched := MatchToOption(answer, options);
        return if matched.Some? && matched.value != "" then matched else Some(answer);
      }
      return Some(answer);
    }

    /** `_match_to_option`: three passes over `options` with early returns. */
    method MatchToOption(answer: string, options: seq<string>) returns (r: Option<string>)
      ensures r == Projection(answer, options)
    {
      var answerLower := Lower(answer);
      for k := 0 to |options|
        invariant forall k' :: 0 <= k' < k ==> !Fits(Exact, answerLower, options[k'])
      {
        if Lower(options[k]) == answerLower {
          FirstFitIs(Exact, answerLower, options, k);
          return Some(options[k]);
        }
      }
      FirstFitIs(Exact, answerLower, options, |options|);
      for k := 0 to |options|
        invariant forall k' :: 0 <= k' < k ==> !Fits(Partial, answerLower, options[k'])
      {
        var optionLower := Lower(options[k]);
        if Contains(optionLower, answerLower) || Contains(answerLower, optionLower) {
          FirstFitIs(Partial, answerLower, options, k);
          return Some(options[k]);
        }
      }
      FirstFitIs(Partial, answerLower, options, |options|);
      if IsAffirmative(answerLower) {
        for k := 0 to |options|
          invariant forall k' :: 0 <= k' < k ==> !Fits(Affirmative, answerLower, options[k'])
        {
          var optionLower := Lower(options[k]);
          if optionLower == "yes" || optionLower == "y" {
            FirstFitIs(Affirmative, answerLower, options, k);
            return Some(options[k]);
          }
        }
        FirstFitIs(Affirmative, answerLower, options, |options|);
      } else if IsNegative(answerLower) {
        for k := 0 to |options|
          invariant forall k' :: 0 <= k' < k ==> !Fits(Negative, answerLower, options[k'])
        {
          var optionLower := Lower(options[k]);
          if optionLower == "no" || optionLower == "n" {
            FirstFitIs(Negative, answerLower, options, k);
            return Some(options[k]);
          }
        }
        FirstFitIs(Negative, answerLower, options, |options|);
      }
      return None;
    }

    /** `suggest_question_key`: the first key in table order with any
        keyword in the search text; None exactly when `match_field` finds no
        candidate either. */
    function SuggestQuestionKey(fieldLabel: string, fieldName: string): (r: Option<string>)
      ensures var t := SearchText(fieldLabel, fieldName);
        r.None? <==> !AnyHit(KeywordTable, t)
      ensures var t := SearchText(fieldLabel, fieldName);
        r.Some? ==> exists i, j ::
          && Hit(KeywordTable, t, i, j) && KeywordTable[i].0 == r.value
          && forall i', j' :: 0 <= i' < i ==> !Hit(KeywordTable, t, i', j')
    {
      FirstHitKey(KeywordTable, SearchText(fieldLabel, fieldName))
    }

    /** `is_creative_field`: some creative phrase occurs in the search text. */
    function IsCreativeField(fieldLabel: string, fieldName: string): (r: bool)
      ensures r <==> exists k ::
        0 <= k < |CreativeKeywords| && Contains(SearchText(fieldLabel, fieldName), CreativeKeywords[k])
    {
      AnyContains(SearchText(fieldLabel, fieldName), CreativeKeywords)
    }
  }
}
