# Field matcher and question catalog of a job-application autofill agent

This project models the deterministic core of the autofill backend in Dafny.

**`FieldMatcher`** (`backend/app/matcher.py`) handles each scraped form field given its label, name, type and options. It:

- normalises `label + " " + name`;
- decides whether the field asks for generated prose (`is_creative_field`);
- otherwise scans an ordered keyword table for the longest keyword in the text, with ties going to the earlier table entry;
- resolves the stored answer for that key, building `full_name` from the first and last names when it is not stored;
- projects the answer onto the field's options (`_match_to_option`), falling back to the raw answer.

`suggest_question_key` runs the same scan, but returns the first key with any hit.

**The question catalog** (`backend/app/questions.py`) is an ordered list of 49 question records. It supports lookup by key and grouping by category, preserving order.

Modules:

- `Wrappers`: `Option`.
- `Text`: ASCII lower-casing, punctuation cleaning, `strip`, whitespace collapsing, and `normalize`, with its normal-form and idempotence proofs. It also holds Python's `kw in text` (`Contains`) and its positional characterisation.
- `Keywords`: the creative phrases and the keyword table as ordered sequences, in source order, split into smaller sections that follow the source's comment headings.
- `Matcher`:
  - the keyword scan as a loop method, proved against a declarative "best hit" predicate;
  - option projection, both as a specification function and as the three-pass loop method;
  - answer resolution and `FieldMatcher` itself.
- `Scenarios`: worked cases on the real keyword table: tie-breaks, a label with punctuation and a whitespace run, keywords that can never match, the synthesised full name, suggestion order, and projections.
- `Questions`:
  - the catalog, lookup, and the grouping loop proved against `CategoryOrder`/`Filter`;
  - facts about the data: distinct keys, well-formed records, the concrete groups.
- `Coverage`: how the keyword table lines up with the catalog.

Where the documented intent of the matcher and its code differ, the model follows the code:

- A "Last Name" label hits both `name` (full_name) and `last` (last_name). Both keywords are four characters long, and the strict `>` at matcher.py:116 keeps the earlier entry, so the field resolves to **full_name**, not to last_name. The keyword table has no `last name` keyword (`Scenarios.LastNameIsNotLastName`).
- `suggest_question_key` for "Middle Name" returns **full_name**, not middle_name, because the first table entry already hits through `name` (`Scenarios.MiddleNameSuggestsFullName`).
- A "Start Date" label resolves to `current_job_start_date`, not `availability_date`. Both own the keyword `start date`, and the former comes first (`Scenarios.StartDateIsNotAvailability`).
- `field_type` never changes the result of `match_field`. The guard at matcher.py:135 ends in `and options` (`Matcher.FieldMatcher.MatchField` does not mention it in its postcondition).
- Keywords are not normalised. The eight keywords containing `-` or `.` can never match (`Scenarios.PunctuatedKeywordsNeverHit`).
- `match_field` also falls back to the raw answer when projection picks an empty option, since `matched_option if matched_option else answer` treats `""` as missing (`Matcher.Fill`).

## Model

| member | source | states |
|---|---|---|
| Text.LowerChar | backend/app/matcher.py:98 | a lower-cased character is never upper case and keeps its word/whitespace class |
| Text.Lower | backend/app/matcher.py:98 | `text.lower()` keeps the length and lower-cases every character in place |
| Text.Clean | backend/app/matcher.py:98 | `[^\w\s]` → space: same length, word and whitespace characters kept, every other character becomes a space |
| Text.TrimStart | backend/app/matcher.py:99 | `lstrip`: the result is a suffix, starts with a non-space, and only whitespace was dropped |
| Text.TrimEnd | backend/app/matcher.py:99 | `rstrip`: the result is a prefix, ends with a non-space, and only whitespace was dropped |
| Text.Strip | backend/app/matcher.py:99 | `strip()`: the result is a slice of the input with no whitespace at either end, and only whitespace lies outside it |
| Text.Collapse | backend/app/matcher.py:99 | `re.sub(r'\s+', ' ', …)`: empty only for empty input, starts with a space iff the input starts with whitespace, holds no whitespace but the plain space and never two spaces in a row |
| Text.CollapseRuns | backend/app/matcher.py:99 | `re.sub(r'\s+', ' ', …)` keeps every non-whitespace character in order, turns the first character of each whitespace run into one space and drops the rest of the run |
| Text.Normalize | backend/app/matcher.py:95-96 | the empty text normalises to the empty string |
| Text.Contains | backend/app/matcher.py:115 | Python's `kw in text`: the empty keyword is in every text, and a keyword found is no longer than the text |
| Text.ContainsIff | backend/app/matcher.py:115 | Python's `kw in text` holds iff `kw` occurs at some position of `text` |
| Text.NormalizeIsNormalized | backend/app/matcher.py:93-99 | every normalised text has only lower-case letters, digits, `_` and single spaces, with no space at either end |
| Text.NormalizeFixed | backend/app/matcher.py:93-99 | text already in normal form is returned unchanged |
| Text.NormalizeIdempotent | backend/app/matcher.py:93-99 | normalising twice equals normalising once |
| Text.ContainsOnlyNormal | backend/app/matcher.py:98 | every character of a substring of normalised text is a normal character |
| Matcher.SearchText | backend/app/matcher.py:107 | `normalize(f"{field_label} {field_name}")` is in normal form: lower-case letters, digits, `_` and single inner spaces, none at either end |
| Matcher.AnyContains | backend/app/matcher.py:178 | `any(kw in text for kw in phrases)` holds iff some phrase is contained in the text |
| Matcher.LongestMatch | backend/app/matcher.py:109-121 | the nested scan returns None iff no keyword occurs. Otherwise it returns the key of a best hit: no hit is longer, and every hit visited earlier is strictly shorter |
| Matcher.BestHitUnique | backend/app/matcher.py:113-118 | at most one table position is the best hit, so the chosen key is determined by table and text |
| Matcher.WholeTextHit | backend/app/matcher.py:113-118 | a keyword spanning the whole text cannot be beaten by a later position, and wins if every earlier hit is shorter |
| Matcher.UnmatchableKeyword | backend/app/matcher.py:114-115 | a keyword holding a character that normalisation removes or rewrites (`-`, `.`, upper case) is never contained in the normalised label-and-name text |
| Matcher.FirstFit | backend/app/matcher.py:149-166 | the index returned is the first option satisfying the pass's rule, or the length when none does |
| Matcher.Projection | backend/app/matcher.py:141-168 | `_match_to_option` returns None or an element of `options` |
| Matcher.ExactFitsPartially | backend/app/matcher.py:149-156 | an exact case-insensitive match also satisfies the partial pass |
| Matcher.ProjectionNoneIff | backend/app/matcher.py:141-168 | projection returns None iff no option passes partial containment, and no yes/no option matches a yes-like/no-like answer |
| Matcher.EmptyAnswerTakesFirstOption | backend/app/matcher.py:153-156 | an empty answer is contained in every option, so it projects onto the first option when no option is empty |
| Matcher.Fill | backend/app/matcher.py:134-139 | present iff the answer is. Without options it is the answer unchanged. With options it is the projected option when projection gives a non-empty option, and the raw answer when projection gives None or "" |
| Matcher.FirstHitKey | backend/app/matcher.py:177-181 | None iff no entry has a hit. Otherwise it is the key of an entry with a hit, and no earlier entry has one |
| Matcher.FirstHitEntry | backend/app/matcher.py:177-179 | the first entry at or after `i` that has a hit, or the table length |
| Matcher.SuggestionPrecedesMatch | backend/app/matcher.py:170-181 | the suggested entry never comes after the entry `match_field` picks |
| Matcher.FieldMatcher.Resolve | backend/app/matcher.py:123-132 | a stored answer wins. Otherwise full_name is first + " " + last when both are stored. Otherwise there is no answer |
| Matcher.FieldMatcher.MatchField | backend/app/matcher.py:101-139 | None when no keyword occurs. Otherwise the resolved answer of the best hit's key, filled against the options. `field_type` plays no part |
| Matcher.FieldMatcher.MatchToOption | backend/app/matcher.py:141-168 | the three loops with early returns compute exactly `Projection` |
| Matcher.FieldMatcher.SuggestQuestionKey | backend/app/matcher.py:170-181 | None iff `match_field`'s scan finds no hit. Otherwise the first key in table order that has a hit |
| Matcher.FieldMatcher.IsCreativeField | backend/app/matcher.py:183-186 | true iff some creative phrase is contained in the normalised search text |
| Scenarios.LastNameIsNotLastName | backend/app/matcher.py:28-31 | "Last Name" hits last_name's `last`, yet the best hit is full_name's `name`: no hit is longer than four characters, and `name` comes first in the table |
| Scenarios.StartDateIsNotAvailability | backend/app/matcher.py:59-64 | "Start Date" hits availability_date's `start date`, yet the best hit is the same keyword of current_job_start_date, which comes first |
| Scenarios.RaggedLastNameText | backend/app/matcher.py:93-99 | the label "Last\t  Name:" normalises to "last name": the colon becomes a space, the ends are stripped and the tab-and-spaces run becomes one space; its best hit is full_name's `name`, as for "Last Name" |
| Scenarios.FullNameIsSynthesised | backend/app/matcher.py:127-129 | "Full Name" has a best hit, full_name's `full name`, and with first name Ada and last name Lovelace stored the text field gets "Ada Lovelace" |
| Scenarios.MiddleNameSuggestsFullName | backend/app/matcher.py:177-179 | "Middle Name" is suggested as full_name |
| Scenarios.PunctuatedKeywordsNeverHit | backend/app/matcher.py:33-65 | e-mail, linkedin.com, github.com, behance.net, dribbble.com, x.com, full-time and part-time never hit any search text |
| Scenarios.ShortYesProjects | backend/app/matcher.py:153-156 | answer "Y" projects onto "Yes" through the partial pass |
| Scenarios.TrueProjectsToYes | backend/app/matcher.py:159-162 | answer "true" projects onto "Yes" through the yes/no pass |
| Scenarios.YesFallsBackToAnswer | backend/app/matcher.py:135-137 | "Yes" has no counterpart in ["Authorized", "Requires Sponsorship"], and the field is filled with the raw "Yes" |
| Questions.FindByKey | backend/app/questions.py:413-418 | None iff no record has the key. Otherwise the first record with that key |
| Questions.GetQuestionByKey | backend/app/questions.py:413-418 | None iff no catalog record has the key. Otherwise a catalog record carrying that key |
| Questions.FindByKeyUnique | backend/app/questions.py:413-418 | with distinct keys, looking up a record's key returns that record |
| Questions.CatalogKeysDistinct | backend/app/questions.py:12-399 | no two catalog records share a key |
| Questions.LookupFindsEveryRecord | backend/app/questions.py:413-418 | every catalog record is found by its own key |
| Questions.CatalogWellFormed | backend/app/questions.py:12-399 | every record's type is one of the seven declared kinds. A record has options exactly when it is a select, and a select's options are non-empty |
| Questions.CategoryOrder | backend/app/questions.py:404-409 | the dictionary's key order lists each category that occurs, exactly once |
| Questions.Filter | backend/app/questions.py:405-409 | a group holds only records of `qs` in that category, and is empty iff the category does not occur |
| Questions.GroupByCategory | backend/app/questions.py:404-410 | the loop builds keys in first-occurrence order, and each group equals `Filter` of the input for its category |
| Questions.GetQuestionsByCategory | backend/app/questions.py:402-410 | the grouping of the catalog: keys `CategoryOrder(Catalog)`, groups `Filter(Catalog, c)` |
| Questions.FilterConcat | backend/app/questions.py:405-409 | groups keep catalog order: filtering distributes over concatenation |
| Questions.FilterCount | backend/app/questions.py:405-409 | every record lands in its own category's group, as often as it occurs, and in no other group |
| Questions.CategoryOrderFollowsFirstOccurrence | backend/app/questions.py:406-408 | group keys appear in the order of each category's first occurrence |
| Questions.SectionCategories | backend/app/questions.py:12-399 | each section of the catalog holds records of one category |
| Questions.CatalogGroups | backend/app/questions.py:402-410 | the group of every category is the concatenation of the catalog sections of that category, in order |
| Coverage.TableFollowsCatalog | backend/app/matcher.py:26-91 | after full_name, the keyword table's keys are the catalog's keys in catalog order, up to the pitch questions |
| Coverage.FullNameNotInCatalog | backend/app/questions.py:12-399 | full_name is not a catalog key |
| Coverage.KeywordKeysNameQuestions | backend/app/matcher.py:26-91 | every keyword-table key except full_name names a catalog question, found by `get_question_by_key` |
| Coverage.PitchQuestionsHaveNoKeywords | backend/app/questions.py:378-398 | the three pitch questions close the catalog, and no keyword-table key names them |

## Left out

- backend/app/main.py (HTTP routes, the autofill loop and its calls to the answer store and the language model), airtable_client.py, intelligence.py, models.py and api/index.py are not part of this model: they are I/O glue around the matcher.
- The browser extension (extension/src) is not part of this model: it is UI state and DOM scraping.
- Text.Lower, Text.Clean: only ASCII is modelled. Python's Unicode-aware `str.lower()`, `\w` and `\s` are abstracted to ASCII letters, digits and `_`, and to the ASCII whitespace that `str.isspace` accepts.
- Matcher.FieldMatcher.MatchField: labels and names are strings, never `None`. The `options=None` default is modelled as the empty list, which Python treats the same way.
- Matcher.FieldMatcher.MatchField: its postcondition names the result through the best-hit predicate and `Fill`, not through a single key value. `Matcher.BestHitUnique` shows the best hit is unique.
- The two tables are module constants rather than instance attributes. `__init__` sets them once, and no method changes them or `answers`, so `FieldMatcher` is a value holding only the answer map.
- Question records are a datatype with an optional options field, standing in for the source's dictionaries. A missing "options" entry is `None`.
- `get_questions_by_category` returns a dictionary. It is modelled as the key order plus a map, which together carry what the Python dictionary holds.
- Questions.CategoryOrderFollowsFirstOccurrence: the order is proved for any record list. The concrete list of the catalog's category names in order is not computed.
