/** The two fixed tables of `FieldMatcher`: the creative-intent phrases and
    the keyword table. Both are ordered sequences, because Python lists and
    dictionaries keep insertion order and the matcher's tie-breaks depend on
    it. The keyword table is split into smaller sections that follow the
    source's comment headings, joined in source order. */
module Keywords {

  /** A keyword is never empty (every literal below is checked against this). */
  type Keyword = s: string | s != [] witness "x"

  /** Phrases that mark a field as needing generated prose (matcher.py:19-23). */
  const CreativeKeywords: seq<Keyword> := [
    "cover letter", "why do you want", "interest you", "tell us about",
    "describe your experience", "statement", "additional information",
    "why should we hire", "about yourself", "briefly explain"
  ]

  // Personal information: names (matcher.py:28-32)
  const NameKeywords: seq<(string, seq<Keyword>)> := [
    ("full_name", ["full name", "complete name", "name", "your name"]),
    ("first_name", ["first", "firstname", "fname", "given", "forename"]),
    ("middle_name", ["middle", "middlename", "mname"]),
    ("last_name", ["last", "lastname", "lname", "surname", "family"]),
    ("preferred_name", ["preferred", "nickname", "goes by"])
  ]

  // Personal information: contact and address (matcher.py:33-39)
  const ContactKeywords: seq<(string, seq<Keyword>)> := [
    ("email", ["email", "e-mail", "mail"]),
    ("phone", ["phone", "mobile", "cell", "telephone", "tel", "contact number"]),
    ("street_address", ["street", "address line", "address 1"]),
    ("city", ["city", "town"]),
    ("state_province", ["state", "province", "region"]),
    ("postal_code", ["zip", "postal", "postcode", "zipcode"]),
    ("country", ["country", "nation"])
  ]

  // Professional links (matcher.py:42-47)
  const LinkKeywords: seq<(string, seq<Keyword>)> := [
    ("linkedin_url", ["linkedin", "linkedin.com", "linkedin profile"]),
    ("portfolio_url", ["portfolio", "website", "personal site"]),
    ("github_url", ["github", "github.com", "github profile"]),
    ("behance_url", ["behance", "behance.net"]),
    ("dribbble_url", ["dribbble", "dribbble.com"]),
    ("twitter_handle", ["twitter", "x.com", "handle"])
  ]

  // Education (matcher.py:50-54)
  const EducationKeywords: seq<(string, seq<Keyword>)> := [
    ("highest_degree", ["degree", "education level", "highest education"]),
    ("school_name", ["school", "university", "college", "institution"]),
    ("major_field_of_study", ["major", "field of study", "concentration", "degree in"]),
    ("graduation_date", ["graduation", "graduated", "graduation date"]),
    ("gpa", ["gpa", "grade point"])
  ]

  // Work history (matcher.py:57-61)
  const WorkHistoryKeywords: seq<(string, seq<Keyword>)> := [
    ("current_company", ["current company", "employer", "current employer", "company name"]),
    ("current_job_title", ["current title", "job title", "position", "role"]),
    ("current_job_start_date", ["start date", "from", "employment start"]),
    ("current_job_end_date", ["end date", "to", "employment end"]),
    ("current_job_duties", ["responsibilities", "duties", "job description"])
  ]

  // Logistics: start date, work type and salary (matcher.py:64-66)
  const AvailabilityKeywords: seq<(string, seq<Keyword>)> := [
    ("availability_date", ["available", "start date", "earliest start", "when can you start", "date available"]),
    ("work_type_preference", ["work type", "employment type", "full-time", "part-time", "office", "home", "hybrid", "remote", "office days"]),
    ("salary_expectation", ["salary", "desired salary", "expected salary", "compensation", "remuneration"])
  ]

  // Logistics: relocation, travel and notice (matcher.py:67-69)
  const MobilityKeywords: seq<(string, seq<Keyword>)> := [
    ("willing_to_relocate", ["relocate", "relocation", "willing to move"]),
    ("willing_to_travel", ["travel", "willing to travel"]),
    ("notice_period", ["notice", "notice period", "availability"])
  ]

  // Legal (matcher.py:72-74)
  const LegalKeywords: seq<(string, seq<Keyword>)> := [
    ("legally_authorized_to_work", ["authorized", "right to work", "work authorization", "legally work", "authorized to work"]),
    ("require_visa_sponsorship", ["visa", "sponsorship", "work permit", "visa sponsorship", "require sponsorship", "need sponsorship"]),
    ("age_over_18", ["18", "age", "over 18", "at least 18"])
  ]

  // Screening (matcher.py:77-80)
  const ScreeningKeywords: seq<(string, seq<Keyword>)> := [
    ("how_did_you_hear", ["how did you hear", "source", "referral source"]),
    ("employee_referral_name", ["referred by", "referral", "employee name"]),
    ("previously_applied", ["previously applied", "applied before", "worked here"]),
    ("relatives_at_company", ["relatives", "family members"])
  ]

  // Self-identification (matcher.py:83-86)
  const SelfIdKeywords: seq<(string, seq<Keyword>)> := [
    ("gender", ["gender", "sex"]),
    ("race_ethnicity", ["race", "ethnicity", "ethnic"]),
    ("veteran_status", ["veteran", "military"]),
    ("disability_status", ["disability", "disabled"])
  ]

  // Accessibility (matcher.py:89-90)
  const AccessibilityKeywords: seq<(string, seq<Keyword>)> := [
    ("require_accommodations", ["accommodation", "disability", "accessible"]),
    ("accommodation_details", ["accommodation details", "specific needs"])
  ]

  /** Question key to trigger substrings, in table order (matcher.py:26-91). */
  const KeywordTable: seq<(string, seq<Keyword>)> :=
    NameKeywords + ContactKeywords + LinkKeywords + EducationKeywords + WorkHistoryKeywords + AvailabilityKeywords + MobilityKeywords + LegalKeywords + ScreeningKeywords + SelfIdKeywords + AccessibilityKeywords
}
