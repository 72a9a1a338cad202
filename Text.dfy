/** ASCII text primitives used by the field matcher: character classes for the
    regular expressions `\w` and `\s`, lower-casing, Python's substring test
    `kw in text`, and the normaliser `FieldMatcher.normalize`. */
module Text {

  /** `\w` restricted to ASCII: letters, digits and the underscore. */
  predicate IsWordChar(c: char) {
    'a' <= c <= 'z' || 'A' <= c <= 'Z' || '0' <= c <= '9' || c == '_'
  }

  /** `\s` restricted to ASCII: the characters Python's `str.isspace` accepts
      below 128 (tab, line feed, vertical tab, form feed, carriage return,
      the four separators 0x1C-0x1F, and the space). */
  predicate IsSpace(c: char) {
    c == ' ' || 9 <= c as int <= 13 || 28 <= c as int <= 31
  }

  predicate IsUpper(c: char) {
    'A' <= c <= 'Z'
  }

  /** The characters normalised text is made of: lower-case letters, digits,
      the underscore and the plain space. */
  predicate IsNormalChar(c: char) {
    c == ' ' || 'a' <= c <= 'z' || '0' <= c <= '9' || c == '_'
  }

  function LowerChar(c: char): (r: char)
    ensures !IsUpper(r)
    ensures IsWordChar(r) <==> IsWordChar(c)
    ensures IsSpace(r) <==> IsSpace(c)
  {
    if IsUpper(c) then (c as int + 32) as char else c
  }

  /** `str.lower()` on ASCII. */
  function Lower(s: string): (r: string)
    ensures |r| == |s|
    ensures forall i :: 0 <= i < |s| ==> r[i] == LowerChar(s[i])
  {
    seq(|s|, i requires 0 <= i < |s| => LowerChar(s[i]))
  }

  /** `re.sub(r'[^\w\s]', ' ', s)`: every character that is neither a word
      character nor whitespace becomes one space. */
  function Clean(s: string): (r: string)
    ensures |r| == |s|
    ensures forall i :: 0 <= i < |s| ==>
      r[i] == if IsWordChar(s[i]) || IsSpace(s[i]) then s[i] else ' '
  {
    seq(|s|, i requires 0 <= i < |s| => if IsWordChar(s[i]) || IsSpace(s[i]) then s[i] else ' ')
  }

  /** `str.lstrip()`: drops the leading whitespace. */
  function TrimStart(s: string): (r: string)
    ensures |r| <= |s| && r == s[|s| - |r|..]
    ensures r == [] || !IsSpace(r[0])
    ensures forall i :: 0 <= i < |s| - |r| ==> IsSpace(s[i])
  {
    if |s| > 0 && IsSpace(s[0]) then
      var r := TrimStart(s[1..]);
      assert s[1..][|s| - 1 - |r|..] == s[|s| - |r|..];
      assert forall i :: 1 <= i < |s| - |r| ==> s[i] == s[1..][i - 1];
      r
    else s
  }

  /** `str.rstrip()`: drops the trailing whitespace. */
  function TrimEnd(s: string): (r: string)
    ensures |r| <= |s| && r == s[..|r|]
    ensures r == [] || !IsSpace(r[|r| - 1])
    ensures forall i :: |r| <= i < |s| ==> IsSpace(s[i])
  {
    if |s| > 0 && IsSpace(s[|s| - 1]) then
      var r := TrimEnd(s[..|s| - 1]);
      assert s[..|s| - 1][..|r|] == s[..|r|];
      assert forall i :: |r| <= i < |s| - 1 ==> s[i] == s[..|s| - 1][i];
      r
    else s
  }

  /** `str.strip()`: the slice of `s` that starts where `TrimStart` stops,
      with no whitespace at either end and only whitespace outside it. */
  function Strip(s: string): (r: string)
    ensures r == [] || (!IsSpace(r[0]) && !IsSpace(r[|r| - 1]))
    ensures var lo := |s| - |TrimStart(s)|;
      && 0 <= lo <= |s| - |r| && r == s[lo..][..|r|]
      && (forall i :: 0 <= i < lo ==> IsSpace(s[i]))
      && (forall i :: lo + |r| <= i < |s| ==> IsSpace(s[i]))
  {
    StripSlice(s, TrimStart(s), TrimEnd(TrimStart(s)));
    TrimEnd(TrimStart(s))
  }

  /** Stripping `s` down to a suffix `u` and then `u` down to a prefix `r`
      keeps a slice of `s` starting where `u` starts. */
  lemma StripSlice(s: string, u: string, r: string)
    requires |u| <= |s| && u == s[|s| - |u|..] && (u == [] || !IsSpace(u[0]))
    requires |r| <= |u| && r == u[..|r|] && (r == [] || !IsSpace(r[|r| - 1]))
    requires forall i :: 0 <= i < |s| - |u| ==> IsSpace(s[i])
    requires forall i :: |r| <= i < |u| ==> IsSpace(u[i])
    ensures r == [] || (!IsSpace(r[0]) && !IsSpace(r[|r| - 1]))
    ensures var lo := |s| - |u|;
      && 0 <= lo <= |s| - |r| && r == s[lo..][..|r|]
      && (forall i :: 0 <= i < lo ==> IsSpace(s[i]))
      && (forall i :: lo + |r| <= i < |s| ==> IsSpace(s[i]))
  {
    var lo := |s| - |u|;
    assert u == s[lo..];
    if r != [] {
      assert r[0] == u[0];
    }
    forall i | lo + |r| <= i < |s|
      ensures IsSpace(s[i])
    {
      assert s[i] == u[i - lo];
    }
  }

  /** `re.sub(r'\s+', ' ', s)`: every maximal run of whitespace becomes one
      space. The result is empty only for empty input, starts with a space
      exactly when the input starts with whitespace, holds no whitespace but
      the plain space, and never two spaces in a row. */
  function Collapse(s: string): (r: string)
    ensures |r| == 0 <==> |s| == 0
    ensures |s| > 0 ==> (r[0] == ' ' <==> IsSpace(s[0]))
    ensures forall i :: 0 <= i < |r| && IsSpace(r[i]) ==> r[i] == ' '
    ensures forall i :: 0 <= i < |r| - 1 ==> !(r[i] == ' ' && r[i + 1] == ' ')
    decreases |s|
  {
    if s == [] then []
    else if IsSpace(s[0]) then [' '] + Collapse(TrimStart(s[1..]))
    else [s[0]] + Collapse(s[1..])
  }

  /** `FieldMatcher.normalize`: empty input gives the empty string; otherwise
      lower-case, replace punctuation by spaces, strip, collapse whitespace. */
  function Normalize(s: string): (r: string)
    ensures s == [] ==> r == []
  {
    if s == [] then [] else Collapse(Strip(Clean(Lower(s))))
  }

  /** `text.startswith(kw)`, compared character by character. */
  predicate StartsWith(text: string, kw: string)
    ensures StartsWith(text, kw) ==> |kw| <= |text|
  {
    kw == [] || (text != [] && text[0] == kw[0] && StartsWith(text[1..], kw[1..]))
  }

  /** Python's `kw in text`: `kw` starts at some position of `text` (the empty
      string is in every text). */
  predicate Contains(text: string, kw: string)
    ensures kw == [] ==> Contains(text, kw)
    ensures Contains(text, kw) ==> |kw| <= |text|
    decreases |text|
  {
    StartsWith(text, kw) || (text != [] && Contains(text[1..], kw))
  }

  /** `kw` occurs in `text` at position `i`. */
  ghost predicate OccursAt(text: string, kw: string, i: int) {
    0 <= i <= |text| - |kw| && text[i..i + |kw|] == kw
  }

  lemma {:induction false} StartsWithIff(text: string, kw: string)
    ensures StartsWith(text, kw) <==> |kw| <= |text| && text[..|kw|] == kw
    decreases |kw|
  {
    if kw != [] && text != [] {
      StartsWithIff(text[1..], kw[1..]);
      if |kw| <= |text| && text[..|kw|] == kw {
        assert text[1..][..|kw| - 1] == kw[1..];
      }
      if StartsWith(text, kw) {
        assert text[..|kw|] == [text[0]] + text[1..][..|kw| - 1];
      }
    }
  }

  /** The recursive search agrees with the definition of a substring. */
  lemma {:induction false} ContainsIff(text: string, kw: string)
    ensures Contains(text, kw) <==> exists i :: OccursAt(text, kw, i)
    decreases |text|
  {
    StartsWithIff(text, kw);
    if StartsWith(text, kw) {
      assert OccursAt(text, kw, 0);
    } else if text != [] {
      ContainsIff(text[1..], kw);
      if Contains(text[1..], kw) {
        var i :| OccursAt(text[1..], kw, i);
        assert text[i + 1..i + 1 + |kw|] == text[1..][i..i + |kw|];
        assert OccursAt(text, kw, i + 1);
      }
      if exists i :: OccursAt(text, kw, i) {
        var i :| OccursAt(text, kw, i);
        assert i != 0;
        assert text[1..][i - 1..i - 1 + |kw|] == text[i..i + |kw|];
        assert OccursAt(text[1..], kw, i - 1);
      }
    }
  }

  /** What `Normalize` promises of its output: only normal characters, no
      space at either end, never two spaces in a row. */
  ghost predicate IsNormalized(t: string) {
    && (forall i :: 0 <= i < |t| ==> IsNormalChar(t[i]))
    && (|t| > 0 ==> t[0] != ' ' && t[|t| - 1] != ' ')
    && (forall i :: 0 <= i < |t| - 1 ==> !(t[i] == ' ' && t[i + 1] == ' '))
  }

  /** The characters left after lower-casing and cleaning. */
  ghost predicate IsCleanChar(c: char) {
    (IsWordChar(c) && !IsUpper(c)) || IsSpace(c)
  }

  lemma {:induction false} CollapseChars(s: string)
    requires forall i :: 0 <= i < |s| ==> IsCleanChar(s[i])
    ensures forall i :: 0 <= i < |Collapse(s)| ==> IsNormalChar(Collapse(s)[i])
    decreases |s|
  {
    if s != [] {
      if IsSpace(s[0]) {
        CollapseChars(TrimStart(s[1..]));
      } else {
        CollapseChars(s[1..]);
      }
    }
  }

  /** `Collapse` keeps whether the text ends with whitespace. */
  lemma {:induction false} CollapseLast(s: string)
    requires |s| > 0
    ensures |Collapse(s)| > 0
    ensures Collapse(s)[|Collapse(s)| - 1] == ' ' <==> IsSpace(s[|s| - 1])
    decreases |s|
  {
    if IsSpace(s[0]) {
      var t := TrimStart(s[1..]);
      if t != [] {
        CollapseLast(t);
        assert t[|t| - 1] == s[|s| - 1];
      } else if |s| > 1 {
        assert IsSpace(s[1..][|s| - 2]);
      }
    } else if |s| > 1 {
      CollapseLast(s[1..]);
      assert s[1..][|s| - 2] == s[|s| - 1];
    }
  }

  /** What `re.sub(r'\s+', ' ', s)` makes of the character at `i`: a
      non-whitespace character is kept, the first whitespace character of a
      run becomes one space, and the rest of the run disappears. */
  ghost function RunPiece(s: string, i: nat): string
    requires i < |s|
  {
    if !IsSpace(s[i]) then [s[i]]
    else if i == 0 || !IsSpace(s[i - 1]) then " "
    else []
  }

  /** The pieces of the characters from `i` on, concatenated in order. */
  ghost function RunPiecesFrom(s: string, i: nat): string
    requires i <= |s|
    decreases |s| - i
  {
    if i == |s| then [] else RunPiece(s, i) + RunPiecesFrom(s, i + 1)
  }

  /** Inside a whitespace run, the remaining characters of the run add
      nothing. */
  lemma {:induction false} RunTailVanishes(s: string, k: nat, j: nat)
    requires 0 < k <= j <= |s| && IsSpace(s[k - 1])
    requires forall m :: k <= m < j ==> IsSpace(s[m])
    ensures RunPiecesFrom(s, k) == RunPiecesFrom(s, j)
    decreases j - k
  {
    if k < j {
      RunTailVanishes(s, k + 1, j);
    }
  }

  /** `Collapse` of a suffix that does not start inside a whitespace run
      produces the pieces of that suffix. */
  lemma {:induction false} CollapseFrom(s: string, i: nat)
    requires i <= |s|
    requires i == 0 || i == |s| || !IsSpace(s[i - 1]) || !IsSpace(s[i])
    ensures Collapse(s[i..]) == RunPiecesFrom(s, i)
    decreases |s| - i, 1
  {
    if i < |s| {
      if !IsSpace(s[i]) {
        CollapseFrom(s, i + 1);
        assert s[i..][1..] == s[i + 1..];
        assert Collapse(s[i..]) == [s[i]] + Collapse(s[i + 1..]);
      } else {
        CollapseRunFrom(s, i);
      }
    }
  }

  /** `TrimStart` of a suffix of `s` is the suffix starting at the first
      non-whitespace character at or after `k`. */
  lemma TrimStartSuffix(s: string, k: nat)
    requires k <= |s|
    ensures var j := |s| - |TrimStart(s[k..])|;
      && k <= j && TrimStart(s[k..]) == s[j..]
      && (forall m :: k <= m < j ==> IsSpace(s[m]))
      && (j < |s| ==> !IsSpace(s[j]))
  {
    var u := s[k..];
    var r := TrimStart(u);
    var j := |s| - |r|;
    forall m | k <= m < j
      ensures IsSpace(s[m])
    {
      assert s[m] == u[m - k];
    }
    if j < |s| {
      assert s[j] == r[0];
    }
  }

  /** One step of `Collapse` at a whitespace character of `s`. */
  lemma CollapseSpaceStep(s: string, i: nat)
    requires i < |s| && IsSpace(s[i])
    ensures Collapse(s[i..]) == " " + Collapse(TrimStart(s[i + 1..]))
  {
    assert s[i..][1..] == s[i + 1..];
  }

  /** The whitespace case of `CollapseFrom`: the run starting at `i` becomes
      one space, and collapsing resumes where `TrimStart` stops. */
  lemma {:induction false} CollapseRunFrom(s: string, i: nat)
    requires i < |s| && IsSpace(s[i]) && (i == 0 || !IsSpace(s[i - 1]))
    ensures Collapse(s[i..]) == RunPiecesFrom(s, i)
    decreases |s| - i, 0
  {
    CollapseSpaceStep(s, i);
    var j := RunEnd(s, i);
    CollapseFrom(s, j);
    assert RunPiecesFrom(s, i) == " " + RunPiecesFrom(s, i + 1);
  }

  /** Where the whitespace run at `i` ends: `TrimStart` of what follows `i`
      resumes there, and the rest of the run adds no pieces. */
  lemma RunEnd(s: string, i: nat) returns (j: nat)
    requires i < |s| && IsSpace(s[i])
    ensures j == |s| - |TrimStart(s[i + 1..])| && i < j <= |s|
    ensures TrimStart(s[i + 1..]) == s[j..]
    ensures j == |s| || !IsSpace(s[j])
    ensures RunPiecesFrom(s, i + 1) == RunPiecesFrom(s, j)
  {
    TrimStartSuffix(s, i + 1);
    j := |s| - |TrimStart(s[i + 1..])|;
    RunTailVanishes(s, i + 1, j);
  }

  /** `Collapse` keeps every non-whitespace character in order and replaces
      each maximal run of whitespace by one space. */
  lemma CollapseRuns(s: string)
    ensures Collapse(s) == RunPiecesFrom(s, 0)
  {
    CollapseFrom(s, 0);
    assert s[0..] == s;
  }

  /** A slice of a clean string is clean. */
  lemma SliceClean(c: string, lo: int, hi: int)
    requires forall i :: 0 <= i < |c| ==> IsCleanChar(c[i])
    requires 0 <= lo <= hi <= |c|
    ensures forall i :: 0 <= i < hi - lo ==> IsCleanChar(c[lo..hi][i])
  {
    forall i | 0 <= i < hi - lo
      ensures IsCleanChar(c[lo..hi][i])
    {
      assert c[lo..hi][i] == c[lo + i];
    }
  }

  /** `TrimStart` keeps only characters of its input. */
  lemma TrimStartClean(c: string)
    requires forall i :: 0 <= i < |c| ==> IsCleanChar(c[i])
    ensures forall i :: 0 <= i < |TrimStart(c)| ==> IsCleanChar(TrimStart(c)[i])
  {
    var ts := TrimStart(c);
    SliceClean(c, |c| - |ts|, |c|);
    assert ts == c[|c| - |ts|..|c|];
  }

  /** `TrimEnd` keeps only characters of its input. */
  lemma TrimEndClean(c: string)
    requires forall i :: 0 <= i < |c| ==> IsCleanChar(c[i])
    ensures forall i :: 0 <= i < |TrimEnd(c)| ==> IsCleanChar(TrimEnd(c)[i])
  {
    var st := TrimEnd(c);
    SliceClean(c, 0, |st|);
    assert st == c[0..|st|];
  }

  /** `Strip` keeps only characters of its input and leaves no whitespace at
      either end. */
  lemma StripShape(c: string)
    requires forall i :: 0 <= i < |c| ==> IsCleanChar(c[i])
    ensures var st := Strip(c);
      && (forall i :: 0 <= i < |st| ==> IsCleanChar(st[i]))
      && (|st| > 0 ==> !IsSpace(st[0]) && !IsSpace(st[|st| - 1]))
  {
    var ts := TrimStart(c);
    TrimStartClean(c);
    TrimEndClean(ts);
    var st := TrimEnd(ts);
    if |st| > 0 {
      assert st[0] == ts[0];
    }
  }

  lemma LowerCleanChars(s: string)
    ensures forall i :: 0 <= i < |s| ==> IsCleanChar(Clean(Lower(s))[i])
  {
  }

  /** Every output of `Normalize` is in normal form: lower case, only word
      characters and single inner spaces. */
  lemma NormalizeIsNormalized(s: string)
    ensures IsNormalized(Normalize(s))
  {
    if s != [] {
      var c := Clean(Lower(s));
      LowerCleanChars(s);
      var st := Strip(c);
      StripShape(c);
      CollapseChars(st);
      if st != [] {
        CollapseLast(st);
      }
    }
  }

  /** A string already in normal form is left unchanged by `Collapse`
      (the weaker requirement lets the proof recurse on suffixes). */
  lemma {:induction false} CollapseFixed(t: string)
    requires forall i :: 0 <= i < |t| ==> IsNormalChar(t[i])
    requires forall i :: 0 <= i < |t| - 1 ==> !(t[i] == ' ' && t[i + 1] == ' ')
    requires |t| > 0 ==> t[|t| - 1] != ' '
    ensures Collapse(t) == t
    decreases |t|
  {
    if t != [] {
      var u := t[1..];
      assert forall i :: 0 <= i < |u| ==> u[i] == t[i + 1];
      CollapseFixed(u);
      if IsSpace(t[0]) {
        assert t[0] == ' ' && |t| > 1 && u[0] != ' ' && !IsSpace(u[0]);
        assert TrimStart(u) == u;
        assert Collapse(t) == [' '] + Collapse(u);
      } else {
        assert Collapse(t) == [t[0]] + Collapse(u);
      }
    }
  }

  /** Normalising is idempotent: normal-form text is a fixed point. */
  lemma NormalizeFixed(t: string)
    requires IsNormalized(t)
    ensures Normalize(t) == t
  {
    if t != [] {
      assert Lower(t) == t;
      assert Clean(t) == t;
      assert TrimStart(t) == t;
      assert TrimEnd(t) == t;
      CollapseFixed(t);
    }
  }

  lemma NormalizeIdempotent(s: string)
    ensures Normalize(Normalize(s)) == Normalize(s)
  {
    NormalizeIsNormalized(s);
    NormalizeFixed(Normalize(s));
  }

  /** Every character of a substring of normalised text is a normal
      character, so a keyword containing `-`, `.` or an upper-case letter can
      never be found in it. */
  lemma ContainsOnlyNormal(t: string, kw: string, k: nat)
    requires IsNormalized(t) && Contains(t, kw) && k < |kw|
    ensures IsNormalChar(kw[k])
  {
    ContainsIff(t, kw);
    var i :| OccursAt(t, kw, i);
    assert kw[k] == t[i + k];
  }

  /** Every character of a keyword found in `text` is a character of `text`. */
  lemma ContainsChar(text: string, kw: string, k: nat)
    requires Contains(text, kw) && k < |kw|
    ensures kw[k] in text
  {
    ContainsIff(text, kw);
    var i :| OccursAt(text, kw, i);
    assert kw[k] == text[i + k];
  }

  /** A keyword found in `text` and as long as it is `text` itself. */
  lemma ContainsWhole(text: string, kw: string)
    requires Contains(text, kw) && |kw| == |text|
    ensures kw == text
  {
    ContainsIff(text, kw);
    var i :| OccursAt(text, kw, i);
    assert i == 0;
    assert text[0..|text|] == text;
  }

  /** An occurrence at a known position is a hit. */
  lemma ContainsAt(text: string, kw: string, p: int)
    requires OccursAt(text, kw, p)
    ensures Contains(text, kw)
  {
    ContainsIff(text, kw);
  }

}
