/**
 * Cell text normalisation and validation of the plate-name extractor:
 * the character classes the Python string methods rely on, whitespace
 * trimming, `*` removal, removal of `[注 <digits>]` footnote markers,
 * and the plate-name and prefecture checks.
 */
module Text {

  /** Python's `str.isspace()` (also what `\s` matches in a `str` pattern). */
  predicate IsSpace(c: char) {
    || ('\U{0009}' <= c <= '\U{000D}')
    || ('\U{001C}' <= c <= '\U{0020}')
    || c == '\U{0085}' || c == '\U{00A0}' || c == '\U{1680}'
    || ('\U{2000}' <= c <= '\U{200A}')
    || c == '\U{2028}' || c == '\U{2029}' || c == '\U{202F}'
    || c == '\U{205F}' || c == '\U{3000}'
  }

  /** What `\d` matches: ASCII and fullwidth decimal digits. */
  predicate IsDecimalDigit(c: char) {
    ('0' <= c <= '9') || ('\U{FF10}' <= c <= '\U{FF19}')
  }

  /**
   * What `str.isdigit()` accepts per character: the decimal digits and the
   * superscript, subscript, circled, parenthesised and digit-full-stop (U+2488–2490) digits.
   */
  predicate IsDigit(c: char) {
    || IsDecimalDigit(c)
    || c == '\U{00B2}' || c == '\U{00B3}' || c == '\U{00B9}'
    || c == '\U{2070}' || ('\U{2074}' <= c <= '\U{2079}')
    || ('\U{2080}' <= c <= '\U{2089}')
    || ('\U{2460}' <= c <= '\U{2468}') || c == '\U{24EA}'
    || ('\U{2474}' <= c <= '\U{247C}')
    || ('\U{2488}' <= c <= '\U{2490}')
  }

  /** Python's `s.isdigit()`: false on the empty string. */
  predicate IsDigitString(s: string) {
    |s| > 0 && forall i :: 0 <= i < |s| ==> IsDigit(s[i])
  }

  /** Length of the longest prefix of `s` made of whitespace. */
  function LeadingSpaces(s: string): (n: nat)
    ensures n <= |s|
    ensures forall i :: 0 <= i < n ==> IsSpace(s[i])
    ensures n < |s| ==> !IsSpace(s[n])
  {
    if s == [] || !IsSpace(s[0]) then 0 else 1 + LeadingSpaces(s[1..])
  }

  /** Length of the longest suffix of `s` made of whitespace. */
  function TrailingSpaces(s: string): (n: nat)
    ensures n <= |s|
    ensures forall i :: |s| - n <= i < |s| ==> IsSpace(s[i])
    ensures n < |s| ==> !IsSpace(s[|s| - 1 - n])
  {
    if s == [] || !IsSpace(s[|s| - 1]) then 0 else 1 + TrailingSpaces(s[..|s| - 1])
  }

  /** Length of the longest prefix of `s` made of decimal digits. */
  function LeadingDecimals(s: string): (n: nat)
    ensures n <= |s|
    ensures forall i :: 0 <= i < n ==> IsDecimalDigit(s[i])
    ensures n < |s| ==> !IsDecimalDigit(s[n])
  {
    if s == [] || !IsDecimalDigit(s[0]) then 0 else 1 + LeadingDecimals(s[1..])
  }

  predicate AllSpaces(s: string) {
    forall i :: 0 <= i < |s| ==> IsSpace(s[i])
  }

  /**
   * Python's `s.strip()`: the result is the slice of `s` left after dropping
   * the whitespace at both ends; it starts and ends with a non-space.
   */
  function Trim(s: string): (r: string)
    ensures |r| <= |s|
    ensures r == [] || (!IsSpace(r[0]) && !IsSpace(r[|r| - 1]))
    ensures forall c :: c in r ==> c in s
  {
    var a := LeadingSpaces(s);
    var b := TrailingSpaces(s[a..]);
    var r := s[a..|s| - b];
    assert r == s[a..][..|s| - a - b];
    assert forall c :: c in r ==> c in s;
    r
  }

  /**
   * Trimming removes whitespace only at the two ends and keeps the interior:
   * `s` is the result with a run of spaces before it and one after it.
   * With the end conditions of `Trim`, this is exactly `strip()`.
   */
  lemma TrimIsStrip(s: string)
    ensures exists p, q :: s == p + Trim(s) + q && AllSpaces(p) && AllSpaces(q)
  {
    var a := LeadingSpaces(s);
    var b := TrailingSpaces(s[a..]);
    var r := s[a..|s| - b];
    assert Trim(s) == r;
    var p, q := s[..a], s[|s| - b..];
    assert AllSpaces(p) by {
      forall i | 0 <= i < a ensures IsSpace(p[i]) {
        assert p[i] == s[i];
      }
    }
    assert AllSpaces(q) by {
      forall i | 0 <= i < b ensures IsSpace(q[i]) {
        assert q[i] == s[a..][|s| - a - b + i];
      }
    }
    var m := |s| - b;
    assert a <= m <= |s|;
    assert s == s[..a] + s[a..m] + s[m..];
  }

  /** A string with no whitespace at either end is its own trim. */
  lemma TrimTrimmed(s: string)
    requires s == [] || (!IsSpace(s[0]) && !IsSpace(s[|s| - 1]))
    ensures Trim(s) == s
  {
  }

  /** `s.replace('*', '')`: deletes every `*` and keeps everything else in order. */
  function RemoveStars(s: string): (r: string)
    ensures '*' !in r
    ensures |r| <= |s|
    ensures forall c :: c in r ==> c in s
    ensures '*' !in s ==> r == s
  {
    if s == [] then []
    else if s[0] == '*' then RemoveStars(s[1..])
    else [s[0]] + RemoveStars(s[1..])
  }

  /** Exactly the `*` characters are deleted: every other character keeps its count. */
  lemma {:induction false} RemoveStarsMultiset(s: string)
    ensures multiset(RemoveStars(s)) == multiset(s)['*' := 0]
  {
    if s != [] {
      RemoveStarsMultiset(s[1..]);
      assert s == [s[0]] + s[1..];
    }
  }

  predicate AllDecimalDigits(s: string) {
    forall i :: 0 <= i < |s| ==> IsDecimalDigit(s[i])
  }

  /** `m` is exactly one match of the pattern `\[注\s*\d+\]`. */
  ghost predicate IsNoteMarker(m: string) {
    && |m| >= 4 && m[0] == '[' && m[1] == '注' && m[|m| - 1] == ']'
    && exists k :: 2 <= k < |m| - 1 && AllSpaces(m[2..k]) && AllDecimalDigits(m[k..|m| - 1])
  }

  /** Length of the footnote marker that starts `s`, or 0 when `s` does not start with one. */
  function NoteLength(s: string): (n: nat)
    ensures n == 0 || 4 <= n <= |s|
  {
    if |s| >= 2 && s[0] == '[' && s[1] == '注' then
      var k := LeadingSpaces(s[2..]);
      var d := LeadingDecimals(s[2 + k..]);
      if d > 0 && 2 + k + d < |s| && s[2 + k + d] == ']' then 3 + k + d else 0
    else 0
  }

  /** When `NoteLength(s)` is positive, that prefix of `s` is a marker. */
  lemma NoteLengthSound(s: string)
    ensures NoteLength(s) > 0 ==> IsNoteMarker(s[..NoteLength(s)])
  {
    var n := NoteLength(s);
    if n > 0 {
      var k := LeadingSpaces(s[2..]);
      var d := LeadingDecimals(s[2 + k..]);
      var m := s[..n];
      assert m[2..2 + k] == s[2..][..k];
      assert m[2 + k..n - 1] == s[2 + k..][..d];
      assert AllSpaces(m[2..2 + k]) && AllDecimalDigits(m[2 + k..n - 1]);
    }
  }

  /** Any marker that is a prefix of `s` has length `NoteLength(s)`. */
  lemma NoteLengthComplete(s: string, j: nat)
    requires 0 < j <= |s| && IsNoteMarker(s[..j])
    ensures j == NoteLength(s)
  {
    var m := s[..j];
    var k' :| 2 <= k' < |m| - 1 && AllSpaces(m[2..k']) && AllDecimalDigits(m[k'..|m| - 1]);
    var k := LeadingSpaces(s[2..]);
    forall i | 2 <= i < k'
      ensures IsSpace(s[i])
    {
      assert s[i] == m[2..k'][i - 2];
    }
    assert s[k'] == m[k'..|m| - 1][0];
    assert k == k' - 2;
    var d := LeadingDecimals(s[2 + k..]);
    forall i | k' <= i < j - 1
      ensures IsDecimalDigit(s[i])
    {
      assert s[i] == m[k'..|m| - 1][i - k'];
    }
    assert s[j - 1] == ']';
    assert d == j - 1 - k';
  }

  /**
   * The pattern `\[注\s*\d+\]` matches at the start of `s` exactly the prefix
   * of length `NoteLength(s)` (and nothing when that is 0).
   */
  lemma NoteLengthCorrect(s: string)
    ensures forall j :: 0 < j <= |s| ==> (IsNoteMarker(s[..j]) <==> j == NoteLength(s))
  {
    NoteLengthSound(s);
    forall j | 0 < j <= |s| && IsNoteMarker(s[..j])
      ensures j == NoteLength(s)
    {
      NoteLengthComplete(s, j);
    }
  }

  /**
   * `re.sub(r'\[注\s*\d+\]', '', s)`: scans left to right, deleting each
   * leftmost, non-overlapping footnote marker and keeping every other
   * character in order.
   */
  function RemoveNotes(s: string): (r: string)
    ensures |r| <= |s|
    decreases |s|
  {
    if s == [] then []
    else
      var n := NoteLength(s);
      if n > 0 then RemoveNotes(s[n..]) else [s[0]] + RemoveNotes(s[1..])
  }

  /** Marker removal only deletes characters: every character of the result occurs in `s`. */
  lemma {:induction false} RemoveNotesChars(s: string)
    ensures forall c :: c in RemoveNotes(s) ==> c in s
    decreases |s|
  {
    if s != [] {
      var n := NoteLength(s);
      if n > 0 {
        RemoveNotesChars(s[n..]);
        assert forall c :: c in s[n..] ==> c in s;
      } else {
        RemoveNotesChars(s[1..]);
        assert forall c :: c in s[1..] ==> c in s;
      }
    }
  }

  /** A marker at the front is deleted as a whole. */
  lemma RemoveNotesMarker(m: string, rest: string)
    requires IsNoteMarker(m)
    ensures RemoveNotes(m + rest) == RemoveNotes(rest)
  {
    var s := m + rest;
    NoteLengthCorrect(s);
    assert s[..|m|] == m;
    assert s[|m|..] == rest;
  }

  /** Where no marker starts, the first character is kept and the scan moves on by one. */
  lemma RemoveNotesKeep(s: string)
    requires s != [] && forall j :: 0 < j <= |s| ==> !IsNoteMarker(s[..j])
    ensures RemoveNotes(s) == [s[0]] + RemoveNotes(s[1..])
  {
    var n := NoteLength(s);
    assert n > 0 ==> !IsNoteMarker(s[..n]);
    NoteLengthSound(s);
    assert n == 0;
  }

  /** A string containing no marker anywhere is left unchanged. */
  lemma {:induction false} RemoveNotesNoMarker(s: string)
    requires forall i, j :: 0 <= i < j <= |s| ==> !IsNoteMarker(s[i..j])
    ensures RemoveNotes(s) == s
  {
    if s != [] {
      var n := NoteLength(s);
      assert n > 0 ==> !IsNoteMarker(s[0..n]);
      assert s[0..n] == s[..n];
      NoteLengthCorrect(s);
      assert n == 0;
      forall i, j | 0 <= i < j <= |s[1..]|
        ensures !IsNoteMarker(s[1..][i..j])
      {
        assert s[1..][i..j] == s[i + 1..j + 1];
      }
      RemoveNotesNoMarker(s[1..]);
      assert s == [s[0]] + s[1..];
    }
  }

  /** Without a `[`, no marker can occur, so marker removal is the identity. */
  lemma RemoveNotesNoBracket(s: string)
    requires '[' !in s
    ensures RemoveNotes(s) == s
  {
    forall i, j | 0 <= i < j <= |s|
      ensures !IsNoteMarker(s[i..j])
    {
      if |s[i..j]| >= 4 {
        assert s[i..j][0] == s[i];
      }
    }
    RemoveNotesNoMarker(s);
  }

  /**
   * `_clean_plate_name`: the missing-value markers become empty; otherwise
   * every `*` is deleted, the result trimmed, footnote markers deleted and
   * the result trimmed again.
   */
  function Clean(text: string): string {
    if text == "" || text == "nan" || text == "NaN" then ""
    else Trim(RemoveNotes(Trim(RemoveStars(text))))
  }

  /**
   * What cleaning guarantees: the missing-value markers give "", and any
   * result has no `*`, no surrounding whitespace, only characters of the
   * input, and is never longer than the input.
   */
  lemma CleanProperties(text: string)
    ensures var r := Clean(text);
      && (text == "" || text == "nan" || text == "NaN" ==> r == "")
      && '*' !in r
      && (r == [] || (!IsSpace(r[0]) && !IsSpace(r[|r| - 1])))
      && (forall c :: c in r ==> c in text)
      && |r| <= |text|
  {
    if !(text == "" || text == "nan" || text == "NaN") {
      var s0 := RemoveStars(text);
      var s1 := Trim(s0);
      var s2 := RemoveNotes(s1);
      RemoveNotesChars(s1);
      assert Clean(text) == Trim(s2);
    }
  }

  /**
   * When the star-free, trimmed text holds no footnote marker anywhere,
   * cleaning keeps the interior: the result is the text with its `*`
   * deleted and exactly the surrounding whitespace removed.
   */
  lemma CleanWithoutMarkers(text: string)
    requires text != "" && text != "nan" && text != "NaN"
    requires forall i, j :: 0 <= i < j <= |Trim(RemoveStars(text))| ==> !IsNoteMarker(Trim(RemoveStars(text))[i..j])
    ensures exists p, q :: RemoveStars(text) == p + Clean(text) + q && AllSpaces(p) && AllSpaces(q)
  {
    var t := RemoveStars(text);
    var s1 := Trim(t);
    RemoveNotesNoMarker(s1);
    TrimTrimmed(s1);
    assert Clean(text) == s1;
    TrimIsStrip(t);
  }

  /**
   * The same for a text without `[`: cleaning keeps the interior, the result
   * being the text with its `*` deleted and exactly the surrounding
   * whitespace removed.
   */
  lemma CleanWithoutBracket(text: string)
    requires text != "" && text != "nan" && text != "NaN" && '[' !in text
    ensures exists p, q :: RemoveStars(text) == p + Clean(text) + q && AllSpaces(p) && AllSpaces(q)
  {
    var t := RemoveStars(text);
    var s1 := Trim(t);
    RemoveNotesNoBracket(s1);
    TrimTrimmed(s1);
    assert Clean(text) == s1;
    TrimIsStrip(t);
  }

  /**
   * An ordinary name followed by one `*` (the footnote star of the plate
   * table) cleans to the name itself.
   */
  lemma CleanStarSuffix(s: string)
    requires s != [] && '*' !in s && '[' !in s
    requires !IsSpace(s[0]) && !IsSpace(s[|s| - 1])
    ensures Clean(s + ['*']) == s
  {
    var text := s + ['*'];
    assert text[|text| - 1] == '*';
    assert text != "" && text != "nan" && text != "NaN";
    RemoveStarsAppend(s, ['*']);
    assert RemoveStars(['*']) == [];
    assert RemoveStars(text) == s;
    TrimTrimmed(s);
    RemoveNotesNoBracket(s);
  }

  /**
   * Cleaning is not idempotent: a missing-value marker followed by `*`
   * (`"nan*"`, `"NaN*"`) cleans to the marker, which then cleans to "".
   */
  lemma CleanNotIdempotent(m: string)
    requires m == "nan" || m == "NaN"
    ensures Clean(m + ['*']) == m
    ensures Clean(Clean(m + ['*'])) == ""
  {
    CleanStarSuffix(m);
  }

  /**
   * Cleaning leaves an ordinary name alone: no `*`, no `[`, no surrounding
   * whitespace and not a missing-value marker.
   */
  lemma CleanPlain(s: string)
    requires s != "" && s != "nan" && s != "NaN"
    requires '*' !in s && '[' !in s
    requires !IsSpace(s[0]) && !IsSpace(s[|s| - 1])
    ensures Clean(s) == s
  {
    TrimTrimmed(s);
    RemoveNotesNoBracket(s);
  }

  lemma {:induction false} RemoveStarsAppend(a: string, b: string)
    ensures RemoveStars(a + b) == RemoveStars(a) + RemoveStars(b)
  {
    if a == [] {
      assert a + b == b;
    } else {
      assert (a + b)[0] == a[0];
      assert (a + b)[1..] == a[1..] + b;
      RemoveStarsAppend(a[1..], b);
      if a[0] != '*' {
        assert RemoveStars(a + b) == [a[0]] + (RemoveStars(a[1..]) + RemoveStars(b));
      }
    }
  }

  /**
   * `_is_valid_plate_name`: a name is accepted exactly when it is
   * non-empty, at most 10 characters long and has a non-digit character.
   */
  predicate IsValidPlateName(t: string)
    ensures IsValidPlateName(t) <==> 0 < |t| <= 10 && exists i :: 0 <= i < |t| && !IsDigit(t[i])
  {
    !(t == "" || |t| > 10) && !IsDigitString(t)
  }

  /** `_is_prefecture`: membership in the fixed prefecture set. */
  predicate IsPrefecture(text: string, prefectures: set<string>) {
    text in prefectures
  }
}
