/**
 * Character-level helpers of the crawler: Python's `str.strip()` (used on every
 * extracted text) and the `re.sub` that turns a page title into a file name.
 */
module Text {

  /** Python's `str.isspace()` for one code point (the characters `str.strip()` removes). */
  predicate IsSpace(c: char) {
    var n := c as int;
    (9 <= n <= 13) || (28 <= n <= 32) || n == 0x85 || n == 0xA0 || n == 0x1680
    || (0x2000 <= n <= 0x200A) || n == 0x2028 || n == 0x2029 || n == 0x202F
    || n == 0x205F || n == 0x3000
  }

  /** `s.lstrip()`: drops the leading whitespace. */
  function TrimStart(s: string): string {
    if s != [] && IsSpace(s[0]) then TrimStart(s[1..]) else s
  }

  /** `s.rstrip()`: drops the trailing whitespace. */
  function TrimEnd(s: string): string {
    if s != [] && IsSpace(s[|s| - 1]) then TrimEnd(s[..|s| - 1]) else s
  }

  /** `s.strip()`. */
  function Strip(s: string): string {
    TrimEnd(TrimStart(s))
  }

  /** Whether `s` consists of whitespace only (vacuously so when empty). */
  predicate IsBlank(s: string) {
    forall i :: 0 <= i < |s| ==> IsSpace(s[i])
  }

  /** `lstrip` removes a whitespace-only prefix and stops at the first other character. */
  lemma {:induction false} TrimStartRemovesLeadingSpace(s: string)
    ensures |TrimStart(s)| <= |s| && TrimStart(s) == s[|s| - |TrimStart(s)|..]
    ensures TrimStart(s) == [] || !IsSpace(TrimStart(s)[0])
    ensures IsBlank(s[..|s| - |TrimStart(s)|])
  {
    if s != [] && IsSpace(s[0]) {
      TrimStartRemovesLeadingSpace(s[1..]);
      var k := |s| - |TrimStart(s)|;
      assert forall i :: 1 <= i < k ==> s[i] == s[1..][..k - 1][i - 1];
    }
  }

  /** `rstrip` removes a whitespace-only suffix and stops at the last other character. */
  lemma {:induction false} TrimEndRemovesTrailingSpace(s: string)
    ensures |TrimEnd(s)| <= |s| && TrimEnd(s) == s[..|TrimEnd(s)|]
    ensures TrimEnd(s) == [] || !IsSpace(TrimEnd(s)[|TrimEnd(s)| - 1])
    ensures IsBlank(s[|TrimEnd(s)|..])
  {
    if s != [] && IsSpace(s[|s| - 1]) {
      var s' := s[..|s| - 1];
      TrimEndRemovesTrailingSpace(s');
      var k := |TrimEnd(s)|;
      assert forall i :: k <= i < |s| - 1 ==> s[i] == s'[k..][i - k];
    }
  }

  /**
   * `s.strip()` is a slice of `s` that neither starts nor ends with whitespace,
   * and everything cut away is whitespace; it is empty exactly when `s` is all
   * whitespace, which is the test the paragraph extraction applies.
   */
  lemma StripIsTrimmedSlice(s: string)
    ensures |Strip(s)| <= |TrimStart(s)| <= |s|
    ensures Strip(s) == s[|s| - |TrimStart(s)|..][..|Strip(s)|]
    ensures Strip(s) == [] || (!IsSpace(Strip(s)[0]) && !IsSpace(Strip(s)[|Strip(s)| - 1]))
    ensures Strip(s) == [] <==> IsBlank(s)
    ensures IsBlank(s[..|s| - |TrimStart(s)|]) && IsBlank(s[|s| - |TrimStart(s)| + |Strip(s)|..])
  {
    var t := TrimStart(s);
    TrimStartRemovesLeadingSpace(s);
    TrimEndRemovesTrailingSpace(t);
    var i := |s| - |t|;
    assert s[i + |Strip(s)|..] == t[|Strip(s)|..];
    StripEmptyIffBlank(s);
  }

  /** `s.strip()` is empty exactly when `s` is whitespace only. */
  lemma StripEmptyIffBlank(s: string)
    ensures Strip(s) == [] <==> IsBlank(s)
  {
    var t := TrimStart(s);
    TrimStartRemovesLeadingSpace(s);
    TrimEndRemovesTrailingSpace(t);
    var i := |s| - |t|;
    if Strip(s) == [] {
      assert s[i..] == t[|Strip(s)|..];
      BlankSplit(s, i);
    } else {
      assert s[i] == t[0] == Strip(s)[0];
    }
  }

  /** A string made of a whitespace-only prefix and a whitespace-only rest is whitespace only. */
  lemma BlankSplit(s: string, i: nat)
    requires i <= |s| && IsBlank(s[..i]) && IsBlank(s[i..])
    ensures IsBlank(s)
  {
    forall m | 0 <= m < |s| ensures IsSpace(s[m]) {
      if m < i {
        assert s[..i][m] == s[m];
      } else {
        assert s[i..][m - i] == s[m];
      }
    }
  }

  /** The characters `[<>:"/\\|?*]` that cannot appear in a stored page's file name. */
  predicate IsUnsafe(c: char) {
    c in "<>:\"/\\|?*"
  }

  /**
   * `re.sub(r'[<>:"/\\|?*]', "_", title)`: scans the title once, replacing each
   * unsafe character by `_` and keeping every other character where it was.
   */
  function SanitizeFilename(title: string): (name: string)
    ensures |name| == |title|
    ensures forall i :: 0 <= i < |title| ==> name[i] == if IsUnsafe(title[i]) then '_' else title[i]
  {
    if title == [] then []
    else [if IsUnsafe(title[0]) then '_' else title[0]] + SanitizeFilename(title[1..])
  }

  /** A sanitised name holds no unsafe character, so sanitising it again changes nothing. */
  lemma SanitizeIdempotent(title: string)
    ensures forall i :: 0 <= i < |SanitizeFilename(title)| ==> !IsUnsafe(SanitizeFilename(title)[i])
    ensures SanitizeFilename(SanitizeFilename(title)) == SanitizeFilename(title)
  {
    var once := SanitizeFilename(title);
    var twice := SanitizeFilename(once);
    assert forall i :: 0 <= i < |once| ==> twice[i] == once[i];
  }
}
