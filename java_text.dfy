/**
 * The pieces of java.lang.String and java.util.regex the validators rely on:
 * trim(), length() in UTF-16 code units, the regex classes \s and `.`, split on a one-character delimiter,
 * replaceAll("\\s+", " "), equalsIgnoreCase, and Character.digit in radix 10.
 */
module JavaText {

  /** String.trim() removes every leading and trailing char whose code is at most U+0020. */
  predicate IsTrimmable(c: char) { c <= ' ' }

  /** The regex class \s without UNICODE_CHARACTER_CLASS: [ \t\n\x0B\f\r]. */
  predicate IsRegexSpace(c: char) {
    c == ' ' || c == '\t' || c == '\n' || c == '\r' || c as int == 0x0B || c as int == 0x0C
  }

  /** The characters that the regex `.` does not match (line terminators). */
  predicate IsLineTerminator(c: char) {
    c == '\n' || c == '\r' || c as int == 0x85 || c as int == 0x2028 || c as int == 0x2029
  }

  predicate AllRegexSpace(s: string) { forall i | 0 <= i < |s| :: IsRegexSpace(s[i]) }

  predicate NoLineTerminator(s: string) { forall i | 0 <= i < |s| :: !IsLineTerminator(s[i]) }

  /** Index of the first char of s that trim() keeps (|s| when there is none). */
  function TrimStart(s: string): (k: nat)
    ensures k <= |s|
    ensures forall i | 0 <= i < k :: IsTrimmable(s[i])
    ensures k < |s| ==> !IsTrimmable(s[k])
  {
    if s == [] || !IsTrimmable(s[0]) then 0 else 1 + TrimStart(s[1..])
  }

  /** One past the last char of s that trim() keeps (0 when there is none). */
  function TrimEnd(s: string): (k: nat)
    ensures k <= |s|
    ensures forall i | k <= i < |s| :: IsTrimmable(s[i])
    ensures 0 < k ==> !IsTrimmable(s[k - 1])
  {
    if s == [] || !IsTrimmable(s[|s| - 1]) then |s| else TrimEnd(s[..|s| - 1])
  }

  /** String.trim(). */
  function Trim(s: string): (r: string)
    ensures |r| <= |s|
    ensures r == [] <==> forall i | 0 <= i < |s| :: IsTrimmable(s[i])
    ensures r != [] ==> !IsTrimmable(r[0]) && !IsTrimmable(r[|r| - 1])
    ensures r != [] ==> r == s[TrimStart(s)..TrimEnd(s)]
  {
    var a, b := TrimStart(s), TrimEnd(s);
    if a < b then s[a..b] else []
  }

  /** trim() is idempotent: the min/max check trims a value that is already trimmed. */
  lemma TrimIdempotent(s: string)
    ensures Trim(Trim(s)) == Trim(s)
  {
    var t := Trim(s);
    if t != [] {
      assert TrimStart(t) == 0;
      assert TrimEnd(t) == |t|;
    }
  }

  /** trim() of a string with no trimmable char at either end is the string itself. */
  lemma TrimOfUntrimmable(s: string)
    requires s != [] && !IsTrimmable(s[0]) && !IsTrimmable(s[|s| - 1])
    ensures Trim(s) == s
  {
  }

  /** A char beyond U+FFFF, which a Java String holds as a surrogate pair. */
  predicate IsSupplementary(c: char) { c as int >= 0x1_0000 }

  /**
   * String.length(): the number of UTF-16 code units, two for each supplementary
   * char; it is the number of chars exactly when none of them is supplementary.
   */
  function Utf16Length(s: string): (n: nat)
    ensures |s| <= n <= 2 * |s|
    ensures n == |s| <==> forall i | 0 <= i < |s| :: !IsSupplementary(s[i])
  {
    if s == [] then 0
    else
      assert forall i | 1 <= i < |s| :: s[1..][i - 1] == s[i];
      (if IsSupplementary(s[0]) then 2 else 1) + Utf16Length(s[1..])
  }

  /** length() of a concatenation is the sum of the lengths. */
  lemma {:induction false} Utf16LengthAppend(a: string, b: string)
    ensures Utf16Length(a + b) == Utf16Length(a) + Utf16Length(b)
  {
    if a == [] {
      assert a + b == b;
    } else {
      assert (a + b)[1..] == a[1..] + b;
      Utf16LengthAppend(a[1..], b);
    }
  }

  /** Three U+1F600 chars: length() is 6 where the char count is 3. */
  lemma SupplementaryCountsTwice()
    ensures |"\U{1F600}\U{1F600}\U{1F600}"| == 3
    ensures Utf16Length("\U{1F600}\U{1F600}\U{1F600}") == 6
  {
    var s := "\U{1F600}\U{1F600}\U{1F600}";
    assert s[1..] == "\U{1F600}\U{1F600}" && s[1..][1..] == "\U{1F600}";
  }

  predicate StartsWith(s: string, p: string) { |p| <= |s| && s[..|p|] == p }

  /** String.contains for one char. */
  predicate Contains(s: string, c: char) { exists i | 0 <= i < |s| :: s[i] == c }

  /** String.indexOf for one char, or |s| when absent. */
  function IndexOf(s: string, c: char): (k: nat)
    ensures k <= |s|
    ensures forall i | 0 <= i < k :: s[i] != c
    ensures k < |s| ==> s[k] == c
  {
    if s == [] || s[0] == c then 0 else 1 + IndexOf(s[1..], c)
  }

  /**
   * The pieces of s between occurrences of d, empty pieces included; this is what
   * String.split(d) computes before it drops trailing empty pieces.
   */
  function SplitAll(s: string, d: char): (r: seq<string>)
    ensures |r| >= 1
  {
    if s == [] then [[]]
    else
      var rest := SplitAll(s[1..], d);
      if s[0] == d then [[]] + rest else [[s[0]] + rest[0]] + rest[1..]
  }

  /** The inverse of SplitAll: the pieces joined with d in between. */
  function Join(pieces: seq<string>, d: char): string
  {
    if pieces == [] then []
    else if |pieces| == 1 then pieces[0]
    else pieces[0] + [d] + Join(pieces[1..], d)
  }

  /** Splitting and joining again gives back the string, and no piece holds the delimiter. */
  lemma {:induction false} SplitJoin(s: string, d: char)
    ensures Join(SplitAll(s, d), d) == s
    ensures forall i | 0 <= i < |SplitAll(s, d)| :: !Contains(SplitAll(s, d)[i], d)
  {
    if s != [] {
      SplitJoin(s[1..], d);
      var rest := SplitAll(s[1..], d);
      if s[0] == d {
        assert SplitAll(s, d) == [[]] + rest;
        assert ([[]] + rest)[1..] == rest;
      } else {
        var r := SplitAll(s, d);
        assert r == [[s[0]] + rest[0]] + rest[1..];
        if |rest| == 1 {
          assert Join(r, d) == [s[0]] + rest[0];
        } else {
          assert r[1..] == rest[1..];
          assert Join(rest, d) == rest[0] + [d] + Join(rest[1..], d);
        }
        forall i | 0 <= i < |r| ensures !Contains(r[i], d) {
          if i == 0 {
            assert !Contains(rest[0], d);
            var p := r[0];
            forall j | 0 <= j < |p| ensures p[j] != d {
              if j > 0 { assert p[j] == rest[0][j - 1]; }
            }
          } else {
            assert r[i] == rest[i];
          }
        }
      }
    }
  }

  /** A string without the delimiter is a single piece. */
  lemma {:induction false} SplitAllNoDelimiter(x: string, d: char)
    requires !Contains(x, d)
    ensures SplitAll(x, d) == [x]
  {
    if x != [] {
      assert !Contains(x[1..], d) by {
        forall i | 0 <= i < |x[1..]| ensures x[1..][i] != d { assert x[1..][i] == x[i + 1]; }
      }
      SplitAllNoDelimiter(x[1..], d);
      assert x[0] != d;
      assert [x[0]] + x[1..] == x;
    }
  }

  /** The first delimiter ends the first piece. */
  lemma {:induction false} SplitAllAtDelimiter(x: string, d: char, y: string)
    requires !Contains(x, d)
    ensures SplitAll(x + [d] + y, d) == [x] + SplitAll(y, d)
  {
    if x == [] {
      assert x + [d] + y == [d] + y;
      assert (x + [d] + y)[1..] == y;
    } else {
      assert (x + [d] + y)[1..] == x[1..] + [d] + y;
      assert !Contains(x[1..], d) by {
        forall i | 0 <= i < |x[1..]| ensures x[1..][i] != d { assert x[1..][i] == x[i + 1]; }
      }
      SplitAllAtDelimiter(x[1..], d, y);
      var rest := SplitAll(x[1..] + [d] + y, d);
      assert x[0] != d && (x + [d] + y)[0] == x[0];
      assert rest[0] == x[1..] && rest[1..] == SplitAll(y, d);
      assert [x[0]] + x[1..] == x;
    }
  }

  function DropTrailingEmpty(pieces: seq<string>): (r: seq<string>)
    ensures |r| <= |pieces| && r == pieces[..|r|]
    ensures r != [] ==> r[|r| - 1] != []
    ensures forall i | |r| <= i < |pieces| :: pieces[i] == []
  {
    if pieces == [] || pieces[|pieces| - 1] != [] then pieces
    else DropTrailingEmpty(pieces[..|pieces| - 1])
  }

  /**
   * String.split(String.valueOf(d)) with limit 0: the input itself when d does not
   * occur, otherwise the pieces without the trailing empty ones.
   */
  function JavaSplit(s: string, d: char): (r: seq<string>)
    ensures !Contains(s, d) ==> r == [s]
  {
    if !Contains(s, d) then [s] else DropTrailingEmpty(SplitAll(s, d))
  }

  /** s.replaceAll("\\s+", " "): every maximal run of \s becomes one space. */
  function CollapseWhitespace(s: string): (r: string)
    ensures |r| <= |s|
  {
    if s == [] then []
    else if IsRegexSpace(s[0]) then [' '] + CollapseWhitespace(s[SpaceRun(s)..])
    else [s[0]] + CollapseWhitespace(s[1..])
  }

  /** Length of the run of \s that s starts with. */
  function SpaceRun(s: string): (k: nat)
    ensures k <= |s|
    ensures forall i | 0 <= i < k :: IsRegexSpace(s[i])
    ensures k < |s| ==> !IsRegexSpace(s[k])
  {
    if s == [] || !IsRegexSpace(s[0]) then 0 else 1 + SpaceRun(s[1..])
  }

  /** The collapsed string holds no \s other than ' ' and never two spaces in a row. */
  predicate Collapsed(s: string) {
    forall i | 0 <= i < |s| :: IsRegexSpace(s[i]) ==> s[i] == ' ' && (i + 1 < |s| ==> !IsRegexSpace(s[i + 1]))
  }

  lemma {:induction false} CollapseWhitespaceCollapses(s: string)
    ensures Collapsed(CollapseWhitespace(s))
    ensures s != [] && !IsRegexSpace(s[0]) ==> CollapseWhitespace(s) != [] && CollapseWhitespace(s)[0] == s[0]
    ensures s != [] && IsRegexSpace(s[0]) ==> CollapseWhitespace(s) != [] && CollapseWhitespace(s)[0] == ' '
    decreases |s|
  {
    if s != [] {
      if IsRegexSpace(s[0]) {
        var k := SpaceRun(s);
        var t := s[k..];
        CollapseWhitespaceCollapses(t);
        var r := CollapseWhitespace(s);
        assert r == [' '] + CollapseWhitespace(t);
        assert t != [] ==> !IsRegexSpace(t[0]);
      } else {
        CollapseWhitespaceCollapses(s[1..]);
      }
    }
  }

  /** Collapsing is idempotent. */
  lemma {:induction false} CollapseWhitespaceIdempotent(s: string)
    requires Collapsed(s)
    ensures CollapseWhitespace(s) == s
    decreases |s|
  {
    if s != [] {
      if IsRegexSpace(s[0]) {
        assert SpaceRun(s) == 1 by {
          if |s| > 1 { assert !IsRegexSpace(s[1]); }
        }
      }
      assert Collapsed(s[1..]) by {
        forall i | 0 <= i < |s[1..]| && IsRegexSpace(s[1..][i])
          ensures s[1..][i] == ' ' && (i + 1 < |s[1..]| ==> !IsRegexSpace(s[1..][i + 1]))
        {
          assert s[1..][i] == s[i + 1];
        }
      }
      CollapseWhitespaceIdempotent(s[1..]);
    }
  }

  /**
   * Character.toUpperCase on the chars whose upper case is an ASCII letter:
   * a-z, dotless i (U+0131) and long s (U+017F). Every other char is its own
   * image here (see EqualsIgnoreCase for why that is enough).
   */
  function UpperCase(c: char): char {
    if 'a' <= c <= 'z' then (c as int - 32) as char
    else if c == '\U{0131}' then 'I'
    else if c == '\U{017F}' then 'S'
    else c
  }

  /**
   * Character.toLowerCase on the chars whose lower case is an ASCII letter:
   * A-Z, capital I with dot (U+0130) and the Kelvin sign (U+212A).
   */
  function LowerCase(c: char): char {
    if 'A' <= c <= 'Z' then (c as int + 32) as char
    else if c == '\U{0130}' then 'i'
    else if c == '\U{212A}' then 'k'
    else c
  }

  /** Two chars are equal ignoring case: equal, equal upper cases, or equal lower cases of those. */
  predicate CharEqualsIgnoreCase(a: char, b: char) {
    a == b || UpperCase(a) == UpperCase(b) || LowerCase(UpperCase(a)) == LowerCase(UpperCase(b))
  }

  /**
   * String.equalsIgnoreCase: equal lengths and chars pairwise equal ignoring case.
   * UpperCase and LowerCase hold exactly the case mappings whose image is ASCII,
   * so the comparison is Java's whenever one side is ASCII, as at every use here.
   */
  predicate EqualsIgnoreCase(a: string, b: string) {
    |a| == |b| && forall i | 0 <= i < |a| :: CharEqualsIgnoreCase(a[i], b[i])
  }

  /**
   * The chars equal to a lower-case ASCII letter ignoring case: the letter, its
   * upper case, and for 'i', 's' and 'k' the non-ASCII chars Java folds onto them.
   */
  lemma LetterFoldClass(x: char, c: char)
    requires 'a' <= x <= 'z'
    ensures CharEqualsIgnoreCase(x, c)
      <==> || c == x || c as int == x as int - 32
           || (x == 'i' && (c == '\U{0131}' || c == '\U{0130}'))
           || (x == 's' && c == '\U{017F}')
           || (x == 'k' && c == '\U{212A}')
  {
  }

  /** A char that is not an ASCII letter is equal ignoring case to nothing but itself when that is ASCII. */
  lemma NonLetterMatchesItself(x: char, c: char)
    requires x as int < 0x80 && !('a' <= x <= 'z') && !('A' <= x <= 'Z')
    ensures CharEqualsIgnoreCase(x, c) <==> c == x
  {
  }

  /**
   * The zeros of the Unicode decimal-digit (Nd) blocks of the Basic Multilingual
   * Plane, unchanged since Unicode 7.0 (Java 9 and later), in increasing order;
   * each block holds the ten digits from its zero. A char beyond that plane is a
   * surrogate pair in Java, and a surrogate is no digit.
   */
  const DigitZeros: seq<int> := [
    0x0030, 0x0660, 0x06F0, 0x07C0, 0x0966, 0x09E6, 0x0A66, 0x0AE6,
    0x0B66, 0x0BE6, 0x0C66, 0x0CE6, 0x0D66, 0x0DE6, 0x0E50, 0x0ED0,
    0x0F20, 0x1040, 0x1090, 0x17E0, 0x1810, 0x1946, 0x19D0, 0x1A80,
    0x1A90, 0x1B50, 0x1BB0, 0x1C40, 0x1C50, 0xA620, 0xA8D0, 0xA900,
    0xA9D0, 0xA9F0, 0xAA50, 0xABF0, 0xFF10
  ]

  /** The zero, among increasing zeros, of the block that holds the code n, or -1. */
  function DigitBlockZero(n: int, zeros: seq<int>): (z: int)
    ensures z == -1 || z <= n < z + 10
  {
    if zeros == [] || n < zeros[0] then -1
    else if n < zeros[0] + 10 then zeros[0]
    else DigitBlockZero(n, zeros[1..])
  }

  /** Character.digit(c, 10): the value of a decimal digit of any script, or -1. */
  function CharacterDigit(c: char): (d: int)
    ensures -1 <= d <= 9
  {
    var z := DigitBlockZero(c as int, DigitZeros);
    if z < 0 then -1 else c as int - z
  }

  /** On ASCII, Character.digit accepts exactly '0'-'9', with their values. */
  lemma AsciiCharacterDigit(c: char)
    requires c as int < 0x80
    ensures CharacterDigit(c) >= 0 <==> '0' <= c <= '9'
    ensures '0' <= c <= '9' ==> CharacterDigit(c) == c as int - '0' as int
  {
    var n := c as int;
    assert DigitZeros[0] == 0x30 && DigitZeros[1..][0] == 0x660;
    if n >= 0x3A {
      assert DigitBlockZero(n, DigitZeros) == DigitBlockZero(n, DigitZeros[1..]) == -1;
    }
  }

  /** The Arabic-Indic digits U+0660-U+0669 have the values 0-9. */
  lemma ArabicIndicCharacterDigit(c: char)
    requires 0x660 <= c as int <= 0x669
    ensures CharacterDigit(c) == c as int - 0x660
  {
    var n := c as int;
    assert DigitZeros[0] == 0x30 && DigitZeros[1..][0] == 0x660;
    assert DigitBlockZero(n, DigitZeros) == DigitBlockZero(n, DigitZeros[1..]) == 0x660;
  }
}
