/**
 * The few Java string operations the SIRI helpers rely on, written out:
 * lower-casing, prefix test, trim (drops leading and trailing characters at
 * or below U+0020), blankness (every character is Java whitespace) and
 * case-insensitive equality. Case mapping is modelled for ASCII letters.
 */
module JavaText {
  import opened Wrappers

  function LowerChar(c: char): char
  {
    if 'A' <= c <= 'Z' then (c as int + 32) as char else c
  }

  function UpperChar(c: char): char
  {
    if 'a' <= c <= 'z' then (c as int - 32) as char else c
  }

  /**
   * String.toLowerCase on ASCII letters: each character is mapped on its
   * own, no upper-case ASCII letter is left, and lower-casing twice changes
   * nothing more.
   */
  function ToLower(s: string): (r: string)
    ensures |r| == |s|
    ensures forall i :: 0 <= i < |s| ==> r[i] == LowerChar(s[i])
    ensures forall i :: 0 <= i < |r| ==> !('A' <= r[i] <= 'Z')
  {
    seq(|s|, i requires 0 <= i < |s| => LowerChar(s[i]))
  }

  predicate StartsWith(s: string, prefix: string)
  {
    |prefix| <= |s| && s[..|prefix|] == prefix
  }

  /** Character.isWhitespace: the space, line and paragraph separators other than the no-break ones, and nine controls. */
  predicate IsJavaWhitespace(c: char)
  {
    || ('\t' <= c <= '\r')
    || ('\U{1C}' <= c <= ' ')
    || c == '\U{1680}'
    || ('\U{2000}' <= c <= '\U{200A}' && c != '\U{2007}')
    || c == '\U{2028}' || c == '\U{2029}' || c == '\U{205F}' || c == '\U{3000}'
  }

  /** StringUtils.isBlank on a non-null string: empty or whitespace only. */
  predicate IsBlank(s: string)
  {
    forall i :: 0 <= i < |s| ==> IsJavaWhitespace(s[i])
  }

  /** StringUtils.isNotBlank, where None is Java's null. */
  predicate IsNotBlank(s: Option<string>)
  {
    s.Some? && !IsBlank(s.value)
  }

  /** Drop the leading characters at or below U+0020: what is left is empty or starts above it. */
  function TrimStart(s: string): (r: string)
    ensures r == [] || r[0] > ' '
    decreases |s|
  {
    if |s| > 0 && s[0] <= ' ' then TrimStart(s[1..]) else s
  }

  /** Drop the trailing characters at or below U+0020: what is left is empty or ends above it. */
  function TrimEnd(s: string): (r: string)
    ensures r == [] || r[|r| - 1] > ' '
    decreases |s|
  {
    if |s| > 0 && s[|s| - 1] <= ' ' then TrimEnd(s[..|s| - 1]) else s
  }

  /**
   * String.trim: drop every leading and trailing character at or below
   * U+0020. The result is the slice s[i..i + |r|] with only such characters
   * around it, and it starts and ends above U+0020 unless it is empty.
   */
  function Trim(s: string): (r: string)
    ensures r == [] || (r[0] > ' ' && r[|r| - 1] > ' ')
    ensures exists i :: TrimmedAt(s, i, r)
  {
    TrimEndDropsPadding(TrimStart(s));
    TrimmedSlice(s);
    TrimEnd(TrimStart(s))
  }

  /** s is r at offset i, with nothing but characters at or below U+0020 around it. */
  ghost predicate TrimmedAt(s: string, i: int, r: string)
  {
    && 0 <= i && i + |r| <= |s|
    && s[i..i + |r|] == r
    && (forall k :: 0 <= k < i ==> s[k] <= ' ')
    && (forall k :: i + |r| <= k < |s| ==> s[k] <= ' ')
  }

  /** Trimming the front keeps a suffix and drops nothing above U+0020. */
  lemma {:induction false} TrimStartDropsPadding(s: string)
    ensures |TrimStart(s)| <= |s| && TrimStart(s) == s[|s| - |TrimStart(s)|..]
    ensures forall k :: 0 <= k < |s| - |TrimStart(s)| ==> s[k] <= ' '
    decreases |s|
  {
    if |s| > 0 && s[0] <= ' ' {
      TrimStartDropsPadding(s[1..]);
      forall k | 1 <= k < |s| - |TrimStart(s)|
        ensures s[k] <= ' '
      {
        assert s[k] == s[1..][k - 1];
      }
    }
  }

  /** Trimming the back keeps a prefix and drops nothing above U+0020. */
  lemma {:induction false} TrimEndDropsPadding(s: string)
    ensures |TrimEnd(s)| <= |s| && TrimEnd(s) == s[..|TrimEnd(s)|]
    ensures forall k :: |TrimEnd(s)| <= k < |s| ==> s[k] <= ' '
    decreases |s|
  {
    if |s| > 0 && s[|s| - 1] <= ' ' {
      TrimEndDropsPadding(s[..|s| - 1]);
    }
  }

  /** Trimming the front and then the back cuts out one slice, with only padding around it. */
  lemma TrimmedSlice(s: string)
    ensures TrimmedAt(s, |s| - |TrimStart(s)|, TrimEnd(TrimStart(s)))
  {
    var u := TrimStart(s);
    var r := TrimEnd(u);
    var i := |s| - |u|;
    TrimStartDropsPadding(s);
    TrimEndDropsPadding(u);
    assert s[i..i + |r|] == u[..|r|];
    forall k | i + |r| <= k < |s|
      ensures s[k] <= ' '
    {
      assert s[k] == u[k - i];
    }
  }

  /** Character comparison of String.equalsIgnoreCase: equal, equal upper-cased, or equal lower-cased after that. */
  predicate CharsEqualIgnoreCase(c1: char, c2: char)
  {
    || c1 == c2
    || UpperChar(c1) == UpperChar(c2)
    || LowerChar(UpperChar(c1)) == LowerChar(UpperChar(c2))
  }

  /** String.equalsIgnoreCase on non-null strings. */
  predicate EqualsIgnoreCase(a: string, b: string)
  {
    |a| == |b| && forall i :: 0 <= i < |a| ==> CharsEqualIgnoreCase(a[i], b[i])
  }

  // ---------------------------------------------------------------------
  // Properties
  // ---------------------------------------------------------------------

  /** Two strings are equal ignoring case exactly when their lower-cased forms are equal. */
  lemma EqualsIgnoreCaseIffSameLower(a: string, b: string)
    ensures EqualsIgnoreCase(a, b) <==> ToLower(a) == ToLower(b)
  {
    if ToLower(a) == ToLower(b) {
      forall i | 0 <= i < |a|
        ensures CharsEqualIgnoreCase(a[i], b[i])
      {
        assert ToLower(a)[i] == ToLower(b)[i];
      }
    }
  }

  /** Leading padding is dropped, down to the first character above U+0020. */
  lemma {:induction false} TrimStartPadding(pad: string, w: string)
    requires forall i :: 0 <= i < |pad| ==> pad[i] <= ' '
    requires w == [] || w[0] > ' '
    ensures TrimStart(pad + w) == w
    decreases |pad|
  {
    if |pad| > 0 {
      assert (pad + w)[1..] == pad[1..] + w;
      TrimStartPadding(pad[1..], w);
    }
  }

  lemma {:induction false} TrimEndPadding(w: string, pad: string)
    requires forall i :: 0 <= i < |pad| ==> pad[i] <= ' '
    requires w == [] || w[|w| - 1] > ' '
    ensures TrimEnd(w + pad) == w
    decreases |pad|
  {
    if |pad| > 0 {
      assert (w + pad)[..|w + pad| - 1] == w + pad[..|pad| - 1];
      TrimEndPadding(w, pad[..|pad| - 1]);
    } else {
      assert w + pad == w;
    }
  }

  /**
   * A blank string made of ASCII characters only trims to nothing: every
   * ASCII Java whitespace character lies at or below U+0020.
   */
  lemma BlankAsciiTrimsToEmpty(s: string)
    requires forall i :: 0 <= i < |s| ==> s[i] < '\U{80}'
    requires IsBlank(s)
    ensures Trim(s) == []
  {
  }

  /** Trim removes exactly the padding around a word that starts and ends above U+0020. */
  lemma TrimPadded(left: string, w: string, right: string)
    requires forall i :: 0 <= i < |left| ==> left[i] <= ' '
    requires forall i :: 0 <= i < |right| ==> right[i] <= ' '
    requires w != [] && w[0] > ' ' && w[|w| - 1] > ' '
    ensures Trim(left + w + right) == w
  {
    assert left + w + right == left + (w + right);
    TrimStartPadding(left, w + right);
    TrimEndPadding(w, right);
  }
}
