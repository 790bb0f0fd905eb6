/**
 * The two string operations registration applies to its input fields:
 * ECMAScript's `String.prototype.trim` (strip WhiteSpace and LineTerminator
 * code points at both ends) and `toUpperCase`, the latter restricted here to
 * the ASCII letters.
 */
module JsString {

  /**
   * The code points `trim` strips: the WhiteSpace production (TAB, VT, FF,
   * ZWNBSP and the space separators of category Zs) and the LineTerminator
   * production (LF, CR, LS, PS) of ECMA-262.
   */
  predicate IsWhitespace(c: char)
  {
    var n := c as int;
    n == 0x09 || n == 0x0A || n == 0x0B || n == 0x0C || n == 0x0D ||
    n == 0x20 || n == 0xA0 || n == 0x1680 || 0x2000 <= n <= 0x200A ||
    n == 0x2028 || n == 0x2029 || n == 0x202F || n == 0x205F ||
    n == 0x3000 || n == 0xFEFF
  }

  predicate AllWhitespace(s: string)
  {
    forall i :: 0 <= i < |s| ==> IsWhitespace(s[i])
  }

  /** Neither end of `s` is whitespace: the form `trim` produces. */
  predicate Trimmed(s: string)
  {
    s == [] || (!IsWhitespace(s[0]) && !IsWhitespace(s[|s| - 1]))
  }

  /** Drops the leading whitespace: what is left is a suffix that does not start with whitespace. */
  function TrimStart(s: string): (r: string)
    ensures |r| <= |s| && r == s[|s| - |r|..]
    ensures AllWhitespace(s[..|s| - |r|])
    ensures r == [] || !IsWhitespace(r[0])
  {
    if s != [] && IsWhitespace(s[0]) then
      var r := TrimStart(s[1..]);
      assert s[..|s| - |r|] == [s[0]] + s[1..][..|s| - 1 - |r|];
      r
    else s
  }

  /** Drops the trailing whitespace: what is left is a prefix that does not end with whitespace. */
  function TrimEnd(s: string): (r: string)
    ensures |r| <= |s| && r == s[..|r|]
    ensures AllWhitespace(s[|r|..])
    ensures r == [] || !IsWhitespace(r[|r| - 1])
  {
    if s != [] && IsWhitespace(s[|s| - 1]) then
      var r := TrimEnd(s[..|s| - 1]);
      assert s[|r|..] == s[..|s| - 1][|r|..] + [s[|s| - 1]];
      r
    else s
  }

  /** `trim`: whitespace stripped from both ends, first the trailing run, then the leading one. */
  function Trim(s: string): (r: string)
    ensures Trimmed(r) && |r| <= |s|
  {
    TrimStart(TrimEnd(s))
  }

  /**
   * What `trim` leaves is a slice of `s` with only whitespace before and
   * after it: the bounds of that slice.
   */
  lemma TrimSlice(s: string) returns (i: nat, j: nat)
    ensures i <= j <= |s| && Trim(s) == s[i..j]
    ensures AllWhitespace(s[..i]) && AllWhitespace(s[j..])
  {
    var e := TrimEnd(s);
    var r := TrimStart(e);
    i, j := |e| - |r|, |e|;
    assert s[..i] == e[..i];
    assert r == s[i..j];
  }

  /** ASCII upper-casing of one character: `a`..`z` become `A`..`Z`, all else is kept. */
  function UpperChar(c: char): char
  {
    if 'a' <= c <= 'z' then (c as int - 32) as char else c
  }

  /** `toUpperCase`, position by position, on the ASCII letters. */
  function ToUpperCase(s: string): (r: string)
    ensures |r| == |s|
    ensures forall i :: 0 <= i < |s| ==> r[i] == UpperChar(s[i])
  {
    if s == [] then [] else [UpperChar(s[0])] + ToUpperCase(s[1..])
  }

  /** The normal form of `lastName` and `fatherInitial`: trimmed, then upper-cased. */
  function NormalizeName(s: string): string
  {
    ToUpperCase(Trim(s))
  }

  /**
   * `TrimEnd` stops exactly at the last non-whitespace character: when
   * `s[j..]` is all whitespace and `s[j - 1]` is not, the result is `s[..j]`.
   */
  lemma {:induction false} TrimEndAt(s: string, j: nat)
    requires j <= |s| && AllWhitespace(s[j..])
    requires j == 0 || !IsWhitespace(s[j - 1])
    ensures TrimEnd(s) == s[..j]
  {
    if j < |s| {
      assert IsWhitespace(s[|s| - 1]);
      var init := s[..|s| - 1];
      assert init[j..] == s[j..|s| - 1];
      TrimEndAt(init, j);
      assert init[..j] == s[..j];
    } else {
      assert s[..j] == s;
      if s != [] {
        assert !IsWhitespace(s[|s| - 1]);
      }
    }
  }

  /** `TrimStart` stops exactly at the first non-whitespace character. */
  lemma {:induction false} TrimStartAt(s: string, i: nat)
    requires i <= |s| && AllWhitespace(s[..i])
    requires i == |s| || !IsWhitespace(s[i])
    ensures TrimStart(s) == s[i..]
  {
    if i > 0 {
      assert IsWhitespace(s[0]);
      assert s[1..][..i - 1] == s[1..i];
      TrimStartAt(s[1..], i - 1);
      assert s[1..][i - 1..] == s[i..];
    } else {
      if s != [] {
        assert !IsWhitespace(s[0]);
      }
    }
  }

  /**
   * `Trim` is the unique decomposition: whenever `s` is whitespace, then a
   * slice that neither starts nor ends with whitespace, then whitespace,
   * `Trim(s)` is that slice.
   */
  lemma TrimUnique(s: string, i: nat, j: nat)
    requires i <= j <= |s|
    requires AllWhitespace(s[..i]) && AllWhitespace(s[j..])
    requires Trimmed(s[i..j])
    ensures Trim(s) == s[i..j]
  {
    if i == j {
      assert AllWhitespace(s) by {
        forall k | 0 <= k < |s| ensures IsWhitespace(s[k]) {
          if k < i { assert s[..i][k] == s[k]; } else { assert s[j..][k - j] == s[k]; }
        }
      }
      assert s[0..] == s;
      TrimEndAt(s, 0);
    } else {
      TrimEndAt(s, j);
      var e := s[..j];
      assert e[..i] == s[..i];
      assert e[i] == s[i..j][0];
      TrimStartAt(e, i);
      assert e[i..] == s[i..j];
    }
  }

  /** Trimming twice is trimming once. */
  lemma TrimIdempotent(s: string)
    ensures Trim(Trim(s)) == Trim(s)
  {
    var t := Trim(s);
    assert t[0..|t|] == t && t[..0] == [] && t[|t|..] == [];
    TrimUnique(t, 0, |t|);
  }

  /** Upper-casing never turns whitespace into non-whitespace or back. */
  lemma UpperCharKeepsWhitespace(c: char)
    ensures IsWhitespace(UpperChar(c)) == IsWhitespace(c)
  {
  }

  /** Upper-casing commutes with slicing. */
  lemma {:induction false} ToUpperCaseSlice(s: string, i: nat, j: nat)
    requires i <= j <= |s|
    ensures ToUpperCase(s)[i..j] == ToUpperCase(s[i..j])
  {
    var u, v := ToUpperCase(s), ToUpperCase(s[i..j]);
    assert |u[i..j]| == |v|;
    forall k | 0 <= k < j - i ensures u[i..j][k] == v[k] {
      assert s[i..j][k] == s[i + k];
    }
  }

  /** Upper-casing keeps the whitespace of a prefix whitespace. */
  lemma ToUpperCaseKeepsWhitespacePrefix(s: string, i: nat)
    requires i <= |s| && AllWhitespace(s[..i])
    ensures AllWhitespace(ToUpperCase(s)[..i])
  {
    forall k | 0 <= k < i ensures IsWhitespace(ToUpperCase(s)[..i][k]) {
      assert s[..i][k] == s[k];
      UpperCharKeepsWhitespace(s[k]);
    }
  }

  /** Upper-casing keeps the whitespace of a suffix whitespace. */
  lemma ToUpperCaseKeepsWhitespaceSuffix(s: string, j: nat)
    requires j <= |s| && AllWhitespace(s[j..])
    ensures AllWhitespace(ToUpperCase(s)[j..])
  {
    forall k | 0 <= k < |s| - j ensures IsWhitespace(ToUpperCase(s)[j..][k]) {
      assert s[j..][k] == s[j + k];
      UpperCharKeepsWhitespace(s[j + k]);
    }
  }

  /** Upper-casing keeps a trimmed slice trimmed. */
  lemma ToUpperCaseKeepsTrimmed(s: string, i: nat, j: nat)
    requires i <= j <= |s| && Trimmed(s[i..j])
    ensures Trimmed(ToUpperCase(s)[i..j])
  {
    if i < j {
      assert s[i..j][0] == s[i] && s[i..j][j - i - 1] == s[j - 1];
      UpperCharKeepsWhitespace(s[i]);
      UpperCharKeepsWhitespace(s[j - 1]);
    }
  }

  /** Upper-casing a string split as whitespace, trimmed slice, whitespace keeps that split. */
  lemma ToUpperCaseKeepsSplit(s: string, i: nat, j: nat)
    requires i <= j <= |s|
    requires AllWhitespace(s[..i]) && AllWhitespace(s[j..]) && Trimmed(s[i..j])
    ensures var u := ToUpperCase(s);
            AllWhitespace(u[..i]) && AllWhitespace(u[j..]) && Trimmed(u[i..j]) && u[i..j] == ToUpperCase(s[i..j])
  {
    ToUpperCaseKeepsWhitespacePrefix(s, i);
    ToUpperCaseKeepsWhitespaceSuffix(s, j);
    ToUpperCaseKeepsTrimmed(s, i, j);
    ToUpperCaseSlice(s, i, j);
  }

  /**
   * Trimming and upper-casing commute, so the order in which registration
   * applies them does not matter.
   */
  lemma TrimToUpperCaseCommute(s: string)
    ensures ToUpperCase(Trim(s)) == Trim(ToUpperCase(s))
  {
    var i, j := TrimSlice(s);
    ToUpperCaseKeepsSplit(s, i, j);
    TrimUnique(ToUpperCase(s), i, j);
  }

  /** Upper-casing is idempotent. */
  lemma ToUpperCaseIdempotent(s: string)
    ensures ToUpperCase(ToUpperCase(s)) == ToUpperCase(s)
  {
  }

  /** A normalised name is stable: normalising it again changes nothing. */
  lemma NormalizeNameIdempotent(s: string)
    ensures NormalizeName(NormalizeName(s)) == NormalizeName(s)
  {
    var n := NormalizeName(s);
    TrimToUpperCaseCommute(Trim(s));
    TrimIdempotent(s);
    ToUpperCaseIdempotent(Trim(s));
  }
}
