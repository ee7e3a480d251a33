/**
 * The string operations the modelled code relies on: Python's substring test `pat in s`,
 * posixpath.join of two components, and `repr` of a non-negative int (its decimal digits).
 */
module PyStr {

  /** `pat in s` for strings: pat occurs in s at some position (the empty string always does). */
  predicate Contains(s: string, pat: string)
    decreases |s|
  {
    |pat| <= |s| && (s[..|pat|] == pat || Contains(s[1..], pat))
  }

  /** pat occurs in s at position i. */
  predicate OccursAt(s: string, pat: string, i: int) {
    0 <= i && i + |pat| <= |s| && s[i..i + |pat|] == pat
  }

  /** The recursive test agrees with the positional definition of a substring. */
  lemma {:induction false} ContainsIff(s: string, pat: string)
    ensures Contains(s, pat) <==> exists i :: OccursAt(s, pat, i)
    decreases |s|
  {
    if |pat| <= |s| {
      if s[..|pat|] == pat {
        assert OccursAt(s, pat, 0);
      } else {
        ContainsIff(s[1..], pat);
        if Contains(s[1..], pat) {
          var i :| OccursAt(s[1..], pat, i);
          assert s[i + 1..i + 1 + |pat|] == s[1..][i..i + |pat|];
          assert OccursAt(s, pat, i + 1);
        }
        if exists i :: OccursAt(s, pat, i) {
          var i :| OccursAt(s, pat, i);
          assert i != 0;
          assert s[1..][i - 1..i - 1 + |pat|] == s[i..i + |pat|];
          assert OccursAt(s[1..], pat, i - 1);
        }
      }
    }
  }

  /** A string contains itself wherever it is placed. */
  lemma ContainsInside(a: string, pat: string, b: string)
    ensures Contains(a + pat + b, pat)
  {
    var s := a + pat + b;
    assert s[|a|..|a| + |pat|] == pat;
    assert OccursAt(s, pat, |a|);
    ContainsIff(s, pat);
  }

  /** An occurrence inside the first part of x + y is an occurrence in x. */
  lemma OccursInLeft(x: string, y: string, pat: string, i: int)
    requires 0 <= i && i + |pat| <= |x|
    ensures OccursAt(x + y, pat, i) <==> OccursAt(x, pat, i)
  {
    assert (x + y)[i..i + |pat|] == x[i..i + |pat|];
  }

  /** An occurrence inside the second part of x + y is an occurrence in y, shifted by |x|. */
  lemma OccursInRight(x: string, y: string, pat: string, i: int)
    requires |x| <= i
    ensures OccursAt(x + y, pat, i) <==> OccursAt(y, pat, i - |x|)
  {
    if i + |pat| <= |x + y| {
      assert (x + y)[i..i + |pat|] == y[i - |x|..i - |x| + |pat|];
    }
  }

  /** No occurrence of a pattern without c at position i of a + [c] + b, when a and b hold none. */
  lemma NotOccursAcross(a: string, c: char, b: string, pat: string, i: int)
    requires c !in pat && |pat| > 0
    requires forall j :: !OccursAt(a, pat, j)
    requires forall j :: !OccursAt(b, pat, j)
    ensures !OccursAt(a + [c] + b, pat, i)
  {
    var left := a + [c];
    var s := left + b;
    if 0 <= i && i + |pat| <= |s| {
      if i + |pat| <= |a| {
        assert s == a + ([c] + b);
        OccursInLeft(a, [c] + b, pat, i);
      } else if i > |a| {
        OccursInRight(left, b, pat, i);
      } else {
        assert s[i..i + |pat|][|a| - i] == c;
      }
    }
  }

  /**
   * A pattern without the character c does not occur in a + [c] + b when it occurs in neither
   * a nor b: any occurrence would have to cover the c.
   */
  lemma NotContainsAcross(a: string, c: char, b: string, pat: string)
    requires c !in pat && |pat| > 0
    requires !Contains(a, pat) && !Contains(b, pat)
    ensures !Contains(a + [c] + b, pat)
  {
    ContainsIff(a, pat);
    ContainsIff(b, pat);
    ContainsIff(a + [c] + b, pat);
    forall i {
      NotOccursAcross(a, c, b, pat, i);
    }
  }

  /** A pattern does not occur in a string none of whose characters starts the pattern. */
  lemma NotContainsWithoutFirst(s: string, pat: string)
    requires |pat| > 0 && pat[0] !in s
    ensures !Contains(s, pat)
  {
    ContainsIff(s, pat);
    forall i | 0 <= i && i + |pat| <= |s|
      ensures !OccursAt(s, pat, i)
    {
      assert s[i..i + |pat|][0] == s[i];
    }
  }

  // ---------------------------------------------------------------------------
  // posixpath.join

  /** What `join` puts before its second component: nothing for "", a "/" unless one ends a. */
  function JoinPrefix(a: string): string {
    if a == [] || a[|a| - 1] == '/' then a else a + "/"
  }

  /** `os.path.join(a, b)` on POSIX: an absolute b replaces a. */
  function Join(a: string, b: string): (r: string)
    ensures |b| > 0 && b[0] == '/' ==> r == b
    ensures !(|b| > 0 && b[0] == '/') ==> r == JoinPrefix(a) + b
  {
    if |b| > 0 && b[0] == '/' then b
    else JoinPrefix(a) + b
  }

  /** Joining with a relative name loses nothing: the directory and the name can be read back. */
  lemma JoinRelative(a: string, b: string)
    requires |b| > 0 && b[0] != '/'
    ensures Join(a, b)[..|JoinPrefix(a)|] == JoinPrefix(a)
    ensures Join(a, b)[|JoinPrefix(a)|..] == b
  {
  }

  /**
   * A pattern without '/' that occurs neither in the directory nor in the relative name does
   * not occur in their join.
   */
  lemma JoinNotContains(a: string, b: string, pat: string)
    requires |b| > 0 && b[0] != '/'
    requires '/' !in pat && |pat| > 0
    requires !Contains(a, pat) && !Contains(b, pat)
    ensures !Contains(Join(a, b), pat)
  {
    if a == [] {
      assert Join(a, b) == b;
    } else if a[|a| - 1] == '/' {
      var head := a[..|a| - 1];
      assert a == head + [a[|a| - 1]];
      ContainsIff(a, pat);
      ContainsIff(head, pat);
      forall i | 0 <= i && i + |pat| <= |head|
        ensures !OccursAt(head, pat, i)
      {
        assert head[i..i + |pat|] == a[i..i + |pat|];
        assert !OccursAt(a, pat, i);
      }
      NotContainsAcross(head, '/', b, pat);
      assert Join(a, b) == head + ['/'] + b;
    } else {
      NotContainsAcross(a, '/', b, pat);
      assert Join(a, b) == a + ['/'] + b;
    }
  }

  // ---------------------------------------------------------------------------
  // repr of a non-negative int

  /** The character of a decimal digit: '0' + d. */
  function DigitChar(d: int): char
    requires 0 <= d < 10
  {
    ('0' as int + d) as char
  }

  predicate IsDigit(c: char) {
    '0' <= c <= '9'
  }

  /** The value of a decimal digit character. */
  function DigitValue(c: char): int
  {
    c as int - '0' as int
  }

  /** `repr(n)` for n >= 0: the decimal digits without leading zeros. */
  function NatToString(n: nat): (s: string)
  {
    if n < 10 then [DigitChar(n)]
    else NatToString(n / 10) + [DigitChar(n % 10)]
  }

  /** Every character of s is a decimal digit. */
  predicate AllDigits(s: string) {
    forall k :: 0 <= k < |s| ==> IsDigit(s[k])
  }

  /** `repr(n)` is a non-empty string of digits that starts with '0' only for 0 itself. */
  lemma {:induction false} NatToStringDigits(n: nat)
    ensures |NatToString(n)| > 0 && AllDigits(NatToString(n))
    ensures NatToString(n)[0] == '0' ==> n == 0
  {
    if n >= 10 {
      NatToStringDigits(n / 10);
      var s := NatToString(n);
      assert s == NatToString(n / 10) + [DigitChar(n % 10)];
      assert s[0] == NatToString(n / 10)[0];
      forall k | 0 <= k < |s|
        ensures IsDigit(s[k])
      {
        if k < |s| - 1 {
          assert s[k] == NatToString(n / 10)[k];
        }
      }
    }
  }

  /** The value of a string of decimal digits. */
  function ParseNat(s: string): int
  {
    if |s| == 0 then 0
    else 10 * ParseNat(s[..|s| - 1]) + DigitValue(s[|s| - 1])
  }

  /** Reading the digits back gives the number: `repr` is injective on non-negative ints. */
  lemma {:induction false} ParseNatToString(n: nat)
    ensures ParseNat(NatToString(n)) == n
  {
    if n >= 10 {
      ParseNatToString(n / 10);
      var s := NatToString(n);
      assert s[..|s| - 1] == NatToString(n / 10);
    }
  }

  lemma NatToStringInjective(m: nat, n: nat)
    requires NatToString(m) == NatToString(n)
    ensures m == n
  {
    ParseNatToString(m);
    ParseNatToString(n);
  }

  /** `repr(i)` for any int: a minus sign before the digits of a negative value. */
  function IntToString(i: int): (s: string)
    decreases if i < 0 then 1 else 0
  {
    if i < 0 then "-" + IntToString(-i) else NatToString(i)
  }

  /** `repr(i)` is non-empty and holds nothing but digits and a minus sign. */
  lemma IntToStringChars(i: int)
    ensures |IntToString(i)| > 0
    ensures forall k :: 0 <= k < |IntToString(i)| ==> IsDigit(IntToString(i)[k]) || IntToString(i)[k] == '-'
  {
    var n := if i < 0 then -i else i;
    NatToStringDigits(n);
    var s := IntToString(i);
    forall k | 0 <= k < |s|
      ensures IsDigit(s[k]) || s[k] == '-'
    {
      if i < 0 && k > 0 {
        assert s[k] == NatToString(n)[k - 1];
      }
    }
  }

  /** Distinct ints have distinct reprs. */
  lemma IntToStringInjective(i: int, j: int)
    requires IntToString(i) == IntToString(j)
    ensures i == j
  {
    var s := IntToString(i);
    NatToStringDigits(if i < 0 then -i else i);
    NatToStringDigits(if j < 0 then -j else j);
    if i < 0 && j < 0 {
      assert s[1..] == NatToString(-i) == NatToString(-j);
      NatToStringInjective(-i, -j);
    } else if i >= 0 && j >= 0 {
      NatToStringInjective(i, j);
    }
  }
}
