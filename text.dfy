/** The .NET string operations the library relies on: String.Trim (with
    Char.IsWhiteSpace) and the decimal formatting of an int used by string
    interpolation. */
module Text {

  /** Char.IsWhiteSpace: the Unicode space, line and paragraph separators,
      the control characters U+0009..U+000D and U+0085. */
  const WhiteSpace: set<char> := {
    '\t', '\n', '\U{B}', '\U{C}', '\r', ' ', '\U{85}', '\U{A0}', '\U{1680}',
    '\U{2000}', '\U{2001}', '\U{2002}', '\U{2003}', '\U{2004}', '\U{2005}',
    '\U{2006}', '\U{2007}', '\U{2008}', '\U{2009}', '\U{200A}',
    '\U{2028}', '\U{2029}', '\U{202F}', '\U{205F}', '\U{3000}'
  }

  predicate IsWhiteSpace(c: char)
  {
    c in WhiteSpace
  }

  predicate AllWhiteSpace(s: string)
  {
    forall i :: 0 <= i < |s| ==> IsWhiteSpace(s[i])
  }

  /** Neither the first nor the last character is white space. */
  predicate NoOuterWhiteSpace(s: string)
  {
    s == [] || (!IsWhiteSpace(s[0]) && !IsWhiteSpace(s[|s| - 1]))
  }

  predicate HasPrefix(s: string, p: string)
  {
    |p| <= |s| && s[..|p|] == p
  }

  /** Length of the longest all-white-space prefix of s. */
  function LeadingWhiteSpace(s: string): (n: nat)
    ensures n <= |s|
    ensures forall i :: 0 <= i < n ==> IsWhiteSpace(s[i])
    ensures n < |s| ==> !IsWhiteSpace(s[n])
  {
    if s != [] && IsWhiteSpace(s[0]) then 1 + LeadingWhiteSpace(s[1..]) else 0
  }

  /** Length of the longest all-white-space suffix of s. */
  function TrailingWhiteSpace(s: string): (n: nat)
    ensures n <= |s|
    ensures forall i :: |s| - n <= i < |s| ==> IsWhiteSpace(s[i])
    ensures n < |s| ==> !IsWhiteSpace(s[|s| - n - 1])
  {
    if s != [] && IsWhiteSpace(s[|s| - 1]) then 1 + TrailingWhiteSpace(s[..|s| - 1]) else 0
  }

  /** String.TrimStart: drop the leading white space. */
  function TrimStart(s: string): string
  {
    s[LeadingWhiteSpace(s)..]
  }

  /** String.TrimEnd: drop the trailing white space. */
  function TrimEnd(s: string): string
  {
    s[..|s| - TrailingWhiteSpace(s)]
  }

  /** String.Trim: drop the leading and then the trailing white space. */
  function Trim(s: string): (r: string)
    ensures |r| <= |s|
    ensures NoOuterWhiteSpace(r)
    ensures r == [] <==> AllWhiteSpace(s)
  {
    TrimEnd(TrimStart(s))
  }

  /** The leading-white-space count is the unique split point: all white space
      before it, a non-white-space character (or the end) at it. */
  lemma LeadingWhiteSpaceUnique(s: string, k: nat)
    requires k <= |s|
    requires forall i :: 0 <= i < k ==> IsWhiteSpace(s[i])
    requires k < |s| ==> !IsWhiteSpace(s[k])
    ensures LeadingWhiteSpace(s) == k
  {
  }

  /** Mirror image of LeadingWhiteSpaceUnique for the trailing count. */
  lemma TrailingWhiteSpaceUnique(s: string, k: nat)
    requires k <= |s|
    requires forall i :: |s| - k <= i < |s| ==> IsWhiteSpace(s[i])
    requires k < |s| ==> !IsWhiteSpace(s[|s| - k - 1])
    ensures TrailingWhiteSpace(s) == k
  {
  }

  /** Trim removes exactly a white-space head and a white-space tail: if s is
      p + m + q with p and q all white space and m without outer white space,
      Trim(s) is m, interior white space of m included. */
  lemma TrimOfPadded(p: string, m: string, q: string)
    requires AllWhiteSpace(p) && AllWhiteSpace(q) && NoOuterWhiteSpace(m)
    ensures Trim(p + m + q) == m
  {
    var s := p + m + q;
    if m == [] {
      assert forall i :: 0 <= i < |s| ==> IsWhiteSpace(s[i]) by {
        forall i | 0 <= i < |s| ensures IsWhiteSpace(s[i]) {
          if i < |p| { assert s[i] == p[i]; } else { assert s[i] == q[i - |p|]; }
        }
      }
    } else {
      assert forall i :: 0 <= i < |p| ==> IsWhiteSpace(s[i]) by {
        forall i | 0 <= i < |p| ensures IsWhiteSpace(s[i]) { assert s[i] == p[i]; }
      }
      assert s[|p|] == m[0];
      LeadingWhiteSpaceUnique(s, |p|);
      var rest := s[|p|..];
      assert rest == m + q;
      assert forall i :: |rest| - |q| <= i < |rest| ==> IsWhiteSpace(rest[i]) by {
        forall i | |rest| - |q| <= i < |rest| ensures IsWhiteSpace(rest[i]) {
          assert rest[i] == q[i - |m|];
        }
      }
      assert rest[|rest| - |q| - 1] == m[|m| - 1];
      TrailingWhiteSpaceUnique(rest, |q|);
      assert rest[..|rest| - |q|] == m;
    }
  }

  /** Trim(s) is a contiguous slice of s whose surroundings are all white
      space: nothing inside the trimmed part is touched. */
  lemma TrimIsSlice(s: string)
    ensures var i := LeadingWhiteSpace(s);
            i + |Trim(s)| <= |s| && s[i..i + |Trim(s)|] == Trim(s)
            && AllWhiteSpace(s[..i]) && AllWhiteSpace(s[i + |Trim(s)|..])
  {
    var i := LeadingWhiteSpace(s);
    var j := TrimSpan(s);
    assert i + |Trim(s)| == j;
    WhiteSpacePrefix(s, i);
    WhiteSpaceSuffix(s, j);
  }

  /** Trim(s) is s[LeadingWhiteSpace(s)..j] for a j after which only white space follows. */
  lemma TrimSpan(s: string) returns (j: nat)
    ensures LeadingWhiteSpace(s) <= j <= |s| && Trim(s) == s[LeadingWhiteSpace(s)..j]
    ensures forall k :: j <= k < |s| ==> IsWhiteSpace(s[k])
  {
    var i := LeadingWhiteSpace(s);
    var rest := TrimStart(s);
    var t := TrailingWhiteSpace(rest);
    j := i + |rest| - t;
    assert Trim(s) == rest[..|rest| - t] == s[i..j];
    forall k | j <= k < |s| ensures IsWhiteSpace(s[k]) { assert s[k] == rest[k - i]; }
  }

  lemma WhiteSpacePrefix(s: string, n: nat)
    requires n <= |s| && forall k :: 0 <= k < n ==> IsWhiteSpace(s[k])
    ensures AllWhiteSpace(s[..n])
  {
    forall k | 0 <= k < n ensures IsWhiteSpace(s[..n][k]) { assert s[..n][k] == s[k]; }
  }

  lemma WhiteSpaceSuffix(s: string, n: nat)
    requires n <= |s| && forall k :: n <= k < |s| ==> IsWhiteSpace(s[k])
    ensures AllWhiteSpace(s[n..])
  {
    forall k | 0 <= k < |s| - n ensures IsWhiteSpace(s[n..][k]) { assert s[n..][k] == s[n + k]; }
  }

  lemma AllWhiteSpaceConcat(a: string, b: string)
    requires AllWhiteSpace(a) && AllWhiteSpace(b)
    ensures AllWhiteSpace(a + b)
  {
    forall k | 0 <= k < |a + b| ensures IsWhiteSpace((a + b)[k]) {
      if k < |a| { assert (a + b)[k] == a[k]; } else { assert (a + b)[k] == b[k - |a|]; }
    }
  }

  /** Trimming appended white space away gives the same result. */
  lemma TrimAbsorbsSuffix(s: string, pad: string)
    requires AllWhiteSpace(pad)
    ensures Trim(s + pad) == Trim(s)
  {
    TrimIsSlice(s);
    var i := LeadingWhiteSpace(s);
    var m := Trim(s);
    var p, q := s[..i], s[i + |m|..];
    assert s == p + m + q;
    AllWhiteSpaceConcat(q, pad);
    assert s + pad == p + m + (q + pad);
    TrimOfPadded(p, m, q + pad);
  }

  /** Prepended white space adds exactly its length to the leading count. */
  lemma LeadingOfPadded(pad: string, s: string)
    requires AllWhiteSpace(pad)
    ensures LeadingWhiteSpace(pad + s) == |pad| + LeadingWhiteSpace(s)
  {
    var ps := pad + s;
    var n := LeadingWhiteSpace(s);
    assert forall k :: 0 <= k < |pad| + n ==> IsWhiteSpace(ps[k]) by {
      forall k | 0 <= k < |pad| + n ensures IsWhiteSpace(ps[k]) {
        if k < |pad| { assert ps[k] == pad[k]; } else { assert ps[k] == s[k - |pad|]; }
      }
    }
    if |pad| + n < |ps| {
      assert ps[|pad| + n] == s[n];
    }
    LeadingWhiteSpaceUnique(ps, |pad| + n);
  }

  /** Trimming prepended white space away gives the same result. */
  lemma TrimAbsorbsPrefix(s: string, pad: string)
    requires AllWhiteSpace(pad)
    ensures Trim(pad + s) == Trim(s)
  {
    LeadingOfPadded(pad, s);
    assert TrimStart(pad + s) == TrimStart(s);
  }

  /** One decimal digit. */
  function DigitChar(d: nat): (c: char)
    requires d < 10
    ensures '0' <= c <= '9'
  {
    (48 + d) as char
  }

  /** Decimal digits of n, most significant first, no leading zeros. */
  function NatToString(n: nat): (s: string)
    ensures |s| >= 1
    ensures |s| == 1 <==> n < 10
    ensures forall i :: 0 <= i < |s| ==> '0' <= s[i] <= '9'
  {
    if n < 10 then [DigitChar(n)] else NatToString(n / 10) + [DigitChar(n % 10)]
  }

  /** int.ToString() under the invariant culture: a '-' sign, then the digits. */
  function IntToString(i: int): (s: string)
    ensures |s| >= 1
  {
    if i < 0 then "-" + NatToString(-i) else NatToString(i)
  }

  lemma {:induction false} NatToStringInjective(a: nat, b: nat)
    requires NatToString(a) == NatToString(b)
    ensures a == b
  {
    var sa, sb := NatToString(a), NatToString(b);
    if a >= 10 && b >= 10 {
      assert sa[|sa| - 1] == DigitChar(a % 10) && sb[|sb| - 1] == DigitChar(b % 10);
      assert NatToString(a / 10) == sa[..|sa| - 1] == sb[..|sb| - 1] == NatToString(b / 10);
      NatToStringInjective(a / 10, b / 10);
    }
  }

  /** Two ints print the same exactly when they are equal. */
  lemma IntToStringInjective(a: int, b: int)
    ensures IntToString(a) == IntToString(b) <==> a == b
  {
    if IntToString(a) == IntToString(b) {
      var s := IntToString(a);
      assert (s[0] == '-') == (a < 0);
      assert (IntToString(b)[0] == '-') == (b < 0);
      if a < 0 {
        assert NatToString(-a) == s[1..] == NatToString(-b);
        NatToStringInjective(-a, -b);
      } else {
        NatToStringInjective(a, b);
      }
    }
  }

  /** The value of a string of decimal digits, most significant first; a
      character that is not a digit counts as 0. */
  function DigitsValue(s: string): nat
    decreases |s|
  {
    if s == [] then 0
    else
      var c := s[|s| - 1];
      10 * DigitsValue(s[..|s| - 1]) + (if '0' <= c <= '9' then c as int - 48 else 0)
  }

  /** int.Parse under the invariant culture, for an optional '-' and digits. */
  function ParseInt(s: string): int
  {
    if |s| > 0 && s[0] == '-' then 0 - DigitsValue(s[1..]) as int else DigitsValue(s)
  }

  lemma {:induction false} NatToStringValue(n: nat)
    ensures DigitsValue(NatToString(n)) == n
    decreases n
  {
    if n >= 10 {
      var s := NatToString(n);
      NatToStringValue(n / 10);
      assert s[..|s| - 1] == NatToString(n / 10);
      assert s[|s| - 1] == DigitChar(n % 10);
    }
  }

  /** Parsing undoes formatting; the text is a '-' exactly for a negative
      number, followed by decimal digits only. */
  lemma IntToStringRoundTrip(i: int)
    ensures ParseInt(IntToString(i)) == i
    ensures IntToString(i)[0] == '-' <==> i < 0
    ensures forall k :: (if i < 0 then 1 else 0) <= k < |IntToString(i)| ==> '0' <= IntToString(i)[k] <= '9'
  {
    var s := IntToString(i);
    if i < 0 {
      var d := NatToString(-i);
      NatToStringValue(-i);
      assert s == "-" + d;
      assert s[1..] == d;
      assert ParseInt(s) == 0 - DigitsValue(d) as int;
    } else {
      var d := NatToString(i);
      NatToStringValue(i);
      assert s == d && '0' <= d[0] <= '9';
    }
  }
}
