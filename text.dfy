/**
 * The parts of java.lang.String and java.lang.Integer that the modelled code relies on,
 * written over Dafny strings. A Dafny `char` is a Unicode scalar value, where a Java `char` is
 * a UTF-16 code unit; the two agree on every character up to U+FFFF.
 */
module Text {

  /** `s.startsWith(prefix)`. */
  predicate StartsWith(s: string, prefix: string) {
    |prefix| <= |s| && s[..|prefix|] == prefix
  }

  /** `p` occurs in `s` starting at index `i`. */
  predicate OccursAt(s: string, p: string, i: nat) {
    i + |p| <= |s| && s[i..i + |p|] == p
  }

  /** `p` occurs somewhere in `s`. */
  predicate Contains(s: string, p: string) {
    exists i: nat | i <= |s| :: OccursAt(s, p, i)
  }

  /** `s.indexOf(p)`: the first index at which `p` occurs, or -1 (see `IndexOfSpec`). */
  function IndexOf(s: string, p: string): (r: int)
    ensures -1 <= r <= |s|
  {
    IndexOfFrom(s, p, 0)
  }

  /** The first occurrence of `p` in `s` at an index of at least `k`, or -1. */
  function IndexOfFrom(s: string, p: string, k: nat): (r: int)
    requires k <= |s| + 1
    ensures -1 <= r <= |s| && (r >= 0 ==> k <= r)
    decreases |s| + 1 - k
  {
    if k + |p| > |s| then -1
    else if s[k..k + |p|] == p then k
    else IndexOfFrom(s, p, k + 1)
  }

  /** The search from `k` finds the first occurrence at or after `k`, and -1 only when there is none. */
  lemma {:induction false} IndexOfFromSpec(s: string, p: string, k: nat)
    requires k <= |s| + 1
    ensures var r := IndexOfFrom(s, p, k);
      && (r >= 0 ==> OccursAt(s, p, r) && forall j: nat :: k <= j < r ==> !OccursAt(s, p, j))
      && (r == -1 ==> forall j: nat :: k <= j ==> !OccursAt(s, p, j))
    decreases |s| + 1 - k
  {
    if k + |p| <= |s| && s[k..k + |p|] != p {
      IndexOfFromSpec(s, p, k + 1);
    }
  }

  /** `indexOf` gives the first occurrence, and -1 exactly when there is none. */
  lemma IndexOfSpec(s: string, p: string)
    ensures var r := IndexOf(s, p);
      && (r >= 0 ==> OccursAt(s, p, r) && forall j: nat :: j < r ==> !OccursAt(s, p, j))
      && (r == -1 <==> !Contains(s, p))
  {
    IndexOfFromSpec(s, p, 0);
  }

  /** Java's notion of white space for `trim`: every character up to and including ' '. */
  predicate IsSpace(c: char) {
    c <= ' '
  }

  /** Drops the leading white space (see `TrimStartSpec`). */
  function TrimStart(s: string): (r: string)
    ensures |r| <= |s|
  {
    if |s| > 0 && IsSpace(s[0]) then TrimStart(s[1..]) else s
  }

  /** What `TrimStart` drops is white space and what it keeps is the rest of the string. */
  lemma {:induction false} TrimStartSpec(s: string)
    ensures var r := TrimStart(s);
      && r == s[|s| - |r|..]
      && (r == [] || !IsSpace(r[0]))
      && forall i :: 0 <= i < |s| - |r| ==> IsSpace(s[i])
  {
    if |s| > 0 && IsSpace(s[0]) {
      TrimStartSpec(s[1..]);
      var r := TrimStart(s);
      forall i | 0 <= i < |s| - |r| ensures IsSpace(s[i]) {
        if i > 0 {
          assert s[i] == s[1..][i - 1];
        }
      }
    }
  }

  /** Drops the trailing white space (see `TrimEndSpec`). */
  function TrimEnd(s: string): (r: string)
    ensures |r| <= |s|
  {
    if |s| > 0 && IsSpace(s[|s| - 1]) then TrimEnd(s[..|s| - 1]) else s
  }

  /** What `TrimEnd` drops is white space and what it keeps is the start of the string. */
  lemma {:induction false} TrimEndSpec(s: string)
    ensures var r := TrimEnd(s);
      && r == s[..|r|]
      && (r == [] || !IsSpace(r[|r| - 1]))
      && forall i :: |r| <= i < |s| ==> IsSpace(s[i])
  {
    if |s| > 0 && IsSpace(s[|s| - 1]) {
      TrimEndSpec(s[..|s| - 1]);
      var r := TrimEnd(s);
      forall i | |r| <= i < |s| ensures IsSpace(s[i]) {
        if i < |s| - 1 {
          assert s[i] == s[..|s| - 1][i];
        }
      }
    }
  }

  /** `s.trim()`. */
  function Trim(s: string): (r: string)
  {
    TrimEnd(TrimStart(s))
  }

  /** Everything before `i` and from `j` on is white space. */
  predicate SpaceOutside(s: string, i: int, j: int) {
    && 0 <= i <= j <= |s|
    && (forall k :: 0 <= k < i ==> IsSpace(s[k]))
    && (forall k :: j <= k < |s| ==> IsSpace(s[k]))
  }

  /** `trim` keeps a contiguous part of the string that neither starts nor ends with white space,
      and everything it drops is white space. */
  lemma TrimSpec(s: string)
    ensures exists i, j :: SpaceOutside(s, i, j) && Trim(s) == s[i..j]
    ensures Trim(s) == [] || (!IsSpace(Trim(s)[0]) && !IsSpace(Trim(s)[|Trim(s)| - 1]))
  {
    var t := TrimStart(s);
    TrimStartSpec(s);
    var r := TrimEnd(t);
    TrimEndSpec(t);
    assert Trim(s) == r;
    var i := |s| - |t|;
    var j := i + |r|;
    assert r == s[i..j] by {
      assert t == s[i..];
      assert r == t[..|r|];
    }
    assert SpaceOutside(s, i, j) by {
      forall k | j <= k < |s| ensures IsSpace(s[k]) {
        assert s[k] == t[k - i];
      }
    }
    if r != [] {
      assert r[0] == t[0];
    }
  }


  /** The digit character of a value below ten. */
  function DigitChar(d: nat): (c: char)
    requires d < 10
    ensures '0' <= c <= '9' && c as int - '0' as int == d
  {
    "0123456789"[d]
  }

  predicate IsDigits(s: string) {
    forall i :: 0 <= i < |s| ==> '0' <= s[i] <= '9'
  }

  /** The value of a string of decimal digits (`Long.parseLong` without a sign); only meaningful
      when `IsDigits(s)`. */
  function ParseNat(s: string): int
  {
    if s == [] then 0 else ParseNat(s[..|s| - 1]) * 10 + (s[|s| - 1] as int - '0' as int)
  }

  /** The decimal digits of `n`, without leading zeros. */
  function NatToString(n: nat): (s: string)
    ensures |s| >= 1 && IsDigits(s)
    ensures n > 0 ==> s[0] != '0'
    decreases n
  {
    if n < 10 then [DigitChar(n)] else NatToString(n / 10) + [DigitChar(n % 10)]
  }

  /** Reading back the printed digits gives the number again. */
  lemma {:induction false} ParseNatToString(n: nat)
    ensures ParseNat(NatToString(n)) == n
    decreases n
  {
    if n >= 10 {
      var s := NatToString(n);
      assert s[..|s| - 1] == NatToString(n / 10);
      ParseNatToString(n / 10);
    }
  }

  /** Leading zeros do not change the value of a digit string. */
  lemma {:induction false} ParseNatLeadingZeros(z: nat, s: string)
    requires IsDigits(s)
    ensures IsDigits(Zeros(z) + s) && ParseNat(Zeros(z) + s) == ParseNat(s)
    decreases |s|
  {
    var t := Zeros(z) + s;
    assert IsDigits(t) by {
      forall i | 0 <= i < |t| ensures '0' <= t[i] <= '9' {
        if i >= z {
          assert t[i] == s[i - z];
        }
      }
    }
    if s == [] {
      assert t == Zeros(z);
      ZerosParse(z);
    } else {
      assert t[..|t| - 1] == Zeros(z) + s[..|s| - 1];
      ParseNatLeadingZeros(z, s[..|s| - 1]);
    }
  }

  lemma {:induction false} ZerosParse(z: nat)
    ensures IsDigits(Zeros(z)) && ParseNat(Zeros(z)) == 0
  {
    if z > 0 {
      assert Zeros(z)[..z - 1] == Zeros(z - 1);
      ZerosParse(z - 1);
    }
  }

  /** `n` copies of the character '0'. */
  function Zeros(n: nat): (s: string)
    ensures |s| == n && forall i :: 0 <= i < n ==> s[i] == '0'
  {
    seq(n, _ => '0')
  }

  /** `Integer.toString(i)` and `Long.toString(i)`: a minus sign for negative values. */
  function IntToString(i: int): (s: string)
    ensures i >= 0 ==> s == NatToString(i)
    ensures i < 0 ==> s == "-" + NatToString(-i)
  {
    if i < 0 then "-" + NatToString(-i) else NatToString(i)
  }

  /** `String.format("%0<width>d", v)`: zero padded to at least `width` characters, the sign
      counting towards the width and the zeros going after it. */
  function ZeroPadded(v: int, width: nat): (s: string)
  {
    var digits := NatToString(if v < 0 then -v else v);
    var sign := if v < 0 then "-" else "";
    var fill := if |sign| + |digits| < width then width - |sign| - |digits| else 0;
    sign + Zeros(fill) + digits
  }

  /** A non-negative value is printed as digits only, at least `width` of them, and reads back as itself. */
  lemma ZeroPaddedNonNegative(v: nat, width: nat)
    ensures IsDigits(ZeroPadded(v, width))
    ensures |ZeroPadded(v, width)| == if |NatToString(v)| < width then width else |NatToString(v)|
    ensures ParseNat(ZeroPadded(v, width)) == v
  {
    var digits := NatToString(v);
    var fill := if |digits| < width then width - |digits| else 0;
    assert ZeroPadded(v, width) == Zeros(fill) + digits;
    ParseNatLeadingZeros(fill, digits);
    ParseNatToString(v);
  }

  /** A value below 10^k has at most k digits. */
  lemma {:induction false} NatToStringLength(n: nat, k: nat)
    requires n < Pow10(k)
    ensures |NatToString(n)| <= if k == 0 then 1 else k
    decreases k
  {
    if n >= 10 {
      NatToStringLength(n / 10, k - 1);
    }
  }

  function Pow10(k: nat): (r: nat)
    ensures r >= 1
  {
    if k == 0 then 1 else 10 * Pow10(k - 1)
  }

  /** The lines of a file written with a trailing newline after each line. */
  function Unlines(lines: seq<string>): (s: string)
  {
    if lines == [] then "" else Unlines(lines[..|lines| - 1]) + lines[|lines| - 1] + "\n"
  }

  /** Each line contributes its own length plus one newline. */
  lemma {:induction false} UnlinesLength(lines: seq<string>)
    ensures |Unlines(lines)| == |lines| + SumOfLengths(lines)
  {
    if lines != [] {
      UnlinesLength(lines[..|lines| - 1]);
    }
  }

  function SumOfLengths(lines: seq<string>): nat
  {
    if lines == [] then 0 else SumOfLengths(lines[..|lines| - 1]) + |lines[|lines| - 1]|
  }

  /** `s.replaceAll(p, r)` for a pattern without regular-expression metacharacters and a replacement
      without `$` or `\`: every occurrence, scanned left to right and never overlapping, is replaced. */
  function ReplaceAll(s: string, p: string, r: string): string
    requires |p| > 0
    decreases |s|
  {
    if |s| < |p| then s
    else if s[..|p|] == p then r + ReplaceAll(s[|p|..], p, r)
    else [s[0]] + ReplaceAll(s[1..], p, r)
  }

  /** An occurrence in `t` is still an occurrence after a character is put in front. */
  lemma ContainsPrepend(c: char, t: string, p: string)
    requires Contains(t, p)
    ensures Contains([c] + t, p)
  {
    var i: nat :| i <= |t| && OccursAt(t, p, i);
    assert ([c] + t)[i + 1..i + 1 + |p|] == t[i..i + |p|];
    assert OccursAt([c] + t, p, i + 1);
  }

  /** A string without an occurrence of the pattern is left unchanged. */
  lemma {:induction false} ReplaceAllAbsent(s: string, p: string, r: string)
    requires |p| > 0
    requires !Contains(s, p)
    ensures ReplaceAll(s, p, r) == s
    decreases |s|
  {
    if |s| >= |p| {
      assert !OccursAt(s, p, 0);
      assert s == [s[0]] + s[1..];
      if Contains(s[1..], p) {
        ContainsPrepend(s[0], s[1..], p);
      }
      ReplaceAllAbsent(s[1..], p, r);
    }
  }

  /** A text before the first occurrence is copied, the occurrence replaced, and the rest processed. */
  lemma {:induction false} ReplaceAllFirst(a: string, p: string, b: string, r: string)
    requires |p| > 0
    requires !Contains(a + p[..|p| - 1], p)
    ensures ReplaceAll(a + p + b, p, r) == a + r + ReplaceAll(b, p, r)
    decreases |a|
  {
    var s := a + p + b;
    if a == [] {
      assert s[..|p|] == p;
      assert s[|p|..] == b;
    } else {
      var a1 := a[1..];
      NoOccurrenceTail(a, p, b);
      SplitFirst(a, p, b);
      ReplaceAllSkip(a[0], a1 + p + b, p, r);
      ReplaceAllFirst(a1, p, b, r);
      SplitFirst(a, r, ReplaceAll(b, p, r));
    }
  }

  lemma SplitFirst<T>(a: seq<T>, x: seq<T>, y: seq<T>)
    requires |a| > 0
    ensures a + x + y == [a[0]] + (a[1..] + x + y)
  {
    assert a == [a[0]] + a[1..];
  }

  /** No occurrence in `a + p[..|p| - 1]` means none at the start of `a + p + b` and none in
      what follows the first character of `a`. */
  lemma NoOccurrenceTail(a: string, p: string, b: string)
    requires |p| > 0 && |a| > 0
    requires !Contains(a + p[..|p| - 1], p)
    ensures (a + p + b)[..|p|] != p
    ensures !Contains(a[1..] + p[..|p| - 1], p)
  {
    var front := a + p[..|p| - 1];
    var rest := a[1..] + p[..|p| - 1];
    assert front == [a[0]] + rest;
    if Contains(rest, p) {
      ContainsPrepend(a[0], rest, p);
    }
    assert !OccursAt(front, p, 0);
    assert (a + p + b)[..|p|] == front[..|p|];
  }

  /** A first character that does not start an occurrence is kept and the scan goes on after it. */
  lemma ReplaceAllSkip(c: char, t: string, p: string, r: string)
    requires |p| > 0 && |p| <= 1 + |t| && ([c] + t)[..|p|] != p
    ensures ReplaceAll([c] + t, p, r) == [c] + ReplaceAll(t, p, r)
  {
    assert ([c] + t)[1..] == t;
  }

  /** `String.join(sep, parts)` and the equivalent StringBuilder loop. */
  function Join(parts: seq<string>, sep: string): string
  {
    if parts == [] then ""
    else if |parts| == 1 then parts[0]
    else Join(parts[..|parts| - 1], sep) + sep + parts[|parts| - 1]
  }

  /** `a.compareTo(b)`: the difference of the first differing characters, or of the lengths
      when one string is a prefix of the other. */
  function CompareTo(a: string, b: string): int
    decreases |a|
  {
    if a == [] || b == [] then |a| - |b|
    else if a[0] != b[0] then a[0] as int - b[0] as int
    else CompareTo(a[1..], b[1..])
  }

  /** `compareTo` is antisymmetric and is zero only on equal strings. */
  lemma {:induction false} CompareToAntisymmetric(a: string, b: string)
    ensures CompareTo(a, b) == -CompareTo(b, a)
    ensures CompareTo(a, b) == 0 <==> a == b
    decreases |a|
  {
    if a != [] && b != [] && a[0] == b[0] {
      CompareToAntisymmetric(a[1..], b[1..]);
      assert a == [a[0]] + a[1..] && b == [b[0]] + b[1..];
    }
  }

  /** Being at most zero under `compareTo` is transitive, so it orders strings. */
  lemma {:induction false} CompareToTransitive(a: string, b: string, c: string)
    requires CompareTo(a, b) <= 0 && CompareTo(b, c) <= 0
    ensures CompareTo(a, c) <= 0
    decreases |a|
  {
    if a != [] && b != [] && c != [] && a[0] == b[0] && b[0] == c[0] {
      CompareToTransitive(a[1..], b[1..], c[1..]);
    }
  }
}
