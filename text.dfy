/**
 * The pieces of Go's `strings` and `fmt` packages that the proxy handler uses,
 * over Dafny strings (sequences of Unicode scalar values).
 */
module Text {

  /** strings.HasPrefix */
  predicate HasPrefix(s: string, prefix: string) {
    |prefix| <= |s| && s[..|prefix|] == prefix
  }

  /** A prefix is a prefix exactly when it agrees with `s` character by character. */
  lemma HasPrefixPointwise(s: string, prefix: string)
    ensures HasPrefix(s, prefix) <==> |prefix| <= |s| && forall i :: 0 <= i < |prefix| ==> s[i] == prefix[i]
  {
    if |prefix| <= |s| && forall i :: 0 <= i < |prefix| ==> s[i] == prefix[i] {
      assert s[..|prefix|] == prefix;
    }
  }

  /** Whatever follows it, a text starts with itself; and a text with a prefix is that prefix followed by the rest. */
  lemma HasPrefixConcat(prefix: string, t: string)
    ensures HasPrefix(prefix + t, prefix)
    ensures forall s :: HasPrefix(s, prefix) ==> s == prefix + s[|prefix|..]
  {
    assert (prefix + t)[..|prefix|] == prefix;
    forall s | HasPrefix(s, prefix)
      ensures s == prefix + s[|prefix|..]
    {
      assert s == s[..|prefix|] + s[|prefix|..];
    }
  }

  /** strings.TrimPrefix: removes one occurrence of `prefix` at the start, if there is one. */
  function TrimPrefix(s: string, prefix: string): (r: string)
    ensures HasPrefix(s, prefix) ==> prefix + r == s
    ensures !HasPrefix(s, prefix) ==> r == s
  {
    if HasPrefix(s, prefix) then s[|prefix|..] else s
  }

  /** unicode.ToLower restricted to ASCII letters (header names are ASCII tokens). */
  function LowerChar(c: char): char {
    if 'A' <= c <= 'Z' then (c as int + 32) as char else c
  }

  /**
   * strings.ToLower for ASCII text: each upper-case letter becomes its lower-case letter,
   * every other character is kept, and no upper-case letter remains.
   */
  function ToLower(s: string): (r: string)
    ensures |r| == |s|
    ensures forall i :: 0 <= i < |s| && 'A' <= s[i] <= 'Z' ==> r[i] as int == s[i] as int + 32
    ensures forall i :: 0 <= i < |s| && !('A' <= s[i] <= 'Z') ==> r[i] == s[i]
    ensures forall i :: 0 <= i < |r| ==> !('A' <= r[i] <= 'Z')
  {
    seq(|s|, i requires 0 <= i < |s| => LowerChar(s[i]))
  }

  /** unicode.IsSpace: the White_Space property of Unicode. */
  predicate IsSpace(c: char) {
    var n := c as int;
    n == 0x20 || (0x09 <= n <= 0x0D) || n == 0x85 || n == 0xA0 || n == 0x1680
    || (0x2000 <= n <= 0x200A) || n == 0x2028 || n == 0x2029 || n == 0x202F
    || n == 0x205F || n == 0x3000
  }

  /** Every character of `s` at an index in [lo, hi) is white space. */
  predicate SpacesIn(s: string, lo: int, hi: int) {
    forall k :: lo <= k < hi && 0 <= k < |s| ==> IsSpace(s[k])
  }

  /** How many white-space characters `s` starts with. */
  function LeadingSpaces(s: string): (n: nat)
    ensures n <= |s| && SpacesIn(s, 0, n)
    ensures n == |s| || !IsSpace(s[n])
    decreases |s|
  {
    if |s| > 0 && IsSpace(s[0]) then
      var t := s[1..];
      var m := LeadingSpaces(t);
      assert SpacesIn(s, 0, m + 1) by {
        forall k | 1 <= k < m + 1
          ensures IsSpace(s[k])
        {
          assert s[k] == t[k - 1];
        }
      }
      assert m + 1 < |s| ==> s[m + 1] == t[m];
      m + 1
    else
      0
  }

  /** How many white-space characters `s` ends with. */
  function TrailingSpaces(s: string): (n: nat)
    ensures n <= |s| && SpacesIn(s, |s| - n, |s|)
    ensures n == |s| || !IsSpace(s[|s| - 1 - n])
    decreases |s|
  {
    if |s| > 0 && IsSpace(s[|s| - 1]) then
      var t := s[..|s| - 1];
      var m := TrailingSpaces(t);
      assert SpacesIn(s, |s| - (m + 1), |s|) by {
        forall k | |s| - (m + 1) <= k < |s| - 1
          ensures IsSpace(s[k])
        {
          assert s[k] == t[k];
        }
      }
      assert m + 1 < |s| ==> s[|s| - 1 - (m + 1)] == t[|t| - 1 - m];
      m + 1
    else
      0
  }

  /** `r` sits at offset `i` of `s`, with only white space before and after it. */
  predicate InfixAt(s: string, r: string, i: int) {
    0 <= i <= |s| - |r| && s[i..i + |r|] == r && SpacesIn(s, 0, i) && SpacesIn(s, i + |r|, |s|)
  }

  /**
   * strings.TrimSpace: the result is the infix of `s` that remains once the white space
   * at both ends is removed; it neither starts nor ends with white space.
   */
  function TrimSpace(s: string): (r: string)
    ensures r == [] || (!IsSpace(r[0]) && !IsSpace(r[|r| - 1]))
    ensures exists i :: InfixAt(s, r, i)
  {
    var i := LeadingSpaces(s);
    var t := s[i..];
    var n := TrailingSpaces(t);
    TrimmedInfix(s, i, t, n);
    t[..|t| - n]
  }

  /** Cutting `i` leading and `n` trailing white-space characters leaves an infix that neither starts nor ends with one. */
  lemma TrimmedInfix(s: string, i: nat, t: string, n: nat)
    requires i <= |s| && SpacesIn(s, 0, i) && (i == |s| || !IsSpace(s[i]))
    requires t == s[i..] && n <= |t| && SpacesIn(t, |t| - n, |t|) && (n == |t| || !IsSpace(t[|t| - 1 - n]))
    ensures var r := t[..|t| - n];
      && (r == [] || (!IsSpace(r[0]) && !IsSpace(r[|r| - 1])))
      && InfixAt(s, r, i)
  {
    var r := t[..|t| - n];
    assert r != [] ==> r[0] == s[i] && r[|r| - 1] == t[|t| - 1 - n];
    assert s[i..i + |r|] == r;
    forall k | i + |r| <= k < |s|
      ensures IsSpace(s[k])
    {
      assert s[k] == t[k - i];
    }
  }

  lemma LeadingSpace(s: string)
    ensures LeadingSpaces([' '] + s) == LeadingSpaces(s) + 1
  {
    assert ([' '] + s)[1..] == s;
  }

  lemma TrailingSpace(s: string)
    ensures TrailingSpaces(s + [' ']) == TrailingSpaces(s) + 1
  {
    assert (s + [' '])[..|s|] == s;
  }

  /** Text that neither starts nor ends with white space, padded with at most one space on each side, trims to itself. */
  lemma TrimPadded(a: string, s: string)
    requires a != [] && !IsSpace(a[0]) && !IsSpace(a[|a| - 1])
    requires s == a || s == a + [' '] || s == [' '] + a || s == [' '] + a + [' ']
    ensures TrimSpace(s) == a
  {
    var l := if s[0] == ' ' then s[1..] else s;
    assert l == a || l == a + [' '];
    assert l[0] == a[0];
    var i := LeadingSpaces(s);
    if s[0] == ' ' {
      assert s == [' '] + l;
      LeadingSpace(l);
    }
    assert s[i..] == l;
    if l != a {
      TrailingSpace(a);
    }
  }

  /** Trimming only removes characters: a character absent from `s` is absent from the result. */
  lemma TrimSpaceAbsent(s: string, c: char)
    requires c !in s
    ensures c !in TrimSpace(s)
  {
    var t := TrimSpace(s);
    var i :| InfixAt(s, t, i);
    forall k | 0 <= k < |t|
      ensures t[k] != c
    {
      assert t[k] == s[i + k];
    }
  }

  /** Number of occurrences of `c` in `s`. */
  function Count(s: string, c: char): nat {
    if |s| == 0 then 0 else (if s[0] == c then 1 else 0) + Count(s[1..], c)
  }

  /**
   * strings.Split with a one-character separator: never empty, one piece more than
   * there are separators, and no piece contains the separator.
   */
  function Split(s: string, sep: char): (parts: seq<string>)
    ensures |parts| == Count(s, sep) + 1
    ensures forall i :: 0 <= i < |parts| ==> sep !in parts[i]
    decreases |s|
  {
    if |s| == 0 then [""]
    else
      var rest := Split(s[1..], sep);
      if s[0] == sep then [""] + rest
      else [[s[0]] + rest[0]] + rest[1..]
  }

  /** strings.Join with a one-character separator; the inverse of Split. */
  function Join(parts: seq<string>, sep: char): string {
    if |parts| == 0 then ""
    else if |parts| == 1 then parts[0]
    else parts[0] + [sep] + Join(parts[1..], sep)
  }

  /** Joining the pieces of a split gives back the original text. */
  lemma {:induction false} JoinSplit(s: string, sep: char)
    ensures Join(Split(s, sep), sep) == s
    decreases |s|
  {
    if |s| > 0 {
      var rest := Split(s[1..], sep);
      JoinSplit(s[1..], sep);
      if s[0] == sep {
        assert Split(s, sep) == [""] + rest;
        assert s == [sep] + s[1..];
      } else {
        var parts := Split(s, sep);
        assert parts == [[s[0]] + rest[0]] + rest[1..];
        if |rest| == 1 {
          assert s == [s[0]] + s[1..];
        } else {
          assert Join(rest, sep) == rest[0] + [sep] + Join(rest[1..], sep);
          assert parts[1..] == rest[1..];
          assert s == [s[0]] + s[1..];
        }
      }
    }
  }

  /** Text without the separator splits into itself alone. */
  lemma {:induction false} SplitWithoutSeparator(a: string, sep: char)
    requires sep !in a
    ensures Split(a, sep) == [a]
    decreases |a|
  {
    if |a| > 0 {
      SplitWithoutSeparator(a[1..], sep);
      assert [a[0]] + a[1..] == a;
    }
  }

  /** A separator-free piece followed by the separator splits off as the first piece. */
  lemma {:induction false} SplitAtSeparator(a: string, sep: char, t: string)
    requires sep !in a
    ensures Split(a + [sep] + t, sep) == [a] + Split(t, sep)
    decreases |a|
  {
    if |a| > 0 {
      SplitAtSeparator(a[1..], sep, t);
      assert (a + [sep] + t)[1..] == a[1..] + [sep] + t;
      assert [a[0]] + a[1..] == a;
    } else {
      assert a + [sep] + t == [sep] + t;
    }
  }

  /** Two separator-free pieces around one separator split into those two pieces. */
  lemma SplitPair(a: string, sep: char, b: string)
    requires sep !in a && sep !in b
    ensures Split(a + [sep] + b, sep) == [a, b]
  {
    SplitAtSeparator(a, sep, b);
    SplitWithoutSeparator(b, sep);
  }

  /** Splitting a join of separator-free pieces gives back the pieces. */
  lemma {:induction false} SplitJoin(parts: seq<string>, sep: char)
    requires |parts| >= 1
    requires forall i :: 0 <= i < |parts| ==> sep !in parts[i]
    ensures Split(Join(parts, sep), sep) == parts
    decreases |parts|
  {
    if |parts| == 1 {
      SplitWithoutSeparator(parts[0], sep);
    } else {
      SplitJoin(parts[1..], sep);
      SplitAtSeparator(parts[0], sep, Join(parts[1..], sep));
      assert [parts[0]] + parts[1..] == parts;
    }
  }

  function DigitChar(d: nat): char
    requires d < 10
  {
    ('0' as int + d) as char
  }

  function DigitValue(c: char): nat
    requires '0' <= c <= '9'
  {
    c as int - '0' as int
  }

  predicate IsDigits(s: string) {
    forall i :: 0 <= i < |s| ==> '0' <= s[i] <= '9'
  }

  /** fmt.Sprintf("%d", n) for a natural number: non-empty, digits only, no leading zero. */
  function Decimal(n: nat): (s: string)
    ensures |s| >= 1 && IsDigits(s)
    ensures |s| > 1 ==> s[0] != '0'
  {
    if n < 10 then [DigitChar(n)] else Decimal(n / 10) + [DigitChar(n % 10)]
  }

  /** The value of a string of decimal digits (the reading side of Decimal). */
  function DecimalValue(s: string): nat
    requires IsDigits(s)
  {
    if |s| == 0 then 0 else 10 * DecimalValue(s[..|s| - 1]) + DigitValue(s[|s| - 1])
  }

  /** Decimal is read back as the number it was made from. */
  lemma {:induction false} DecimalRoundTrip(n: nat)
    ensures DecimalValue(Decimal(n)) == n
  {
    if n >= 10 {
      var s := Decimal(n);
      DecimalRoundTrip(n / 10);
      assert s[..|s| - 1] == Decimal(n / 10);
    }
  }
}
