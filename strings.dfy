/**
 * The Python string operations the player client and the presence scripts
 * rely on, with Python's meaning: `str.split` and `str.join` with a
 * separator, `str.strip` with a set of characters, `str(int)` and `hex(int)`.
 */
module Strings {
  import opened Sequences

  /** The delimiter between track number and artist, track name and player name in the window title. */
  const Sep := " - "

  // ---------------------------------------------------------------------------
  // Searching and splitting

  /** `sep` occurs in `s` starting at index `j`. */
  predicate OccursAt(s: string, sep: string, j: int)
  {
    0 <= j && j + |sep| <= |s| && s[j..j + |sep|] == sep
  }

  /** `sep` occurs nowhere in `s`. */
  predicate Free(s: string, sep: string)
  {
    forall j :: 0 <= j < |s| ==> !OccursAt(s, sep, j)
  }

  /** The first index at or after `from` where `sep` occurs in `s`, or -1 (`str.find`). */
  function IndexOf(s: string, sep: string, from: nat): (r: int)
    requires |sep| > 0
    decreases |s| - from
    ensures r == -1 || (from <= r && OccursAt(s, sep, r))
  {
    if from + |sep| > |s| then -1
    else if s[from..from + |sep|] == sep then from
    else IndexOf(s, sep, from + 1)
  }

  /** An occurrence at or after `from` is found, at its index or at an earlier one. */
  lemma {:induction false} IndexOfFirst(s: string, sep: string, from: nat, j: int)
    requires |sep| > 0 && from <= j
    decreases |s| - from
    ensures OccursAt(s, sep, j) ==> from <= IndexOf(s, sep, from) <= j
  {
    if from + |sep| <= |s| && s[from..from + |sep|] != sep && from < j {
      IndexOfFirst(s, sep, from + 1, j);
    }
  }

  /** `s.split(sep)`: cut at the occurrences of `sep` found scanning left to right. */
  function Split(s: string, sep: string): (parts: seq<string>)
    requires |sep| > 0
    decreases |s|
    ensures |parts| >= 1
  {
    var j := IndexOf(s, sep, 0);
    if j == -1 then [s] else [s[..j]] + Split(s[j + |sep|..], sep)
  }

  /** `sep.join(parts)`. */
  function Join(parts: seq<string>, sep: string): string
  {
    if |parts| == 0 then ""
    else if |parts| == 1 then parts[0]
    else parts[0] + sep + Join(parts[1..], sep)
  }

  /** The first occurrence of `sep` in `s` is at `j`. */
  lemma IndexOfIs(s: string, sep: string, j: int)
    requires |sep| > 0
    requires OccursAt(s, sep, j)
    requires forall k :: 0 <= k < j ==> !OccursAt(s, sep, k)
    ensures IndexOf(s, sep, 0) == j
  {
    IndexOfFirst(s, sep, 0, j);
  }

  /**
   * Each cut of a split is at the leftmost occurrence of the separator: a
   * string with more than one piece has the separator right after its first
   * piece and nowhere before, and the other pieces are the split of the rest.
   * A string with one piece holds no separator. With `Join`, this fixes the
   * pieces for every input, e.g. "a- - - y" cuts as "a-" and "- y".
   */
  lemma SplitCutsLeftmost(s: string, sep: string)
    requires |sep| > 0
    ensures var parts := Split(s, sep);
      |parts| == 1 ==> parts[0] == s && Free(s, sep)
    ensures var parts := Split(s, sep); |parts| >= 2 ==>
      OccursAt(s, sep, |parts[0]|) &&
      (forall k :: 0 <= k < |parts[0]| ==> !OccursAt(s, sep, k)) &&
      parts[0] == s[..|parts[0]|] &&
      parts[1..] == Split(s[|parts[0]| + |sep|..], sep)
  {
    var j := IndexOf(s, sep, 0);
    forall k | 0 <= k < |s| && (j == -1 || k < j) ensures !OccursAt(s, sep, k) {
      IndexOfFirst(s, sep, 0, k);
    }
  }

  /** A string without the separator is not cut. */
  lemma SplitFree(s: string, sep: string)
    requires |sep| > 0 && Free(s, sep)
    ensures Split(s, sep) == [s]
  {
  }

  /** No piece of a split contains the separator. */
  lemma {:induction false} SplitPiecesFree(s: string, sep: string)
    requires |sep| > 0
    decreases |s|
    ensures forall k :: 0 <= k < |Split(s, sep)| ==> Free(Split(s, sep)[k], sep)
  {
    var j := IndexOf(s, sep, 0);
    if j == -1 {
      forall i | 0 <= i < |s| ensures !OccursAt(s, sep, i) {
        IndexOfFirst(s, sep, 0, i);
      }
    } else {
      var head := s[..j];
      forall i | 0 <= i < |head| ensures !OccursAt(head, sep, i) {
        IndexOfFirst(s, sep, 0, i);
        if i + |sep| <= |head| {
          assert head[i..i + |sep|] == s[i..i + |sep|];
        }
      }
      SplitPiecesFree(s[j + |sep|..], sep);
    }
  }

  lemma JoinCons(a: string, parts: seq<string>, sep: string)
    requires |parts| >= 1
    ensures Join([a] + parts, sep) == a + sep + Join(parts, sep)
  {
    assert ([a] + parts)[1..] == parts;
  }

  /** One step of a split that finds the separator. */
  lemma SplitStep(s: string, sep: string)
    requires |sep| > 0 && IndexOf(s, sep, 0) != -1
    ensures var j := IndexOf(s, sep, 0);
      Split(s, sep) == [s[..j]] + Split(s[j + |sep|..], sep)
  {
  }

  /** A string is the part before an occurrence, the separator, and the part after. */
  lemma CutAt(s: string, sep: string, j: int)
    requires OccursAt(s, sep, j)
    ensures s == s[..j] + sep + s[j + |sep|..]
  {
    assert s[..j + |sep|] == s[..j] + sep;
    assert s == s[..j + |sep|] + s[j + |sep|..];
  }

  /** Joining the pieces of a split with the same separator gives the string back. */
  lemma {:induction false} JoinSplit(s: string, sep: string)
    requires |sep| > 0
    decreases |s|
    ensures Join(Split(s, sep), sep) == s
  {
    var j := IndexOf(s, sep, 0);
    if j != -1 {
      var rest := s[j + |sep|..];
      SplitStep(s, sep);
      CutAt(s, sep, j);
      JoinSplit(rest, sep);
      JoinCons(s[..j], Split(rest, sep), sep);
    }
  }

  /** In `x + Sep + y`, the first delimiter is the one put there, when `x` has none and does not end in '-'. */
  lemma FirstSepAtJoint(x: string, y: string)
    requires IndexOf(x, Sep, 0) == -1
    requires x == [] || x[|x| - 1] != '-'
    ensures IndexOf(x + Sep + y, Sep, 0) == |x|
  {
    var t := x + Sep + y;
    forall k | 0 <= k < |x| ensures !OccursAt(t, Sep, k) {
      if k + 3 <= |x| {
        assert x[k..k + 3] == t[k..k + 3];
        IndexOfFirst(x, Sep, 0, k);
      } else {
        assert t[k..k + 3][1] == t[k + 1];
        assert t[k + 1] == (if k == |x| - 1 then ' ' else x[|x| - 1]);
      }
    }
    assert t[|x|..|x| + 3] == Sep;
    IndexOfIs(t, Sep, |x|);
  }

  /** In `x + Sep + y`, a delimiter already inside `x` is found first. */
  lemma FirstSepInside(x: string, y: string)
    requires IndexOf(x, Sep, 0) != -1
    ensures IndexOf(x + Sep + y, Sep, 0) == IndexOf(x, Sep, 0)
  {
    var t := x + Sep + y;
    var j := IndexOf(x, Sep, 0);
    assert x[j..j + 3] == t[j..j + 3];
    forall k | 0 <= k < j ensures !OccursAt(t, Sep, k) {
      assert x[k..k + 3] == t[k..k + 3];
      IndexOfFirst(x, Sep, 0, k);
    }
    IndexOfIs(t, Sep, j);
  }

  /** The base case of `SplitAppend`: `x` holds no delimiter. */
  lemma SplitAppendLast(x: string, y: string)
    requires IndexOf(x, Sep, 0) == -1
    requires x == [] || x[|x| - 1] != '-'
    ensures Split(x + Sep + y, Sep) == [x] + Split(y, Sep)
  {
    var t := x + Sep + y;
    FirstSepAtJoint(x, y);
    SplitStep(t, Sep);
    assert t[..|x|] == x && t[|x| + 3..] == y;
  }

  /** The step case of `SplitAppend`: the first cut of `x + Sep + y` is the first cut of `x`. */
  lemma SplitAppendInside(x: string, y: string)
    requires IndexOf(x, Sep, 0) != -1
    ensures var j := IndexOf(x, Sep, 0);
      Split(x + Sep + y, Sep) == [x[..j]] + Split(x[j + 3..] + Sep + y, Sep)
  {
    var t := x + Sep + y;
    var j := IndexOf(x, Sep, 0);
    FirstSepInside(x, y);
    SplitStep(t, Sep);
    SlicesOfAppend(x, y, j);
  }

  /** Cutting `x + Sep + y` inside `x`. */
  lemma SlicesOfAppend(x: string, y: string, j: int)
    requires 0 <= j && j + 3 <= |x|
    ensures (x + Sep + y)[..j] == x[..j]
    ensures (x + Sep + y)[j + 3..] == x[j + 3..] + Sep + y
  {
  }

  /**
   * Splitting on the title delimiter distributes over a delimiter placed
   * between two strings, as long as the left one does not end in '-' (an
   * ending " -" would let a delimiter start one character early).
   */
  lemma {:induction false} SplitAppend(x: string, y: string)
    requires x == [] || x[|x| - 1] != '-'
    decreases |x|
    ensures Split(x + Sep + y, Sep) == Split(x, Sep) + Split(y, Sep)
  {
    var j := IndexOf(x, Sep, 0);
    if j == -1 {
      SplitAppendLast(x, y);
    } else {
      var x' := x[j + 3..];
      assert x' == [] || x'[|x'| - 1] == x[|x| - 1];
      SplitAppend(x', y);
      SplitAppendStep(x, y);
    }
  }

  /** The inductive step of `SplitAppend`: the property for the rest after the first cut of `x` gives it for `x`. */
  lemma SplitAppendStep(x: string, y: string)
    requires IndexOf(x, Sep, 0) != -1
    requires var x' := x[IndexOf(x, Sep, 0) + 3..]; Split(x' + Sep + y, Sep) == Split(x', Sep) + Split(y, Sep)
    ensures Split(x + Sep + y, Sep) == Split(x, Sep) + Split(y, Sep)
  {
    var j := IndexOf(x, Sep, 0);
    SplitAppendInside(x, y);
    SplitStep(x, Sep);
    ConcatAssoc([x[..j]], Split(x[j + 3..], Sep), Split(y, Sep));
  }

  // ---------------------------------------------------------------------------
  // Stripping a set of characters

  /** The set of characters of `s`, as `str.strip(s)` uses its argument. */
  function CharSet(s: string): set<char>
  {
    set c | c in s
  }

  /** `s.lstrip(chars)`. */
  function StripLeft(s: string, cs: set<char>): (r: string)
    decreases |s|
    ensures |r| <= |s| && r == s[|s| - |r|..]
    ensures forall k :: 0 <= k < |s| - |r| ==> s[k] in cs
    ensures r == [] || r[0] !in cs
  {
    if |s| > 0 && s[0] in cs then StripLeft(s[1..], cs) else s
  }

  /** `s.rstrip(chars)`. */
  function StripRight(s: string, cs: set<char>): (r: string)
    decreases |s|
    ensures |r| <= |s| && r == s[..|r|]
    ensures forall k :: |r| <= k < |s| ==> s[k] in cs
    ensures r == [] || r[|r| - 1] !in cs
  {
    if |s| > 0 && s[|s| - 1] in cs then StripRight(s[..|s| - 1], cs) else s
  }

  /** `s.strip(chars)`: every character of the set is removed from both ends; no prefix is matched. */
  function Strip(s: string, cs: set<char>): string
  {
    StripRight(StripLeft(s, cs), cs)
  }

  /**
   * An independent description of stripping: `r` is a slice `s[i..j]`, all
   * that was cut off is in the set, and `r` neither starts nor ends with a
   * character of the set.
   */
  ghost predicate IsStripOf(r: string, s: string, cs: set<char>)
  {
    exists i, j :: StripSlice(r, s, cs, i, j)
  }

  /** `r` is `s[i..j]`, everything outside the slice is in `cs`, and `r` has no character of `cs` at either end. */
  predicate StripSlice(r: string, s: string, cs: set<char>, i: int, j: int)
  {
    0 <= i <= j <= |s| && r == s[i..j] &&
    (forall k :: 0 <= k < i ==> s[k] in cs) &&
    (forall k :: j <= k < |s| ==> s[k] in cs) &&
    (r == [] || (r[0] !in cs && r[|r| - 1] !in cs))
  }

  /** Where `Strip` cuts `s`. */
  lemma StripCuts(s: string, cs: set<char>) returns (i: int, j: int)
    ensures 0 <= i <= j <= |s| && Strip(s, cs) == s[i..j]
    ensures forall k :: 0 <= k < i ==> s[k] in cs
    ensures forall k :: j <= k < |s| ==> s[k] in cs
    ensures Strip(s, cs) == [] || (s[i] !in cs && s[j - 1] !in cs)
  {
    var left := StripLeft(s, cs);
    var st := StripRight(left, cs);
    i := |s| - |left|;
    j := i + |st|;
    SliceOfSuffix(s, i, |st|);
    forall k | j <= k < |s| ensures s[k] in cs {
      assert s[k] == left[k - i];
    }
  }

  lemma SliceOfSuffix(s: string, i: int, n: int)
    requires 0 <= i <= |s| && 0 <= n <= |s| - i
    ensures s[i..][..n] == s[i..i + n]
  {
  }

  /** `Strip` satisfies the independent description. */
  lemma StripIsStripOf(s: string, cs: set<char>)
    ensures IsStripOf(Strip(s, cs), s, cs)
  {
    var i, j := StripCuts(s, cs);
    var r := Strip(s, cs);
    assert r != [] ==> r[0] == s[i] && r[|r| - 1] == s[j - 1];
    assert StripSlice(r, s, cs, i, j);
  }

  /** Any slice that satisfies the description is the result of `Strip`. */
  lemma StripUnique(s: string, cs: set<char>, r: string, i: int, j: int)
    requires StripSlice(r, s, cs, i, j)
    ensures r == Strip(s, cs)
  {
    var i0, j0 := StripCuts(s, cs);
    if r == [] {
      // Everything lies outside the slice, so everything is in the set.
      forall k | 0 <= k < |s| ensures s[k] in cs {
        assert k < i || j <= k;
      }
      assert Strip(s, cs) == [];
    } else {
      assert s[i] == r[0] && s[j - 1] == r[|r| - 1];
      assert i0 <= i && j <= j0;
      assert Strip(s, cs) != [];
      assert i <= i0 && j0 <= j;
    }
  }

  /** `Strip` is exactly the slice `IsStripOf` describes: it satisfies it, and nothing else does. */
  lemma StripCharacterized(s: string, cs: set<char>, r: string)
    ensures IsStripOf(r, s, cs) <==> r == Strip(s, cs)
  {
    if r == Strip(s, cs) {
      StripIsStripOf(s, cs);
    }
    if IsStripOf(r, s, cs) {
      var i, j :| StripSlice(r, s, cs, i, j);
      StripUnique(s, cs, r, i, j);
    }
  }

  /** Stripping the characters of a prefix from the prefix followed by `a` gives `a`, when `a` has no such character at either end. */
  lemma {:induction false} StripPrefixed(p: string, a: string, cs: set<char>)
    requires forall k :: 0 <= k < |p| ==> p[k] in cs
    requires a == [] || (a[0] !in cs && a[|a| - 1] !in cs)
    decreases |p|
    ensures Strip(p + a, cs) == a
  {
    if |p| == 0 {
      assert p + a == a;
    } else {
      assert (p + a)[1..] == p[1..] + a;
      StripPrefixed(p[1..], a, cs);
    }
  }

  // ---------------------------------------------------------------------------
  // Numerals

  /** Digits as Python prints them: decimal digits and lower-case hexadecimal digits. */
  predicate IsDigitChar(c: char)
  {
    '0' <= c <= '9' || 'a' <= c <= 'f'
  }

  function DigitChar(d: nat): (c: char)
    requires d < 16
    ensures IsDigitChar(c) && DigitValue(c) == d
  {
    if d < 10 then ('0' as int + d) as char else ('a' as int + d - 10) as char
  }

  function DigitValue(c: char): nat
  {
    if '0' <= c <= '9' then c as int - '0' as int
    else if 'a' <= c <= 'f' then c as int - 'a' as int + 10
    else 0
  }

  /** The digits of `n` in `base`, most significant first, without leading zeros. */
  function Numeral(n: nat, base: nat): (r: string)
    requires 2 <= base <= 16
    decreases n
    ensures |r| >= 1
    ensures n > 0 ==> r[0] != '0'
    ensures forall k :: 0 <= k < |r| ==> IsDigitChar(r[k]) && DigitValue(r[k]) < base
  {
    if n < base then [DigitChar(n)]
    else
      DivModBounds(n, base);
      Numeral(n / base, base) + [DigitChar(n % base)]
  }

  lemma DivModBounds(n: nat, base: nat)
    requires 2 <= base <= n
    ensures 0 <= n % base < base && 0 < n / base < n
    ensures n == n / base * base + n % base
  {
  }

  /** The number a string of digits denotes in `base`. */
  function ValueOf(digits: string, base: nat): nat
  {
    if digits == [] then 0
    else ValueOf(digits[..|digits| - 1], base) * base + DigitValue(digits[|digits| - 1])
  }

  lemma {:induction false} NumeralRoundTrip(n: nat, base: nat)
    requires 2 <= base <= 16
    decreases n
    ensures ValueOf(Numeral(n, base), base) == n
  {
    if n >= base {
      DivModBounds(n, base);
      NumeralRoundTrip(n / base, base);
      var r := Numeral(n, base);
      assert r[..|r| - 1] == Numeral(n / base, base);
      assert DigitValue(r[|r| - 1]) == n % base;
      assert ValueOf(r, base) == n / base * base + n % base;
    }
  }

  /**
   * `str(n)`: a natural number prints in canonical form, as decimal digits
   * without leading zeros that read back as the number; a negative number
   * prints as '-' and the digits of its magnitude.
   */
  function DecimalString(n: int): (r: string)
    ensures n >= 0 ==> ValueOf(r, 10) == n && forall k :: 0 <= k < |r| ==> '0' <= r[k] <= '9'
    ensures |r| >= 1
    ensures n >= 0 ==> |r| == 1 || r[0] != '0'
    ensures n < 0 ==> r == "-" + Numeral(-n, 10) && ValueOf(r[1..], 10) == -n
  {
    if n < 0 then
      NumeralRoundTrip(-n, 10);
      var r := "-" + Numeral(-n, 10);
      assert r[1..] == Numeral(-n, 10);
      r
    else
      NumeralRoundTrip(n, 10);
      Numeral(n, 10)
  }

  /**
   * `hex(n)`: for a natural number, "0x" and hexadecimal digits in canonical
   * form, without leading zeros, that read back as the number; a negative
   * number prints as "-0x" and the digits of its magnitude.
   */
  function HexString(n: int): (r: string)
    ensures |r| >= 3
    ensures n >= 0 ==> r[..2] == "0x" && ValueOf(r[2..], 16) == n && forall k :: 2 <= k < |r| ==> IsDigitChar(r[k])
    ensures n >= 0 ==> |r| == 3 || r[2] != '0'
    ensures n < 0 ==> r == "-0x" + Numeral(-n, 16) && ValueOf(r[3..], 16) == -n
  {
    if n < 0 then
      NumeralRoundTrip(-n, 16);
      var r := "-0x" + Numeral(-n, 16);
      assert r[3..] == Numeral(-n, 16);
      r
    else
      NumeralRoundTrip(n, 16);
      var r := "0x" + Numeral(n, 16);
      assert r[2..] == Numeral(n, 16);
      r
  }

  lemma NaturalNoDash(n: int)
    requires n >= 0
    ensures '-' !in DecimalString(n)
  {
  }

  /** A four-digit number prints as its four hexadecimal digits. */
  lemma HexFourDigits(v: int)
    requires 0x1000 <= v < 0x10000
    ensures HexString(v) == "0x" + [DigitChar(v / 0x1000), DigitChar(v / 0x100 % 16), DigitChar(v / 16 % 16), DigitChar(v % 16)]
  {
    var a, b, c := v / 16, v / 0x100, v / 0x1000;
    assert a / 16 == b && b / 16 == c;
    assert a % 16 == v / 16 % 16 && b % 16 == v / 0x100 % 16;
    assert Numeral(c, 16) == [DigitChar(c)];
    assert Numeral(b, 16) == [DigitChar(c), DigitChar(b % 16)];
    assert Numeral(a, 16) == [DigitChar(c), DigitChar(b % 16), DigitChar(a % 16)];
  }

  lemma DigitCharInjective(d: nat, e: nat)
    requires d < 16 && e < 16
    ensures DigitChar(d) == DigitChar(e) <==> d == e
  {
    assert DigitValue(DigitChar(d)) == d && DigitValue(DigitChar(e)) == e;
  }
}
