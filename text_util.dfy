/** String helpers with Python's meaning: code-point ordering of `str`,
    `sorted(set(...))`, `sep.join`, `str(int)`, `str.zfill`, `str.split(sep, 1)`
    and `str.replace` of one character. */
module TextUtil {
  import opened Frames

  /** Python's `a < b` on `str`: lexicographic by code point. */
  predicate LexLess(a: string, b: string)
    decreases |a|
  {
    if |a| == 0 then |b| > 0
    else if |b| == 0 then false
    else if a[0] != b[0] then a[0] < b[0]
    else LexLess(a[1..], b[1..])
  }

  lemma {:induction false} LexIrreflexive(a: string)
    ensures !LexLess(a, a)
    decreases |a|
  {
    if |a| > 0 { LexIrreflexive(a[1..]); }
  }

  lemma {:induction false} LexTransitive(a: string, b: string, c: string)
    requires LexLess(a, b) && LexLess(b, c)
    ensures LexLess(a, c)
    decreases |a|
  {
    if |a| > 0 && a[0] == b[0] && b[0] == c[0] {
      LexTransitive(a[1..], b[1..], c[1..]);
    }
  }

  lemma {:induction false} LexTotal(a: string, b: string)
    ensures a == b || LexLess(a, b) || LexLess(b, a)
    decreases |a|
  {
    if |a| > 0 && |b| > 0 && a[0] == b[0] {
      LexTotal(a[1..], b[1..]);
      if a[1..] == b[1..] { assert a == [a[0]] + a[1..] && b == [b[0]] + b[1..]; }
    }
  }

  lemma {:induction false} LexAsymmetric(a: string, b: string)
    requires LexLess(a, b)
    ensures !LexLess(b, a)
  {
    if LexLess(b, a) { LexTransitive(a, b, a); LexIrreflexive(a); }
  }

  /** Every element is smaller than every later one: sorted, and therefore free of duplicates. */
  predicate StrictlySorted(s: seq<string>)
  {
    forall i, j :: 0 <= i < j < |s| ==> LexLess(s[i], s[j])
  }

  /** Adds `x` to a strictly sorted list unless it is already there. */
  function InsertDistinct(x: string, s: seq<string>): (r: seq<string>)
    requires StrictlySorted(s)
    ensures StrictlySorted(r)
    ensures forall y :: y in r <==> y == x || y in s
  {
    if s == [] then [x]
    else if x == s[0] then s
    else if LexLess(x, s[0]) then
      assert forall j :: 0 <= j < |s| ==> LexLess(x, s[j]) by {
        forall j | 0 <= j < |s| ensures LexLess(x, s[j]) { if j > 0 { LexTransitive(x, s[0], s[j]); } }
      }
      [x] + s
    else
      LexTotal(x, s[0]);
      var rest := InsertDistinct(x, s[1..]);
      assert forall y :: y in rest ==> LexLess(s[0], y);
      [s[0]] + rest
  }

  /** `sorted(set(items))`: the distinct items in increasing order. */
  function SortedDistinct(items: seq<string>): (r: seq<string>)
    ensures StrictlySorted(r)
    ensures forall y :: y in r <==> y in items
  {
    if items == [] then [] else InsertDistinct(items[0], SortedDistinct(items[1..]))
  }

  /** The head of a strictly sorted list is its least element and occurs nowhere else. */
  lemma SortedHead(a: seq<string>)
    requires StrictlySorted(a) && |a| > 0
    ensures forall y :: y in a ==> y == a[0] || LexLess(a[0], y)
    ensures forall y :: y in a[1..] <==> y in a && y != a[0]
  {
    forall y | y in a[1..] ensures y != a[0] {
      var k :| 1 <= k < |a| && a[k] == y;
      LexIrreflexive(a[0]);
    }
  }

  /** Two strictly sorted lists with the same elements are equal: the result of
      `sorted(set(...))` does not depend on how it is computed. */
  lemma {:induction false} StrictlySortedUnique(a: seq<string>, b: seq<string>)
    requires StrictlySorted(a) && StrictlySorted(b)
    requires forall y :: y in a <==> y in b
    ensures a == b
  {
    assert a != [] ==> a[0] in a;
    assert b != [] ==> b[0] in b;
    if a != [] && b != [] {
      SortedHead(a);
      SortedHead(b);
      assert a[0] in b && b[0] in a;
      if LexLess(a[0], b[0]) { LexAsymmetric(a[0], b[0]); }
      assert a[0] == b[0];
      StrictlySortedUnique(a[1..], b[1..]);
      assert a == [a[0]] + a[1..] && b == [b[0]] + b[1..];
    }
  }

  /** Python's `sep.join(parts)`. */
  function Join(parts: seq<string>, sep: string): (r: string)
    ensures |parts| == 1 ==> r == parts[0]
  {
    if |parts| == 0 then "" else if |parts| == 1 then parts[0] else parts[0] + sep + Join(parts[1..], sep)
  }

  // ----- digits and integer formatting -----

  predicate IsDigit(c: char)
  {
    '0' <= c <= '9'
  }

  predicate AllDigits(s: string)
  {
    forall i :: 0 <= i < |s| ==> IsDigit(s[i])
  }

  function DigitChar(n: nat): (c: char)
    requires n < 10
    ensures IsDigit(c)
  {
    ('0' as int + n) as char
  }

  function DigitValue(c: char): (n: nat)
    requires IsDigit(c)
    ensures n < 10 && DigitChar(n) == c
  {
    (c as int) - ('0' as int)
  }

  /** The number a string of decimal digits denotes. */
  function DigitsValue(s: string): nat
    requires AllDigits(s)
  {
    if s == [] then 0 else DigitsValue(s[..|s| - 1]) * 10 + DigitValue(s[|s| - 1])
  }

  /** Two digit strings of the same length that denote the same number are equal. */
  lemma {:induction false} DigitsInjective(a: string, b: string)
    requires AllDigits(a) && AllDigits(b) && |a| == |b|
    requires DigitsValue(a) == DigitsValue(b)
    ensures a == b
    decreases |a|
  {
    if a != [] {
      var a', b' := a[..|a| - 1], b[..|b| - 1];
      DecimalSplit(DigitsValue(a'), DigitValue(a[|a| - 1]), DigitsValue(b'), DigitValue(b[|b| - 1]));
      DigitsInjective(a', b');
      assert DigitChar(DigitValue(a[|a| - 1])) == a[|a| - 1];
      assert a == a' + [a[|a| - 1]] && b == b' + [b[|b| - 1]];
    }
  }

  /** The last decimal digit and the rest are determined by the number. */
  lemma DecimalSplit(x: nat, d: nat, y: nat, e: nat)
    requires d < 10 && e < 10 && x * 10 + d == y * 10 + e
    ensures x == y && d == e
  {
  }

  function Power10(w: nat): nat
  {
    if w == 0 then 1 else 10 * Power10(w - 1)
  }

  /** `str(n)` for a natural number: decimal digits with no leading zero. */
  function NatToStr(n: nat): (s: string)
    ensures |s| >= 1 && AllDigits(s)
    ensures n >= 10 ==> s[0] != '0'
    decreases n
  {
    if n < 10 then [DigitChar(n)] else NatToStr(n / 10) + [DigitChar(n % 10)]
  }

  /** Reading back what `NatToStr` wrote gives the number again. */
  lemma {:induction false} NatToStrValue(n: nat)
    ensures DigitsValue(NatToStr(n)) == n
    decreases n
  {
    if n >= 10 {
      NatToStrValue(n / 10);
      var s := NatToStr(n);
      assert s[..|s| - 1] == NatToStr(n / 10);
    }
  }

  /** `NatToStr(n)` has at most `w` digits exactly when `n < 10^w`. */
  lemma {:induction false} NatToStrLength(n: nat, w: nat)
    requires w >= 1
    ensures |NatToStr(n)| <= w <==> n < Power10(w)
    decreases n
  {
    if n >= 10 {
      if w == 1 {
        assert |NatToStr(n)| >= 2;
        assert Power10(1) == 10;
      } else {
        NatToStrLength(n / 10, w - 1);
      }
    } else {
      assert Power10(w) >= 10 by { PowerAtLeastTen(w); }
    }
  }

  lemma {:induction false} PowerAtLeastTen(w: nat)
    requires w >= 1
    ensures Power10(w) >= 10
  {
    if w > 1 { PowerAtLeastTen(w - 1); }
  }

  /** `str(i)` for any integer. */
  function IntToStr(i: int): string
  {
    if i < 0 then "-" + NatToStr(-i) else NatToStr(i)
  }

  function Zeros(n: nat): (s: string)
    ensures |s| == n && AllDigits(s)
    ensures forall k :: 0 <= k < n ==> s[k] == '0'
  {
    if n == 0 then "" else "0" + Zeros(n - 1)
  }

  /** Python's `s.zfill(width)`: zeros inserted after a leading sign until `s` is `width` long. */
  function Zfill(s: string, width: nat): (r: string)
    ensures |r| == if |s| >= width then |s| else width
  {
    if |s| >= width then s
    else if |s| > 0 && (s[0] == '+' || s[0] == '-') then [s[0]] + Zeros(width - |s|) + s[1..]
    else Zeros(width - |s|) + s
  }

  /** Leading zeros do not change the number a digit string denotes. */
  lemma {:induction false} ZerosPrefixValue(k: nat, s: string)
    requires AllDigits(s)
    ensures AllDigits(Zeros(k) + s) && DigitsValue(Zeros(k) + s) == DigitsValue(s)
    decreases |s|
  {
    var z := Zeros(k) + s;
    if s == [] {
      assert z == Zeros(k);
      ZerosValue(k);
    } else {
      ZerosPrefixValue(k, s[..|s| - 1]);
      assert z[..|z| - 1] == Zeros(k) + s[..|s| - 1];
    }
  }

  lemma {:induction false} ZerosValue(k: nat)
    ensures DigitsValue(Zeros(k)) == 0
  {
    if k > 0 {
      ZerosValue(k - 1);
      var z := Zeros(k);
      assert z[..|z| - 1] == Zeros(k - 1) by {
        assert forall i :: 0 <= i < k - 1 ==> z[i] == '0';
      }
    }
  }

  /** `str(n).zfill(w)` for a natural number below `10^w`: exactly `w` digits denoting `n`. */
  lemma PadNatFacts(n: nat, w: nat)
    requires w >= 1 && n < Power10(w)
    ensures |Zfill(NatToStr(n), w)| == w && AllDigits(Zfill(NatToStr(n), w))
    ensures DigitsValue(Zfill(NatToStr(n), w)) == n
  {
    NatToStrLength(n, w);
    NatToStrValue(n);
    var s := NatToStr(n);
    assert s[0] != '+' && s[0] != '-';
    if |s| < w { ZerosPrefixValue(w - |s|, s); }
  }

  // ----- splitting and replacing -----

  /** The position of the first `c` in `s`, if any. */
  function IndexOf(s: string, c: char): (r: Option<nat>)
    ensures r.None? <==> c !in s
    ensures r.Some? ==> r.value < |s| && s[r.value] == c && c !in s[..r.value]
  {
    if s == [] then None
    else if s[0] == c then Some(0)
    else match IndexOf(s[1..], c)
      case None => None
      case Some(k) => assert s[..k + 1] == [s[0]] + s[1..][..k]; Some(k + 1)
  }

  /** `s.split(sep, 1)` when it yields two parts: the text before the first `sep` and the rest. */
  function SplitOnce(s: string, sep: char): (r: Option<(string, string)>)
    ensures r.None? <==> sep !in s
    ensures r.Some? ==> sep !in r.value.0 && r.value.0 + [sep] + r.value.1 == s
  {
    match IndexOf(s, sep)
    case None => None
    case Some(k) => assert s == s[..k] + [sep] + s[k + 1..]; Some((s[..k], s[k + 1..]))
  }

  lemma {:induction false} IndexOfJoined(a: string, b: string, sep: char)
    requires sep !in a
    ensures IndexOf(a + [sep] + b, sep) == Some(|a|)
  {
    if a != [] {
      IndexOfJoined(a[1..], b, sep);
      assert (a + [sep] + b)[1..] == a[1..] + [sep] + b;
    }
  }

  /** Splitting a joined pair on a separator that the first part does not
      contain gives the pair back. */
  lemma SplitOnceJoined(a: string, b: string, sep: char)
    requires sep !in a
    ensures SplitOnce(a + [sep] + b, sep) == Some((a, b))
  {
    var s := a + [sep] + b;
    IndexOfJoined(a, b, sep);
    assert s[..|a|] == a && s[|a| + 1..] == b;
  }

  /** `s.replace(from, to)` for single characters. */
  function ReplaceChar(s: string, from: char, to: char): (r: string)
    ensures |r| == |s|
    ensures forall i :: 0 <= i < |s| ==> r[i] == if s[i] == from then to else s[i]
  {
    seq(|s|, i requires 0 <= i < |s| => if s[i] == from then to else s[i])
  }

  /** Replacing `from` by `to` loses nothing on two strings whose `from`
      characters sit at the same positions. */
  lemma ReplaceCharInjective(s1: string, s2: string, from: char, to: char)
    requires |s1| == |s2|
    requires forall i :: 0 <= i < |s1| ==> (s1[i] == from <==> s2[i] == from)
    requires ReplaceChar(s1, from, to) == ReplaceChar(s2, from, to)
    ensures s1 == s2
  {
    forall i | 0 <= i < |s1| ensures s1[i] == s2[i] {
      assert ReplaceChar(s1, from, to)[i] == ReplaceChar(s2, from, to)[i];
    }
  }
}
