/**
 * The parts of C++'s std::string and <cctype> that the banking core relies on:
 * lexicographic comparison (operator<, operator<=), substr, find, find_last_of,
 * the erase-remove idiom, the "C"-locale character classes, std::to_string for
 * non-negative numbers, std::setw/std::setfill padding and std::stoi.
 *
 * Characters are taken to be single bytes: comparison uses the character code,
 * which for codes 0..255 agrees with char_traits<char>, which compares as
 * unsigned char.
 */
module StdString {
  import opened Wrappers

  // ---------------------------------------------------------------------------
  // Lexicographic order (std::string operator<)
  // ---------------------------------------------------------------------------

  /** a < b in std::string's lexicographic order. */
  predicate LexLess(a: string, b: string)
    decreases |a|
  {
    if |a| == 0 then |b| > 0
    else if |b| == 0 then false
    else if a[0] < b[0] then true
    else if b[0] < a[0] then false
    else LexLess(a[1..], b[1..])
  }

  /** a <= b, which C++ defines as !(b < a). */
  predicate LexLe(a: string, b: string)
  {
    !LexLess(b, a)
  }

  lemma {:induction false} LexLessIrreflexive(a: string)
    ensures !LexLess(a, a)
    decreases |a|
  {
    if |a| > 0 {
      LexLessIrreflexive(a[1..]);
    }
  }

  lemma {:induction false} LexLessAsymmetric(a: string, b: string)
    ensures !(LexLess(a, b) && LexLess(b, a))
    decreases |a|
  {
    if |a| > 0 && |b| > 0 && a[0] == b[0] {
      LexLessAsymmetric(a[1..], b[1..]);
    }
  }

  lemma {:induction false} LexLessTransitive(a: string, b: string, c: string)
    requires LexLess(a, b) && LexLess(b, c)
    ensures LexLess(a, c)
    decreases |a|
  {
    if |a| > 0 && a[0] == b[0] && b[0] == c[0] {
      LexLessTransitive(a[1..], b[1..], c[1..]);
    }
  }

  /** Any two different strings are ordered one way or the other. */
  lemma {:induction false} LexLessTotal(a: string, b: string)
    ensures a == b || LexLess(a, b) || LexLess(b, a)
    decreases |a|
  {
    if |a| > 0 && |b| > 0 && a[0] == b[0] {
      LexLessTotal(a[1..], b[1..]);
      if a[1..] == b[1..] {
        assert a == [a[0]] + a[1..] && b == [b[0]] + b[1..];
      }
    }
  }

  /** <= is transitive; this is what sorting by timestamp relies on. */
  lemma LexLeTransitive(a: string, b: string, c: string)
    requires LexLe(a, b) && LexLe(b, c)
    ensures LexLe(a, c)
  {
    LexLessTotal(a, b);
    if a != b && LexLess(c, a) {
      LexLessTransitive(c, a, b);
    }
  }

  // ---------------------------------------------------------------------------
  // substr, find, find_last_of, erase(remove(...))
  // ---------------------------------------------------------------------------

  /** s.substr(pos, len): at most len characters from pos (pos past the end throws). */
  function Substr(s: string, pos: nat, len: nat): (r: string)
    requires pos <= |s|
    ensures |r| == if pos + len <= |s| then len else |s| - pos
    ensures forall i :: 0 <= i < |r| ==> r[i] == s[pos + i]
  {
    if pos + len <= |s| then s[pos..pos + len] else s[pos..]
  }

  /** s.find(c, from): the first position at or after from holding c. */
  function FindFrom(s: string, c: char, from: nat): (r: Option<nat>)
    ensures r.Some? ==> from <= r.value < |s| && s[r.value] == c
    ensures r.Some? ==> forall i :: from <= i < r.value ==> s[i] != c
    ensures r.None? ==> forall i :: from <= i < |s| ==> s[i] != c
    decreases |s| - from
  {
    if from >= |s| then None
    else if s[from] == c then Some(from)
    else FindFrom(s, c, from + 1)
  }

  /** The last position before end holding c. */
  function FindLastBefore(s: string, c: char, end: nat): (r: Option<nat>)
    requires end <= |s|
    ensures r.Some? ==> r.value < end && s[r.value] == c
    ensures r.Some? ==> forall i :: r.value < i < end ==> s[i] != c
    ensures r.None? ==> forall i :: 0 <= i < end ==> s[i] != c
  {
    if end == 0 then None
    else if s[end - 1] == c then Some(end - 1)
    else FindLastBefore(s, c, end - 1)
  }

  /** s.find_last_of(c): the last position holding c. */
  function FindLast(s: string, c: char): (r: Option<nat>)
    ensures r.Some? ==> r.value < |s| && s[r.value] == c
    ensures r.Some? ==> forall i :: r.value < i < |s| ==> s[i] != c
    ensures r.None? ==> forall i :: 0 <= i < |s| ==> s[i] != c
  {
    FindLastBefore(s, c, |s|)
  }

  /** s.erase(remove(s.begin(), s.end(), c), s.end()): s without any c, order kept. */
  function RemoveChar(s: string, c: char): (r: string)
    ensures c !in r
    ensures forall x :: x in r <==> x in s && x != c
    ensures |r| <= |s|
  {
    if |s| == 0 then []
    else if s[0] == c then RemoveChar(s[1..], c)
    else [s[0]] + RemoveChar(s[1..], c)
  }

  lemma {:induction false} RemoveCharAppend(s: string, c: char, x: char)
    ensures RemoveChar(s + [x], c) == RemoveChar(s, c) + (if x == c then [] else [x])
  {
    if |s| == 0 {
      assert s + [x] == [x];
    } else {
      assert (s + [x])[1..] == s[1..] + [x];
      RemoveCharAppend(s[1..], c, x);
    }
  }

  // ---------------------------------------------------------------------------
  // Character classes of <cctype> in the "C" locale
  // ---------------------------------------------------------------------------

  predicate IsDigit(c: char) { '0' <= c <= '9' }

  predicate IsAlpha(c: char) { ('a' <= c <= 'z') || ('A' <= c <= 'Z') }

  predicate IsAlnum(c: char) { IsAlpha(c) || IsDigit(c) }

  predicate IsSpace(c: char)
  {
    c == ' ' || c == '\t' || c == '\n' || c == '\r' || c == '\U{000B}' || c == '\U{000C}'
  }

  predicate AllDigits(s: string)
  {
    forall i :: 0 <= i < |s| ==> IsDigit(s[i])
  }

  // ---------------------------------------------------------------------------
  // Decimal rendering (std::to_string) and its inverse
  // ---------------------------------------------------------------------------

  function DigitChar(d: nat): (c: char)
    requires d < 10
    ensures IsDigit(c) && DigitValue(c) == d
  {
    ('0' as int + d) as char
  }

  function DigitValue(c: char): (d: nat)
    requires IsDigit(c)
    ensures d < 10
  {
    (c as int - '0' as int)
  }

  /** std::to_string(n) for n >= 0: the shortest decimal rendering, no sign. */
  function NatToString(n: nat): (r: string)
    ensures |r| > 0 && AllDigits(r)
    ensures n == 0 <==> r == "0"
  {
    if n < 10 then [DigitChar(n)] else NatToString(n / 10) + [DigitChar(n % 10)]
  }

  /** The value of a string of decimal digits, read left to right. */
  function DigitsValue(s: string): nat
    requires AllDigits(s)
  {
    if |s| == 0 then 0
    else DigitsValue(s[..|s| - 1]) * 10 + DigitValue(s[|s| - 1])
  }

  lemma {:induction false} NatToStringRoundTrip(n: nat)
    ensures DigitsValue(NatToString(n)) == n
  {
    var s := NatToString(n);
    if n >= 10 {
      assert s[..|s| - 1] == NatToString(n / 10);
      NatToStringRoundTrip(n / 10);
    } else {
      assert s[..|s| - 1] == [];
    }
  }

  /** std::to_string is injective on non-negative numbers. */
  lemma NatToStringInjective(m: nat, n: nat)
    requires NatToString(m) == NatToString(n)
    ensures m == n
  {
    NatToStringRoundTrip(m);
    NatToStringRoundTrip(n);
  }

  function Repeat(c: char, k: nat): (r: string)
    ensures |r| == k && forall i :: 0 <= i < k ==> r[i] == c
  {
    if k == 0 then [] else [c] + Repeat(c, k - 1)
  }

  /** `os << setfill(fill) << setw(width) << s` with the default right adjustment. */
  function PadLeft(s: string, width: nat, fill: char): (r: string)
    ensures |r| == if |s| >= width then |s| else width
    ensures r[|r| - |s|..] == s
  {
    if |s| >= width then s else Repeat(fill, width - |s|) + s
  }

  lemma {:induction false} LeadingZeroValue(s: string)
    requires AllDigits(s)
    ensures AllDigits(['0'] + s) && DigitsValue(['0'] + s) == DigitsValue(s)
    decreases |s|
  {
    var z := ['0'] + s;
    if |s| > 0 {
      assert z[..|z| - 1] == ['0'] + s[..|s| - 1];
      LeadingZeroValue(s[..|s| - 1]);
    }
  }

  lemma {:induction false} LeadingZerosValue(k: nat, s: string)
    requires AllDigits(s)
    ensures AllDigits(Repeat('0', k) + s) && DigitsValue(Repeat('0', k) + s) == DigitsValue(s)
  {
    if k > 0 {
      LeadingZerosValue(k - 1, s);
      var t := Repeat('0', k - 1) + s;
      LeadingZeroValue(t);
      assert Repeat('0', k) + s == ['0'] + t;
    } else {
      assert Repeat('0', k) + s == s;
    }
  }

  /** Zero-padding a decimal rendering keeps its value, so it stays injective. */
  lemma ZeroPaddedRoundTrip(n: nat, width: nat)
    ensures AllDigits(PadLeft(NatToString(n), width, '0'))
    ensures DigitsValue(PadLeft(NatToString(n), width, '0')) == n
  {
    var s := NatToString(n);
    NatToStringRoundTrip(n);
    if |s| < width {
      LeadingZerosValue(width - |s|, s);
      assert PadLeft(s, width, '0') == Repeat('0', width - |s|) + s;
    } else {
      assert PadLeft(s, width, '0') == s;
    }
  }

  // ---------------------------------------------------------------------------
  // std::stoi
  // ---------------------------------------------------------------------------

  const INT_MIN: int := -0x8000_0000
  const INT_MAX: int := 0x7FFF_FFFF

  function SkipSpaces(s: string): (r: string)
    ensures |r| <= |s|
  {
    if |s| > 0 && IsSpace(s[0]) then SkipSpaces(s[1..]) else s
  }

  /** The longest prefix of s made of digits. */
  function LeadingDigits(s: string): (r: string)
    ensures AllDigits(r) && |r| <= |s| && r == s[..|r|]
  {
    if |s| > 0 && IsDigit(s[0]) then [s[0]] + LeadingDigits(s[1..]) else []
  }

  /**
   * std::stoi(s): skips leading white space, reads an optional sign and then as
   * many digits as follow. None stands for the two exceptions it throws:
   * invalid_argument (no digits) and out_of_range (the value does not fit an int).
   */
  function Stoi(s: string): (r: Option<int>)
    ensures r.Some? ==> INT_MIN <= r.value <= INT_MAX
  {
    var t := SkipSpaces(s);
    var signed := |t| > 0 && (t[0] == '+' || t[0] == '-');
    var negative := signed && t[0] == '-';
    var digits := LeadingDigits(if signed then t[1..] else t);
    if |digits| == 0 then None
    else
      var v: int := if negative then 0 - DigitsValue(digits) as int else DigitsValue(digits);
      if INT_MIN <= v <= INT_MAX then Some(v) else None
  }

  /** The longest digit prefix of a run of digits followed by a non-digit is that run. */
  lemma {:induction false} LeadingDigitsOf(d: string, rest: string)
    requires AllDigits(d)
    requires |rest| == 0 || !IsDigit(rest[0])
    ensures LeadingDigits(d + rest) == d
    decreases |d|
  {
    if |d| == 0 {
      assert d + rest == rest;
    } else {
      assert (d + rest)[1..] == d[1..] + rest;
      LeadingDigitsOf(d[1..], rest);
    }
  }

  /** stoi reads a run of digits that fits an int, and stops at the first non-digit. */
  lemma StoiDigits(d: string, rest: string)
    requires AllDigits(d) && |d| > 0 && DigitsValue(d) <= INT_MAX
    requires |rest| == 0 || !IsDigit(rest[0])
    ensures Stoi(d + rest) == Some(DigitsValue(d))
  {
    assert (d + rest)[0] == d[0];
    assert SkipSpaces(d + rest) == d + rest;
    LeadingDigitsOf(d, rest);
  }

  /** A leading '-' negates the value; INT_MIN itself is accepted. */
  lemma StoiNegative(d: string)
    requires AllDigits(d) && |d| > 0 && DigitsValue(d) <= -INT_MIN
    ensures Stoi("-" + d) == Some(0 - DigitsValue(d) as int)
  {
    var s := "-" + d;
    assert SkipSpaces(s) == s by {
      assert s[0] == '-' && !IsSpace(s[0]);
    }
    assert LeadingDigits(s[1..]) == d by {
      assert s[1..] == d + [];
      LeadingDigitsOf(d, []);
    }
    StoiMinus(s);
  }

  /** stoi on text that starts with '-' and then digits whose value fits. */
  lemma StoiMinus(s: string)
    requires SkipSpaces(s) == s && |s| > 0 && s[0] == '-'
    requires |LeadingDigits(s[1..])| > 0 && DigitsValue(LeadingDigits(s[1..])) <= -INT_MIN
    ensures Stoi(s) == Some(0 - DigitsValue(LeadingDigits(s[1..])) as int)
  {
  }

  /** A run of digits whose value does not fit an int makes stoi throw out_of_range. */
  lemma StoiOutOfRange(d: string)
    requires AllDigits(d) && |d| > 0 && DigitsValue(d) > INT_MAX
    ensures Stoi(d) == None
  {
    assert SkipSpaces(d) == d;
    assert d + [] == d;
    LeadingDigitsOf(d, []);
  }

  /** No digit after the white space and the optional sign makes stoi throw invalid_argument. */
  lemma StoiNoDigits(s: string)
    ensures
      var t := SkipSpaces(s);
      var u := if |t| > 0 && (t[0] == '+' || t[0] == '-') then t[1..] else t;
      (|u| == 0 || !IsDigit(u[0])) ==> Stoi(s) == None
  {
  }
}
