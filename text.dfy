/**
 * String helpers the URL builders rely on: how a JavaScript template literal
 * prints a whole number, `Array.prototype.join(", ")` and its inverse, and
 * splitting a string at the first occurrence of a character.
 */
module Text {
  import opened Wrappers

  predicate IsDigit(c: char) {
    '0' <= c <= '9'
  }

  predicate AllDigits(s: string) {
    forall i :: 0 <= i < |s| ==> IsDigit(s[i])
  }

  predicate EndsWith(s: string, suffix: string) {
    |suffix| <= |s| && s[|s| - |suffix|..] == suffix
  }

  function DigitChar(d: nat): (c: char)
    requires d < 10
    ensures IsDigit(c) && (c as int) - ('0' as int) == d
  {
    (('0' as int) + d) as char
  }

  function DigitValue(c: char): nat
    requires IsDigit(c)
  {
    (c as int) - ('0' as int)
  }

  /** The decimal digits of `n`, most significant first, with no leading zero. */
  function DecimalString(n: nat): (s: string)
    ensures 1 <= |s| && AllDigits(s)
    ensures |s| > 1 ==> s[0] != '0'
    decreases n
  {
    if n < 10 then [DigitChar(n)] else DecimalString(n / 10) + [DigitChar(n % 10)]
  }

  /** The value of a string of decimal digits (the empty string reads as 0). */
  function ParseDecimal(s: string): nat
    requires AllDigits(s)
  {
    if s == [] then 0 else ParseDecimal(s[..|s| - 1]) * 10 + DigitValue(s[|s| - 1])
  }

  /** Printing a number and reading it back gives the number. */
  lemma {:induction false} ParseDecimalString(n: nat)
    ensures ParseDecimal(DecimalString(n)) == n
  {
    var s := DecimalString(n);
    if n >= 10 {
      ParseDecimalString(n / 10);
      assert s[..|s| - 1] == DecimalString(n / 10);
    }
  }

  /** Printing is one-to-one: two numbers print alike only if they are equal. */
  lemma DecimalStringInjective(m: nat, n: nat)
    ensures DecimalString(m) == DecimalString(n) ==> m == n
  {
    ParseDecimalString(m);
    ParseDecimalString(n);
  }

  /** The separator `join` puts between srcset candidates. */
  const ListSeparator: string := ", "

  /** `parts.join(", ")`: the first part leads, the last part closes, and no parts give "". */
  function Join(parts: seq<string>): (r: string)
    ensures parts == [] ==> r == ""
    ensures r == "" ==> parts == [] || parts == [""]
    ensures |parts| >= 1 ==> parts[0] <= r && EndsWith(r, parts[|parts| - 1])
  {
    if |parts| == 0 then ""
    else if |parts| == 1 then parts[0]
    else
      var tail := Join(parts[1..]);
      var r := parts[0] + ListSeparator + tail;
      assert r[|r| - |tail|..] == tail;
      assert r[|r| - |parts[|parts| - 1]|..] == tail[|tail| - |parts[|parts| - 1]|..];
      r
  }

  /** Cuts a string at every ", "; the inverse of Join for parts free of commas. */
  function SplitList(s: string): (parts: seq<string>)
    ensures |parts| >= 1
    decreases |s|
  {
    if |s| == 0 then [""]
    else if |s| >= 2 && s[0] == ',' && s[1] == ' ' then [""] + SplitList(s[2..])
    else
      var rest := SplitList(s[1..]);
      [[s[0]] + rest[0]] + rest[1..]
  }

  /** A comma-free prefix is glued onto the first part of what follows it. */
  lemma {:induction false} SplitListCommaFree(x: string, rest: string)
    requires ',' !in x
    ensures SplitList(x + rest) == [x + SplitList(rest)[0]] + SplitList(rest)[1..]
  {
    if x != [] {
      assert x[0] != ',';
      assert (x + rest)[1..] == x[1..] + rest;
      SplitListCommaFree(x[1..], rest);
      assert [x[0]] + (x[1..] + SplitList(rest)[0]) == x + SplitList(rest)[0];
    } else {
      var r := SplitList(rest);
      assert x + rest == rest && x + r[0] == r[0];
      assert [r[0]] + r[1..] == r;
    }
  }

  /** Splitting a joined list of comma-free parts gives back the parts, in order. */
  lemma {:induction false} SplitJoin(parts: seq<string>)
    requires |parts| >= 1
    requires forall i :: 0 <= i < |parts| ==> ',' !in parts[i]
    ensures SplitList(Join(parts)) == parts
  {
    if |parts| == 1 {
      SplitListCommaFree(parts[0], "");
      assert parts[0] + "" == parts[0];
    } else {
      var tail := Join(parts[1..]);
      SplitJoin(parts[1..]);
      assert Join(parts) == parts[0] + (ListSeparator + tail);
      SplitListCommaFree(parts[0], ListSeparator + tail);
      assert (ListSeparator + tail)[2..] == tail;
      assert SplitList(ListSeparator + tail) == [""] + parts[1..];
      assert parts[0] + "" == parts[0];
    }
  }

  /** Splits `s` around the first occurrence of `c`, if there is one. */
  function SplitAtFirst(s: string, c: char): (r: Option<(string, string)>)
    ensures r.None? <==> c !in s
    ensures r.Some? ==> r.value.0 + [c] + r.value.1 == s && c !in r.value.0
  {
    if s == [] then None
    else if s[0] == c then Some(([], s[1..]))
    else match SplitAtFirst(s[1..], c)
      case None => None
      case Some((a, b)) => Some(([s[0]] + a, b))
  }

  /** Splitting at `c` finds the `c` placed right after a `c`-free prefix. */
  lemma {:induction false} SplitAtFirstAfter(a: string, c: char, b: string)
    requires c !in a
    ensures SplitAtFirst(a + [c] + b, c) == Some((a, b))
  {
    if a != [] {
      assert (a + [c] + b)[1..] == a[1..] + [c] + b;
      SplitAtFirstAfter(a[1..], c, b);
      assert [a[0]] + a[1..] == a;
    } else {
      assert a + [c] + b == [c] + b;
    }
  }

  /** The number of decimal digits at the end of `s`. */
  function DigitSuffixLength(s: string): (n: nat)
    ensures n <= |s|
    ensures forall i :: |s| - n <= i < |s| ==> IsDigit(s[i])
    ensures n < |s| ==> !IsDigit(s[|s| - n - 1])
  {
    if s == [] || !IsDigit(s[|s| - 1]) then 0
    else DigitSuffixLength(s[..|s| - 1]) + 1
  }

  /** Digits written after a non-digit are exactly the digit suffix. */
  lemma {:induction false} DigitSuffixOf(a: string, sep: char, digits: string)
    requires !IsDigit(sep) && AllDigits(digits)
    ensures DigitSuffixLength(a + [sep] + digits) == |digits|
  {
    var s := a + [sep] + digits;
    if digits == [] {
      assert s[|s| - 1] == sep;
    } else {
      var init := digits[..|digits| - 1];
      assert s[..|s| - 1] == a + [sep] + init;
      DigitSuffixOf(a, sep, init);
    }
  }
}
