/** The pieces of Go's `strings` and `fmt` packages the tool relies on:
    `strings.SplitN(s, sep, 2)`, `strings.Split`, `strings.Join` and the `%d`
    verb, each for the one-character separators the tool uses. A decimal parser
    is given beside `%d` as its independent partner. */
module Text {
  import opened Outcomes

  /** Index of the first `c` in `s`, as `strings.IndexByte`. */
  function IndexOf(s: string, c: char): (r: Option<nat>)
    ensures r.None? <==> c !in s
    ensures r.Some? ==> r.value < |s| && s[r.value] == c && c !in s[..r.value]
  {
    if |s| == 0 then None
    else if s[0] == c then Some(0)
    else match IndexOf(s[1..], c)
      case None => None
      case Some(k) =>
        assert s[..k + 1] == [s[0]] + s[1..][..k];
        Some(k + 1)
  }

  /** The first occurrence of `c` in `a + [c] + b`, when `a` has none, is at `|a|`. */
  lemma IndexOfFirst(a: string, c: char, b: string)
    requires c !in a
    ensures IndexOf(a + [c] + b, c) == Some(|a|)
  {
    var s := a + [c] + b;
    assert s[|a|] == c;
    assert s[..|a|] == a;
  }

  /** `strings.Join(parts, sep)`. */
  function Join(parts: seq<string>, sep: string): string
  {
    if |parts| == 0 then ""
    else if |parts| == 1 then parts[0]
    else parts[0] + sep + Join(parts[1..], sep)
  }

  /** `strings.Split(s, string(sep))`: the pieces between occurrences of `sep`.
      There is always at least one piece, and joining the pieces back with
      `sep` gives `s` again. */
  function Split(s: string, sep: char): (parts: seq<string>)
    ensures |parts| >= 1
    ensures forall p :: p in parts ==> sep !in p
    ensures Join(parts, [sep]) == s
    decreases |s|
  {
    match IndexOf(s, sep)
    case None => [s]
    case Some(i) =>
      var rest := Split(s[i + 1..], sep);
      assert ([s[..i]] + rest)[1..] == rest;
      assert s == s[..i] + [sep] + s[i + 1..];
      [s[..i]] + rest
  }

  /** Splitting a join of pieces that hold no separator gives the pieces back. */
  lemma {:induction false} SplitJoin(parts: seq<string>, sep: char)
    requires |parts| >= 1
    requires forall p :: p in parts ==> sep !in p
    ensures Split(Join(parts, [sep]), sep) == parts
    decreases |parts|
  {
    assert parts[0] in parts;
    if |parts| > 1 {
      var head, rest := parts[0], parts[1..];
      assert forall p :: p in rest ==> p in parts;
      var tail := Join(rest, [sep]);
      var s := head + [sep] + tail;
      assert Join(parts, [sep]) == s;
      IndexOfFirst(head, sep, tail);
      assert s[..|head|] == head && s[|head| + 1..] == tail;
      assert Split(s, sep) == [head] + Split(tail, sep);
      SplitJoin(rest, sep);
      assert [head] + rest == parts;
    }
  }

  /** `strings.SplitN(s, string(sep), 2)`: `[s]` when `sep` does not occur,
      otherwise the text before the first `sep` and everything after it. */
  function SplitFirst(s: string, sep: char): (parts: seq<string>)
    ensures |parts| == 1 || |parts| == 2
    ensures |parts| == 2 <==> sep in s
    ensures |parts| == 1 ==> parts[0] == s
    ensures |parts| == 2 ==> s == parts[0] + [sep] + parts[1] && sep !in parts[0]
  {
    match IndexOf(s, sep)
    case None => [s]
    case Some(i) =>
      assert s == s[..i] + [sep] + s[i + 1..];
      [s[..i], s[i + 1..]]
  }

  predicate IsDigit(c: char) {
    '0' <= c <= '9'
  }

  function DigitChar(d: nat): (c: char)
    requires d < 10
    ensures IsDigit(c) && c as int - '0' as int == d
  {
    (d + '0' as int) as char
  }

  /** Decimal digits of a natural number, most significant first, no leading zero. */
  function NatDigits(n: nat): (s: string)
    ensures |s| >= 1 && forall k :: 0 <= k < |s| ==> IsDigit(s[k])
    ensures s[0] == '0' ==> n == 0
  {
    if n < 10 then [DigitChar(n)] else NatDigits(n / 10) + [DigitChar(n % 10)]
  }

  /** `fmt.Sprintf("%d", i)`. */
  function Decimal(i: int): string
  {
    if i < 0 then "-" + NatDigits(-i) else NatDigits(i)
  }

  /** The value of a string of decimal digits. */
  function DigitsValue(s: string): nat
    requires forall k :: 0 <= k < |s| ==> IsDigit(s[k])
  {
    if |s| == 0 then 0
    else
      assert IsDigit(s[|s| - 1]);
      DigitsValue(s[..|s| - 1]) * 10 + (s[|s| - 1] as int - '0' as int)
  }

  /** Reads an optionally signed decimal integer; `None` for anything else. */
  function ParseDecimal(s: string): Option<int>
  {
    var neg := |s| > 0 && s[0] == '-';
    var digits := if neg then s[1..] else s;
    if |digits| == 0 || exists k :: 0 <= k < |digits| && !IsDigit(digits[k]) then None
    else if neg then Some(0 - DigitsValue(digits) as int)
    else Some(DigitsValue(digits))
  }

  lemma {:induction false} DigitsRoundTrip(n: nat)
    ensures DigitsValue(NatDigits(n)) == n
  {
    if n >= 10 {
      var s := NatDigits(n);
      assert s[..|s| - 1] == NatDigits(n / 10);
      DigitsRoundTrip(n / 10);
    }
  }

  /** An unsigned run of digits reads as its value. */
  lemma ParseUnsigned(s: string)
    requires |s| >= 1 && forall k :: 0 <= k < |s| ==> IsDigit(s[k])
    ensures ParseDecimal(s) == Some(DigitsValue(s))
  {
    assert IsDigit(s[0]);
  }

  /** A minus sign before a run of digits reads as the negated value. */
  lemma ParseNegative(s: string)
    requires |s| >= 1 && forall k :: 0 <= k < |s| ==> IsDigit(s[k])
    ensures ParseDecimal("-" + s) == Some(0 - DigitsValue(s))
  {
    var t := "-" + s;
    assert t[0] == '-' && t[1..] == s;
    assert !exists k :: 0 <= k < |s| && !IsDigit(s[k]);
  }

  /** Reading back what `%d` printed gives the same integer. */
  lemma DecimalRoundTrip(i: int)
    ensures ParseDecimal(Decimal(i)) == Some(i)
  {
    if i < 0 {
      DigitsRoundTrip(-i);
      ParseNegative(NatDigits(-i));
    } else {
      DigitsRoundTrip(i);
      ParseUnsigned(NatDigits(i));
    }
  }

  /** `%d` never prints two integers the same way. */
  lemma DecimalInjective(i: int, j: int)
    requires Decimal(i) == Decimal(j)
    ensures i == j
  {
    DecimalRoundTrip(i);
    DecimalRoundTrip(j);
  }
}
