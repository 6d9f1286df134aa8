/**
 * The JavaScript string and number conversions the components rely on:
 * `replace(/\D/g, '')` and its variants, `Intl.NumberFormat('en-US')` for
 * non-negative integers, `parseInt`, `parseFloat` on digit strings,
 * `String.prototype.trim`, `padStart(2, '0')`, `Array.prototype.join(' ')`
 * and the code-point order of strings.
 */
module JsText {
  import opened Wrappers
  import opened Seqs

  // ---------------------------------------------------------------- digits

  predicate IsDigit(c: char)
  {
    '0' <= c <= '9'
  }

  predicate IsDigitOrDot(c: char)
  {
    IsDigit(c) || c == '.'
  }

  predicate AllDigits(s: string)
  {
    forall i :: 0 <= i < |s| ==> IsDigit(s[i])
  }

  function DigitChar(d: nat): (c: char)
    requires d < 10
    ensures IsDigit(c) && c as int - '0' as int == d
  {
    ('0' as int + d) as char
  }

  function DigitValue(c: char): (d: nat)
    requires IsDigit(c)
    ensures d < 10 && DigitChar(d) == c
  {
    c as int - '0' as int
  }

  function Pow10(n: nat): (p: nat)
    ensures p >= 1
  {
    if n == 0 then 1 else 10 * Pow10(n - 1)
  }

  /** The number a string of decimal digits denotes, most significant digit first. */
  function DigitsValue(s: string): nat
    requires AllDigits(s)
  {
    if s == [] then 0 else DigitsValue(DropLast(s)) * 10 + DigitValue(Last(s))
  }

  lemma {:induction false} DigitsValueAppend(a: string, b: string)
    requires AllDigits(a) && AllDigits(b)
    ensures AllDigits(a + b)
    ensures DigitsValue(a + b) == DigitsValue(a) * Pow10(|b|) + DigitsValue(b)
    decreases |b|
  {
    AllDigitsAppend(a, b);
    if b == [] {
      assert a + b == a;
    } else {
      var b' := DropLast(b);
      var ab := a + b;
      assert DropLast(ab) == a + b';
      assert Last(ab) == Last(b);
      DigitsValueAppend(a, b');
      var va, vb, d := DigitsValue(a), DigitsValue(b'), DigitValue(Last(b));
      var p := Pow10(|b'|);
      assert DigitsValue(a + b') == va * p + vb;
      assert DigitsValue(ab) == DigitsValue(a + b') * 10 + d;
      assert DigitsValue(b) == vb * 10 + d;
      assert Pow10(|b|) == 10 * p;
      ShiftDigit(va, p, vb, d, Pow10(|b|), DigitsValue(b));
    }
  }

  lemma AllDigitsAppend(a: string, b: string)
    requires AllDigits(a) && AllDigits(b)
    ensures AllDigits(a + b)
  {
    forall i | 0 <= i < |a + b| ensures IsDigit((a + b)[i]) {
      if i < |a| { assert (a + b)[i] == a[i]; } else { assert (a + b)[i] == b[i - |a|]; }
    }
  }

  lemma ShiftDigit(va: int, p: int, vb: int, d: int, tenP: int, vbd: int)
    requires tenP == 10 * p && vbd == vb * 10 + d
    ensures (va * p + vb) * 10 + d == va * tenP + vbd
  {
  }

  /** `String(n)` for a non-negative integer: its decimal numeral without leading zeros. */
  function NatToString(n: nat): string
  {
    if n < 10 then [DigitChar(n)] else NatToString(n / 10) + [DigitChar(n % 10)]
  }

  /** The numeral of n is a non-empty string of digits, without `-`, whose value is n. */
  lemma {:induction false} NatToStringDigits(n: nat)
    ensures |NatToString(n)| >= 1 && AllDigits(NatToString(n))
    ensures DigitsValue(NatToString(n)) == n
    ensures '-' !in NatToString(n)
  {
    if n >= 10 {
      NatToStringDigits(n / 10);
      var p := NatToString(n / 10);
      assert DropLast(NatToString(n)) == p;
    }
  }

  /** `String(i)` for an integer. */
  function IntToString(i: int): string
  {
    if i < 0 then "-" + NatToString(-i) else NatToString(i)
  }

  /** `s.padStart(2, '0')`. */
  function PadStart2(s: string): (r: string)
    ensures |r| == if |s| >= 2 then |s| else 2
    ensures r[|r| - |s|..] == s
    ensures forall i :: 0 <= i < |r| - |s| ==> r[i] == '0'
  {
    if |s| >= 2 then s else seq(2 - |s|, _ => '0') + s
  }

  /** `s.split(c)[0]`: the text before the first c, or all of s. */
  function PrefixBefore(s: string, c: char): (r: string)
    ensures |r| <= |s| && r == s[..|r|]
    ensures c !in r
    ensures |r| == |s| || s[|r|] == c
  {
    if s != [] && s[0] != c then [s[0]] + PrefixBefore(s[1..], c) else []
  }

  /** The text before the first c of a + [c] + b is a, when a has no c. */
  lemma PrefixBeforeSeparator(a: string, c: char, b: string)
    requires c !in a
    ensures PrefixBefore(a + [c] + b, c) == a
  {
    assert (a + [c] + b)[|a|] == c;
  }

  /** A text without c is its own prefix before c. */
  lemma PrefixBeforeAbsent(s: string, c: char)
    requires c !in s
    ensures PrefixBefore(s, c) == s
  {
  }

  // ------------------------------------------------------------ stripping

  /** `s.replace(/\D/g, '')` and `s.replace(/[^0-9]/g, '')`: the ASCII digits of s, in order. */
  function KeepDigits(s: string): (r: string)
    ensures AllDigits(r)
    ensures r == [] <==> forall i :: 0 <= i < |s| ==> !IsDigit(s[i])
    // every digit of s is kept, as often as it occurs, in the order of s
    ensures forall c :: multiset(r)[c] == if IsDigit(c) then multiset(s)[c] else 0
    ensures IsSubsequence(r, s)
  {
    var r := Filter(s, IsDigit);
    assert forall i :: 0 <= i < |r| ==> r[i] in r;
    assert forall i :: 0 <= i < |s| && IsDigit(s[i]) ==> s[i] in r;
    r
  }

  /** `s.replace(/[^0-9.]/g, '')`: the digits and full stops of s, in order. */
  function KeepDigitsAndDots(s: string): (r: string)
    ensures forall i :: 0 <= i < |r| ==> IsDigitOrDot(r[i])
    ensures forall c :: multiset(r)[c] == if IsDigitOrDot(c) then multiset(s)[c] else 0
    ensures IsSubsequence(r, s)
    ensures AllDigits(s) ==> r == s
  {
    var r := Filter(s, IsDigitOrDot);
    assert forall i :: 0 <= i < |r| ==> r[i] in r;
    if AllDigits(s) then FilterAll(s, IsDigitOrDot); r else r
  }

  // ------------------------------------------------------- en-US grouping

  /** The three digits of n, with leading zeros. */
  function Pad3(n: nat): (r: string)
    requires n < 1000
    ensures |r| == 3 && AllDigits(r) && DigitsValue(r) == n
  {
    var r := [DigitChar(n / 100), DigitChar(n / 10 % 10), DigitChar(n % 10)];
    assert DropLast(r) == [r[0], r[1]];
    assert DropLast([r[0], r[1]]) == [r[0]];
    assert DropLast([r[0]]) == [];
    assert DigitsValue([r[0]]) == n / 100;
    assert n / 10 / 10 == n / 100;
    assert DigitsValue([r[0], r[1]]) == n / 10;
    r
  }

  /** `new Intl.NumberFormat('en-US').format(n)` for a non-negative integer n: groups of three digits separated by commas. */
  function Grouped(n: nat): (r: string)
    ensures r != []
  {
    if n < 1000 then NatToString(n) else Grouped(n / 1000) + "," + Pad3(n % 1000)
  }

  lemma DropComma(head: string, tail: string, p: char -> bool)
    requires !p(',') && forall i :: 0 <= i < |tail| ==> p(tail[i])
    ensures Filter(head + "," + tail, p) == Filter(head, p) + tail
  {
    FilterAppend(head + ",", tail, p);
    FilterAppend(head, ",", p);
    FilterAll(tail, p);
    assert DropLast(",") == [];
  }

  /** A grouped numeral contains no full stop, so both strippings agree on it. */
  lemma {:induction false} GroupedHasNoDot(n: nat)
    ensures KeepDigitsAndDots(Grouped(n)) == KeepDigits(Grouped(n))
  {
    if n < 1000 {
      NatToStringDigits(n);
      FilterAll(NatToString(n), IsDigit);
      FilterAll(NatToString(n), IsDigitOrDot);
    } else {
      GroupedHasNoDot(n / 1000);
      var tail := Pad3(n % 1000);
      DropComma(Grouped(n / 1000), tail, IsDigit);
      DropComma(Grouped(n / 1000), tail, IsDigitOrDot);
    }
  }

  /** Removing the separators of a grouped numeral gives back the number. */
  lemma {:induction false} GroupedDigits(n: nat)
    ensures KeepDigits(Grouped(n)) != []
    ensures DigitsValue(KeepDigits(Grouped(n))) == n
  {
    if n < 1000 {
      NatToStringDigits(n);
      FilterAll(NatToString(n), IsDigit);
    } else {
      GroupedDigits(n / 1000);
      var head, tail := KeepDigits(Grouped(n / 1000)), Pad3(n % 1000);
      DropComma(Grouped(n / 1000), tail, IsDigit);
      assert Grouped(n) == Grouped(n / 1000) + "," + tail;
      assert KeepDigits(Grouped(n)) == head + tail;
      assert Pow10(3) == 1000 by {
        assert Pow10(1) == 10;
        assert Pow10(2) == 100;
      }
      DigitsValueAppend(head, tail);
      assert DigitsValue(head + tail) == (n / 1000) * 1000 + n % 1000;
    }
  }

  /**
   * The amount and limit inputs: keep the digits, and show them as an en-US
   * grouped integer, or as the empty string when no digit was typed.
   */
  function FormatIntegerInput(s: string): (r: string)
    ensures KeepDigits(s) == [] <==> r == []
  {
    var digits := KeepDigits(s);
    if digits == [] then "" else Grouped(DigitsValue(digits))
  }

  /** An empty input shows as empty. */
  lemma FormatEmptyInput()
    ensures FormatIntegerInput("") == ""
  {
    assert KeepDigits("") == [];
  }

  /** Formatting an already formatted input changes nothing. */
  lemma FormatIntegerInputIdempotent(s: string)
    ensures FormatIntegerInput(FormatIntegerInput(s)) == FormatIntegerInput(s)
  {
    if KeepDigits(s) != [] {
      GroupedDigits(DigitsValue(KeepDigits(s)));
    } else {
      assert FormatIntegerInput(s) == [];
      assert KeepDigits([]) == [];
    }
  }

  // --------------------------------------------------------------- parsing

  /** The longest prefix of s made of digits. */
  function LeadingDigits(s: string): (r: string)
    ensures AllDigits(r) && |r| <= |s| && r == s[..|r|]
    ensures |r| == |s| || !IsDigit(s[|r|])
  {
    if s != [] && IsDigit(s[0]) then [s[0]] + LeadingDigits(s[1..]) else []
  }

  /**
   * `parseFloat(s)` for a string of digits and full stops (the only strings
   * the components hand to it): digits, optionally a full stop and more
   * digits; None (NaN) when there is no digit before the second full stop.
   */
  function ParseFloatPrefix(s: string): (r: Option<real>)
    ensures AllDigits(s) ==> r == if s == [] then None else Some(DigitsValue(s) as real)
    ensures (forall i :: 0 <= i < |s| ==> !IsDigit(s[i])) ==> r.None?
    ensures r.Some? ==> r.value >= 0.0
  {
    var whole := LeadingDigits(s);
    var rest := s[|whole|..];
    var frac := if rest != [] && rest[0] == '.' then LeadingDigits(rest[1..]) else [];
    assert AllDigits(s) ==> whole == s && frac == [];
    if whole == [] && frac == [] then None
    else Some(DigitsValue(whole) as real + DigitsValue(frac) as real / Pow10(|frac|) as real)
  }

  /** The WhiteSpace and LineTerminator code points ECMAScript's `trim` and `parseInt` skip. */
  predicate IsJsWhitespace(c: char)
  {
    var u := c as int;
    (0x09 <= u <= 0x0D) || u == 0x20 || u == 0xA0 || u == 0x1680
    || (0x2000 <= u <= 0x200A) || u == 0x2028 || u == 0x2029 || u == 0x202F
    || u == 0x205F || u == 0x3000 || u == 0xFEFF
  }

  predicate AllWhitespace(s: string)
  {
    forall i :: 0 <= i < |s| ==> IsJsWhitespace(s[i])
  }

  function TrimStart(s: string): (r: string)
    ensures |r| <= |s| && r == s[|s| - |r|..]
    ensures AllWhitespace(s[..|s| - |r|])
    ensures r != [] ==> !IsJsWhitespace(r[0])
  {
    if s != [] && IsJsWhitespace(s[0]) then
      var r := TrimStart(s[1..]);
      assert s[..|s| - |r|] == [s[0]] + s[1..][..|s| - 1 - |r|];
      r
    else s
  }

  function TrimEnd(s: string): (r: string)
    ensures |r| <= |s| && r == s[..|r|]
    ensures AllWhitespace(s[|r|..])
    ensures r != [] ==> !IsJsWhitespace(Last(r))
  {
    if s != [] && IsJsWhitespace(Last(s)) then
      var r := TrimEnd(DropLast(s));
      assert s[|r|..] == DropLast(s)[|r|..] + [Last(s)];
      r
    else s
  }

  /** `s.trim()`: s without its leading and trailing white space. */
  function Trim(s: string): (r: string)
    ensures r == [] <==> AllWhitespace(s)
    ensures r != [] ==> !IsJsWhitespace(r[0]) && !IsJsWhitespace(Last(r))
  {
    var e := TrimEnd(s);
    var r := TrimStart(e);
    assert s == e + s[|e|..];
    if r == [] then
      assert e[..|e| - |r|] == e;
      r
    else
      assert Last(r) == Last(e);
      r
  }

  /**
   * `parseInt(s)` in base ten: skip leading white space, an optional sign,
   * then the longest run of digits; None (NaN) when there is no digit.
   */
  function ParseInt(s: string): (r: Option<int>)
    // a text that starts with a digit reads as its leading run of digits
    ensures s != [] && IsDigit(s[0]) ==> r == Some(DigitsValue(LeadingDigits(s)))
  {
    DigitNotTrimmed(s);
    var t := TrimStart(s);
    var signed := t != [] && (t[0] == '-' || t[0] == '+');
    var digits := LeadingDigits(if signed then t[1..] else t);
    if digits == [] then None
    else
      var v: int := DigitsValue(digits);
      Some(if signed && t[0] == '-' then -v else v)
  }

  /** `parseInt` gives NaN for a text without a digit, in particular for a blank one. */
  lemma ParseIntNeedsDigit(s: string)
    ensures ParseInt(s).Some? ==> exists i :: 0 <= i < |s| && IsDigit(s[i])
  {
    var t := TrimStart(s);
    var signed := t != [] && (t[0] == '-' || t[0] == '+');
    var digits := LeadingDigits(if signed then t[1..] else t);
    if digits != [] {
      assert IsDigit(s[|s| - |t| + (if signed then 1 else 0)]);
    }
  }

  /** `parseInt` of a non-empty run of digits is their value. */
  lemma ParseIntDigits(s: string)
    requires AllDigits(s) && s != []
    ensures ParseInt(s) == Some(DigitsValue(s))
  {
    LeadingDigitsAll(s);
    assert IsDigit(s[0]);
  }

  /** A text that starts with a digit has no leading white space to skip. */
  lemma DigitNotTrimmed(s: string)
    ensures s != [] && IsDigit(s[0]) ==> TrimStart(s) == s
  {
    if s != [] && IsDigit(s[0]) {
      assert !IsJsWhitespace(s[0]);
    }
  }


  lemma LeadingDigitsAll(s: string)
    requires AllDigits(s)
    ensures LeadingDigits(s) == s
  {
  }

  // ------------------------------------------------------------- joining

  function TotalLength(parts: seq<string>): nat
  {
    if parts == [] then 0 else TotalLength(DropLast(parts)) + |Last(parts)|
  }

  /** `parts.join(' ')`. */
  function JoinSpace(parts: seq<string>): string
  {
    if |parts| == 0 then ""
    else if |parts| == 1 then parts[0]
    else JoinSpace(DropLast(parts)) + " " + Last(parts)
  }

  /**
   * The join is empty for no parts and the part itself for one; otherwise it
   * is the first part, one space, and the join of the others.  It holds every
   * character of the parts plus one space between neighbours.
   */
  lemma {:induction false} JoinSpaceShape(parts: seq<string>)
    ensures parts == [] ==> JoinSpace(parts) == []
    ensures |parts| == 1 ==> JoinSpace(parts) == parts[0]
    ensures |parts| >= 2 ==> JoinSpace(parts) == parts[0] + " " + JoinSpace(parts[1..])
    ensures parts != [] ==> |JoinSpace(parts)| == TotalLength(parts) + |parts| - 1
    ensures parts != [] ==> |parts[0]| <= |JoinSpace(parts)| && JoinSpace(parts)[..|parts[0]|] == parts[0]
  {
    if |parts| >= 2 {
      JoinSpaceShape(DropLast(parts));
      JoinSpaceFront(parts);
      var front := JoinSpace(DropLast(parts));
      assert DropLast(parts)[0] == parts[0];
      assert JoinSpace(parts)[..|parts[0]|] == front[..|parts[0]|];
    }
  }

  /** The join of two or more parts is the first part, one space, and the join of the rest. */
  lemma {:induction false} JoinSpaceFront(parts: seq<string>)
    requires |parts| >= 2
    ensures JoinSpace(parts) == parts[0] + " " + JoinSpace(parts[1..])
    decreases |parts|
  {
    var rest := parts[1..];
    assert DropLast(rest) == DropLast(parts)[1..];
    assert Last(rest) == Last(parts);
    if |parts| == 2 {
      assert DropLast(parts) == [parts[0]];
    } else {
      JoinSpaceFront(DropLast(parts));
    }
  }

  // ---------------------------------------------------- code-point order

  /** a comes strictly before b in code-point (Unicode scalar value) order, a character at a time (a proper prefix comes first). */
  predicate CodePointLess(a: string, b: string)
  {
    if a == [] then b != []
    else if b == [] then false
    else if a[0] != b[0] then a[0] < b[0]
    else CodePointLess(a[1..], b[1..])
  }

  lemma {:induction false} CodePointLessIrreflexive(a: string)
    ensures !CodePointLess(a, a)
  {
    if a != [] {
      CodePointLessIrreflexive(a[1..]);
    }
  }

  lemma {:induction false} CodePointLessTransitive(a: string, b: string, c: string)
    requires CodePointLess(a, b) && CodePointLess(b, c)
    ensures CodePointLess(a, c)
  {
    if a != [] && b != [] && c != [] && a[0] == b[0] && b[0] == c[0] {
      CodePointLessTransitive(a[1..], b[1..], c[1..]);
    }
  }

  lemma {:induction false} CodePointLessTotal(a: string, b: string)
    requires a != b
    ensures CodePointLess(a, b) || CodePointLess(b, a)
  {
    if a != [] && b != [] && a[0] == b[0] {
      assert a == [a[0]] + a[1..] && b == [b[0]] + b[1..];
      CodePointLessTotal(a[1..], b[1..]);
    }
  }

  predicate StrictlyDescending(s: seq<string>)
  {
    forall i, j :: 0 <= i < j < |s| ==> CodePointLess(s[j], s[i])
  }

  function InsertStringDesc(x: string, s: seq<string>): (r: seq<string>)
    requires StrictlyDescending(s) && x !in s
    ensures multiset(r) == multiset(s) + multiset{x}
    ensures StrictlyDescending(r)
  {
    if s == [] || CodePointLess(s[0], x) then
      forall j | 0 <= j < |s|
        ensures CodePointLess(s[j], x)
      {
        if j > 0 {
          CodePointLessTransitive(s[j], s[0], x);
        }
      }
      [x] + s
    else
      CodePointLessTotal(x, s[0]);
      var rest := InsertStringDesc(x, s[1..]);
      HeadStringDominates(x, s, rest);
      assert s == [s[0]] + s[1..];
      [s[0]] + rest
  }

  /** The head of a strictly descending s, put in front of its tail with x inserted, keeps the order when x comes before it. */
  lemma HeadStringDominates(x: string, s: seq<string>, rest: seq<string>)
    requires StrictlyDescending(s) && s != [] && CodePointLess(x, s[0])
    requires multiset(rest) == multiset(s[1..]) + multiset{x} && StrictlyDescending(rest)
    ensures StrictlyDescending([s[0]] + rest)
  {
    forall j | 0 <= j < |rest|
      ensures CodePointLess(rest[j], s[0])
    {
      var y := rest[j];
      assert y in multiset(rest);
      if y != x {
        assert y in s[1..];
        var k :| 0 <= k < |s[1..]| && s[1..][k] == y;
        assert s[k + 1] == y;
      }
    }
    var r := [s[0]] + rest;
    forall i, j | 0 <= i < j < |r| ensures CodePointLess(r[j], r[i]) {
      assert r[j] == rest[j - 1];
      if i > 0 {
        assert r[i] == rest[i - 1];
      }
    }
  }

  /** `keys.sort((a, b) => b.localeCompare(a))` for distinct keys, with code-point order as the collation. */
  function SortStringsDesc(s: seq<string>): (r: seq<string>)
    requires Distinct(s)
    ensures multiset(r) == multiset(s)
    ensures StrictlyDescending(r)
  {
    if s == [] then []
    else
      assert s == [s[0]] + s[1..];
      var rest := SortStringsDesc(s[1..]);
      assert s[0] !in multiset(rest);
      InsertStringDesc(s[0], rest)
  }
}
