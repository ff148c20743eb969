/** The JavaScript string operations the portal relies on: whitespace and
    `trim`, case mapping, `includes`, `split`, `padStart`, decimal `toString`
    and `parseInt(_, 10)`. */
module Strings {
  import opened Js

  /** The characters `\s` matches, which are also the ones `trim` and
      `parseInt` skip: the ECMAScript WhiteSpace and LineTerminator sets. */
  predicate IsSpace(c: char)
  {
    || c == '\t' || c == '\n' || c == '\U{B}' || c == '\U{C}' || c == '\r'
    || c == ' ' || c == '\U{A0}' || c == '\U{1680}'
    || ('\U{2000}' <= c <= '\U{200A}')
    || c == '\U{2028}' || c == '\U{2029}' || c == '\U{202F}' || c == '\U{205F}'
    || c == '\U{3000}' || c == '\U{FEFF}'
  }

  predicate IsBlank(s: string)
  {
    forall i :: 0 <= i < |s| ==> IsSpace(s[i])
  }

  function TrimStart(s: string): (r: string)
    ensures |r| <= |s| && r == s[|s| - |r|..]
    ensures r == [] || !IsSpace(r[0])
    ensures IsBlank(s[..|s| - |r|])
  {
    if |s| > 0 && IsSpace(s[0]) then
      var r := TrimStart(s[1..]);
      assert s[..|s| - |r|] == [s[0]] + s[1..][..|s| - 1 - |r|];
      BlankCons(s[0], s[1..][..|s| - 1 - |r|]);
      r
    else s
  }

  lemma BlankCons(c: char, s: string)
    requires IsSpace(c) && IsBlank(s)
    ensures IsBlank([c] + s)
  {
    var t := [c] + s;
    forall i | 0 <= i < |t|
      ensures IsSpace(t[i])
    {
      if i > 0 {
        assert t[i] == s[i - 1];
      }
    }
  }

  lemma BlankSnoc(s: string, c: char)
    requires IsBlank(s) && IsSpace(c)
    ensures IsBlank(s + [c])
  {
    var t := s + [c];
    forall i | 0 <= i < |t|
      ensures IsSpace(t[i])
    {
      if i < |s| {
        assert t[i] == s[i];
      }
    }
  }

  /** A string that does not start with whitespace is its own `trimStart`. */
  lemma TrimStartNoSpace(s: string)
    requires s != [] && !IsSpace(s[0])
    ensures TrimStart(s) == s
  {
  }

  function TrimEnd(s: string): (r: string)
    ensures |r| <= |s| && r == s[..|r|]
    ensures r == [] || !IsSpace(r[|r| - 1])
    ensures IsBlank(s[|r|..])
  {
    if |s| > 0 && IsSpace(s[|s| - 1]) then
      var r := TrimEnd(s[..|s| - 1]);
      assert s[|r|..] == s[..|s| - 1][|r|..] + [s[|s| - 1]];
      BlankSnoc(s[..|s| - 1][|r|..], s[|s| - 1]);
      r
    else s
  }

  /** `s.trim()` */
  function Trim(s: string): string
  {
    TrimStart(TrimEnd(s))
  }

  /** `s.trim() === ''` holds exactly for the all-whitespace strings, which is
      how every "required field" check of the portal reads. */
  lemma TrimEmptyIffBlank(s: string)
    ensures Trim(s) == "" <==> IsBlank(s)
  {
    var e := TrimEnd(s);
    if Trim(s) == "" {
      assert e[..|e|] == e;
      assert s[|e|..] == s;
    }
  }

  /** ASCII case mapping; other characters are left as they are. */
  function LowerChar(c: char): char
  {
    if 'A' <= c <= 'Z' then (c as int + 32) as char else c
  }

  function UpperChar(c: char): char
  {
    if 'a' <= c <= 'z' then (c as int - 32) as char else c
  }

  /** `s.toLowerCase()` */
  function Lower(s: string): (r: string)
    ensures |r| == |s|
    ensures forall i :: 0 <= i < |s| ==> r[i] == LowerChar(s[i])
  {
    seq(|s|, i requires 0 <= i < |s| => LowerChar(s[i]))
  }

  /** `s.toUpperCase()` */
  function Upper(s: string): (r: string)
    ensures |r| == |s|
    ensures forall i :: 0 <= i < |s| ==> r[i] == UpperChar(s[i])
  {
    seq(|s|, i requires 0 <= i < |s| => UpperChar(s[i]))
  }

  /** `s.includes(t)`: t occurs in s at some position. */
  predicate Contains(s: string, t: string)
    decreases |s|
  {
    t <= s || (|s| > 0 && Contains(s[1..], t))
  }

  /** Containment is monotone: a string containing `t` is found in any
      extension of it. */
  lemma {:induction false} ContainsExtend(a: string, s: string, b: string, t: string)
    requires Contains(s, t)
    ensures Contains(a + s + b, t)
    decreases |a|, |s|
  {
    if |a| > 0 {
      assert (a + s + b)[1..] == a[1..] + s + b;
      ContainsExtend(a[1..], s, b, t);
    } else if t <= s {
      assert a + s + b == s + b;
      assert t <= s + b;
    } else {
      assert a + s + b == [s[0]] + (s[1..] + b);
      assert (a + s + b)[1..] == [] + s[1..] + b;
      ContainsExtend([], s[1..], b, t);
    }
  }

  /** Nothing is found in a string shorter than itself. */
  lemma {:induction false} ContainsNoLonger(s: string, t: string)
    requires Contains(s, t)
    ensures |t| <= |s|
    decreases |s|
  {
    if !(t <= s) {
      ContainsNoLonger(s[1..], t);
    }
  }

  // ---- decimal digits ----

  predicate IsDigit(c: char)
  {
    '0' <= c <= '9'
  }

  predicate AllDigits(s: string)
  {
    forall i :: 0 <= i < |s| ==> IsDigit(s[i])
  }

  function DigitValue(c: char): nat
    requires IsDigit(c)
  {
    c as int - '0' as int
  }

  function DigitChar(d: nat): (c: char)
    requires d < 10
    ensures IsDigit(c) && DigitValue(c) == d
  {
    ('0' as int + d) as char
  }

  /** The number a string of decimal digits denotes, read left to right. */
  function DigitsValue(s: string): nat
    requires AllDigits(s)
  {
    if s == [] then 0 else 10 * DigitsValue(s[..|s| - 1]) + DigitValue(s[|s| - 1])
  }

  /** `n.toString()` for a non-negative integer. */
  function NatToString(n: nat): (r: string)
    ensures |r| >= 1 && AllDigits(r)
  {
    if n < 10 then [DigitChar(n)] else NatToString(n / 10) + [DigitChar(n % 10)]
  }

  /** `String(i)` for an integer. */
  function IntToString(i: int): (r: string)
    ensures |r| >= 1
    ensures i >= 0 ==> r == NatToString(i)
    ensures i < 0 ==> r == "-" + NatToString(-i)
  {
    if i < 0 then "-" + NatToString(-i) else NatToString(i)
  }

  /** Decimal printing and reading are inverse. */
  lemma {:induction false} NatToStringRoundTrip(n: nat)
    ensures DigitsValue(NatToString(n)) == n
  {
    if n >= 10 {
      var s := NatToString(n);
      assert s[..|s| - 1] == NatToString(n / 10);
      NatToStringRoundTrip(n / 10);
    }
  }

  lemma NatToStringShort(n: nat)
    ensures n < 10 ==> NatToString(n) == [DigitChar(n)]
    ensures 10 <= n < 100 ==> NatToString(n) == [DigitChar(n / 10), DigitChar(n % 10)]
  {
  }

  /** A leading zero does not change the value of a digit string. */
  lemma {:induction false} LeadingZero(s: string)
    requires AllDigits(s)
    ensures AllDigits("0" + s) && DigitsValue("0" + s) == DigitsValue(s)
    decreases |s|
  {
    if s != [] {
      var z := "0" + s;
      assert z[..|z| - 1] == "0" + s[..|s| - 1];
      LeadingZero(s[..|s| - 1]);
    }
  }

  /** Two decimal digits print back as themselves once padded to width two. */
  lemma TwoDigitsRoundTrip(s: string)
    requires |s| == 2 && AllDigits(s)
    ensures PadStart(NatToString(DigitsValue(s)), 2, '0') == s
  {
    var d0, d1 := DigitValue(s[0]), DigitValue(s[1]);
    TwoDigitsValue(s);
    assert s == [DigitChar(d0), DigitChar(d1)];
    if d0 == 0 {
      PrintOneDigit(d1);
    } else {
      PrintTwoDigits(d0, d1);
    }
  }

  lemma TwoDigitsValue(s: string)
    requires |s| == 2 && AllDigits(s)
    ensures DigitsValue(s) == 10 * DigitValue(s[0]) + DigitValue(s[1])
  {
    assert s[..1][..0] == [];
    assert DigitsValue(s[..1]) == DigitValue(s[0]);
  }

  lemma PrintOneDigit(d: nat)
    requires d < 10
    ensures PadStart(NatToString(10 * 0 + d), 2, '0') == [DigitChar(0), DigitChar(d)]
  {
    assert NatToString(d) == [DigitChar(d)];
    assert Repeat('0', 1) == "0";
  }

  lemma PrintTwoDigits(d0: nat, d1: nat)
    requires 0 < d0 < 10 && d1 < 10
    ensures PadStart(NatToString(10 * d0 + d1), 2, '0') == [DigitChar(d0), DigitChar(d1)]
  {
    var v := 10 * d0 + d1;
    assert v / 10 == d0 && v % 10 == d1;
    assert NatToString(v) == NatToString(d0) + [DigitChar(d1)];
  }

  // ---- padStart, split ----

  function Repeat(c: char, n: nat): (r: string)
    ensures |r| == n && forall i :: 0 <= i < n ==> r[i] == c
  {
    if n == 0 then [] else [c] + Repeat(c, n - 1)
  }

  /** `s.padStart(n, c)` with a one-character filler: fills on the left up to
      length n, and never shortens. */
  function PadStart(s: string, n: nat, c: char): (r: string)
    ensures |r| == if |s| >= n then |s| else n
    ensures r[|r| - |s|..] == s
    ensures forall i :: 0 <= i < |r| - |s| ==> r[i] == c
  {
    if |s| >= n then s else Repeat(c, n - |s|) + s
  }

  /** Padding a digit string with zeros keeps its value. */
  lemma {:induction false} PadStartKeepsValue(s: string, n: nat)
    requires AllDigits(s)
    ensures AllDigits(PadStart(s, n, '0'))
    ensures DigitsValue(PadStart(s, n, '0')) == DigitsValue(s)
    decreases n - |s|
  {
    if |s| < n {
      LeadingZero(s);
      assert PadStart("0" + s, n, '0') == PadStart(s, n, '0') by {
        assert Repeat('0', n - |s|) == Repeat('0', n - |s| - 1) + "0" by {
          var z := Repeat('0', n - |s|);
          assert z == Repeat('0', n - |s| - 1) + "0";
        }
      }
      PadStartKeepsValue("0" + s, n);
    }
  }

  /** `s.split(sep)` for a one-character separator. */
  function Split(s: string, sep: char): (parts: seq<string>)
    ensures |parts| >= 1
    decreases |s|
  {
    if s == [] then [""]
    else if s[0] == sep then [""] + Split(s[1..], sep)
    else
      var rest := Split(s[1..], sep);
      [[s[0]] + rest[0]] + rest[1..]
  }

  lemma {:induction false} SplitNoSeparator(s: string, sep: char)
    requires sep !in s
    ensures Split(s, sep) == [s]
    decreases |s|
  {
    if s != [] {
      SplitNoSeparator(s[1..], sep);
      assert [s[0]] + s[1..] == s;
    }
  }

  lemma {:induction false} SplitAtFirst(a: string, sep: char, b: string)
    requires sep !in a
    ensures Split(a + [sep] + b, sep) == [a] + Split(b, sep)
    decreases |a|
  {
    var s := a + [sep] + b;
    if a == [] {
      assert s[1..] == b;
    } else {
      assert s[1..] == a[1..] + [sep] + b;
      SplitAtFirst(a[1..], sep, b);
      assert [a[0]] + a[1..] == a;
    }
  }

  // ---- parseInt(s, 10) ----

  /** The longest prefix of decimal digits. */
  function LeadingDigits(s: string): (r: string)
    ensures r <= s && AllDigits(r)
    ensures |r| == |s| || !IsDigit(s[|r|])
  {
    if s != [] && IsDigit(s[0]) then [s[0]] + LeadingDigits(s[1..]) else []
  }

  /** `parseInt(s, 10)`, where `None` is `NaN`: leading whitespace is skipped,
      one sign is accepted, and the longest run of digits after it is read. */
  function ParseInt(s: string): Option<int>
  {
    var t := TrimStart(s);
    if t != [] && (t[0] == '-' || t[0] == '+') then
      var ds := LeadingDigits(t[1..]);
      if ds == [] then None
      else
        var v: int := DigitsValue(ds);
        if t[0] == '-' then Some(-v) else Some(v)
    else
      var ds := LeadingDigits(t);
      if ds == [] then None else Some(DigitsValue(ds))
  }

  /** `parseInt` of a string that starts with a minus sign reads the digits
      after it. */
  lemma ParseIntMinus(t: string, ds: string)
    requires t != [] && t[0] == '-' && LeadingDigits(t[1..]) == ds && ds != []
    ensures ParseInt(t) == Some(-(DigitsValue(ds) as int))
  {
    TrimStartNoSpace(t);
  }

  /** Printing an integer and reading it back gives the integer. */
  lemma ParseIntOfIntToString(i: int)
    ensures ParseInt(IntToString(i)) == Some(i)
  {
    if i < 0 {
      ParseIntOfNegative(i);
    } else {
      ParseIntOfNatToString(i);
    }
  }

  lemma ParseIntOfNatToString(n: nat)
    ensures ParseInt(NatToString(n)) == Some(n)
  {
    var t := NatToString(n);
    assert t + "" == t;
    ParseIntOfDigits(t, "");
    NatToStringRoundTrip(n);
  }

  lemma ParseIntOfNegative(i: int)
    requires i < 0
    ensures ParseInt(IntToString(i)) == Some(i)
  {
    var n: nat := -i;
    assert IntToString(i) == "-" + NatToString(n);
    ParseIntOfMinusText(n);
  }

  lemma ParseIntOfMinusText(n: nat)
    requires n > 0
    ensures ParseInt("-" + NatToString(n)) == Some(-(n as int))
  {
    var ds := NatToString(n);
    NatToStringRoundTrip(n);
    ParseIntMinusDigits("-" + ds, ds);
  }

  lemma ParseIntMinusDigits(t: string, ds: string)
    requires t != [] && t[0] == '-' && ds != [] && AllDigits(ds)
    requires t[1..] == ds
    ensures ParseInt(t) == Some(-(DigitsValue(ds) as int))
  {
    LeadingDigitsAll(ds);
    ParseIntMinus(t, ds);
  }

  /** A string with no digits after its leading digit run is read in full. */
  lemma LeadingDigitsAll(ds: string)
    requires AllDigits(ds)
    ensures LeadingDigits(ds) == ds
  {
    assert ds + "" == ds;
    LeadingDigitsOf(ds, "");
  }

  /** `parseInt` of a run of digits ending the string, or followed by a non-digit,
      is the value of the run. */
  lemma ParseIntOfDigits(ds: string, rest: string)
    requires ds != [] && AllDigits(ds)
    requires rest == [] || !IsDigit(rest[0])
    ensures ParseInt(ds + rest) == Some(DigitsValue(ds))
  {
    var s := ds + rest;
    assert s[0] == ds[0];
    ParseIntUnsigned(s);
    LeadingDigitsOf(ds, rest);
  }

  /** `parseInt` of a string that starts with a digit reads its leading digits. */
  lemma ParseIntUnsigned(t: string)
    requires t != [] && IsDigit(t[0])
    ensures ParseInt(t) == Some(DigitsValue(LeadingDigits(t)))
  {
    TrimStartNoSpace(t);
  }

  lemma {:induction false} LeadingDigitsOf(ds: string, rest: string)
    requires AllDigits(ds)
    requires rest == [] || !IsDigit(rest[0])
    ensures LeadingDigits(ds + rest) == ds
    decreases |ds|
  {
    if ds != [] {
      assert (ds + rest)[1..] == ds[1..] + rest;
      LeadingDigitsOf(ds[1..], rest);
    }
  }

  /** Every character of a printed integer is a digit or the minus sign. */
  lemma IntToStringChars(i: int)
    ensures forall k :: 0 <= k < |IntToString(i)| ==> IsDigit(IntToString(i)[k]) || IntToString(i)[k] == '-'
  {
  }

  // ---- String(v) ----

  /** `String(v)` for the values of the model; numbers are its integers. */
  function ValueText(v: Value): string
  {
    match v
    case Str(s) => s
    case Num(n) => IntToString(n)
    case Bool(b) => if b then "true" else "false"
    case Null => "null"
  }

  /** `${v}` in a template literal, where `undefined` prints as such. */
  function TemplateText(v: Option<Value>): string
  {
    match v
    case None => "undefined"
    case Some(x) => ValueText(x)
  }

  // ---- replace ----

  /** `s.replace(t, '')` for a non-empty literal t: the first occurrence of t,
      if any, is removed. */
  function RemoveFirst(s: string, t: string): (r: string)
    requires t != ""
    ensures t <= s ==> r == s[|t|..]
    ensures !Contains(s, t) ==> r == s
    decreases |s|
  {
    if t <= s then s[|t|..]
    else if s == [] then s
    else [s[0]] + RemoveFirst(s[1..], t)
  }
}
