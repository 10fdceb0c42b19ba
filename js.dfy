/** The parts of JavaScript's strings and numbers that the schedule code relies on:
    `split`, `trim`, `parseInt`, `Number` and the decimal text of a template literal. */
module Js {

  datatype Option<+T> = None | Some(value: T)

  /** A JavaScript number as the schedule code meets it: a whole number, or NaN. */
  datatype Num = NaN | Int(value: int)

  predicate IsDigit(c: char) { '0' <= c <= '9' }

  predicate AllDigits(s: string) { forall i :: 0 <= i < |s| ==> IsDigit(s[i]) }

  /** ECMAScript WhiteSpace and LineTerminator: what `\s`, `trim` and `parseInt` skip. */
  predicate IsSpace(c: char)
  {
    var n := c as int;
    (9 <= n <= 13) || n == 32 || n == 0xA0 || n == 0x1680 || (0x2000 <= n <= 0x200A) ||
    n == 0x2028 || n == 0x2029 || n == 0x202F || n == 0x205F || n == 0x3000 || n == 0xFEFF
  }

  predicate AllSpace(s: string) { forall i :: 0 <= i < |s| ==> IsSpace(s[i]) }

  function DigitValue(c: char): nat
    requires IsDigit(c)
  {
    c as int - '0' as int
  }

  function DigitChar(d: nat): (c: char)
    requires d < 10
    ensures IsDigit(c) && DigitValue(c) == d
  {
    ('0' as int + d) as char
  }

  /** The value of a decimal numeral, most significant digit first. */
  function DigitsValue(s: string): nat
    requires AllDigits(s)
  {
    if s == [] then 0 else DigitsValue(s[..|s| - 1]) * 10 + DigitValue(s[|s| - 1])
  }

  /** The text `${n}` of a non-negative whole number. */
  function NatToString(n: nat): (s: string)
    ensures 1 <= |s| && AllDigits(s) && DigitsValue(s) == n
    ensures |s| == 1 <==> n < 10
  {
    if n < 10 then [DigitChar(n)]
    else
      var s := NatToString(n / 10) + [DigitChar(n % 10)];
      assert s[..|s| - 1] == NatToString(n / 10);
      s
  }

  /** Two digits with a leading zero, as date-fns writes `HH` and `mm`. */
  function Pad2(n: nat): (s: string)
    requires n < 100
    ensures |s| == 2 && AllDigits(s) && DigitsValue(s) == n
  {
    var s := [DigitChar(n / 10), DigitChar(n % 10)];
    assert s[..1] == [DigitChar(n / 10)] && s[..1][..0] == [];
    assert DigitsValue(s[..1]) == n / 10;
    s
  }

  /** `s.split(sep)[0]`: the text before the first `sep`, or all of `s`. */
  function Before(s: string, sep: char): (r: string)
    ensures |r| <= |s| && r == s[..|r|] && sep !in r
    ensures |r| < |s| ==> s[|r|] == sep
  {
    if s == [] || s[0] == sep then [] else [s[0]] + Before(s[1..], sep)
  }

  /** The text after the first `sep`, if `s` has one. */
  function After(s: string, sep: char): Option<string>
  {
    if s == [] then None else if s[0] == sep then Some(s[1..]) else After(s[1..], sep)
  }

  /** `s.split(sep)[1]`: the text between the first and the second `sep`; None for `undefined`. */
  function SecondPiece(s: string, sep: char): Option<string>
  {
    match After(s, sep)
    case None => None
    case Some(rest) => Some(Before(rest, sep))
  }

  /** `s.split(' ')[0]`. */
  function FirstWord(s: string): string
  {
    Before(s, ' ')
  }

  function TrimStart(s: string): (r: string)
    ensures |r| <= |s| && r == s[|s| - |r|..]
    ensures r == [] || !IsSpace(r[0])
  {
    if s != [] && IsSpace(s[0]) then TrimStart(s[1..]) else s
  }

  function TrimEnd(s: string): (r: string)
    ensures |r| <= |s| && r == s[..|r|]
    ensures r == [] || !IsSpace(r[|r| - 1])
  {
    if s != [] && IsSpace(s[|s| - 1]) then TrimEnd(s[..|s| - 1]) else s
  }

  /** The value of `c` as a digit of base `radix` (10 or 16), or -1 when it is none. */
  function RadixDigit(c: char, radix: nat): int
  {
    var v :=
      if '0' <= c <= '9' then c as int - '0' as int
      else if 'a' <= c <= 'z' then c as int - 'a' as int + 10
      else if 'A' <= c <= 'Z' then c as int - 'A' as int + 10
      else -1;
    if v < radix then v else -1
  }

  /** How many characters at the head of `s` are digits of base `radix`. */
  function RunLength(s: string, radix: nat): (n: nat)
    ensures n <= |s|
    ensures forall i :: 0 <= i < n ==> RadixDigit(s[i], radix) >= 0
    ensures n < |s| ==> RadixDigit(s[n], radix) < 0
  {
    if s != [] && RadixDigit(s[0], radix) >= 0 then 1 + RunLength(s[1..], radix) else 0
  }

  function RunValue(s: string, radix: nat): nat
    requires forall i :: 0 <= i < |s| ==> RadixDigit(s[i], radix) >= 0
  {
    if s == [] then 0 else RunValue(s[..|s| - 1], radix) * radix + RadixDigit(s[|s| - 1], radix)
  }

  /** `parseInt(s)`: skip leading white space, take a sign and a `0x` prefix, then the longest
      run of digits; NaN when that run is empty. */
  function ParseInt(s: string): Num
  {
    var t := TrimStart(s);
    if t != [] && t[0] == '-' then Negate(ParseUnsigned(t[1..]))
    else if t != [] && t[0] == '+' then ParseUnsigned(t[1..])
    else ParseUnsigned(t)
  }

  function Negate(n: Num): Num
  {
    match n
    case NaN => NaN
    case Int(v) => Int(-v)
  }

  /** The digits part of `parseInt`: hexadecimal after `0x` or `0X`, decimal otherwise. */
  function ParseUnsigned(u: string): Num
  {
    var hex := |u| >= 2 && u[0] == '0' && (u[1] == 'x' || u[1] == 'X');
    var radix := if hex then 16 else 10;
    var body := if hex then u[2..] else u;
    var n := RunLength(body, radix);
    if n == 0 then NaN else Int(RunValue(body[..n], radix))
  }

  /** `Number(s)` for text that is empty, blank, or an optionally signed decimal numeral
      (surrounding white space allowed); any other text is NaN here. */
  function ToNumber(s: string): Num
  {
    var t := TrimEnd(TrimStart(s));
    if t == [] then Int(0)
    else
      var u := if t[0] == '-' || t[0] == '+' then t[1..] else t;
      if u != [] && AllDigits(u) then
        var v: int := DigitsValue(u);
        Int(if t[0] == '-' then -v else v)
      else NaN
  }

  /** `parseInt` of a numeral followed by neither a digit nor an `x` reads exactly that numeral. */
  lemma {:induction false} ParseIntOfNumeral(n: nat, rest: string)
    requires rest == [] || (!IsDigit(rest[0]) && rest[0] != 'x' && rest[0] != 'X')
    ensures ParseInt(NatToString(n) + rest) == Int(n)
  {
    if n >= 10 {
      LeadingDigitNonZero(n);
    }
    ParseIntOfDigits(NatToString(n), rest);
  }

  lemma {:induction false} ParseIntOfDigits(d: string, rest: string)
    requires 1 <= |d| && AllDigits(d) && (|d| == 1 || d[0] != '0')
    requires rest == [] || (!IsDigit(rest[0]) && rest[0] != 'x' && rest[0] != 'X')
    ensures ParseInt(d + rest) == Int(DigitsValue(d))
  {
    var s := d + rest;
    assert s[0] == d[0];
    assert !(|s| >= 2 && s[0] == '0' && (s[1] == 'x' || s[1] == 'X')) by {
      if |s| >= 2 && s[0] == '0' {
        assert |d| == 1 && s[1] == rest[0];
      }
    }
    RunOfDigits(d, rest);
    assert s[..|d|] == d;
    DecimalRunValue(d);
    ParseIntDecimal(s, |d|);
  }

  lemma {:induction false} ParseIntDecimal(s: string, k: nat)
    requires s != [] && IsDigit(s[0]) && !(|s| >= 2 && s[0] == '0' && (s[1] == 'x' || s[1] == 'X'))
    requires RunLength(s, 10) == k
    ensures ParseInt(s) == Int(RunValue(s[..k], 10))
  {
    TrimStartAtDigit(s);
    ParseIntUnsigned(s);
    ParseUnsignedDecimal(s);
  }

  lemma {:induction false} TrimStartAtDigit(s: string)
    requires s != [] && IsDigit(s[0])
    ensures TrimStart(s) == s
  {
  }

  lemma {:induction false} ParseIntUnsigned(s: string)
    requires s != [] && IsDigit(s[0]) && TrimStart(s) == s
    ensures ParseInt(s) == ParseUnsigned(s)
  {
  }

  lemma {:induction false} ParseUnsignedDecimal(s: string)
    requires !(|s| >= 2 && s[0] == '0' && (s[1] == 'x' || s[1] == 'X'))
    requires RunLength(s, 10) > 0
    ensures ParseUnsigned(s) == Int(RunValue(s[..RunLength(s, 10)], 10))
  {
  }

  /** A numeral of two or more digits does not start with zero. */
  lemma {:induction false} LeadingDigitNonZero(n: nat)
    requires n >= 10
    ensures NatToString(n)[0] != '0'
  {
    if n / 10 >= 10 {
      LeadingDigitNonZero(n / 10);
    }
    assert NatToString(n)[0] == NatToString(n / 10)[0];
  }

  lemma {:induction false} RunOfDigits(d: string, rest: string)
    requires AllDigits(d)
    requires rest == [] || !IsDigit(rest[0])
    ensures RunLength(d + rest, 10) == |d|
    decreases |d|
  {
    if d != [] {
      var s := d + rest;
      assert s[0] == d[0] && IsDigit(d[0]);
      DecimalDigitOfRadix(d[0]);
      assert s[1..] == d[1..] + rest;
      RunOfDigits(d[1..], rest);
    } else {
      assert d + rest == rest;
      if rest != [] {
        DecimalDigitOfRadix(rest[0]);
      }
    }
  }

  /** A character is a base-10 digit exactly when it is a decimal digit. */
  lemma DecimalDigitOfRadix(c: char)
    ensures RadixDigit(c, 10) >= 0 <==> IsDigit(c)
  {
  }

  lemma {:induction false} DecimalRunValue(d: string)
    requires AllDigits(d)
    ensures forall i :: 0 <= i < |d| ==> RadixDigit(d[i], 10) >= 0
    ensures RunValue(d, 10) == DigitsValue(d)
    decreases |d|
  {
    if d != [] {
      DecimalRunValue(d[..|d| - 1]);
    }
  }

  /** Text without `sep` is a single piece. */
  lemma {:induction false} BeforeWithoutSep(s: string, sep: char)
    requires sep !in s
    ensures Before(s, sep) == s
    decreases |s|
  {
    if s != [] {
      BeforeWithoutSep(s[1..], sep);
      assert [s[0]] + s[1..] == s;
    }
  }

  /** The first piece ends at the first `sep`, and the text after it follows that `sep`. */
  lemma {:induction false} SplitAtFirst(a: string, sep: char, b: string)
    requires sep !in a
    ensures Before(a + [sep] + b, sep) == a && After(a + [sep] + b, sep) == Some(b)
    decreases |a|
  {
    if a != [] {
      assert (a + [sep] + b)[1..] == a[1..] + [sep] + b;
      SplitAtFirst(a[1..], sep, b);
      assert [a[0]] + a[1..] == a;
    } else {
      assert a + [sep] + b == [sep] + b;
    }
  }

  /** A digit string holds no character other than digits. */
  lemma DigitsWithout(s: string, c: char)
    requires AllDigits(s) && !IsDigit(c)
    ensures c !in s
  {
  }

  /** `parseInt` finds a number in text that starts with two digits, or is one digit. */
  lemma {:induction false} ParseIntOfDigitHead(s: string)
    requires s != [] && IsDigit(s[0]) && (|s| == 1 || IsDigit(s[1]))
    ensures ParseInt(s).Int?
  {
    TrimStartAtDigit(s);
    ParseIntUnsigned(s);
    assert RunLength(s, 10) > 0;
  }

  lemma AppendAssoc<T>(a: seq<T>, b: seq<T>, c: seq<T>)
    ensures (a + b) + c == a + (b + c)
  {
  }

  /** `xs.filter(p)`: the elements `p` accepts, in their order. */
  function Filter<T>(p: T -> bool, xs: seq<T>): seq<T>
  {
    if xs == [] then [] else (if p(xs[0]) then [xs[0]] else []) + Filter(p, xs[1..])
  }

  lemma FilterStep<T>(p: T -> bool, xs: seq<T>)
    requires xs != []
    ensures p(xs[0]) ==> Filter(p, xs) == [xs[0]] + Filter(p, xs[1..])
    ensures !p(xs[0]) ==> Filter(p, xs) == Filter(p, xs[1..])
  {
    assert [] + Filter(p, xs[1..]) == Filter(p, xs[1..]);
  }

  /** An element is kept as often as it occurs when `p` accepts it, and never otherwise. */
  lemma {:induction false} FilterCount<T>(p: T -> bool, xs: seq<T>, x: T)
    ensures multiset(Filter(p, xs))[x] == if p(x) then multiset(xs)[x] else 0
    decreases |xs|
  {
    if xs != [] {
      FilterStep(p, xs);
      FilterCount(p, xs[1..], x);
      assert xs == [xs[0]] + xs[1..];
    }
  }

  lemma FilterMember<T>(p: T -> bool, xs: seq<T>, x: T)
    ensures x in Filter(p, xs) <==> x in xs && p(x)
  {
    FilterCount(p, xs, x);
  }
}
