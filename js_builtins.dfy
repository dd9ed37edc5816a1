/** The JavaScript built-ins the core relies on, written out with their
    ECMAScript semantics: `Array.prototype.indexOf`, `String.prototype.split`
    on a one-character separator (with `join` as its inverse),
    `String.prototype.toLowerCase` on ASCII, and `parseInt` without a radix. */
module JsBuiltins {
  import opened Wrappers

  // ---------------------------------------------------------------- indexOf

  /** `xs.indexOf(x)`: the first position of `x` under strict equality, or -1. */
  function IndexOf<T(==)>(xs: seq<T>, x: T): (i: int)
    ensures -1 <= i < |xs|
    ensures i == -1 <==> x !in xs
    ensures 0 <= i ==> xs[i] == x && x !in xs[..i]
  {
    if xs == [] then -1
    else if xs[0] == x then 0
    else
      var j := IndexOf(xs[1..], x);
      if j == -1 then -1 else j + 1
  }

  /** Finding `x` in a longer sequence gives the same position when it
      already occurs in the prefix. */
  lemma {:induction false} IndexOfInPrefix<T>(xs: seq<T>, ys: seq<T>, x: T)
    requires x in xs
    ensures IndexOf(xs + ys, x) == IndexOf(xs, x)
  {
    if xs[0] != x {
      assert (xs + ys)[1..] == xs[1..] + ys;
      IndexOfInPrefix(xs[1..], ys, x);
    }
  }

  // -------------------------------------------------------- split and join

  /** `s.split(sep)` for a one-character separator: the pieces between
      separators, empty pieces kept, nothing trimmed. `"".split(",")` is
      `[""]`, so the result is never empty. */
  function Split(s: string, sep: char): (parts: seq<string>)
    ensures |parts| >= 1
    ensures forall i :: 0 <= i < |parts| ==> sep !in parts[i]
  {
    if s == [] then [[]]
    else
      var rest := Split(s[1..], sep);
      if s[0] == sep then [[]] + rest
      else [[s[0]] + rest[0]] + rest[1..]
  }

  /** `parts.join(sep)`, the reference inverse of `Split`. */
  function Join(parts: seq<string>, sep: char): string
  {
    if |parts| == 0 then []
    else if |parts| == 1 then parts[0]
    else parts[0] + [sep] + Join(parts[1..], sep)
  }

  /** Joining the pieces of a split gives back the original string. */
  lemma {:induction false} JoinSplit(s: string, sep: char)
    ensures Join(Split(s, sep), sep) == s
  {
    if s != [] {
      var rest := Split(s[1..], sep);
      JoinSplit(s[1..], sep);
      if s[0] != sep && |rest| > 1 {
        assert Join(rest, sep) == rest[0] + [sep] + Join(rest[1..], sep);
        assert ([s[0]] + rest[0]) + [sep] + Join(rest[1..], sep) == [s[0]] + Join(rest, sep);
      }
      assert s == [s[0]] + s[1..];
    }
  }

  /** Prefixing a separator-free piece extends only the first piece of a split. */
  lemma {:induction false} SplitPrepend(p: string, t: string, sep: char)
    requires sep !in p
    ensures Split(p + t, sep) == [p + Split(t, sep)[0]] + Split(t, sep)[1..]
  {
    var parts := Split(t, sep);
    if p == [] {
      assert p + t == t && p + parts[0] == parts[0];
      assert parts == [parts[0]] + parts[1..];
    } else {
      var s := p + t;
      assert p[0] in p;
      assert s[0] == p[0] && s[1..] == p[1..] + t;
      SplitPrepend(p[1..], t, sep);
      var rest := Split(s[1..], sep);
      assert rest == [p[1..] + parts[0]] + parts[1..];
      assert Split(s, sep) == [[p[0]] + rest[0]] + rest[1..];
      assert [p[0]] + (p[1..] + parts[0]) == p + parts[0];
    }
  }

  /** Splitting a join of separator-free pieces gives back the pieces. */
  lemma {:induction false} SplitJoin(parts: seq<string>, sep: char)
    requires |parts| >= 1
    requires forall i :: 0 <= i < |parts| ==> sep !in parts[i]
    ensures Split(Join(parts, sep), sep) == parts
  {
    if |parts| == 1 {
      SplitPrepend(parts[0], [], sep);
      assert parts[0] + [] == parts[0];
    } else {
      var t := [sep] + Join(parts[1..], sep);
      SplitJoin(parts[1..], sep);
      assert t[0] == sep && t[1..] == Join(parts[1..], sep);
      assert Split(t, sep) == [[]] + parts[1..];
      SplitPrepend(parts[0], t, sep);
      assert Join(parts, sep) == parts[0] + t;
      assert parts[0] + [] == parts[0];
      assert parts == [parts[0]] + parts[1..];
    }
  }

  // ------------------------------------------------------------ toLowerCase

  /** The lower-case form of one character; only ASCII letters change. */
  function LowerChar(c: char): char
  {
    if 'A' <= c <= 'Z' then (c as int + 32) as char else c
  }

  /** `s.toLowerCase()` restricted to ASCII case mapping. */
  function ToLowerCase(s: string): (r: string)
    ensures |r| == |s|
    ensures forall i :: 0 <= i < |s| ==> r[i] == LowerChar(s[i])
  {
    if s == [] then [] else [LowerChar(s[0])] + ToLowerCase(s[1..])
  }

  /** Lower-casing twice changes nothing more, and no upper-case ASCII
      letter survives it. */
  lemma ToLowerCaseIdempotent(s: string)
    ensures ToLowerCase(ToLowerCase(s)) == ToLowerCase(s)
    ensures forall i :: 0 <= i < |s| ==> !('A' <= ToLowerCase(s)[i] <= 'Z')
  {
    assert forall i :: 0 <= i < |s| ==> LowerChar(LowerChar(s[i])) == LowerChar(s[i]);
  }

  // --------------------------------------------------------------- parseInt

  /** ECMAScript's StrWhiteSpaceChar: white space and line terminators. */
  predicate IsStrWhiteSpace(c: char)
  {
    var n := c as int;
    n == 0x09 || n == 0x0A || n == 0x0B || n == 0x0C || n == 0x0D || n == 0x20 ||
    n == 0xA0 || n == 0x1680 || (0x2000 <= n <= 0x200A) || n == 0x2028 ||
    n == 0x2029 || n == 0x202F || n == 0x205F || n == 0x3000 || n == 0xFEFF
  }

  /** The string without its leading white space. */
  function TrimStart(s: string): (t: string)
    ensures |t| <= |s| && t == s[|s| - |t|..]
    ensures forall i :: 0 <= i < |s| - |t| ==> IsStrWhiteSpace(s[i])
    ensures t == [] || !IsStrWhiteSpace(t[0])
  {
    if s != [] && IsStrWhiteSpace(s[0]) then TrimStart(s[1..]) else s
  }

  /** The value of `c` as a digit in base 10 or 16, if it is one. */
  function DigitValue(c: char, radix: nat): Option<nat>
  {
    if '0' <= c <= '9' then Some(c as int - '0' as int)
    else if radix == 16 && 'a' <= c <= 'f' then Some(c as int - 'a' as int + 10)
    else if radix == 16 && 'A' <= c <= 'F' then Some(c as int - 'A' as int + 10)
    else None
  }

  predicate AllDigits(s: string, radix: nat)
  {
    forall i :: 0 <= i < |s| ==> DigitValue(s[i], radix).Some?
  }

  /** The longest prefix of `s` made of digits of the radix. */
  function DigitRun(s: string, radix: nat): (d: string)
    ensures |d| <= |s| && d == s[..|d|]
    ensures AllDigits(d, radix)
    ensures |d| < |s| ==> DigitValue(s[|d|], radix).None?
  {
    if s != [] && DigitValue(s[0], radix).Some? then [s[0]] + DigitRun(s[1..], radix) else []
  }

  /** The number a string of digits denotes in the radix, most significant first. */
  function DigitsValue(ds: string, radix: nat): nat
    requires AllDigits(ds, radix)
  {
    if ds == [] then 0
    else DigitsValue(ds[..|ds| - 1], radix) * radix + DigitValue(ds[|ds| - 1], radix).value
  }

  /** `parseInt(s)` with no radix argument; `None` stands for NaN. Leading
      white space is skipped, then the rest is read by `ParseSigned`.
      Precision loss beyond 2^53 and the sign of -0 are not modelled. */
  function ParseInt(s: string): Option<int>
  {
    ParseSigned(TrimStart(s))
  }

  /** The part of `parseInt` after the white space: one optional sign, then
      the magnitude. */
  function ParseSigned(t: string): Option<int>
  {
    var negative := t != [] && t[0] == '-';
    var unsigned := if t != [] && (t[0] == '-' || t[0] == '+') then t[1..] else t;
    var magnitude := ParseMagnitude(unsigned);
    if magnitude.None? then None
    else if negative then Some(-magnitude.value)
    else magnitude
  }

  /** The unsigned part of `parseInt`: a leading `0x` or `0X` selects base 16,
      then the longest run of digits is read; no digit at all is NaN. */
  function ParseMagnitude(u: string): Option<int>
  {
    var hex := |u| >= 2 && u[0] == '0' && (u[1] == 'x' || u[1] == 'X');
    var radix := if hex then 16 else 10;
    var digits := DigitRun(if hex then u[2..] else u, radix);
    if digits == [] then None else Some(DigitsValue(digits, radix))
  }

  /** The plain decimal digits of a natural number, most significant first. */
  function DecimalText(n: nat): (s: string)
    ensures |s| >= 1 && AllDigits(s, 10)
  {
    if n < 10 then [('0' as int + n) as char]
    else DecimalText(n / 10) + [('0' as int + n % 10) as char]
  }

  /** Only zero is written as the single digit `0`. */
  lemma DecimalTextZero(n: nat)
    requires n != 0
    ensures DecimalText(n) != "0"
  {
    if n >= 10 {
      assert |DecimalText(n)| == |DecimalText(n / 10)| + 1;
    } else {
      assert DecimalText(n)[0] != '0';
    }
  }

  /** The decimal text of an integer, with a leading `-` when negative. */
  function IntegerText(n: int): string
  {
    if n < 0 then ['-'] + DecimalText(-n) else DecimalText(n)
  }

  lemma {:induction false} DigitRunOfDigits(s: string, radix: nat)
    requires AllDigits(s, radix)
    ensures DigitRun(s, radix) == s
  {
    if s != [] {
      DigitRunOfDigits(s[1..], radix);
    }
  }

  lemma {:induction false} DecimalTextValue(n: nat)
    ensures DigitsValue(DecimalText(n), 10) == n
  {
    if n >= 10 {
      var s := DecimalText(n);
      DecimalTextValue(n / 10);
      assert s[..|s| - 1] == DecimalText(n / 10);
    }
  }

  /** A non-empty run of decimal digits is read in base 10, whole. */
  lemma ParseMagnitudeDecimal(d: string)
    requires |d| >= 1 && AllDigits(d, 10)
    ensures ParseMagnitude(d) == Some(DigitsValue(d, 10))
  {
    DigitRunOfDigits(d, 10);
    assert |d| >= 2 ==> DigitValue(d[1], 10).Some?;
  }

  /** A string that does not start with white space is not trimmed. */
  lemma TrimStartNoSpace(s: string)
    requires s != [] && !IsStrWhiteSpace(s[0])
    ensures TrimStart(s) == s
  {
  }

  /** Trimming twice trims nothing more. */
  lemma TrimStartIdempotent(s: string)
    ensures TrimStart(TrimStart(s)) == TrimStart(s)
  {
    var t := TrimStart(s);
    if t != [] {
      TrimStartNoSpace(t);
    }
  }

  /** Leading white space has no influence on `parseInt`. */
  lemma ParseIntSkipsWhiteSpace(s: string)
    ensures ParseInt(s) == ParseInt(TrimStart(s))
  {
    TrimStartIdempotent(s);
  }

  /** Text that starts with neither white space nor a sign is read by
      `ParseMagnitude` alone. */
  lemma ParseIntUnsigned(u: string)
    requires u != [] && !IsStrWhiteSpace(u[0]) && u[0] != '-' && u[0] != '+'
    ensures ParseInt(u) == ParseMagnitude(u)
  {
    TrimStartNoSpace(u);
  }

  /** `parseInt` reads a run of decimal digits in base 10. */
  lemma ParseIntDigits(d: string)
    requires |d| >= 1 && AllDigits(d, 10)
    ensures ParseInt(d) == Some(DigitsValue(d, 10))
  {
    assert DigitValue(d[0], 10).Some?;
    ParseIntUnsigned(d);
    ParseMagnitudeDecimal(d);
  }

  /** A minus sign negates the magnitude that follows it. */
  lemma ParseSignedMinus(u: string)
    requires ParseMagnitude(u).Some?
    ensures ParseSigned(['-'] + u) == Some(-ParseMagnitude(u).value)
  {
    var t := ['-'] + u;
    assert t[0] == '-' && t[1..] == u;
  }

  /** `parseInt` reads a minus sign followed by a readable magnitude as its
      negation. */
  lemma ParseIntNegative(u: string)
    requires ParseMagnitude(u).Some?
    ensures ParseInt(['-'] + u) == Some(-ParseMagnitude(u).value)
  {
    var s := ['-'] + u;
    TrimStartNoSpace(s);
    assert ParseInt(s) == ParseSigned(s);
    ParseSignedMinus(u);
  }

  /** The digit run of a string of digits followed by a non-digit is those digits. */
  lemma {:induction false} DigitRunStops(d: string, rest: string, radix: nat)
    requires AllDigits(d, radix)
    requires rest == [] || DigitValue(rest[0], radix).None?
    ensures DigitRun(d + rest, radix) == d
  {
    if d == [] {
      assert d + rest == rest;
    } else {
      assert (d + rest)[0] == d[0] && (d + rest)[1..] == d[1..] + rest;
      DigitRunStops(d[1..], rest, radix);
      assert [d[0]] + d[1..] == d;
    }
  }

  /** The magnitude of decimal digits followed by a non-digit is that of
      the digits, unless a lone `0` and an `x` form a `0x` prefix. */
  lemma ParseMagnitudeStops(d: string, rest: string)
    requires |d| >= 1 && AllDigits(d, 10)
    requires rest == [] || (DigitValue(rest[0], 10).None? && !(d == "0" && (rest[0] == 'x' || rest[0] == 'X')))
    ensures ParseMagnitude(d + rest) == ParseMagnitude(d)
  {
    var s := d + rest;
    assert |d| == 1 && d[0] == '0' ==> d == "0";
    assert |s| >= 2 ==> s[1] == (if |d| >= 2 then d[1] else rest[0]);
    assert |d| >= 2 ==> DigitValue(d[1], 10).Some?;
    DigitRunStops(d, rest, 10);
    DigitRunOfDigits(d, 10);
  }

  /** `parseInt` stops at the first character that is not a decimal digit,
      unless a lone `0` and an `x` form a `0x` prefix. */
  lemma ParseIntStopsAtNonDigit(d: string, rest: string)
    requires |d| >= 1 && AllDigits(d, 10)
    requires rest == [] || (DigitValue(rest[0], 10).None? && !(d == "0" && (rest[0] == 'x' || rest[0] == 'X')))
    ensures ParseInt(d + rest) == ParseInt(d)
  {
    assert DigitValue(d[0], 10).Some?;
    assert (d + rest)[0] == d[0];
    ParseIntUnsigned(d + rest);
    ParseIntUnsigned(d);
    ParseMagnitudeStops(d, rest);
  }

  /** After a `0x` or `0X` prefix the magnitude is read in base 16. */
  lemma ParseMagnitudeHex(x: char, h: string)
    requires x == 'x' || x == 'X'
    requires |h| >= 1 && AllDigits(h, 16)
    ensures ParseMagnitude(['0', x] + h) == Some(DigitsValue(h, 16))
  {
    var u := ['0', x] + h;
    assert u[0] == '0' && u[1] == x && u[2..] == h;
    DigitRunOfDigits(h, 16);
  }

  /** A `0x` or `0X` prefix makes `parseInt` read hexadecimal digits. */
  lemma ParseIntHex(x: char, h: string)
    requires x == 'x' || x == 'X'
    requires |h| >= 1 && AllDigits(h, 16)
    ensures ParseInt(['0', x] + h) == Some(DigitsValue(h, 16))
  {
    var u := ['0', x] + h;
    assert u[0] == '0';
    ParseIntUnsigned(u);
    ParseMagnitudeHex(x, h);
  }

  /** Text whose first character after the white space is neither a sign nor
      a decimal digit reads as NaN. */
  lemma ParseIntNoDigit(s: string)
    requires TrimStart(s) == [] ||
      (TrimStart(s)[0] != '-' && TrimStart(s)[0] != '+' && DigitValue(TrimStart(s)[0], 10).None?)
    ensures ParseInt(s) == None
  {
  }

  /** `parseInt` reads back every integer from its decimal text. */
  lemma ParseIntIntegerText(n: int)
    ensures ParseInt(IntegerText(n)) == Some(n)
  {
    var m: nat := if n < 0 then -n else n;
    ParseIntDigits(DecimalText(m));
    ParseMagnitudeDecimal(DecimalText(m));
    if n < 0 {
      ParseIntNegative(DecimalText(m));
    }
    DecimalTextValue(m);
  }
}
