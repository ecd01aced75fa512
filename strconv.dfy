/**
 * The two conversions of Go's integer formatting the adapters depend on:
 * `fmt.Sprintf("%d", id)` / `%d` in an error text (`Itoa`) and `strconv.Atoi`
 * (`Atoi`) on a 64-bit platform, where `int` is 64 bits wide.
 */
module Strconv {
  import opened Wrappers

  const MaxUint64: int := 0xFFFF_FFFF_FFFF_FFFF
  const MinInt64: int := -0x8000_0000_0000_0000
  const MaxInt64: int := 0x7FFF_FFFF_FFFF_FFFF

  /** Go's `int64`, and `int` on a 64-bit platform. */
  type Int64 = n: int | MinInt64 <= n <= MaxInt64

  predicate IsDigit(c: char) {
    '0' <= c <= '9'
  }

  function DigitChar(d: int): (c: char)
    requires 0 <= d < 10
    ensures IsDigit(c) && c as int - '0' as int == d
  {
    ('0' as int + d) as char
  }

  /** Decimal digits of a natural number, most significant first, no leading zeros. */
  function Digits(m: nat): (s: string)
    ensures |s| >= 1 && IsDigit(s[0])
    ensures forall i :: 0 <= i < |s| ==> IsDigit(s[i])
    ensures s == "0" <==> m == 0
    ensures s[0] == '0' ==> s == "0"
    decreases m
  {
    if m < 10 then [DigitChar(m)] else Digits(m / 10) + [DigitChar(m % 10)]
  }

  /** `fmt.Sprintf("%d", n)`: an optional minus sign, then the digits of |n|. */
  function Itoa(n: int): (s: string)
    ensures |s| >= 1
    ensures n < 0 <==> s[0] == '-'
    ensures forall i :: 0 <= i < |s| ==> IsDigit(s[i]) || (i == 0 && s[i] == '-')
    ensures s[0] == '0' ==> s == "0"
    ensures n < 0 ==> |s| >= 2 && s[1] != '0'
  {
    if n < 0 then "-" + Digits(-n) else Digits(n)
  }

  /** How `strconv.ParseUint` ends its left-to-right scan of the digits. */
  datatype Scan = Value(n: nat) | SyntaxErr | RangeErr

  /**
   * The digit loop of `strconv.ParseUint` in base 10: it stops at the first
   * byte that is not a digit (a syntax error) or at the first digit that
   * takes the running value past 2^64 - 1 (a range error), whichever comes
   * first.
   */
  function ScanDigits(s: string, acc: nat): Scan
  {
    if s == [] then Value(acc)
    else if !IsDigit(s[0]) then SyntaxErr
    else
      var next := acc * 10 + (s[0] as int - '0' as int);
      if next > MaxUint64 then RangeErr else ScanDigits(s[1..], next)
  }

  const ErrSyntax := "invalid syntax"
  const ErrRange := "value out of range"

  /** A lower-case hexadecimal digit, as `strconv` writes them. */
  function HexDigit(d: nat): (c: char)
    requires d < 16
    ensures HexValue(c) == Some(d)
  {
    if d < 10 then ('0' as int + d) as char else ('a' as int + d - 10) as char
  }

  /** The value of a lower-case hexadecimal digit, if `c` is one. */
  function HexValue(c: char): Option<nat> {
    if '0' <= c <= '9' then Some(c as int - '0' as int)
    else if 'a' <= c <= 'f' then Some(c as int - 'a' as int + 10)
    else None
  }

  /** The escape letters of `strconv.Quote` for the control characters that have one. */
  function ControlEscape(c: char): Option<char> {
    if c as int == 7 then Some('a')
    else if c as int == 8 then Some('b')
    else if c as int == 9 then Some('t')
    else if c as int == 10 then Some('n')
    else if c as int == 11 then Some('v')
    else if c as int == 12 then Some('f')
    else if c as int == 13 then Some('r')
    else None
  }

  /** The control character an escape letter stands for, if it is one. */
  function EscapedControl(e: char): Option<char> {
    if e == 'a' then Some(7 as char)
    else if e == 'b' then Some(8 as char)
    else if e == 't' then Some(9 as char)
    else if e == 'n' then Some(10 as char)
    else if e == 'v' then Some(11 as char)
    else if e == 'f' then Some(12 as char)
    else if e == 'r' then Some(13 as char)
    else None
  }

  /**
   * How `strconv.Quote` writes one character between the quotes: `"` and `\`
   * behind a backslash, printable ASCII as it is, the seven control
   * characters with a letter escape as `\a \b \t \n \v \f \r`, the other
   * ASCII control characters and DEL as `\x` and two hexadecimal digits, and
   * every character beyond ASCII as it is.
   */
  function QuoteChar(c: char): (t: string)
    ensures 1 <= |t| <= 4
    ensures t[0] != '\\' <==> t == [c]
  {
    if c == '"' || c == '\\' then ['\\', c]
    else if ' ' <= c <= '~' || c as int >= 0x80 then [c]
    else if ControlEscape(c).Some? then ['\\', ControlEscape(c).value]
    else ['\\', 'x', HexDigit(c as int / 16), HexDigit(c as int % 16)]
  }

  /** The characters of `s`, each written as `QuoteChar` writes it. */
  function QuoteBody(s: string): string {
    if s == [] then [] else QuoteChar(s[0]) + QuoteBody(s[1..])
  }

  /** `strconv.Quote(s)`: `s` between double quotes, escaped. */
  function Quote(s: string): (q: string)
    ensures |q| >= 2 && q[0] == '"' && q[|q| - 1] == '"'
    ensures q[1..|q| - 1] == QuoteBody(s)
  {
    "\"" + QuoteBody(s) + "\""
  }

  /** Reading back what `QuoteBody` wrote; `None` for text it cannot have written. */
  function UnquoteBody(t: string): Option<string>
    decreases |t|
  {
    if t == [] then Some([])
    else if t[0] != '\\' then Prepend(t[0], UnquoteBody(t[1..]))
    else if |t| >= 2 && (t[1] == '"' || t[1] == '\\') then Prepend(t[1], UnquoteBody(t[2..]))
    else if |t| >= 2 && EscapedControl(t[1]).Some? then Prepend(EscapedControl(t[1]).value, UnquoteBody(t[2..]))
    else if |t| >= 4 && t[1] == 'x' && HexValue(t[2]).Some? && HexValue(t[3]).Some? then
      Prepend((HexValue(t[2]).value * 16 + HexValue(t[3]).value) as char, UnquoteBody(t[4..]))
    else None
  }

  function Prepend(c: char, rest: Option<string>): Option<string> {
    if rest.Some? then Some([c] + rest.value) else None
  }

  /** Each letter escape reads back as the control character it was written for. */
  lemma ControlEscapeBack(c: char)
    requires ControlEscape(c).Some?
    ensures EscapedControl(ControlEscape(c).value) == Some(c)
    ensures ControlEscape(c).value != '"' && ControlEscape(c).value != '\\' && ControlEscape(c).value != 'x'
  {
  }

  /** A character written as it is reads back as itself. */
  lemma UnquotePlain(c: char, rest: string)
    requires c != '\\'
    ensures UnquoteBody([c] + rest) == Prepend(c, UnquoteBody(rest))
  {
    assert ([c] + rest)[1..] == rest;
  }

  /** A backslash and one letter read back as the character `c` they stand for. */
  lemma UnquotePair(e: char, c: char, rest: string)
    requires ((e == '"' || e == '\\') && c == e) || (e != '"' && e != '\\' && EscapedControl(e) == Some(c))
    ensures UnquoteBody(['\\', e] + rest) == Prepend(c, UnquoteBody(rest))
  {
    assert (['\\', e] + rest)[2..] == rest;
  }

  /** `\x` and two hexadecimal digits read back as the character with that code. */
  lemma UnquoteHex(c: char, rest: string)
    requires c as int < 0x80
    ensures UnquoteBody(['\\', 'x', HexDigit(c as int / 16), HexDigit(c as int % 16)] + rest)
      == Prepend(c, UnquoteBody(rest))
  {
    var t := ['\\', 'x', HexDigit(c as int / 16), HexDigit(c as int % 16)] + rest;
    assert t[4..] == rest;
    assert EscapedControl('x') == None;
  }

  /** One quoted character is read back as itself, whatever follows it. */
  lemma UnquoteChar(c: char, rest: string)
    ensures UnquoteBody(QuoteChar(c) + rest) == Prepend(c, UnquoteBody(rest))
  {
    if c == '"' || c == '\\' {
      UnquotePair(c, c, rest);
    } else if ' ' <= c <= '~' || c as int >= 0x80 {
      UnquotePlain(c, rest);
    } else if ControlEscape(c).Some? {
      ControlEscapeBack(c);
      UnquotePair(ControlEscape(c).value, c, rest);
    } else {
      UnquoteHex(c, rest);
    }
  }

  /** Quoting loses nothing: what `Quote` wrote between the quotes reads back as `s`. */
  lemma {:induction false} UnquoteQuote(s: string)
    ensures UnquoteBody(QuoteBody(s)) == Some(s)
  {
    if s != [] {
      UnquoteQuote(s[1..]);
      UnquoteChar(s[0], QuoteBody(s[1..]));
      assert [s[0]] + s[1..] == s;
    }
  }

  /** Two inputs with the same quoted form are the same input. */
  lemma QuoteInjective(s: string, t: string)
    requires Quote(s) == Quote(t)
    ensures s == t
  {
    UnquoteQuote(s);
    UnquoteQuote(t);
  }

  /**
   * The text of the `*strconv.NumError` that `Atoi` returns: the function,
   * the input as `strconv.Quote` writes it, and the reason.
   */
  function NumError(s: string, reason: string): string {
    "strconv.Atoi: parsing " + Quote(s) + ": " + reason
  }

  /** An address holding a double quote is named with that quote escaped. */
  lemma NumErrorEscapesQuote(s: string)
    requires s == "a\"b"
    ensures NumError(s, ErrSyntax) == "strconv.Atoi: parsing " + "\"a\\\"b\"" + ": " + "invalid syntax"
  {
    assert s == ['a'] + ['"'] + ['b'];
    assert QuoteBody(['b']) == "b";
    assert QuoteBody(['"', 'b']) == "\\\"b";
    assert QuoteBody(s) == "a\\\"b";
    assert Quote(s) == "\"a\\\"b\"";
  }

  /**
   * `strconv.Atoi(s)`: an optional sign and at least one decimal digit, with
   * a value that fits a 64-bit `int`; anything else is an error naming `s`.
   */
  function Atoi(s: string): (r: Result<Int64, string>)
    ensures r.Success? ==> |s| >= 1 && (IsDigit(s[0]) || s[0] == '-' || s[0] == '+')
    ensures r.Failure? ==> r.error == NumError(s, ErrSyntax) || r.error == NumError(s, ErrRange)
  {
    if s == [] then Failure(NumError(s, ErrSyntax))
    else
      var neg := s[0] == '-';
      var digits := if s[0] == '-' || s[0] == '+' then s[1..] else s;
      if digits == [] then Failure(NumError(s, ErrSyntax))
      else
        match ScanDigits(digits, 0)
        case SyntaxErr => Failure(NumError(s, ErrSyntax))
        case RangeErr => Failure(NumError(s, ErrRange))
        case Value(u) =>
          if !neg && u > MaxInt64 then Failure(NumError(s, ErrRange))
          else if neg && u > -MinInt64 then Failure(NumError(s, ErrRange))
          else Success(if neg then -(u as int) else u as int)
  }

  function Pow10(k: nat): (p: nat)
    ensures p >= 1
  {
    if k == 0 then 1 else 10 * Pow10(k - 1)
  }

  /** Scanning the digits of `m` after a prefix worth `acc` adds `m` at the right scale. */
  lemma {:induction false} ScanDigitsOf(m: nat, rest: string, acc: nat)
    requires acc * Pow10(|Digits(m)|) + m <= MaxUint64
    ensures ScanDigits(Digits(m) + rest, acc) == ScanDigits(rest, acc * Pow10(|Digits(m)|) + m)
  {
    if m < 10 {
      assert (Digits(m) + rest)[1..] == rest;
    } else {
      var k := |Digits(m / 10)|;
      var d := DigitChar(m % 10);
      assert Digits(m) + rest == Digits(m / 10) + ([d] + rest);
      assert Pow10(k + 1) == 10 * Pow10(k);
      var head := acc * Pow10(k) + m / 10;
      assert head * 10 + m % 10 == acc * Pow10(k + 1) + m;
      ScanDigitsOf(m / 10, [d] + rest, acc);
      assert ([d] + rest)[1..] == rest;
    }
  }

  /** Decimal formatting round-trips through `Atoi` for every 64-bit integer. */
  lemma {:induction false} AtoiItoa(n: Int64)
    ensures Atoi(Itoa(n)) == Success(n)
  {
    var m: nat := if n < 0 then -(n as int) else n as int;
    ScanDigitsOf(m, [], 0);
    assert Digits(m) + [] == Digits(m);
    if n < 0 {
      assert ("-" + Digits(m))[1..] == Digits(m);
    }
  }

  // ---------------------------------------------------------------------------
  // Decimal text, the reference `Atoi` is measured against
  // ---------------------------------------------------------------------------

  /** How many decimal digits `s` starts with. */
  function DigitRun(s: string): (k: nat)
    ensures k <= |s|
    ensures forall i :: 0 <= i < k ==> IsDigit(s[i])
    ensures k < |s| ==> !IsDigit(s[k])
  {
    if s == [] || !IsDigit(s[0]) then 0 else 1 + DigitRun(s[1..])
  }

  /** The value of one digit; zero for anything else. */
  function DigitValue(c: char): nat {
    if IsDigit(c) then c as int - '0' as int else 0
  }

  /** The positional value of a run of decimal digits, most significant first. */
  function DigitsValue(s: string): nat {
    if s == [] then 0 else DigitValue(s[0]) * Pow10(|s| - 1) + DigitsValue(s[1..])
  }

  /** `s` without its sign, if it has one. */
  function Unsigned(s: string): string {
    if |s| >= 1 && (s[0] == '-' || s[0] == '+') then s[1..] else s
  }

  /** Decimal text: an optional `+` or `-`, then one or more digits and nothing else. */
  predicate IsDecimal(s: string) {
    |Unsigned(s)| >= 1 && DigitRun(Unsigned(s)) == |Unsigned(s)|
  }

  /** The number decimal text denotes. */
  function DecimalValue(s: string): int {
    if |s| >= 1 && s[0] == '-' then -(DigitsValue(Unsigned(s)) as int) else DigitsValue(Unsigned(s))
  }

  /** The value of the digits `s` starts with, read on top of `acc`. */
  function RunValue(s: string, acc: nat): nat {
    acc * Pow10(DigitRun(s)) + DigitsValue(s[..DigitRun(s)])
  }

  /** A run of digits starting with `s[0]` is that digit, scaled, plus the rest of the run. */
  lemma RunValueStep(s: string, acc: nat)
    requires |s| >= 1 && IsDigit(s[0])
    ensures RunValue(s, acc) == RunValue(s[1..], acc * 10 + DigitValue(s[0]))
  {
    var k := DigitRun(s[1..]);
    var run := s[..k + 1];
    assert run[1..] == s[1..][..k];
    assert Pow10(k + 1) == 10 * Pow10(k);
    calc {
      RunValue(s, acc);
      acc * (10 * Pow10(k)) + (DigitValue(s[0]) * Pow10(k) + DigitsValue(s[1..][..k]));
      (acc * 10 + DigitValue(s[0])) * Pow10(k) + DigitsValue(s[1..][..k]);
    }
  }

  /** Digits read on top of `acc` are worth at least `acc`. */
  lemma RunValueAtLeast(s: string, acc: nat)
    ensures RunValue(s, acc) >= acc
  {
    assert acc * Pow10(DigitRun(s)) >= acc * 1;
  }

  /**
   * The digit scan in terms of the digits `s` starts with: a range error if
   * their value passes 2^64 - 1, otherwise a syntax error if anything but
   * digits follows them, otherwise their value.
   */
  lemma {:induction false} ScanDigitsRun(s: string, acc: nat)
    requires acc <= MaxUint64
    ensures RunValue(s, acc) > MaxUint64 ==> ScanDigits(s, acc) == RangeErr
    ensures RunValue(s, acc) <= MaxUint64 && DigitRun(s) < |s| ==> ScanDigits(s, acc) == SyntaxErr
    ensures RunValue(s, acc) <= MaxUint64 && DigitRun(s) == |s| ==> ScanDigits(s, acc) == Value(RunValue(s, acc))
    decreases |s|
  {
    if s != [] && IsDigit(s[0]) {
      var next := acc * 10 + DigitValue(s[0]);
      RunValueStep(s, acc);
      if next > MaxUint64 {
        RunValueAtLeast(s[1..], next);
      } else {
        ScanDigitsRun(s[1..], next);
      }
    }
  }

  /**
   * `Atoi` against decimal text: it succeeds exactly on decimal text whose
   * value fits 64 bits, with that value; it fails with a range error exactly
   * when the text is decimal, or when the digits after the sign run past
   * 2^64 - 1 before the first character that is not a digit; every other
   * failure is a syntax error.
   */
  lemma AtoiDecimal(s: string)
    ensures Atoi(s).Success? <==> IsDecimal(s) && MinInt64 <= DecimalValue(s) <= MaxInt64
    ensures Atoi(s).Success? ==> Atoi(s).value == DecimalValue(s)
    ensures Atoi(s).Failure? ==>
      (Atoi(s).error == NumError(s, ErrRange) <==> IsDecimal(s) || RunValue(Unsigned(s), 0) > MaxUint64)
  {
    var u := Unsigned(s);
    ScanDigitsRun(u, 0);
    assert RunValue(u, 0) == DigitsValue(u[..DigitRun(u)]);
    if DigitRun(u) == |u| {
      assert u[..DigitRun(u)] == u;
    }
    NumErrorReasons(s);
  }

  /** The two reasons give two different error texts. */
  lemma NumErrorReasons(s: string)
    ensures NumError(s, ErrSyntax) != NumError(s, ErrRange)
  {
    var head := "strconv.Atoi: parsing " + Quote(s) + ": ";
    assert NumError(s, ErrSyntax)[|head|] == 'i';
    assert NumError(s, ErrRange)[|head|] == 'v';
  }

  /** `Itoa` writes decimal text denoting its input. */
  lemma ItoaDecimal(n: Int64)
    ensures IsDecimal(Itoa(n)) && DecimalValue(Itoa(n)) == n
  {
    AtoiItoa(n);
    AtoiDecimal(Itoa(n));
  }
}
