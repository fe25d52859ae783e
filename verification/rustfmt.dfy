/** The parts of Rust's standard formatting that the engine relies on: the
    rendering of integers as digit text (Display, and the binary, octal and hex
    format types b, o, x, X), the decimal reading that `str::parse` performs on a run of
    ASCII digits, and the Debug form of a character.

    Display (`{}`) writes a signed value as '-' followed by its magnitude.
    Binary, octal and hexadecimal of a signed value write the bits of its
    two's complement representation at the type's width, so -1i8 is "ff". */
module RustFmt {
  import opened Wrappers

  /** The character for digit `d`; hexadecimal letters in the chosen case. */
  function DigitChar(d: nat, upper: bool): char
    requires d < 16
  {
    if d < 10 then '0' + d as char
    else if upper then 'A' + (d - 10) as char
    else 'a' + (d - 10) as char
  }

  /** The value of a digit character of either case, or -1. */
  function DigitValue(c: char): int
  {
    if '0' <= c <= '9' then (c - '0') as int
    else if 'a' <= c <= 'f' then (c - 'a') as int + 10
    else if 'A' <= c <= 'F' then (c - 'A') as int + 10
    else -1
  }

  predicate IsDecimalDigit(c: char)
  {
    '0' <= c <= '9'
  }

  lemma DigitCharValue(d: nat, upper: bool)
    requires d < 16
    ensures DigitValue(DigitChar(d, upper)) == d
  {
  }

  /** Every character of `s` is a digit below `radix`. */
  predicate AllDigits(s: string, radix: nat)
  {
    forall k :: 0 <= k < |s| ==> 0 <= DigitValue(s[k]) < radix
  }

  /** The number a digit text denotes, read most significant digit first. */
  function FromRadix(s: string, radix: nat): nat
    requires AllDigits(s, radix)
  {
    if s == [] then 0
    else FromRadix(s[..|s| - 1], radix) * radix + DigitValue(s[|s| - 1])
  }

  /** The length of the run of ASCII digits at the front of `s`. */
  function DigitRun(s: string): (n: nat)
    ensures n <= |s|
    ensures forall k :: 0 <= k < n ==> IsDecimalDigit(s[k])
    ensures n < |s| ==> !IsDecimalDigit(s[n])
  {
    if s != [] && IsDecimalDigit(s[0]) then 1 + DigitRun(s[1..]) else 0
  }

  lemma DecimalDigitsAreDigits(d: string)
    requires forall k :: 0 <= k < |d| ==> IsDecimalDigit(d[k])
    ensures AllDigits(d, 10)
  {
  }

  /** The value of a run of decimal digits. */
  function DecimalValue(d: string): nat
    requires forall k :: 0 <= k < |d| ==> IsDecimalDigit(d[k])
  {
    DecimalDigitsAreDigits(d);
    FromRadix(d, 10)
  }

  /** A digit run followed by a non-digit (or the end) is the DigitRun. */
  lemma {:induction false} DigitRunUnique(s: string, n: nat)
    requires n <= |s|
    requires forall k :: 0 <= k < n ==> IsDecimalDigit(s[k])
    requires n < |s| ==> !IsDecimalDigit(s[n])
    ensures DigitRun(s) == n
  {
    if n > 0 {
      DigitRunUnique(s[1..], n - 1);
    }
  }

  /** Euclidean division by a radix: a smaller quotient and a digit. */
  lemma DivideByRadix(n: nat, radix: nat)
    requires 2 <= radix <= 16 && n >= radix
    ensures 0 < n / radix < n && n % radix < radix
    ensures n == (n / radix) * radix + n % radix
  {
  }

  /** Every hexadecimal letter of `s` is in the chosen case: no 'a'..'f'
      when `upper`, no 'A'..'F' otherwise. */
  predicate LetterCase(s: string, upper: bool)
  {
    forall k :: 0 <= k < |s| ==> if upper then !('a' <= s[k] <= 'f') else !('A' <= s[k] <= 'F')
  }

  /** `n` in base `radix`, most significant digit first, no leading zero,
      letters in the chosen case. */
  function ToRadix(n: nat, radix: nat, upper: bool): (r: string)
    requires 2 <= radix <= 16
    ensures |r| >= 1 && AllDigits(r, radix) && LetterCase(r, upper)
    ensures r[0] == '0' ==> n == 0 && r == "0"
    decreases n
  {
    if n < radix then [DigitChar(n, upper)]
    else
      DivideByRadix(n, radix);
      ToRadix(n / radix, radix, upper) + [DigitChar(n % radix, upper)]
  }

  /** Reading the digits back gives the number that was written. */
  lemma {:induction false} FromToRadix(n: nat, radix: nat, upper: bool)
    requires 2 <= radix <= 16
    ensures FromRadix(ToRadix(n, radix, upper), radix) == n
    decreases n
  {
    var r := ToRadix(n, radix, upper);
    if n < radix {
      DigitCharValue(n, upper);
    } else {
      DivideByRadix(n, radix);
      FromToRadix(n / radix, radix, upper);
      assert r[..|r| - 1] == ToRadix(n / radix, radix, upper);
      DigitCharValue(n % radix, upper);
    }
  }

  /** 2 to the power `k`. */
  function Pow2(k: nat): (r: nat)
    ensures r >= 1
  {
    if k == 0 then 1 else 2 * Pow2(k - 1)
  }

  /** Powers of two multiply by adding exponents. */
  lemma {:induction false} Pow2Add(a: nat, b: nat)
    ensures Pow2(a + b) == Pow2(a) * Pow2(b)
  {
    if a > 0 {
      Pow2Add(a - 1, b);
    }
  }

  /** The widths of the fixed-width renderers: 2^16, 2^63 and 2^64. */
  lemma Pow2Widths()
    ensures Pow2(16) == 0x1_0000
    ensures Pow2(63) == 0x8000_0000_0000_0000
    ensures Pow2(64) == 0x1_0000_0000_0000_0000
  {
    assert Pow2(8) == 0x100;
    Pow2Add(8, 8);
    Pow2Add(16, 16);
    Pow2Add(32, 32);
    Pow2Add(31, 32);
    assert Pow2(31) == 0x8000_0000 by {
      Pow2Add(15, 16);
      assert Pow2(15) == 0x8000 by { Pow2Add(7, 8); }
    }
  }

  /** `write!(s, "{}", x)`: decimal, with '-' in front of a negative value. */
  function Decimal(x: int): (r: string)
    ensures |r| >= 1
  {
    if x < 0 then "-" + ToRadix(-x, 10, false) else ToRadix(x, 10, false)
  }

  /** Decimal text read back: the sign and the magnitude give the value. */
  lemma DecimalRoundTrip(x: int)
    ensures x >= 0 ==> AllDigits(Decimal(x), 10) && FromRadix(Decimal(x), 10) == x
    ensures x < 0 ==> Decimal(x)[0] == '-' && AllDigits(Decimal(x)[1..], 10)
                      && FromRadix(Decimal(x)[1..], 10) == -x
  {
    if x < 0 {
      assert Decimal(x)[1..] == ToRadix(-x, 10, false);
      FromToRadix(-x, 10, false);
    } else {
      FromToRadix(x, 10, false);
    }
  }

  /** A value that has a bit pattern modulo `modulus`, 2 to the width of
      its type. */
  predicate Fits(x: int, modulus: nat)
  {
    -(modulus as int) <= x < modulus
  }

  /** The bit pattern Rust shows in binary, octal or hex for an integer
      whose type has `modulus` (2 to its width) values: a negative signed
      value is taken modulo `modulus`, so -1i8 is 0xff. */
  function TwosComplement(x: int, modulus: nat): (r: nat)
    requires Fits(x, modulus)
    ensures r < modulus
    ensures x >= 0 ==> r == x
    ensures x < 0 ==> r - x == modulus
  {
    if x < 0 then x + modulus else x
  }

  /** Hexadecimal digits of `n` for the `\u{..}` escape. */
  function HexEscape(n: nat): string
  {
    "\\u{" + ToRadix(n, 16, false) + "}"
  }

  /** The Debug form of an ASCII character: the character in single
      quotes, with a backslash escape for the quote, the backslash, NUL, tab,
      line feed and carriage return, and `\u{..}` for the other control
      characters. Other characters are shown as they are. */
  function DebugChar(c: char): (r: string)
    ensures |r| >= 3 && r[0] == '\'' && r[|r| - 1] == '\''
    ensures ' ' <= c <= '~' && c != '\'' && c != '\\' ==> r == ['\'', c, '\'']
  {
    var body :=
      if c == '\'' then "\\'"
      else if c == '\\' then "\\\\"
      else if c == '\0' then "\\0"
      else if c == '\t' then "\\t"
      else if c == '\n' then "\\n"
      else if c == '\r' then "\\r"
      else if c < ' ' || c == '\U{7F}' then HexEscape(c as nat)
      else [c];
    "'" + body + "'"
  }

  /** The Debug form of an `Option<char>`: "None" or "Some('c')". */
  function DebugOptionChar(o: Option<char>): (r: string)
    ensures o.None? ==> r == "None"
    ensures o.Some? ==> |r| >= 8 && r[..5] == "Some(" && r[5..|r| - 1] == DebugChar(o.value) && r[|r| - 1] == ')'
  {
    if o.None? then "None" else "Some(" + DebugChar(o.value) + ")"
  }

  /** The type letters the integer renderers print with, ' ' standing for
      plain `{}`. */
  predicate IsRadixType(t: char)
  {
    t == ' ' || t == 'b' || t == 'o' || t == 'x' || t == 'X'
  }

  function Radix(t: char): (radix: nat)
    requires IsRadixType(t)
    ensures 2 <= radix <= 16
  {
    if t == 'b' then 2 else if t == 'o' then 8 else if t == 'x' || t == 'X' then 16 else 10
  }

  /** The Display form, or type b, o, x or X, of an
      integer whose type has `modulus` values. */
  function IntText(x: int, t: char, modulus: nat): (r: string)
    requires IsRadixType(t) && Fits(x, modulus)
    ensures |r| >= 1
  {
    if t == ' ' then Decimal(x) else ToRadix(TwosComplement(x, modulus), Radix(t), t == 'X')
  }

  /** The digit text reads back as the value: in decimal with a '-' for a
      negative value, in the other radixes as the value's bit pattern. */
  lemma IntTextReadsBack(x: int, t: char, modulus: nat)
    requires IsRadixType(t) && Fits(x, modulus)
    ensures t != ' ' ==> AllDigits(IntText(x, t, modulus), Radix(t))
                         && FromRadix(IntText(x, t, modulus), Radix(t)) == TwosComplement(x, modulus)
    ensures t == ' ' && x >= 0 ==> AllDigits(IntText(x, t, modulus), 10) && FromRadix(IntText(x, t, modulus), 10) == x
    ensures t == ' ' && x < 0 ==> IntText(x, t, modulus)[0] == '-' && AllDigits(IntText(x, t, modulus)[1..], 10)
                                  && FromRadix(IntText(x, t, modulus)[1..], 10) == -x
    ensures t == 'x' ==> LetterCase(IntText(x, t, modulus), false)
    ensures t == 'X' ==> LetterCase(IntText(x, t, modulus), true)
  {
    if t == ' ' {
      DecimalRoundTrip(x);
    } else {
      FromToRadix(TwosComplement(x, modulus), Radix(t), t == 'X');
    }
  }

  /** `usize` on a 64-bit target: 2^64 values. */
  const UsizeModulus: nat := 0x1_0000_0000_0000_0000

  /** The digits `str::parse` reads for an unsigned type: one leading '+' is
      dropped when something follows it. */
  function UnsignedDigits(s: string): string
  {
    if |s| > 1 && s[0] == '+' then s[1..] else s
  }

  /** `str::parse::<usize>`: at least one ASCII digit after the optional '+',
      and a value below 2^64; None for anything else, overflow included. */
  function ParseUsize(s: string): (r: Option<nat>)
    ensures r.Some? ==> r.value < UsizeModulus
  {
    var d := UnsignedDigits(s);
    if d != [] && DigitRun(d) == |d| && DecimalValue(d) < UsizeModulus then Some(DecimalValue(d))
    else None
  }

  /** The decimal text of a number is made of ASCII digits. */
  lemma DecimalTextDigits(n: nat)
    ensures forall k :: 0 <= k < |ToRadix(n, 10, false)| ==> IsDecimalDigit(ToRadix(n, 10, false)[k])
  {
    var d := ToRadix(n, 10, false);
    forall k | 0 <= k < |d| ensures IsDecimalDigit(d[k]) {
      assert 0 <= DigitValue(d[k]) < 10;
    }
  }

  /** `s.parse::<usize>().unwrap()`: the value, or a panic. */
  function UnwrapUsize<E>(s: string): (r: Result<nat, E>)
    ensures !r.Err?
    ensures r.Ok? <==> ParseUsize(s).Some?
    ensures r.Ok? ==> r.value == ParseUsize(s).value
  {
    match ParseUsize(s)
    case Some(n) => Ok(n)
    case None => Panic("called `Result::unwrap()` on an `Err` value")
  }

  /** The decimal text of a `usize`, with or without a '+', parses back. */
  lemma ParseUsizeDecimal(n: nat)
    requires n < UsizeModulus
    ensures ParseUsize(ToRadix(n, 10, false)) == Some(n)
    ensures ParseUsize("+" + ToRadix(n, 10, false)) == Some(n)
  {
    var d := ToRadix(n, 10, false);
    DecimalTextDigits(n);
    DigitRunUnique(d, |d|);
    FromToRadix(n, 10, false);
    assert UnsignedDigits("+" + d) == d;
  }

  /** Empty text, a lone '+', a character that is not a digit (other than
      the leading '+'), or a value of 2^64 or more is rejected. */
  lemma ParseUsizeRejects(s: string, k: nat)
    ensures s == [] || s == "+" ==> ParseUsize(s) == None
    ensures k < |s| && !IsDecimalDigit(s[k]) && !(k == 0 && s[0] == '+' && |s| > 1) ==> ParseUsize(s) == None
    ensures s != [] && (forall j :: 0 <= j < |s| ==> IsDecimalDigit(s[j])) && DecimalValue(s) >= UsizeModulus ==>
              ParseUsize(s) == None
  {
    if k < |s| && !IsDecimalDigit(s[k]) && !(k == 0 && s[0] == '+' && |s| > 1) {
      var d := UnsignedDigits(s);
      var i := if |s| > 1 && s[0] == '+' then k - 1 else k;
      assert d[i] == s[k];
    }
    if s != [] && (forall j :: 0 <= j < |s| ==> IsDecimalDigit(s[j])) {
      assert UnsignedDigits(s) == s;
    }
  }
}
