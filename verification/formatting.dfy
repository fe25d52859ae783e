/** The format-specifier parser and the Formatter object (src/formatter.rs).

    A placeholder body `key:spec` is split at its first ':' into the key and
    the specifier; the specifier is read left to right the way CPython's
    `formatter_unicode.c` reads it: fill and alignment, sign, '#', the legacy
    '0', a width, ',', '.' and a precision, and at most one type letter.

    Each character is one position here, so the byte cursor of the source and
    the character count agree (ASCII text). */
module Formatting {
  import opened Wrappers
  import opened Types
  import opened RustFmt

  /** The largest value `str::parse::<i64>` accepts. */
  const I64Max: nat := 0x7FFF_FFFF_FFFF_FFFF

  predicate IsAlignmentToken(c: char)
  {
    c == '=' || c == '<' || c == '^' || c == '>'
  }

  predicate IsSignElement(c: char)
  {
    c == ' ' || c == '-' || c == '+'
  }

  predicate IsTypeElement(c: char)
  {
    || c == 'b' || c == 'c' || c == 'd' || c == 'o' || c == 'x' || c == 'X' || c == 'n'
    || c == 'e' || c == 'E' || c == 'f' || c == 'F' || c == 'g' || c == 'G' || c == '%'
    || c == 's' || c == '?'
  }

  /** The type letters PEP 378 allows together with ',' (NUL: no type). */
  predicate IsCommaType(c: char)
  {
    || c == 'd' || c == 'e' || c == 'f' || c == 'g' || c == 'E' || c == 'G'
    || c == '%' || c == 'F' || c == '\0'
  }

  /** The digit run at the front of `t` and its value when it fits an i64:
      (0, None) for no digits, (k, None) when the run of k digits overflows. */
  function IntegerRun(t: string): (r: (nat, Option<int>))
  {
    var n := DigitRun(t);
    if n == 0 then (0, None)
    else if DecimalValue(t[..n]) <= I64Max then (n, Some(DecimalValue(t[..n]) as int))
    else (n, None)
  }

  /** IntegerRun consumes exactly the maximal digit run and reports its value
      only when it fits an i64. */
  lemma IntegerRunMaximal(t: string, k: nat)
    ensures IntegerRun(t).0 <= |t|
    ensures k < IntegerRun(t).0 ==> IsDecimalDigit(t[k])
    ensures IntegerRun(t).0 < |t| ==> !IsDecimalDigit(t[IntegerRun(t).0])
    ensures IntegerRun(t).0 == 0 ==> IntegerRun(t).1 == None
    ensures IntegerRun(t).0 > 0 ==>
              IntegerRun(t).1 == (if DecimalValue(t[..IntegerRun(t).0]) <= I64Max
                                  then Some(DecimalValue(t[..IntegerRun(t).0]) as int) else None)
  {
  }

  /** `get_integer`: counts the digits at `pos`, then parses them as an i64. */
  method GetInteger(s: string, pos: nat) returns (consumed: nat, val: Option<int>)
    requires pos <= |s|
    ensures pos + consumed <= |s|
    ensures (consumed, val) == IntegerRun(s[pos..])
  {
    consumed := 0;
    while pos + consumed < |s| && IsDecimalDigit(s[pos + consumed])
      invariant pos + consumed <= |s|
      invariant forall k :: pos <= k < pos + consumed ==> IsDecimalDigit(s[k])
    {
      consumed := consumed + 1;
    }
    DigitRunUnique(s[pos..], consumed);
    assert s[pos..][..consumed] == s[pos..pos + consumed];
    if consumed == 0 {
      val := None;
    } else {
      var v := DecimalValue(s[pos..pos + consumed]);
      val := if v <= I64Max then Some(v) else None;
    }
  }

  /** The record `parse_like_python` fills in, as CPython has it: characters
      for align and sign (NUL for "no sign", NUL for "no type") and -1 for an
      absent width or precision. */
  datatype FmtPy = FmtPy(fill: char, align: char, alternate: bool, sign: char,
                         width: int, thousands: bool, precision: int, ty: char)

  const DefaultPy: FmtPy := FmtPy(' ', '>', false, '\0', -1, false, -1, '\0')

  /** What a successful parse can produce; `from_str` relies on it when it
      converts the characters to enums (its `unreachable!` arms). */
  predicate WellFormedPy(f: FmtPy)
  {
    ShapeOk(f) && (f.thousands ==> IsCommaType(f.ty))
  }

  /** Every field within what the stages can produce, before the ',' check. */
  predicate ShapeOk(f: FmtPy)
  {
    && IsAlignmentToken(f.align)
    && (f.sign == '\0' || IsSignElement(f.sign))
    && -1 <= f.width <= I64Max
    && -1 <= f.precision <= I64Max
    && (f.ty == '\0' || IsTypeElement(f.ty))
  }

  /** A parse in progress: the record so far, whether fill and alignment were
      given explicitly, and the text not yet read. */
  datatype Stage = Stage(format: FmtPy, fillSpecified: bool, alignSpecified: bool, rest: string)

  predicate StageOk(st: Stage)
  {
    && IsAlignmentToken(st.format.align)
    && (st.format.sign == '\0' || IsSignElement(st.format.sign))
    && -1 <= st.format.width <= I64Max
    && -1 <= st.format.precision <= I64Max
    && st.format.ty == '\0'
  }

  /** Fill and alignment, with one character of lookahead. */
  function FillAlign(s: string): (st: Stage)
    requires s != []
    ensures StageOk(st) && !st.format.alternate && !st.format.thousands
    ensures st.format.sign == '\0' && st.format.width == -1 && st.format.precision == -1
    ensures st.fillSpecified == st.alignSpecified
  {
    if |s| >= 2 && IsAlignmentToken(s[1]) then
      Stage(DefaultPy.(fill := s[0], align := s[1]), true, true, s[2..])
    else if IsAlignmentToken(s[0]) then
      Stage(DefaultPy.(align := s[0]), false, false, s[1..])
    else
      Stage(DefaultPy, false, false, s)
  }

  function SignOption(st: Stage): (r: Stage)
    ensures StageOk(st) ==> StageOk(r)
  {
    if st.rest != [] && IsSignElement(st.rest[0])
    then st.(format := st.format.(sign := st.rest[0]), rest := st.rest[1..])
    else st
  }

  function AlternateOption(st: Stage): (r: Stage)
    ensures StageOk(st) ==> StageOk(r)
  {
    if st.rest != [] && st.rest[0] == '#'
    then st.(format := st.format.(alternate := true), rest := st.rest[1..])
    else st
  }

  /** The legacy '0': zero fill unless a fill was given, and '=' alignment
      unless an alignment came with that fill. */
  function LegacyZero(st: Stage): (r: Stage)
    ensures StageOk(st) ==> StageOk(r)
  {
    if !st.fillSpecified && st.rest != [] && st.rest[0] == '0'
    then st.(format := st.format.(fill := '0',
                                  align := if st.alignSpecified then st.format.align else '='),
             rest := st.rest[1..])
    else st
  }

  function Width(st: Stage): (r: Result<Stage, FmtError>)
    ensures StageOk(st) && r.Ok? ==> StageOk(r.value)
    ensures !r.Panic?
  {
    match IntegerRun(st.rest)
    case (0, _) => Ok(st)
    case (n, None) => Err(Invalid("overflow error when parsing width"))
    case (n, Some(v)) => Ok(st.(format := st.format.(width := v), rest := st.rest[n..]))
  }

  function Thousands(st: Stage): (r: Stage)
    ensures StageOk(st) ==> StageOk(r)
  {
    if st.rest != [] && st.rest[0] == ','
    then st.(format := st.format.(thousands := true), rest := st.rest[1..])
    else st
  }

  function Precision(st: Stage): (r: Result<Stage, FmtError>)
    ensures StageOk(st) && r.Ok? ==> StageOk(r.value)
    ensures !r.Panic?
  {
    if st.rest == [] || st.rest[0] != '.' then Ok(st)
    else
      var r := st.rest[1..];
      match IntegerRun(r)
      case (0, _) => Err(Invalid("Format specifier missing precision"))
      case (n, None) => Err(Invalid("overflow error when parsing precision"))
      case (n, Some(v)) => Ok(st.(format := st.format.(precision := v), rest := r[n..]))
  }

  /** At most one character may remain, and it must be a type letter. */
  function TypeField(st: Stage): (r: Result<FmtPy, FmtError>)
    ensures StageOk(st) && r.Ok? ==> WellFormedPy(r.value.(thousands := false))
    ensures r.Ok? ==> r.value.thousands == st.format.thousands
    ensures !r.Panic?
  {
    if |st.rest| > 1 then Err(Invalid("Invalid format specifier"))
    else if |st.rest| == 1 then
      if IsTypeElement(st.rest[0]) then Ok(st.format.(ty := st.rest[0]))
      else Err(Invalid("Invalid type specifier: " + DebugChar(st.rest[0])))
    else Ok(st.format)
  }

  function CommaCheck(f: FmtPy): (r: Result<FmtPy, FmtError>)
    ensures WellFormedPy(f.(thousands := false)) && r.Ok? ==> WellFormedPy(r.value)
    ensures !r.Panic?
  {
    if f.thousands && !IsCommaType(f.ty) then Err(Invalid("Invalid comma type: " + [f.ty]))
    else Ok(f)
  }

  /** The stages before the first one that can fail. */
  function Flags(s: string): (st: Stage)
    requires s != []
    ensures StageOk(st)
  {
    LegacyZero(AlternateOption(SignOption(FillAlign(s))))
  }

  /** The specification of `parse_like_python`: the stages in their order,
      the first error ending the parse. */
  function ParsePy(s: string): (r: Result<FmtPy, FmtError>)
    ensures r.Ok? ==> WellFormedPy(r.value)
    ensures !r.Panic?
  {
    if s == [] then Ok(DefaultPy) else AfterFlags(Flags(s))
  }

  function AfterFlags(st: Stage): (r: Result<FmtPy, FmtError>)
    requires StageOk(st)
    ensures r.Ok? ==> WellFormedPy(r.value)
    ensures !r.Panic?
  {
    var st1 :- Width(st);
    AfterWidth(st1)
  }

  function AfterWidth(st: Stage): (r: Result<FmtPy, FmtError>)
    requires StageOk(st)
    ensures r.Ok? ==> WellFormedPy(r.value)
    ensures !r.Panic?
  {
    AfterThousands(Thousands(st))
  }

  function AfterThousands(st: Stage): (r: Result<FmtPy, FmtError>)
    requires StageOk(st)
    ensures r.Ok? ==> WellFormedPy(r.value)
    ensures !r.Panic?
  {
    var st2 :- Precision(st);
    AfterPrecision(st2)
  }

  function AfterPrecision(st: Stage): (r: Result<FmtPy, FmtError>)
    requires StageOk(st)
    ensures r.Ok? ==> WellFormedPy(r.value)
    ensures !r.Panic?
  {
    var f :- TypeField(st);
    CommaCheck(f)
  }

  /** `parse_like_python`: a cursor `pos` walks the specifier while the record
      is filled in; every check returns early with its error. The body is cut
      into one method per group of stages, each proved against the stage
      function it continues with. */
  method ParseLikePython(rest: string) returns (r: Result<FmtPy, FmtError>)
    ensures r == ParsePy(rest)
  {
    var format := DefaultPy;
    if rest == [] {
      return Ok(format);
    }
    var fillSpecified, alignSpecified, pos;
    format, fillSpecified, alignSpecified, pos := ParseFillAlign(rest);
    ghost var st0 := Stage(format, fillSpecified, alignSpecified, rest[pos..]);
    format, pos := ParseSign(rest, pos, format, fillSpecified, alignSpecified);
    ghost var st1 := Stage(format, fillSpecified, alignSpecified, rest[pos..]);
    format, pos := ParseAlternate(rest, pos, format, fillSpecified, alignSpecified);
    ghost var st2 := Stage(format, fillSpecified, alignSpecified, rest[pos..]);
    format, pos := ParseLegacyZero(rest, pos, format, fillSpecified, alignSpecified);
    ghost var st3 := Stage(format, fillSpecified, alignSpecified, rest[pos..]);
    assert st3 == LegacyZero(AlternateOption(SignOption(FillAlign(rest))));
    assert st3 == Flags(rest);
    r := ParseWidthOnward(rest, pos, format, fillSpecified, alignSpecified);
    assert r == AfterFlags(st3);
  }

  /** The fill and alignment of `parse_like_python`, with its lookahead. */
  method ParseFillAlign(rest: string) returns (format: FmtPy, fillSpecified: bool, alignSpecified: bool, pos: nat)
    requires rest != []
    ensures pos <= |rest| && Stage(format, fillSpecified, alignSpecified, rest[pos..]) == FillAlign(rest)
  {
    format := DefaultPy;
    var fakeFill := rest[0];
    alignSpecified := false;
    fillSpecified := false;
    var end := |rest|;
    pos := 0;
    if end - pos >= 2 && IsAlignmentToken(rest[pos + 1]) {
      format := format.(align := rest[pos + 1], fill := fakeFill);
      fillSpecified := true;
      alignSpecified := true;
      pos := pos + 2;
    } else if end - pos >= 1 && IsAlignmentToken(fakeFill) {
      format := format.(align := fakeFill);
      pos := pos + 1;
    }
  }

  /** The sign of `parse_like_python`. */
  method ParseSign(rest: string, pos: nat, format: FmtPy, fillSpecified: bool, alignSpecified: bool)
    returns (format': FmtPy, pos': nat)
    requires pos <= |rest|
    ensures pos' <= |rest|
    ensures Stage(format', fillSpecified, alignSpecified, rest[pos'..])
            == SignOption(Stage(format, fillSpecified, alignSpecified, rest[pos..]))
  {
    format', pos' := format, pos;
    if |rest| - pos >= 1 && IsSignElement(rest[pos]) {
      format' := format.(sign := rest[pos]);
      pos' := pos + 1;
      assert rest[pos'..] == rest[pos..][1..];
    }
  }

  /** The '#' of `parse_like_python`. */
  method ParseAlternate(rest: string, pos: nat, format: FmtPy, fillSpecified: bool, alignSpecified: bool)
    returns (format': FmtPy, pos': nat)
    requires pos <= |rest|
    ensures pos' <= |rest|
    ensures Stage(format', fillSpecified, alignSpecified, rest[pos'..])
            == AlternateOption(Stage(format, fillSpecified, alignSpecified, rest[pos..]))
  {
    format', pos' := format, pos;
    if |rest| - pos >= 1 && rest[pos] == '#' {
      format' := format.(alternate := true);
      pos' := pos + 1;
      assert rest[pos'..] == rest[pos..][1..];
    }
  }

  /** The legacy '0' of `parse_like_python`. */
  method ParseLegacyZero(rest: string, pos: nat, format: FmtPy, fillSpecified: bool, alignSpecified: bool)
    returns (format': FmtPy, pos': nat)
    requires pos <= |rest|
    ensures pos' <= |rest|
    ensures Stage(format', fillSpecified, alignSpecified, rest[pos'..])
            == LegacyZero(Stage(format, fillSpecified, alignSpecified, rest[pos..]))
  {
    format', pos' := format, pos;
    if !fillSpecified && |rest| - pos >= 1 && rest[pos] == '0' {
      format' := format.(fill := '0');
      if !alignSpecified {
        format' := format'.(align := '=');
      }
      pos' := pos + 1;
      assert rest[pos'..] == rest[pos..][1..];
    }
  }

  /** The width digits of `parse_like_python`, then the rest of the specifier. */
  method ParseWidthOnward(rest: string, pos: nat, format: FmtPy, fillSpecified: bool, alignSpecified: bool)
    returns (r: Result<FmtPy, FmtError>)
    requires pos <= |rest| && StageOk(Stage(format, fillSpecified, alignSpecified, rest[pos..]))
    ensures r == AfterFlags(Stage(format, fillSpecified, alignSpecified, rest[pos..]))
  {
    ghost var st := Stage(format, fillSpecified, alignSpecified, rest[pos..]);
    AfterFlagsStep(st);
    var format := format;
    var consumed, val := GetInteger(rest, pos);
    DropDrop(rest, pos, consumed);
    WidthOf(st, consumed, val);
    if consumed != 0 && val.None? {
      r := Err(Invalid("overflow error when parsing width"));
      assert r == AfterFlags(st);
      return;
    }
    if consumed != 0 {
      format := format.(width := val.value);
    }
    var next := pos + consumed;
    ghost var st1 := Stage(format, fillSpecified, alignSpecified, rest[next..]);
    assert Width(st) == Ok(st1);
    assert AfterFlags(st) == AfterWidth(st1);
    r := ParseThousandsOnward(rest, next, format, fillSpecified, alignSpecified);
    assert r == AfterWidth(st1);
    assert r == AfterFlags(st);
  }

  /** Proof helper: `AfterFlags` is the width stage, then the rest or its
      error. */
  lemma AfterFlagsStep(st: Stage)
    requires StageOk(st)
    ensures Width(st).Ok? ==> StageOk(Width(st).value) && AfterFlags(st) == AfterWidth(Width(st).value)
    ensures Width(st).Err? ==> AfterFlags(st) == Err(Width(st).error)
  {
  }

  /** Proof helper: the three outcomes of the width stage, given the
      digit run. */
  lemma WidthOf(st: Stage, consumed: nat, val: Option<int>)
    requires (consumed, val) == IntegerRun(st.rest)
    ensures consumed == 0 ==> Width(st) == Ok(st)
    ensures consumed != 0 && val.None? ==> Width(st) == Err(Invalid("overflow error when parsing width"))
    ensures consumed != 0 && val.Some? ==>
              Width(st) == Ok(st.(format := st.format.(width := val.value), rest := st.rest[consumed..]))
  {
  }

  /** The ',' of `parse_like_python`, then the rest of the specifier. */
  method ParseThousandsOnward(rest: string, pos: nat, format: FmtPy, fillSpecified: bool, alignSpecified: bool)
    returns (r: Result<FmtPy, FmtError>)
    requires pos <= |rest| && StageOk(Stage(format, fillSpecified, alignSpecified, rest[pos..]))
    ensures r == AfterWidth(Stage(format, fillSpecified, alignSpecified, rest[pos..]))
  {
    ghost var st := Stage(format, fillSpecified, alignSpecified, rest[pos..]);
    if |rest| - pos > 0 && rest[pos] == ',' {
      assert rest[pos + 1..] == st.rest[1..];
      r := ParsePrecisionOnward(rest, pos + 1, format.(thousands := true), fillSpecified, alignSpecified);
    } else {
      r := ParsePrecisionOnward(rest, pos, format, fillSpecified, alignSpecified);
    }
  }

  /** The '.' of `parse_like_python`, then the rest of the specifier. */
  method ParsePrecisionOnward(rest: string, pos: nat, format: FmtPy, fillSpecified: bool, alignSpecified: bool)
    returns (r: Result<FmtPy, FmtError>)
    requires pos <= |rest| && StageOk(Stage(format, fillSpecified, alignSpecified, rest[pos..]))
    ensures r == AfterThousands(Stage(format, fillSpecified, alignSpecified, rest[pos..]))
  {
    ghost var st := Stage(format, fillSpecified, alignSpecified, rest[pos..]);
    if |rest| - pos > 0 && rest[pos] == '.' {
      r := ParsePrecisionDigits(rest, pos + 1, format, fillSpecified, alignSpecified);
    } else {
      assert Precision(st) == Ok(st);
      AfterThousandsStep(st);
      r := ParseTypeOnward(rest, pos, format, fillSpecified, alignSpecified);
      assert r == AfterPrecision(st);
    }
  }

  /** The digits after the '.' at `pos - 1`, then the type. */
  method ParsePrecisionDigits(rest: string, pos: nat, format: FmtPy, fillSpecified: bool, alignSpecified: bool)
    returns (r: Result<FmtPy, FmtError>)
    requires 0 < pos <= |rest| && rest[pos - 1] == '.'
    requires StageOk(Stage(format, fillSpecified, alignSpecified, rest[pos - 1..]))
    ensures r == AfterThousands(Stage(format, fillSpecified, alignSpecified, rest[pos - 1..]))
  {
    ghost var st := Stage(format, fillSpecified, alignSpecified, rest[pos - 1..]);
    assert rest[pos..] == st.rest[1..];
    AfterThousandsStep(st);
    var format := format;
    var consumed, val := GetInteger(rest, pos);
    DropDrop(rest, pos, consumed);
    PrecisionOf(st, consumed, val);
    if consumed == 0 {
      r := Err(Invalid("Format specifier missing precision"));
      assert r == AfterThousands(st);
      return;
    }
    match val {
      case None =>
        r := Err(Invalid("overflow error when parsing precision"));
        assert r == AfterThousands(st);
        return;
      case Some(v) =>
        format := format.(precision := v);
    }
    var next := pos + consumed;
    ghost var st1 := Stage(format, fillSpecified, alignSpecified, rest[next..]);
    assert Precision(st) == Ok(st1);
    assert AfterThousands(st) == AfterPrecision(st1);
    r := ParseTypeOnward(rest, next, format, fillSpecified, alignSpecified);
    assert r == AfterPrecision(st1);
    assert r == AfterThousands(st);
  }

  /** Proof helper: `AfterThousands` is the precision stage, then the rest
      or its error. */
  lemma AfterThousandsStep(st: Stage)
    requires StageOk(st)
    ensures Precision(st).Ok? ==> StageOk(Precision(st).value) && AfterThousands(st) == AfterPrecision(Precision(st).value)
    ensures Precision(st).Err? ==> AfterThousands(st) == Err(Precision(st).error)
  {
  }

  /** Proof helper: the outcomes of the precision stage after a '.', given
      the digit run. */
  lemma PrecisionOf(st: Stage, consumed: nat, val: Option<int>)
    requires st.rest != [] && st.rest[0] == '.' && (consumed, val) == IntegerRun(st.rest[1..])
    ensures consumed == 0 ==> Precision(st) == Err(Invalid("Format specifier missing precision"))
    ensures consumed != 0 && val.None? ==> Precision(st) == Err(Invalid("overflow error when parsing precision"))
    ensures consumed != 0 && val.Some? ==>
              Precision(st) == Ok(st.(format := st.format.(precision := val.value), rest := st.rest[1..][consumed..]))
  {
  }

  /** The type letter and the ',' check of `parse_like_python`. */
  method ParseTypeOnward(rest: string, pos: nat, format: FmtPy, fillSpecified: bool, alignSpecified: bool)
    returns (r: Result<FmtPy, FmtError>)
    requires pos <= |rest| && StageOk(Stage(format, fillSpecified, alignSpecified, rest[pos..]))
    ensures r == AfterPrecision(Stage(format, fillSpecified, alignSpecified, rest[pos..]))
  {
    var format := format;
    var end := |rest|;
    if end - pos > 1 {
      return Err(Invalid("Invalid format specifier"));
    }
    if end - pos == 1 {
      format := format.(ty := rest[pos]);
      if !IsTypeElement(format.ty) {
        return Err(Invalid("Invalid type specifier: " + DebugChar(format.ty)));
      }
    }
    if format.thousands {
      if !IsCommaType(format.ty) {
        return Err(Invalid("Invalid comma type: " + [format.ty]));
      }
    }
    return Ok(format);
  }

  lemma DropDrop(s: string, i: nat, j: nat)
    requires i + j <= |s|
    ensures s[i..][j..] == s[i + j..]
  {
  }

  /** A canonical specifier text for a record: fill and alignment always
      written out, then each option only when it is set. */
  function PrintPy(f: FmtPy): string
  {
    [f.fill, f.align] + PrintFlags(f) + PrintTail(f)
  }

  function PrintFlags(f: FmtPy): string
  {
    (if f.sign == '\0' then [] else [f.sign]) + (if f.alternate then "#" else [])
  }

  function PrintTail(f: FmtPy): string
  {
    (if f.width < 0 then [] else ToRadix(f.width as nat, 10, false)) + PrintAfterWidth(f)
  }

  function PrintAfterWidth(f: FmtPy): string
  {
    (if f.thousands then "," else []) + PrintAfterThousands(f)
  }

  function PrintAfterThousands(f: FmtPy): string
  {
    (if f.precision < 0 then [] else "." + ToRadix(f.precision as nat, 10, false)) + PrintType(f)
  }

  function PrintType(f: FmtPy): string
  {
    if f.ty == '\0' then [] else [f.ty]
  }

  /** Text that the sign and '#' stages leave alone. */
  predicate NoFlagHead(x: string)
  {
    x == [] || (!IsSignElement(x[0]) && x[0] != '#')
  }

  /** Text that does not continue a digit run. */
  predicate NoDigitHead(x: string)
  {
    x == [] || !IsDecimalDigit(x[0])
  }

  /** The decimal text of a number that fits an i64, followed by a non-digit,
      is read back as that number. */
  lemma IntegerRunOfDecimal(n: nat, t: string)
    requires n <= I64Max && NoDigitHead(t)
    ensures IntegerRun(ToRadix(n, 10, false) + t) == (|ToRadix(n, 10, false)|, Some(n as int))
  {
    var d := ToRadix(n, 10, false);
    var s := d + t;
    forall k | 0 <= k < |d|
      ensures IsDecimalDigit(s[k])
    {
      assert s[k] == d[k] && 0 <= DigitValue(d[k]) < 10;
    }
    DigitRunUnique(s, |d|);
    assert s[..|d|] == d;
    FromToRadix(n, 10, false);
  }

  /** A run of digits whose value exceeds the i64 range, followed by a
      non-digit, is reported as an overflow. */
  lemma IntegerRunOverflow(d: string, t: string)
    requires d != [] && forall k :: 0 <= k < |d| ==> IsDecimalDigit(d[k])
    requires DecimalValue(d) > I64Max && NoDigitHead(t)
    ensures IntegerRun(d + t) == (|d|, None)
  {
    var s := d + t;
    DigitRunUnique(s, |d|);
    assert s[..|d|] == d;
  }

  lemma Reassociate(a: string, b: string, c: string, d: string, e: string)
    ensures a + (b + c) + d + e == a + (b + (c + (d + e)))
  {
  }

  /** The first character of a concatenation. */
  lemma HeadOfAppend(a: string, x: string)
    ensures a != [] ==> (a + x)[0] == a[0]
    ensures a == [] ==> a + x == x
  {
  }

  /** What PrintTail starts with: a digit, ',', '.', a type letter, or nothing. */
  lemma TailHead(f: FmtPy)
    requires ShapeOk(f)
    ensures NoFlagHead(PrintTail(f))
  {
    var t := PrintTail(f);
    if f.width >= 0 {
      var d := ToRadix(f.width as nat, 10, false);
      assert t[0] == d[0] && 0 <= DigitValue(d[0]) < 10;
    } else {
      assert t == PrintAfterWidth(f);
      AfterWidthHead(f);
    }
  }

  lemma AfterWidthHead(f: FmtPy)
    requires ShapeOk(f)
    ensures PrintAfterWidth(f) == [] || PrintAfterWidth(f)[0] in ",." || IsTypeElement(PrintAfterWidth(f)[0])
  {
    var t := PrintAfterWidth(f);
    if f.thousands {
      assert t[0] == ',';
    } else if f.precision >= 0 {
      assert t[0] == '.';
    } else if f.ty != '\0' {
      assert t == [f.ty];
    } else {
      assert t == [];
    }
  }

  /** Fill, alignment, sign and '#' are read back; the legacy '0' is not
      looked for because the fill was given. */
  lemma FlagsOfPrinted(f: FmtPy, x: string) returns (st: Stage)
    requires ShapeOk(f) && NoFlagHead(x)
    ensures PrintPy(f) + x != [] && Flags(PrintPy(f) + x) == st && StageOk(st)
    ensures st.format == f.(ty := '\0', precision := -1, thousands := false, width := -1)
    ensures st.rest == PrintTail(f) + x
  {
    var s := PrintPy(f) + x;
    var sgn := if f.sign == '\0' then [] else [f.sign];
    var alt := if f.alternate then "#" else [];
    var tail := PrintTail(f) + x;
    Reassociate([f.fill, f.align], sgn, alt, PrintTail(f), x);
    var st0 := Stage(DefaultPy.(align := f.align, fill := f.fill), true, true, sgn + (alt + tail));
    assert FillAlign(s) == st0;
    TailHead(f);
    HeadOfAppend(PrintTail(f), x);
    var st1 := st0.(format := st0.format.(sign := f.sign), rest := alt + tail);
    assert SignOption(st0) == st1;
    st := st1.(format := st1.format.(alternate := f.alternate), rest := tail);
    assert AlternateOption(st1) == st;
    assert LegacyZero(st) == st;
  }

  /** The width stage reads back the width digits PrintTail wrote first. */
  lemma WidthOfPrinted(f: FmtPy, x: string, st: Stage) returns (st1: Stage)
    requires ShapeOk(f) && StageOk(st) && NoDigitHead(x)
    requires st.format == f.(ty := '\0', precision := -1, thousands := false, width := -1)
    requires st.rest == PrintTail(f) + x
    ensures StageOk(st1) && Width(st) == Ok(st1)
    ensures st1.format == f.(ty := '\0', precision := -1, thousands := false)
    ensures st1.rest == PrintAfterWidth(f) + x
  {
    st1 := st.(format := st.format.(width := f.width), rest := PrintAfterWidth(f) + x);
    AfterWidthHead(f);
    HeadOfAppend(PrintAfterWidth(f), x);
    if f.width >= 0 {
      WidthPresent(f, x, st, st1);
    } else {
      WidthAbsent(f, x, st, st1);
    }
  }

  /** Without a width, the width stage only moves past nothing. */
  lemma WidthAbsent(f: FmtPy, x: string, st: Stage, st1: Stage)
    requires f.width == -1 && st.format.width == -1 && NoDigitHead(PrintAfterWidth(f) + x)
    requires st.rest == PrintTail(f) + x
    requires st1 == st.(format := st.format.(width := f.width), rest := PrintAfterWidth(f) + x)
    ensures Width(st) == Ok(st1)
  {
    assert st.rest == PrintAfterWidth(f) + x;
    assert DigitRun(st.rest) == 0;
    assert st1 == st;
  }

  lemma WidthPresent(f: FmtPy, x: string, st: Stage, st1: Stage)
    requires ShapeOk(f) && f.width >= 0 && NoDigitHead(PrintAfterWidth(f) + x)
    requires st.rest == PrintTail(f) + x
    requires st1 == st.(format := st.format.(width := f.width), rest := PrintAfterWidth(f) + x)
    ensures Width(st) == Ok(st1)
  {
    var wid := ToRadix(f.width as nat, 10, false);
    var rest := PrintAfterWidth(f) + x;
    assert st.rest == wid + rest;
    IntegerRunOfDecimal(f.width as nat, rest);
    assert st.rest[|wid|..] == rest;
  }

  /** The ',' stage reads back the comma PrintTail wrote. */
  lemma ThousandsOfPrinted(f: FmtPy, x: string, st: Stage) returns (st1: Stage)
    requires ShapeOk(f) && StageOk(st) && (x == [] || x[0] != ',')
    requires st.format == f.(ty := '\0', precision := -1, thousands := false)
    requires st.rest == PrintAfterWidth(f) + x
    ensures StageOk(st1) && Thousands(st) == st1
    ensures st1.format == f.(ty := '\0', precision := -1)
    ensures st1.rest == PrintAfterThousands(f) + x
  {
    st1 := st.(format := st.format.(thousands := f.thousands), rest := PrintAfterThousands(f) + x);
    if f.thousands {
      assert st.rest == [','] + (PrintAfterThousands(f) + x);
    } else if f.precision >= 0 {
      assert st.rest[0] == '.';
    } else if f.ty != '\0' {
      assert st.rest[0] == f.ty;
    } else {
      assert st.rest == x;
    }
  }

  /** The precision stage reads back ".digits" and leaves the type letter. */
  lemma PrecisionOfPrinted(f: FmtPy, x: string, st: Stage) returns (st1: Stage)
    requires ShapeOk(f) && StageOk(st) && (x == [] || x[0] != '.') && NoDigitHead(x)
    requires st.format == f.(ty := '\0', precision := -1)
    requires st.rest == PrintAfterThousands(f) + x
    ensures StageOk(st1) && Precision(st) == Ok(st1)
    ensures st1.format == f.(ty := '\0')
    ensures st1.rest == PrintType(f) + x
  {
    st1 := st.(format := st.format.(precision := f.precision), rest := PrintType(f) + x);
    if f.precision >= 0 {
      HeadOfAppend(PrintType(f), x);
      PrecisionPresent(f, x, st, st1);
    } else {
      assert st.rest == PrintType(f) + x;
      HeadOfAppend(PrintType(f), x);
    }
  }

  lemma PrecisionPresent(f: FmtPy, x: string, st: Stage, st1: Stage)
    requires ShapeOk(f) && f.precision >= 0 && NoDigitHead(PrintType(f) + x)
    requires st.rest == PrintAfterThousands(f) + x
    requires st1 == st.(format := st.format.(precision := f.precision), rest := PrintType(f) + x)
    ensures Precision(st) == Ok(st1)
  {
    var ty := PrintType(f) + x;
    var digits := ToRadix(f.precision as nat, 10, false);
    assert st.rest == ['.'] + (digits + ty);
    assert st.rest[1..] == digits + ty;
    IntegerRunOfDecimal(f.precision as nat, ty);
    assert (digits + ty)[|digits|..] == ty;
  }

  /** The stages up to the type letter, on a printed record followed by `x`. */
  lemma StagesOfPrinted(f: FmtPy, x: string) returns (st: Stage)
    requires ShapeOk(f) && NoFlagHead(x) && NoDigitHead(x) && (x == [] || (x[0] != ',' && x[0] != '.'))
    ensures StageOk(st) && ParsePy(PrintPy(f) + x) == AfterPrecision(st)
    ensures st.format == f.(ty := '\0') && st.rest == PrintType(f) + x
  {
    var st0 := FlagsOfPrinted(f, x);
    var st1 := WidthOfPrinted(f, x, st0);
    var st2 := ThousandsOfPrinted(f, x, st1);
    st := PrecisionOfPrinted(f, x, st2);
  }

  /** Parsing inverts printing: a record with every field in range is read
      back from its canonical text, unless it pairs ',' with a type letter
      that does not allow it. */
  lemma ParsePyPrintPy(f: FmtPy)
    requires ShapeOk(f)
    ensures ParsePy(PrintPy(f)) ==
              if f.thousands && !IsCommaType(f.ty) then Err(Invalid("Invalid comma type: " + [f.ty]))
              else Ok(f)
    ensures WellFormedPy(f) ==> ParsePy(PrintPy(f)) == Ok(f)
  {
    var st := StagesOfPrinted(f, []);
    assert PrintPy(f) + [] == PrintPy(f);
    assert TypeField(st) == Ok(f);
  }

  /** The stage the '.' of a precision is looked for in: the flags, the
      width digits and the ','. */
  function BeforePrecision(s: string): (r: Result<Stage, FmtError>)
    requires s != []
    ensures r.Ok? ==> StageOk(r.value)
  {
    var st :- Width(Flags(s));
    Ok(Thousands(st))
  }

  /** The stage the type letter is looked for in: everything up to and
      including the precision. */
  function BeforeType(s: string): (r: Result<Stage, FmtError>)
    requires s != []
    ensures r.Ok? ==> StageOk(r.value)
  {
    var st :- BeforePrecision(s);
    Precision(st)
  }

  /** The parse of a non-empty specifier is the type stage on what the
      earlier stages leave, or the first error before it. */
  lemma ParsePyStages(s: string)
    requires s != []
    ensures BeforePrecision(s).Err? ==> ParsePy(s) == Err(BeforePrecision(s).error)
    ensures BeforeType(s).Ok? ==> ParsePy(s) == AfterPrecision(BeforeType(s).value)
    ensures BeforeType(s).Err? ==> ParsePy(s) == Err(BeforeType(s).error)
  {
    var st := Flags(s);
    AfterFlagsStep(st);
    if Width(st).Ok? {
      AfterThousandsStep(Thousands(Width(st).value));
    }
  }

  /** Width digits beyond the i64 range are an overflow, whatever fill,
      alignment, sign, '#' or legacy '0' precede them. */
  lemma WidthOverflow(s: string, d: string, t: string)
    requires s != [] && Flags(s).rest == d + t && NoDigitHead(t)
    requires d != [] && forall k :: 0 <= k < |d| ==> IsDecimalDigit(d[k])
    requires DecimalValue(d) > I64Max
    ensures ParsePy(s) == Err(Invalid("overflow error when parsing width"))
  {
    IntegerRunOverflow(d, t);
    AfterFlagsStep(Flags(s));
  }

  /** One decimal digit is worth less than ten. */
  lemma OneDigitValue(d: string)
    requires |d| == 1 && IsDecimalDigit(d[0])
    ensures DecimalValue(d) < 10
  {
    assert d[..|d| - 1] == [];
    assert FromRadix(d, 10) == FromRadix([], 10) * 10 + DigitValue(d[0]);
  }

  /** A specifier that starts with its width digits: the flag stages leave
      it alone unless it starts with '0', so too many digits overflow. */
  lemma WidthOverflowNoFlags(d: string, t: string)
    requires d != [] && forall k :: 0 <= k < |d| ==> IsDecimalDigit(d[k])
    requires d[0] != '0' && DecimalValue(d) > I64Max && NoDigitHead(t)
    ensures ParsePy(d + t) == Err(Invalid("overflow error when parsing width"))
  {
    if |d| == 1 {
      OneDigitValue(d);
      assert false;
    }
    var s := d + t;
    assert s[0] == d[0] && s[1] == d[1];
    assert FillAlign(s).rest == s;
    WidthOverflow(s, d, t);
  }

  /** A '.' that no digit follows is "missing precision", wherever it stands. */
  lemma MissingPrecision(s: string, t: string)
    requires s != [] && BeforePrecision(s).Ok? && NoDigitHead(t)
    requires BeforePrecision(s).value.rest == "." + t
    ensures ParsePy(s) == Err(Invalid("Format specifier missing precision"))
  {
    var st := BeforePrecision(s).value;
    assert st.rest[1..] == t;
    assert Precision(st) == Err(Invalid("Format specifier missing precision"));
    ParsePyStages(s);
  }

  /** Precision digits beyond the i64 range are an overflow, wherever they
      stand. */
  lemma PrecisionOverflow(s: string, d: string, t: string)
    requires s != [] && BeforePrecision(s).Ok? && NoDigitHead(t)
    requires d != [] && forall k :: 0 <= k < |d| ==> IsDecimalDigit(d[k])
    requires DecimalValue(d) > I64Max
    requires BeforePrecision(s).value.rest == "." + d + t
    ensures ParsePy(s) == Err(Invalid("overflow error when parsing precision"))
  {
    PrecisionDigitsOverflow(BeforePrecision(s).value, d, t);
    ParsePyStages(s);
  }

  lemma PrecisionDigitsOverflow(st: Stage, d: string, t: string)
    requires d != [] && forall k :: 0 <= k < |d| ==> IsDecimalDigit(d[k])
    requires DecimalValue(d) > I64Max && NoDigitHead(t)
    requires st.rest == "." + d + t
    ensures Precision(st) == Err(Invalid("overflow error when parsing precision"))
  {
    assert st.rest[1..] == d + t;
    IntegerRunOverflow(d, t);
  }

  /** After the precision at most one character may remain. */
  lemma TrailingText(s: string)
    requires s != [] && BeforeType(s).Ok? && |BeforeType(s).value.rest| >= 2
    ensures ParsePy(s) == Err(Invalid("Invalid format specifier"))
  {
    ParsePyStages(s);
  }

  /** A last character that is no type letter is reported in its Debug form. */
  lemma UnknownType(s: string, c: char)
    requires s != [] && BeforeType(s).Ok? && BeforeType(s).value.rest == [c] && !IsTypeElement(c)
    ensures ParsePy(s) == Err(Invalid("Invalid type specifier: " + DebugChar(c)))
  {
    ParsePyStages(s);
  }

  /** A '.' with nothing after it, or with a letter after it, is missing
      its precision; neither specifier has fill or alignment. */
  lemma MissingPrecisionExamples()
    ensures ParsePy("5.") == Err(Invalid("Format specifier missing precision"))
    ensures ParsePy(".x") == Err(Invalid("Format specifier missing precision"))
  {
    var s := "5.";
    assert FillAlign(s) == Stage(DefaultPy, false, false, s);
    assert Flags(s).rest == s;
    assert DigitRun(s) == 1;
    assert s[..1] == "5";
    assert IntegerRun(s) == (1, Some(5));
    assert s[1..] == ".";
    assert BeforePrecision(s).value.rest == ".";
    MissingPrecision(s, []);
    var u := ".x";
    assert FillAlign(u) == Stage(DefaultPy, false, false, u);
    assert IntegerRun(u) == (0, None);
    assert BeforePrecision(u).value.rest == "." + "x";
    MissingPrecision(u, "x");
  }

  /** A width followed by a letter that names no type. */
  lemma UnknownTypeExample()
    ensures ParsePy("5q") == Err(Invalid("Invalid type specifier: " + DebugChar('q')))
  {
    var s := "5q";
    assert FillAlign(s) == Stage(DefaultPy, false, false, s);
    assert Flags(s) == Stage(DefaultPy, false, false, s);
    assert DigitRun(s) == 1;
    assert s[..1] == "5";
    assert IntegerRun(s) == (1, Some(5));
    assert s[1..] == "q";
    assert Width(Flags(s)).value.rest == "q";
    assert BeforePrecision(s).value.rest == "q";
    assert BeforeType(s).value.rest == "q";
    UnknownType(s, 'q');
  }

  /** A precision followed by two characters. */
  lemma TrailingTextExample()
    ensures ParsePy(".2xy") == Err(Invalid("Invalid format specifier"))
  {
    var u := ".2xy";
    assert FillAlign(u) == Stage(DefaultPy, false, false, u);
    assert Flags(u) == Stage(DefaultPy, false, false, u);
    assert IntegerRun(u) == (0, None);
    var st := BeforePrecision(u).value;
    assert st.rest == u;
    var r := u[1..];
    assert r == "2xy";
    assert DigitRun(r) == 1;
    assert r[..1] == "2" && "2"[..0] == [];
    assert DecimalValue("2") == 2;
    assert IntegerRun(r) == (1, Some(2));
    assert r[1..] == "xy";
    assert Precision(st).value.rest == "xy";
    TrailingText(u);
  }

  /** The legacy '0' after a bare alignment character: the '0' becomes the
      fill and the alignment is overridden with '=', since a bare alignment
      does not count as specified. */
  lemma BareAlignThenZero(a: char, t: string)
    requires IsAlignmentToken(a)
    ensures Flags([a, '0'] + t).format.fill == '0'
    ensures Flags([a, '0'] + t).format.align == '='
    ensures Flags([a, '0'] + t).rest == t
  {
    var s := [a, '0'] + t;
    assert s[1..] == ['0'] + t;
    assert s[1..][1..] == t;
  }

  /** Whether the text after an optional sign and an optional '#' starts
      with '0', the legacy zero. */
  predicate ZeroAfterSignAlt(t: string)
  {
    var u := if t != [] && IsSignElement(t[0]) then t[1..] else t;
    var v := if u != [] && u[0] == '#' then u[1..] else u;
    v != [] && v[0] == '0'
  }

  /** The one-character lookahead that decides between fill and alignment:
      a character before an alignment token is the fill; a bare alignment
      token, or none, leaves the fill ' ' unless a legacy '0' follows the
      sign and '#'. */
  lemma FillOrAlign(s: string)
    requires s != []
    ensures |s| >= 2 && IsAlignmentToken(s[1]) ==>
              Flags(s).format.fill == s[0] && Flags(s).format.align == s[1]
    ensures !(|s| >= 2 && IsAlignmentToken(s[1])) && IsAlignmentToken(s[0]) ==>
              if ZeroAfterSignAlt(s[1..]) then Flags(s).format.fill == '0' && Flags(s).format.align == '='
              else Flags(s).format.fill == ' ' && Flags(s).format.align == s[0]
    ensures !(|s| >= 2 && IsAlignmentToken(s[1])) && !IsAlignmentToken(s[0]) ==>
              if ZeroAfterSignAlt(s) then Flags(s).format.fill == '0' && Flags(s).format.align == '='
              else Flags(s).format.fill == ' ' && Flags(s).format.align == '>'
  {
  }

  /** The settings of a parsed placeholder, as `Formatter::from_str` converts
      them from the Python record: enums for align and sign, None for an
      absent width, precision or type. */
  datatype FormatSpec = FormatSpec(key: string, fill: char, align: Alignment, sign: Sign,
                                   alternate: bool, width: Option<nat>, thousands: bool,
                                   precision: Option<nat>, ty: Option<char>, pattern: string)
  {
    /** `sign_plus`. */
    function SignPlus(): (r: bool)
      ensures r <==> sign == Sign.Plus
    {
      sign == Sign.Plus
    }

    /** `sign_minus`: answers for '+' as well, not for '-'. */
    function SignMinus(): (r: bool)
      ensures r == SignPlus()
      ensures sign == Sign.Minus ==> !r
    {
      sign == Sign.Plus
    }

    /** The getter `sign_minus` is meant to be: the test for '-'. */
    function SignMinusIntended(): (r: bool)
      ensures r ==> !SignPlus()
      ensures r || SignPlus() <==> sign == Sign.Plus || sign == Sign.Minus
    {
      sign == Sign.Minus
    }
  }

  /** `sign_minus` as written: for '-' it answers false, and for '+' it
      answers true, together with `sign_plus`. */
  lemma SignMinusAsWritten(key: string)
    ensures var minus := FormatSpec(key, ' ', Alignment.Right, Sign.Minus, false, None, false, None, None, key);
            !minus.SignMinus() && minus.SignMinusIntended()
    ensures var plus := FormatSpec(key, ' ', Alignment.Right, Sign.Plus, false, None, false, None, None, key);
            plus.SignMinus() && plus.SignPlus() && !plus.SignMinusIntended()
  {
  }

  function AlignmentOf(c: char): (a: Alignment)
    requires IsAlignmentToken(c)
    ensures a != Alignment.Unspecified
  {
    if c == '<' then Alignment.Left
    else if c == '^' then Alignment.Center
    else if c == '>' then Alignment.Right
    else Alignment.Equal
  }

  function SignOf(c: char): Sign
    requires c == '\0' || IsSignElement(c)
  {
    if c == '\0' then Sign.Unspecified
    else if c == '+' then Sign.Plus
    else if c == '-' then Sign.Minus
    else Sign.Space
  }

  /** -1 stands for "absent" in the Python record. */
  function Absent(n: int): Option<nat>
  {
    if n < 0 then None else Some(n as nat)
  }

  function FromPy(key: string, f: FmtPy, pattern: string): (sp: FormatSpec)
    requires WellFormedPy(f)
    ensures sp.align != Alignment.Unspecified
  {
    FormatSpec(key, f.fill, AlignmentOf(f.align), SignOf(f.sign), f.alternate,
               Absent(f.width), f.thousands, Absent(f.precision),
               if f.ty == '\0' then None else Some(f.ty), pattern)
  }

  /** The index of the first ':' of `s`, or |s| when there is none. */
  function ColonIndex(s: string): (n: nat)
    ensures n <= |s|
    ensures forall k :: 0 <= k < n ==> s[k] != ':'
    ensures n < |s| ==> s[n] == ':'
  {
    if s == [] || s[0] == ':' then 0 else 1 + ColonIndex(s[1..])
  }

  /** The specification of `Formatter::from_str`: the key is the text before
      the first ':', the specifier everything after it. */
  function ParseSpec(s: string): (r: Result<FormatSpec, FmtError>)
    ensures !r.Panic?
    ensures r.Ok? ==> r.value.pattern == s && r.value.align != Alignment.Unspecified
    ensures (s == [] || s[0] == ':') ==> r == Err(Invalid("must specify identifier"))
    ensures r.Ok? ==> 0 < |r.value.key| <= |s| && r.value.key == s[..|r.value.key|]
    ensures r.Ok? ==> ':' !in r.value.key
    ensures r.Ok? && |r.value.key| < |s| ==> s[|r.value.key|] == ':'
  {
    if s == [] || s[0] == ':' then Err(Invalid("must specify identifier"))
    else
      var n := ColonIndex(s);
      var f :- ParsePy(if n < |s| then s[n + 1..] else []);
      Ok(FromPy(s[..n], f, s))
  }

  /** A key without ':' followed by ':' and a specifier: the key is kept and
      the specifier decides the outcome. */
  lemma ParseSpecOfKeyAndSpec(key: string, spec: string)
    requires key != [] && ':' !in key
    ensures ParseSpec(key + ":" + spec) ==
              match ParsePy(spec)
              case Ok(f) => Ok(FromPy(key, f, key + ":" + spec))
              case Err(e) => Err(e)
              case Panic(m) => Panic(m)
  {
    var s := key + ":" + spec;
    ColonIndexUnique(s, |key|);
    assert s[..|key|] == key;
    assert s[|key| + 1..] == spec;
  }

  /** A placeholder that is only a key (with or without a trailing ':')
      gets the default settings: fill ' ', Right, no sign, nothing else. */
  lemma ParseSpecDefaults(key: string)
    requires key != [] && ':' !in key
    ensures ParseSpec(key) ==
              Ok(FormatSpec(key, ' ', Alignment.Right, Sign.Unspecified, false, None, false, None, None, key))
    ensures ParseSpec(key + ":") ==
              Ok(FormatSpec(key, ' ', Alignment.Right, Sign.Unspecified, false, None, false, None, None, key + ":"))
  {
    ColonIndexUnique(key, |key|);
    assert key[..|key|] == key;
    ParseSpecOfKeyAndSpec(key, []);
    assert key + ":" + [] == key + ":";
  }

  /** The whole placeholder round trip: key, ':' and a printed specifier
      give back the key and the record's settings. */
  lemma ParseSpecRoundTrip(key: string, f: FmtPy)
    requires key != [] && ':' !in key && WellFormedPy(f)
    ensures ParseSpec(key + ":" + PrintPy(f)) == Ok(FromPy(key, f, key + ":" + PrintPy(f)))
  {
    ParseSpecOfKeyAndSpec(key, PrintPy(f));
    ParsePyPrintPy(f);
  }

  /** `Formatter::from_str`: a loop over the characters finds the identifier,
      then the rest is parsed as a Python specifier. */
  method FromStr(s: string, buff: string) returns (r: Result<Formatter, FmtError>)
    ensures !r.Panic?
    ensures r.Err? <==> ParseSpec(s).Err?
    ensures r.Err? ==> r.error == ParseSpec(s).error
    ensures r.Ok? ==> fresh(r.value) && r.value.Spec() == ParseSpec(s).value && r.value.buff == buff
  {
    if s == [] || s[0] == ':' {
      return Err(Invalid("must specify identifier"));
    }
    var foundColon := false;
    var i := 0;
    var c := s[0];
    var consumed := 0;
    while true
      invariant i < |s| && c == s[i] && consumed == i && !foundColon
      invariant forall k :: 0 <= k < i ==> s[k] != ':'
      decreases |s| - i
    {
      consumed := consumed + 1;
      if c == ':' {
        foundColon := true;
        break;
      }
      if i + 1 == |s| {
        break;
      }
      i := i + 1;
      c := s[i];
    }
    var identifier := if foundColon then s[..consumed - 1] else s[..consumed];
    ColonIndexUnique(s, |identifier|);
    var format := ParseLikePython(s[consumed..]);
    match format {
      case Ok(f) =>
        var fmt := new Formatter(FromPy(identifier, f, s), buff);
        return Ok(fmt);
      case Err(e) =>
        return Err(e);
    }
  }

  /** A colon-free prefix ending at a ':' (or the end) is the ColonIndex. */
  lemma {:induction false} ColonIndexUnique(s: string, n: nat)
    requires n <= |s|
    requires forall k :: 0 <= k < n ==> s[k] != ':'
    requires n < |s| ==> s[n] == ':'
    ensures ColonIndex(s) == n
  {
    if n > 0 {
      ColonIndexUnique(s[1..], n - 1);
    }
  }

  /** The object handed to the formatting methods: the parsed settings and
      the output buffer it appends to. Only the precision (`clear_precision`)
      and the buffer change after construction; the getters of the source are
      the fields themselves. */
  class Formatter {
    const key: string
    const fill: char
    const align: Alignment
    const sign: Sign
    const alternate: bool
    const width: Option<nat>
    const thousands: bool
    var precision: Option<nat>
    const ty: Option<char>
    const pattern: string
    var buff: string

    constructor (sp: FormatSpec, buff: string)
      ensures Spec() == sp && this.buff == buff
    {
      key := sp.key;
      fill := sp.fill;
      align := sp.align;
      sign := sp.sign;
      alternate := sp.alternate;
      width := sp.width;
      thousands := sp.thousands;
      precision := sp.precision;
      ty := sp.ty;
      pattern := sp.pattern;
      this.buff := buff;
    }

    /** The current settings as a value. */
    function Spec(): FormatSpec
      reads this
    {
      FormatSpec(key, fill, align, sign, alternate, width, thousands, precision, ty, pattern)
    }

    /** The `fmt::Write` impl: plain appends to the buffer. */
    method WriteStr(t: string)
      modifies this
      ensures buff == old(buff) + t && precision == old(precision)
    {
      buff := buff + t;
    }

    /** `skip`: the placeholder is written back with its braces. */
    method Skip()
      modifies this
      ensures buff == old(buff) + "{" + pattern + "}" && precision == old(precision)
    {
      buff := buff + ['{'];
      WriteStr(pattern);
      buff := buff + ['}'];
    }

    /** `clear_precision`. */
    method ClearPrecision()
      modifies this
      ensures precision == None && buff == old(buff)
    {
      precision := None;
    }
  }
}
