/** The generic integer renderer of src/fmtnum.rs (the `fmtint!` macro body),
    for an integer type of `bits` bits, signed or not, and the steps it
    shares with the older `i64` and `u16` renderers: the guards after the type
    check, the '#' prefixes and the output after the guards. */
module FmtNum {
  import opened Wrappers
  import opened Types
  import opened RustFmt
  import opened Formatting
  import opened FmtStr

  /** The type letter the renderers work with: an absent type is ' '. */
  function TypeChar(ty: Option<char>): char
  {
    if ty.None? then ' ' else ty.value
  }

  /** `is_int_type`: no type letter, or one of b, o, x, X. */
  predicate IsIntType(ty: Option<char>)
  {
    ty.None? || ty == Some('b') || ty == Some('o') || ty == Some('x') || ty == Some('X')
  }

  lemma IntTypeIsRadixType(ty: Option<char>)
    ensures IsIntType(ty) <==> ty.None? || (IsRadixType(ty.value) && ty.value != ' ')
    ensures IsIntType(ty) ==> IsRadixType(TypeChar(ty))
  {
  }

  /** The prefix '#' writes; decimal has none. */
  function AltPrefix(t: char): (r: Option<string>)
    ensures r.Some? <==> t == 'b' || t == 'o' || t == 'x' || t == 'X'
    ensures r.Some? ==> |r.value| == 2 && r.value[0] == '0' && r.value[1] == (if t == 'X' then 'x' else t)
  {
    if t == 'b' then Some("0b")
    else if t == 'o' then Some("0o")
    else if t == 'x' || t == 'X' then Some("0x")
    else None
  }

  /** The checks that follow the type check, in the source's order. */
  function IntegerGuards(sp: FormatSpec): (r: Result<(), FmtError>)
    ensures !r.Panic?
    ensures r.Ok? <==> sp.precision.None? && !sp.thousands && !(sp.fill == '0' && sp.align == Alignment.Right)
    ensures sp.precision.Some? ==> r == Err(TypeError("precision not allowed for integers"))
    ensures sp.precision.None? && sp.thousands ==> r == Err(Invalid("thousands specifier not yet supported"))
    ensures sp.precision.None? && !sp.thousands && sp.fill == '0' && sp.align == Alignment.Right ==>
              r == Err(Invalid("sign aware 0 padding not yet supported"))
  {
    if sp.precision != None then Err(TypeError("precision not allowed for integers"))
    else if sp.thousands then Err(Invalid("thousands specifier not yet supported"))
    else if sp.fill == '0' && sp.align == Alignment.Right then Err(Invalid("sign aware 0 padding not yet supported"))
    else Ok(())
  }

  /** The text written straight to the buffer after the guards: '+' when
      `plus`, then the prefix '#' asks for; '#' with decimal is an error that
      leaves the '+' written. */
  function Head(alternate: bool, t: char, plus: bool): (Result<(), FmtError>, string)
  {
    var sign := if plus then "+" else "";
    if alternate && AltPrefix(t).None? then
      (Err(Invalid("alternate ('#') cannot be used with type " + DebugChar(t))), sign)
    else
      (Ok(()), sign + if alternate then AltPrefix(t).value else "")
  }

  /** The outcome after the guards, and the text appended on the way: the
      head, then the digit text padded by `str_unchecked`. */
  function Emit(sp: FormatSpec, t: char, x: int, modulus: nat, plus: bool): (Result<(), FmtError>, string)
    requires IsRadixType(t) && Fits(x, modulus)
    requires sp.align != Alignment.Unspecified
  {
    var head := Head(sp.alternate, t, plus);
    if head.0.Err? then head
    else
      var p := Padded(IntText(x, t, modulus), sp.fill, sp.align, sp.width, sp.precision);
      if p.Panic? then (Panic(p.message), head.1)
      else (Ok(()), head.1 + p.value)
  }

  /** `body` is `digits` padded with `fill` to `width` characters: all fill
      after for Left, all before for Right, and for Center floor(d/2) before
      and ceil(d/2) after, `d` being the padding. */
  predicate PaddedTo(body: string, digits: string, fill: char, align: Alignment, width: nat)
  {
    && width > |digits|
    && |body| == width
    && var d := width - |digits|;
    && (align == Alignment.Left ==> Framed(body, digits, fill, 0, d))
    && (align == Alignment.Right ==> Framed(body, digits, fill, d, 0))
    && (align == Alignment.Center ==> Framed(body, digits, fill, d / 2, d / 2 + d % 2))
  }

  /** What `Emit` writes: the sign first, then the prefix, and only the digits
      are padded, so the width counts the digits alone. */
  lemma EmitLayout(sp: FormatSpec, t: char, x: int, modulus: nat, plus: bool)
    requires IsRadixType(t) && Fits(x, modulus)
    requires sp.align != Alignment.Unspecified && sp.precision.None?
    ensures var o := Emit(sp, t, x, modulus, plus);
            var sign := if plus then "+" else "";
            var digits := IntText(x, t, modulus);
            && (o.0.Err? <==> sp.alternate && t == ' ')
            && (o.0.Err? ==> o.1 == sign)
            && (o.0.Panic? <==> !(sp.alternate && t == ' ') && sp.align == Alignment.Equal
                                && sp.width.Some? && sp.width.value > |digits|)
            && (o.0.Ok? ==>
                  var prefix := if sp.alternate then AltPrefix(t).value else "";
                  && (sp.width.None? || sp.width.value <= |digits| ==> o.1 == sign + prefix + digits)
                  && (sp.width.Some? && sp.width.value > |digits| ==>
                        && |o.1| == |sign| + |prefix| + sp.width.value
                        && o.1[..|sign| + |prefix|] == sign + prefix
                        && PaddedTo(o.1[|sign| + |prefix|..], digits, sp.fill, sp.align, sp.width.value)))
  {
    var digits := IntText(x, t, modulus);
    assert Shown(digits, sp.precision) == |digits|;
    assert digits[..|digits|] == digits;
    PaddedLayout(digits, sp.fill, sp.align, sp.width, sp.precision);
    var o := Emit(sp, t, x, modulus, plus);
    var head := Head(sp.alternate, t, plus);
    if o.0.Ok? && sp.width.Some? && sp.width.value > |digits| {
      var p := Padded(digits, sp.fill, sp.align, sp.width, sp.precision);
      PaddedDigits(digits, sp.fill, sp.align, sp.width.value);
      assert o.1 == head.1 + p.value;
      assert o.1[|head.1|..] == p.value;
    }
  }

  /** Digits narrower than the width are padded to it by `Padded`. */
  lemma PaddedDigits(digits: string, fill: char, align: Alignment, width: nat)
    requires align != Alignment.Unspecified && align != Alignment.Equal && width > |digits|
    ensures Padded(digits, fill, align, Some(width), None).Ok?
    ensures PaddedTo(Padded(digits, fill, align, Some(width), None).value, digits, fill, align, width)
  {
    assert digits[..|digits|] == digits;
    PaddedLayout(digits, fill, align, Some(width), None);
  }

  /** The range of an integer type of `bits` bits. */
  predicate InRange(x: int, bits: nat, signed: bool)
  {
    if signed then 1 <= bits && -(Pow2(bits - 1) as int) <= x < Pow2(bits - 1)
    else 0 <= x < Pow2(bits)
  }

  lemma InRangeFits(x: int, bits: nat, signed: bool)
    requires InRange(x, bits, signed)
    ensures Fits(x, Pow2(bits))
  {
    if signed {
      assert Pow2(bits) == 2 * Pow2(bits - 1);
    }
  }

  /** The outcome of `fmtint` for `x`, and the text it appends. */
  function FmtIntOut(sp: FormatSpec, x: int, bits: nat, signed: bool): (Result<(), FmtError>, string)
    requires InRange(x, bits, signed) && sp.align != Alignment.Unspecified
  {
    var t := TypeChar(sp.ty);
    if !IsIntType(sp.ty) then
      (Err(TypeError("Unknown format code " + DebugChar(t) + " for type")), [])
    else if IntegerGuards(sp).Err? then
      (Err(IntegerGuards(sp).error), [])
    else
      InRangeFits(x, bits, signed);
      Emit(sp, t, x, Pow2(bits), x >= 0 && sp.SignPlus())
  }

  /** `fmtint`: the type check and the guards, then '+' and the prefix
      straight to the buffer, then the digits through `str_unchecked`. */
  method FmtInt(f: Formatter, x: int, bits: nat, signed: bool) returns (r: Result<(), FmtError>)
    requires InRange(x, bits, signed) && f.align != Alignment.Unspecified
    modifies f
    ensures var o := FmtIntOut(old(f.Spec()), x, bits, signed);
            && (o.0.Panic? ==> r.Panic?)
            && (!o.0.Panic? ==> r == o.0 && f.buff == old(f.buff) + o.1)
  {
    var ty := TypeChar(f.ty);
    if !IsIntType(f.ty) {
      return Err(TypeError("Unknown format code " + DebugChar(ty) + " for type"));
    }
    if f.precision != None {
      return Err(TypeError("precision not allowed for integers"));
    }
    if f.thousands {
      return Err(Invalid("thousands specifier not yet supported"));
    }
    if f.fill == '0' && f.align == Alignment.Right {
      return Err(Invalid("sign aware 0 padding not yet supported"));
    }
    InRangeFits(x, bits, signed);
    r := EmitInto(f, ty, x, Pow2(bits), x >= 0 && f.Spec().SignPlus());
  }

  /** The writing half shared by the integer renderers: '+' when `plus`, the
      prefix for '#', then the digit text through `str_unchecked`. */
  method EmitInto(f: Formatter, t: char, x: int, modulus: nat, plus: bool) returns (r: Result<(), FmtError>)
    requires IsRadixType(t) && Fits(x, modulus)
    requires f.align != Alignment.Unspecified
    modifies f
    ensures var o := Emit(old(f.Spec()), t, x, modulus, plus);
            && (o.0.Panic? ==> r.Panic?)
            && (!o.0.Panic? ==> r == o.0 && f.buff == old(f.buff) + o.1)
  {
    ghost var sp := f.Spec();
    ghost var head := Head(sp.alternate, t, plus);
    r := WriteHead(f, t, plus);
    assert f.buff == old(f.buff) + head.1;
    if r.Err? {
      assert Emit(sp, t, x, modulus, plus) == head;
      return;
    }
    var s := IntText(x, t, modulus);
    ghost var written := f.buff;
    r := StrUnchecked(f, s);
    ghost var p := Padded(s, sp.fill, sp.align, sp.width, sp.precision);
    if p.Ok? {
      assert f.buff == old(f.buff) + head.1 + p.value;
    }
    EmitOutcome(sp, t, x, modulus, plus, r, old(f.buff), f.buff);
  }

  /** After a successful head, the outcome of `str_unchecked` on the digit
      text is the outcome `Emit` describes. */
  lemma EmitOutcome(sp: FormatSpec, t: char, x: int, modulus: nat, plus: bool,
                    r: Result<(), FmtError>, before: string, after: string)
    requires IsRadixType(t) && Fits(x, modulus)
    requires sp.align != Alignment.Unspecified && Head(sp.alternate, t, plus).0.Ok?
    requires var p := Padded(IntText(x, t, modulus), sp.fill, sp.align, sp.width, sp.precision);
             && (p.Ok? ==> r == Ok(()) && after == before + Head(sp.alternate, t, plus).1 + p.value)
             && (p.Panic? ==> r.Panic?)
    ensures var o := Emit(sp, t, x, modulus, plus);
            && (o.0.Panic? ==> r.Panic?)
            && (!o.0.Panic? ==> r == o.0 && after == before + o.1)
  {
    var head := Head(sp.alternate, t, plus);
    var p := Padded(IntText(x, t, modulus), sp.fill, sp.align, sp.width, sp.precision);
    var o := Emit(sp, t, x, modulus, plus);
    if p.Panic? {
      assert o == (Panic(p.message), head.1);
    } else {
      assert o == (Ok(()), head.1 + p.value);
      assert after == before + (head.1 + p.value);
    }
  }

  /** '+' and the prefix, straight to the buffer. */
  method WriteHead(f: Formatter, t: char, plus: bool) returns (r: Result<(), FmtError>)
    modifies f
    ensures r == Head(f.alternate, t, plus).0 && f.buff == old(f.buff) + Head(f.alternate, t, plus).1
    ensures f.precision == old(f.precision)
  {
    if plus {
      f.WriteStr("+");
    }
    if f.alternate {
      if t == 'b' {
        f.WriteStr("0b");
      } else if t == 'o' {
        f.WriteStr("0o");
      } else if t == 'x' || t == 'X' {
        f.WriteStr("0x");
      } else {
        return Err(Invalid("alternate ('#') cannot be used with type " + DebugChar(t)));
      }
    }
    return Ok(());
  }

  /** A rejected specifier writes nothing; after the guards, the only error
      is '#' with decimal, and it leaves at most the '+' behind. */
  lemma FmtIntErrors(sp: FormatSpec, x: int, bits: nat, signed: bool)
    requires InRange(x, bits, signed) && sp.align != Alignment.Unspecified
    ensures var o := FmtIntOut(sp, x, bits, signed);
            && (!IsIntType(sp.ty) || IntegerGuards(sp).Err? ==> o.0.Err? && o.1 == [])
            && (!IsIntType(sp.ty) ==> o.0 == Err(TypeError("Unknown format code " + DebugChar(TypeChar(sp.ty)) + " for type")))
            && (IsIntType(sp.ty) && IntegerGuards(sp).Err? ==> o.0 == Err(IntegerGuards(sp).error))
            && (o.0.Err? && o.1 != [] ==>
                  o.0 == Err(Invalid("alternate ('#') cannot be used with type ' '"))
                  && o.1 == "+" && x >= 0 && sp.sign == Sign.Plus)
  {
    var o := FmtIntOut(sp, x, bits, signed);
    if IsIntType(sp.ty) && IntegerGuards(sp).Ok? {
      InRangeFits(x, bits, signed);
      EmitLayout(sp, TypeChar(sp.ty), x, Pow2(bits), x >= 0 && sp.SignPlus());
      assert DebugChar(' ') == "' '";
      assert "alternate ('#') cannot be used with type " + DebugChar(' ') ==
             "alternate ('#') cannot be used with type ' '";
    }
  }

  /** The sign is written exactly for a non-negative value with '+', and an
      accepted specifier with no room to pad yields sign, prefix and digits,
      the digits reading back as the value. */
  lemma FmtIntText(sp: FormatSpec, x: int, bits: nat, signed: bool)
    requires InRange(x, bits, signed) && sp.align != Alignment.Unspecified
    requires FmtIntOut(sp, x, bits, signed).0.Ok?
    ensures var t := TypeChar(sp.ty);
            var o := FmtIntOut(sp, x, bits, signed);
            var sign := if x >= 0 && sp.sign == Sign.Plus then "+" else "";
            var prefix := if sp.alternate then AltPrefix(t).value else "";
            var digits := IntText(x, t, Pow2(bits));
            && IsRadixType(t) && Fits(x, Pow2(bits))
            && o.1[..|sign| + |prefix|] == sign + prefix
            && (sp.width.None? || sp.width.value <= |digits| ==> o.1 == sign + prefix + digits)
            && (sp.width.Some? && sp.width.value > |digits| ==>
                  && |o.1| == |sign| + |prefix| + sp.width.value
                  && PaddedTo(o.1[|sign| + |prefix|..], digits, sp.fill, sp.align, sp.width.value))
            && (t != ' ' ==> FromRadix(digits, Radix(t)) == TwosComplement(x, Pow2(bits)))
            && (t == ' ' && x >= 0 ==> FromRadix(digits, 10) == x)
            && (t == 'x' ==> LetterCase(digits, false))
            && (t == 'X' ==> LetterCase(digits, true))
  {
    var t := TypeChar(sp.ty);
    InRangeFits(x, bits, signed);
    var plus := x >= 0 && sp.SignPlus();
    assert plus == (x >= 0 && sp.sign == Sign.Plus);
    assert FmtIntOut(sp, x, bits, signed) == Emit(sp, t, x, Pow2(bits), plus);
    EmitLayout(sp, t, x, Pow2(bits), plus);
    IntTextReadsBack(x, t, Pow2(bits));
    var o := Emit(sp, t, x, Pow2(bits), plus);
    var sign := if plus then "+" else "";
    var prefix := if sp.alternate then AltPrefix(t).value else "";
    var digits := IntText(x, t, Pow2(bits));
    if sp.width.None? || sp.width.value <= |digits| {
      assert (sign + prefix + digits)[..|sign| + |prefix|] == sign + prefix;
    }
  }
}
