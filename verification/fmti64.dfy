/** `Formatter::i64` (src/fmti64.rs), the older signed renderer: its own type
    check and message, then the same guards and writing steps as `fmtint`. */
module FmtI64 {
  import opened Wrappers
  import opened Types
  import opened RustFmt
  import opened Formatting
  import opened FmtStr
  import opened FmtNum

  /** The number of i64 bit patterns, 2^64. */
  const I64Modulus: nat := 0x1_0000_0000_0000_0000

  /** An i64 value. */
  predicate IsI64(i: int)
  {
    -0x8000_0000_0000_0000 <= i < 0x8000_0000_0000_0000
  }

  /** The i64 range is the signed 64-bit range of `fmtint`, and 2^64 its
      modulus. */
  lemma I64Range(i: int)
    ensures IsI64(i) <==> InRange(i, 64, true)
    ensures Pow2(64) == I64Modulus
  {
    Pow2Widths();
  }

  /** The message for a type letter `i64` does not render. */
  function I64TypeMessage(c: char): string
  {
    "Unknown format code " + DebugChar(c) + " for object of type i64"
  }

  /** The outcome of `Formatter::i64` for `i`, and the text it appends. */
  function I64Out(sp: FormatSpec, i: int): (Result<(), FmtError>, string)
    requires IsI64(i) && sp.align != Alignment.Unspecified
  {
    if !IsIntType(sp.ty) then
      (Err(TypeError(I64TypeMessage(sp.ty.value))), [])
    else if IntegerGuards(sp).Err? then
      (Err(IntegerGuards(sp).error), [])
    else
      Emit(sp, TypeChar(sp.ty), i, I64Modulus, i >= 0 && sp.SignPlus())
  }

  /** `Formatter::i64`: the type check, the guards, then '+' and the prefix
      straight to the buffer and the digits through `str_unchecked`. */
  method I64(f: Formatter, i: int) returns (r: Result<(), FmtError>)
    requires IsI64(i) && f.align != Alignment.Unspecified
    modifies f
    ensures var o := I64Out(old(f.Spec()), i);
            && (o.0.Panic? ==> r.Panic?)
            && (!o.0.Panic? ==> r == o.0 && f.buff == old(f.buff) + o.1)
  {
    var ty := TypeChar(f.ty);
    if !IsIntType(f.ty) {
      return Err(TypeError("Unknown format code " + DebugChar(ty) + " for object of type i64"));
    }
    if f.precision != None {
      return Err(TypeError("precision not allowed for integers"));
    } else if f.thousands {
      return Err(Invalid("thousands specifier not yet supported"));
    } else if f.fill == '0' && f.align == Alignment.Right {
      return Err(Invalid("sign aware 0 padding not yet supported"));
    }
    r := EmitInto(f, ty, i, I64Modulus, i >= 0 && f.Spec().SignPlus());
  }

  /** Only b, o, x and X (or no type) pass the type check, which the
      message names; after it `i64` behaves as `fmtint` at 64 signed bits. */
  lemma I64TypeCheck(sp: FormatSpec, i: int)
    requires IsI64(i) && sp.align != Alignment.Unspecified
    ensures var o := I64Out(sp, i);
            && (!IsIntType(sp.ty) ==> o == (Err(TypeError(I64TypeMessage(sp.ty.value))), []))
            && (IsIntType(sp.ty) ==> InRange(i, 64, true) && o == FmtIntOut(sp, i, 64, true))
  {
    I64Range(i);
  }

  /** A rejected specifier writes nothing, and the guards run in the order
      precision, thousands, then '0' fill with right alignment. */
  lemma I64Guards(sp: FormatSpec, i: int)
    requires IsI64(i) && sp.align != Alignment.Unspecified && IsIntType(sp.ty)
    ensures var o := I64Out(sp, i);
            && (sp.precision.Some? ==> o == (Err(TypeError("precision not allowed for integers")), []))
            && (sp.precision.None? && sp.thousands ==>
                  o == (Err(Invalid("thousands specifier not yet supported")), []))
            && (sp.precision.None? && !sp.thousands && sp.fill == '0' && sp.align == Alignment.Right ==>
                  o == (Err(Invalid("sign aware 0 padding not yet supported")), []))
  {
  }
}
