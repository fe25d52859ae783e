/** `Formatter::u16` (src/fmtu16.rs), the older unsigned renderer: the
    `is_int_type` check with its own message (spelled "Unkown" in the
    source), then the guards, and '+' whenever the sign is '+'. */
module FmtU16 {
  import opened Wrappers
  import opened Types
  import opened RustFmt
  import opened Formatting
  import opened FmtStr
  import opened FmtNum

  /** The number of u16 bit patterns, 2^16. */
  const U16Modulus: nat := 0x1_0000

  /** A u16 value. */
  predicate IsU16(u: int)
  {
    0 <= u < U16Modulus
  }

  /** The u16 range is the unsigned 16-bit range of `fmtint`. */
  lemma U16Range(u: int)
    ensures IsU16(u) <==> InRange(u, 16, false)
    ensures Pow2(16) == U16Modulus
  {
    Pow2Widths();
  }

  /** The message for a type letter `u16` does not render. */
  function U16TypeMessage(c: char): string
  {
    "Unkown format code " + DebugChar(c) + " for object type u16"
  }

  /** The outcome of `Formatter::u16` for `u`, and the text it appends. */
  function U16Out(sp: FormatSpec, u: int): (Result<(), FmtError>, string)
    requires IsU16(u) && sp.align != Alignment.Unspecified
  {
    var t := TypeChar(sp.ty);
    if !IsIntType(sp.ty) then
      (Err(TypeError(U16TypeMessage(t))), [])
    else if IntegerGuards(sp).Err? then
      (Err(IntegerGuards(sp).error), [])
    else
      Emit(sp, t, u, U16Modulus, sp.SignPlus())
  }

  /** `Formatter::u16`: the type check, the guards, then '+' and the prefix
      straight to the buffer and the digits through `str_unchecked`. */
  method U16(f: Formatter, u: int) returns (r: Result<(), FmtError>)
    requires IsU16(u) && f.align != Alignment.Unspecified
    modifies f
    ensures var o := U16Out(old(f.Spec()), u);
            && (o.0.Panic? ==> r.Panic?)
            && (!o.0.Panic? ==> r == o.0 && f.buff == old(f.buff) + o.1)
  {
    var ty := TypeChar(f.ty);
    if !IsIntType(f.ty) {
      return Err(TypeError("Unkown format code " + DebugChar(ty) + " for object type u16"));
    }
    if f.precision != None {
      return Err(TypeError("precision not allowed for integers"));
    } else if f.thousands {
      return Err(Invalid("thousands specifier not yet supported"));
    } else if f.fill == '0' && f.align == Alignment.Right {
      return Err(Invalid("sign aware 0 padding not yet supported"));
    }
    r := EmitInto(f, ty, u, U16Modulus, f.Spec().SignPlus());
  }

  /** A type that is not an integer type is rejected with the `u16` message
      and nothing written; otherwise `u16` behaves as `fmtint` at 16
      unsigned bits, the missing sign test making no difference for a value
      that cannot be negative. */
  lemma U16TypeCheck(sp: FormatSpec, u: int)
    requires IsU16(u) && sp.align != Alignment.Unspecified
    ensures var o := U16Out(sp, u);
            && (!IsIntType(sp.ty) ==> o == (Err(TypeError(U16TypeMessage(sp.ty.value))), []))
            && (IsIntType(sp.ty) ==> InRange(u, 16, false) && o == FmtIntOut(sp, u, 16, false))
  {
    U16Range(u);
  }

  /** The guards, in order, each writing nothing. */
  lemma U16Guards(sp: FormatSpec, u: int)
    requires IsU16(u) && sp.align != Alignment.Unspecified && IsIntType(sp.ty)
    ensures var o := U16Out(sp, u);
            && (sp.precision.Some? ==> o == (Err(TypeError("precision not allowed for integers")), []))
            && (sp.precision.None? && sp.thousands ==>
                  o == (Err(Invalid("thousands specifier not yet supported")), []))
            && (sp.precision.None? && !sp.thousands && sp.fill == '0' && sp.align == Alignment.Right ==>
                  o == (Err(Invalid("sign aware 0 padding not yet supported")), []))
  {
  }
}
