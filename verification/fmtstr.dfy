/** String rendering and the template driver of src/fmtstr.rs: the two
    buffer writers, the `str` guard chain, the padding and truncation of
    `str_unchecked`, and `strfmt_map`. */
module FmtStr {
  import opened Wrappers
  import opened Types
  import opened RustFmt
  import opened Formatting
  import opened Template

  /** `write_char`: appends `n` copies of `c` to the formatter's buffer. */
  method WriteChar(f: Formatter, c: char, n: nat)
    modifies f
    ensures f.buff == old(f.buff) + Repeat(c, n) && f.precision == old(f.precision)
  {
    for i := 0 to n
      invariant f.buff == old(f.buff) + Repeat(c, i) && f.precision == old(f.precision)
    {
      f.WriteStr([c]);
      RepeatSnoc(c, i);
    }
  }

  /** `write_from`: copies characters of `src` until `n` have been written or
      `src` runs out, and says how many were written; nothing for `n == 0`. */
  method WriteFrom(f: Formatter, src: string, n: nat) returns (written: nat)
    modifies f
    ensures written == (if n == 0 then 0 else Min(n, |src|))
    ensures f.buff == old(f.buff) + src[..written] && f.precision == old(f.precision)
  {
    if n == 0 {
      return 0;
    }
    written := 0;
    for i := 0 to |src|
      invariant written == i < n
      invariant f.buff == old(f.buff) + src[..i] && f.precision == old(f.precision)
    {
      f.WriteStr([src[i]]);
      assert src[..i + 1] == src[..i] + [src[i]];
      written := written + 1;
      if written == n {
        return written;
      }
    }
    assert src[..|src|] == src;
  }

  /** The guard chain of `str`, in the source's order. Only a string type
      (none or 's'), no '#', no ',' and no sign pass. */
  function StrCheck(sp: FormatSpec): (r: Result<(), FmtError>)
    ensures !r.Panic?
    ensures r.Ok? <==> (sp.ty == None || sp.ty == Some('s')) && !sp.alternate && !sp.thousands
                       && sp.sign == Sign.Unspecified
    ensures r.Err? ==> r.error.TypeError?
    ensures sp.ty != None && sp.ty != Some('s') ==>
              r == Err(TypeError("Unknown format code " + DebugOptionChar(sp.ty) + " for object of type 'str'"))
    ensures (sp.ty == None || sp.ty == Some('s')) && sp.alternate ==>
              r == Err(TypeError("Alternate form (#) not allowed in string format specifier"))
    ensures (sp.ty == None || sp.ty == Some('s')) && !sp.alternate && sp.thousands ==>
              r == Err(TypeError("Cannot specify ',' with 's'"))
    ensures (sp.ty == None || sp.ty == Some('s')) && !sp.alternate && !sp.thousands && sp.sign != Sign.Unspecified ==>
              r == Err(TypeError("Sign not allowed in string format specifier"))
  {
    if !(sp.ty == None || sp.ty == Some('s')) then
      Err(TypeError("Unknown format code " + DebugOptionChar(sp.ty) + " for object of type 'str'"))
    else if sp.alternate then
      Err(TypeError("Alternate form (#) not allowed in string format specifier"))
    else if sp.thousands then
      Err(TypeError("Cannot specify ',' with 's'"))
    else if IsUnspecified(sp.sign) then
      Err(TypeError("Sign not allowed in string format specifier"))
    else
      Ok(())
  }

  /** How many characters of `s` are shown: the precision limits the length. */
  function Shown(s: string, precision: Option<nat>): (n: nat)
    ensures n <= |s|
    ensures precision.None? ==> n == |s|
    ensures precision.Some? ==> n == Min(precision.value, |s|)
  {
    match precision
    case Some(p) => if p < |s| then p else |s|
    case None => |s|
  }

  /** The fill characters written before and after the text when the field
      is `d` characters wider than the text: all after for Left, all before for
      Right, and for Center half before (rounded down) and the rest after. */
  function FillBefore(align: Alignment, d: nat): nat
  {
    match align
    case Center => d / 2
    case Right => d
    case _ => 0
  }

  function FillAfter(align: Alignment, d: nat): nat
  {
    match align
    case Left => d
    case Center => d / 2 + d % 2
    case _ => 0
  }

  /** What `str_unchecked` appends: the shown prefix of `s`, padded with
      `fill` up to `width` when the width exceeds it. Equal alignment with
      padding to do is the `panic!` of the source. */
  function Padded(s: string, fill: char, align: Alignment, width: Option<nat>,
                  precision: Option<nat>): (r: Result<string, FmtError>)
    requires align != Alignment.Unspecified
    ensures !r.Err?
    ensures r.Panic? <==> align == Alignment.Equal && width.Some? && width.value > Shown(s, precision)
  {
    var len := Shown(s, precision);
    var body := s[..len];
    if width.Some? && width.value > len then
      var d := width.value - len;
      if align == Alignment.Equal then Panic("not yet supported")
      else Ok(Repeat(fill, FillBefore(align, d)) + body + Repeat(fill, FillAfter(align, d)))
    else
      Ok(body)
  }

  /** The layout `Padded` produces: without room to pad, exactly the shown
      prefix; otherwise exactly `width` characters, the prefix framed by fill
      according to the alignment, with the centre split floor(d/2) before and
      ceil(d/2) after. */
  lemma PaddedLayout(s: string, fill: char, align: Alignment, width: Option<nat>, precision: Option<nat>)
    requires align != Alignment.Unspecified
    ensures var r := Padded(s, fill, align, width, precision);
            var len := Shown(s, precision);
            && (width.None? || width.value <= len ==> r == Ok(s[..len]))
            && (width.Some? && width.value > len && align != Alignment.Equal ==>
                  var d := width.value - len;
                  && r.Ok? && |r.value| == width.value
                  && (align == Alignment.Left ==> Framed(r.value, s[..len], fill, 0, d))
                  && (align == Alignment.Right ==> Framed(r.value, s[..len], fill, d, 0))
                  && (align == Alignment.Center ==> Framed(r.value, s[..len], fill, d / 2, d / 2 + d % 2)))
  {
    var len := Shown(s, precision);
    if width.Some? && width.value > len && align != Alignment.Equal {
      var d := width.value - len;
      FramedRepeat(s[..len], fill, FillBefore(align, d), FillAfter(align, d));
    }
  }

  lemma PaddedParts(s: string, fill: char, align: Alignment, width: Option<nat>, precision: Option<nat>, before: nat, after: nat)
    requires align != Alignment.Unspecified
    requires width.Some? && width.value > Shown(s, precision) ==> align != Alignment.Equal && before == FillBefore(align, width.value - Shown(s, precision)) && after == FillAfter(align, width.value - Shown(s, precision))
    requires !(width.Some? && width.value > Shown(s, precision)) ==> before == 0 && after == 0
    ensures Padded(s, fill, align, width, precision) == Ok(Repeat(fill, before) + s[..Shown(s, precision)] + Repeat(fill, after))
  {
    if !(width.Some? && width.value > Shown(s, precision)) {
      assert Repeat(fill, 0) + s[..Shown(s, precision)] + Repeat(fill, 0) == s[..Shown(s, precision)];
    }
  }

  /** `str_unchecked`: appends `s` truncated to the precision and padded to the
      width, as `Padded` describes. */
  method StrUnchecked(f: Formatter, s: string) returns (r: Result<(), FmtError>)
    requires f.align != Alignment.Unspecified
    modifies f
    ensures f.precision == old(f.precision)
    ensures var p := Padded(s, f.fill, f.align, f.width, old(f.precision));
            && (p.Ok? ==> r == Ok(()) && f.buff == old(f.buff) + p.value)
            && (p.Panic? ==> r.Panic?)
  {
    var fill := f.fill;
    var width := f.width;
    var precision := f.precision;
    var align := f.align;
    var len := match precision
      case Some(p) => if p < |s| then p else |s|
      case None => |s|;
    var pad := 0;
    ghost var before := 0;
    if width.Some? {
      var w := width.value;
      ghost var d := w - len;
      if w > len {
        match align {
          case Left =>
            pad := w - len;
          case Center =>
            w := w - len;
            pad := w / 2;
            WriteChar(f, fill, pad);
            before := pad;
            pad := pad + w % 2;
          case Right =>
            WriteChar(f, fill, w - len);
            before := w - len;
          case Equal =>
            return Panic("not yet supported");
        }
        assert before == FillBefore(align, d) && pad == FillAfter(align, d);
      }
    }
    assert f.buff == old(f.buff) + Repeat(fill, before);
    var _ := WriteFrom(f, s, len);
    WriteChar(f, fill, pad);
    assert f.buff == old(f.buff) + Repeat(fill, before) + s[..len] + Repeat(fill, pad);
    PaddedParts(s, fill, align, width, precision, before, pad);
    Concat4(old(f.buff), Repeat(fill, before), s[..len], Repeat(fill, pad));
    return Ok(());
  }

  /** `str`: the guard chain, then `str_unchecked`. A failing guard appends
      nothing. */
  method Str(f: Formatter, s: string) returns (r: Result<(), FmtError>)
    requires f.align != Alignment.Unspecified
    modifies f
    ensures f.precision == old(f.precision)
    ensures StrCheck(old(f.Spec())).Err? ==> r == StrCheck(old(f.Spec())) && f.buff == old(f.buff)
    ensures StrCheck(old(f.Spec())).Ok? ==>
              var p := Padded(s, f.fill, f.align, f.width, old(f.precision));
              && (p.Ok? ==> r == Ok(()) && f.buff == old(f.buff) + p.value)
              && (p.Panic? ==> r.Panic?)
  {
    var check := StrCheck(f.Spec());
    if check.Err? {
      return check;
    }
    r := StrUnchecked(f, s);
  }

  /** What the callback of `strfmt_map` sees for one placeholder body: the
      parsed settings, or the parse error, which aborts the call. */
  function MapPlaceholder(f: FormatSpec -> Result<string, FmtError>, body: string): Result<string, FmtError>
  {
    var sp :- ParseSpec(body);
    f(sp)
  }

  function Handler(f: FormatSpec -> Result<string, FmtError>): string -> Result<string, FmtError>
  {
    body => MapPlaceholder(f, body)
  }

  /** The placeholder branch of `strfmt_map`: a formatter over `out` is
      built from the body and handed to the callback, whose text lands in
      `out`; either failure is passed on unchanged. */
  method FormatPlaceholder(body: string, out: string, f: FormatSpec -> Result<string, FmtError>)
    returns (r: Result<string, FmtError>)
    ensures MapPlaceholder(f, body).Ok? ==> r == Ok(out + MapPlaceholder(f, body).value)
    ensures MapPlaceholder(f, body).Err? ==> r == Err(MapPlaceholder(f, body).error)
    ensures MapPlaceholder(f, body).Panic? ==> r == Panic(MapPlaceholder(f, body).message)
  {
    var fmt :- FromStr(body, out);
    var text :- f(fmt.Spec());
    fmt.WriteStr(text);
    return Ok(fmt.buff);
  }

  /** `strfmt_map`: the template loop, where a placeholder's body goes
      through `Formatter::from_str` and the callback (`FormatPlaceholder`
      shows the formatter route computes `Handler(f)`). */
  method StrfmtMap(fmtstr: string, f: FormatSpec -> Result<string, FmtError>) returns (r: Result<string, FmtError>)
    ensures r == Scanned(fmtstr, Start, Handler(f))
  {
    r := RunTemplate(fmtstr, Handler(f));
  }
}
