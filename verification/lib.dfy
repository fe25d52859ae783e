/** The oldest template engine, src/lib.rs: a placeholder is matched by a
    regular expression whose capture groups `Fmt::from_str` turns into a
    record, and `Fmt::write` pads or truncates the value it looks up.

    The regular expression itself is not modelled: `strfmt` takes the
    matcher as a function from placeholder text to capture groups. This
    engine has its own error type, a bare message. */
module Lib {
  import opened Wrappers
  import opened RustFmt

  /** A Rust `String` the writers append to in place. */
  class StrBuf {
    var s: string

    constructor (init: string)
      ensures s == init
    {
      s := init;
    }

    method Push(c: char)
      modifies this
      ensures s == old(s) + [c]
    {
      s := s + [c];
    }

    method Append(t: string)
      modifies this
      ensures s == old(s) + t
    {
      s := s + t;
    }

    method Clear()
      modifies this
      ensures s == []
    {
      s := [];
    }
  }

  /** `write_char`: appends `n` copies of `c`. */
  method WriteChar(b: StrBuf, c: char, n: nat)
    modifies b
    ensures b.s == old(b.s) + Repeat(c, n)
  {
    for i := 0 to n
      invariant b.s == old(b.s) + Repeat(c, i)
    {
      b.Push(c);
      RepeatSnoc(c, i);
    }
  }

  /** `write_from`: copies characters of `src` until `n` have been written or
      `src` runs out, and says how many were written; nothing for `n == 0`. */
  method WriteFrom(b: StrBuf, src: string, n: nat) returns (written: nat)
    modifies b
    ensures written == (if n == 0 then 0 else Min(n, |src|))
    ensures b.s == old(b.s) + src[..written]
  {
    if n == 0 {
      return 0;
    }
    written := 0;
    for i := 0 to |src|
      invariant written == i < n
      invariant b.s == old(b.s) + src[..i]
    {
      b.Push(src[i]);
      assert src[..i + 1] == src[..i] + [src[i]];
      written := written + 1;
      if written == n {
        return written;
      }
    }
    assert src[..|src|] == src;
  }

  /** `Align`; `NoAlign` is the source's `Align::None`. */
  datatype Align = Left | Center | Right | NoAlign

  /** The alignment an alignment character names. */
  function AlignOf(c: char): (a: Align)
    ensures a != NoAlign <==> c == '<' || c == '^' || c == '>'
  {
    if c == '<' then Left
    else if c == '^' then Center
    else if c == '>' then Right
    else NoAlign
  }

  /** The five capture groups of the placeholder pattern: 1 the identifier,
      2 a fill character, 3 an alignment character, 4 the width digits and
      5 the precision digits. */
  datatype Captures = Captures(ident: string, fill: Option<char>, align: Option<char>,
                               width: Option<string>, precision: Option<string>)

  predicate Digits(s: string)
  {
    s != [] && forall k :: 0 <= k < |s| ==> IsDecimalDigit(s[k])
  }

  /** What the pattern guarantees of its groups: the alignment is one of
      '<', '^', '>', and a digit group holds at least one ASCII digit. */
  predicate Matched(c: Captures)
  {
    && (c.align.Some? ==> AlignOf(c.align.value) != NoAlign)
    && (c.width.Some? ==> Digits(c.width.value))
    && (c.precision.Some? ==> Digits(c.precision.value))
  }

  type Caps = c: Captures | Matched(c) witness Captures("x", None, None, None, None)

  /** `FmtError`, a bare message. */
  datatype FmtError = FmtError(msg: string)

  /** `Fmt`: the parsed placeholder. */
  datatype Fmt = Fmt(identifier: string, fill: Option<char>, align: Align,
                     width: Option<nat>, precision: Option<nat>)

  /** An optional digit group read with `parse::<usize>().unwrap()`. */
  function ParseGroup<E>(g: Option<string>): (r: Result<Option<nat>, E>)
    ensures !r.Err?
    ensures r.Ok? <==> g.None? || ParseUsize(g.value).Some?
    ensures r.Ok? ==> r.value.Some? == g.Some? && (g.Some? ==> Some(r.value.value) == ParseUsize(g.value))
  {
    match g
    case None => Ok(None)
    case Some(d) =>
      var n :- UnwrapUsize(d);
      Ok(Some(n))
  }

  /** `Fmt::from_str` after the match: `None` is a text the pattern does
      not match. */
  function FromStr(caps: Option<Caps>): Result<Fmt, string>
  {
    if caps.None? then Err("Invalid format string")
    else
      var c := caps.value;
      var out := Fmt(c.ident, None, NoAlign, None, None);
      if c.fill.None? then Ok(out)
      else
        var align := if c.align.None? then NoAlign else AlignOf(c.align.value);
        if align != NoAlign then
          var width :- ParseGroup(c.width);
          var precision :- ParseGroup(c.precision);
          Ok(out.(fill := Some(c.fill.value), align := align, width := width, precision := precision))
        else if c.width.Some? && c.fill.value == '.' then
          var p :- UnwrapUsize(c.width.value);
          Ok(out.(precision := Some(p)))
        else if AlignOf(c.fill.value) != NoAlign then
          var width :- ParseGroup(c.width);
          var precision :- ParseGroup(c.precision);
          Ok(out.(align := AlignOf(c.fill.value), width := width, precision := precision))
        else
          var wstr := WidthText(c);
          if ParseUsize(wstr).None? then Err("invalid width: must be an int")
          else
            var precision :- ParseGroup(c.precision);
            Ok(out.(width := Some(ParseUsize(wstr).value), precision := precision))
  }

  /** The fill group followed by the width group, read as the width when
      there is no alignment. */
  function WidthText(c: Captures): string
    requires c.fill.Some?
  {
    [c.fill.value] + (if c.width.Some? then c.width.value else [])
  }

  /** The records `from_str` can produce: a fill only with an alignment, and
      numbers a `usize` holds. */
  predicate Reachable(f: Fmt)
  {
    && (f.fill.Some? ==> f.align != NoAlign)
    && (f.width.Some? ==> f.width.value < UsizeModulus)
    && (f.precision.Some? ==> f.precision.value < UsizeModulus)
  }

  function AlignChar(a: Align): char
  {
    match a
    case Left => '<'
    case Center => '^'
    case Right => '>'
    case NoAlign => ' '
  }

  function DecimalGroup(n: Option<nat>): (g: Option<string>)
    ensures g.Some? ==> Digits(g.value)
  {
    if n.None? then None
    else
      DecimalTextDigits(n.value);
      Some(ToRadix(n.value, 10, false))
  }

  /** Capture groups that spell out a record in the most direct way: the
      alignment in its own group when there is a fill, in the fill group
      otherwise; a width split over the fill and width groups when there is
      no alignment; a precision alone after a '.' in the fill group. */
  function Unparse(f: Fmt): Caps
  {
    var w := DecimalGroup(f.width);
    var p := DecimalGroup(f.precision);
    if f.fill.Some? then
      if f.align == NoAlign then Captures(f.identifier, None, None, None, None)
      else Captures(f.identifier, f.fill, Some(AlignChar(f.align)), w, p)
    else if f.align != NoAlign then Captures(f.identifier, Some(AlignChar(f.align)), None, w, p)
    else if f.width.Some? then
      var t := w.value;
      Captures(f.identifier, Some(t[0]), None, if |t| > 1 then Some(t[1..]) else None, p)
    else if f.precision.Some? then Captures(f.identifier, Some('.'), None, p, None)
    else Captures(f.identifier, None, None, None, None)
  }

  lemma DecimalGroupParses(n: Option<nat>)
    requires n.Some? ==> n.value < UsizeModulus
    ensures ParseGroup<string>(DecimalGroup(n)) == Ok(n)
  {
    if n.Some? {
      ParseUsizeDecimal(n.value);
    }
  }

  /** Every record `from_str` can produce is read back from the groups that
      spell it out. */
  lemma FromStrUnparse(f: Fmt)
    requires Reachable(f)
    ensures FromStr(Some(Unparse(f))) == Ok(f)
  {
    DecimalGroupParses(f.width);
    DecimalGroupParses(f.precision);
    if f.fill.Some? {
      UnparseAligned(f);
    } else if f.align != NoAlign {
      UnparseBareAlign(f);
    } else if f.width.Some? {
      UnparseWidth(f);
    } else if f.precision.Some? {
      UnparsePrecision(f);
    }
  }

  lemma UnparseAligned(f: Fmt)
    requires Reachable(f) && f.fill.Some?
    requires ParseGroup<string>(DecimalGroup(f.width)) == Ok(f.width)
    requires ParseGroup<string>(DecimalGroup(f.precision)) == Ok(f.precision)
    ensures FromStr(Some(Unparse(f))) == Ok(f)
  {
    assert AlignOf(AlignChar(f.align)) == f.align;
  }

  lemma UnparseBareAlign(f: Fmt)
    requires Reachable(f) && f.fill.None? && f.align != NoAlign
    requires ParseGroup<string>(DecimalGroup(f.width)) == Ok(f.width)
    requires ParseGroup<string>(DecimalGroup(f.precision)) == Ok(f.precision)
    ensures FromStr(Some(Unparse(f))) == Ok(f)
  {
    assert AlignOf(AlignChar(f.align)) == f.align;
  }

  lemma UnparseWidth(f: Fmt)
    requires Reachable(f) && f.fill.None? && f.align == NoAlign && f.width.Some?
    requires ParseGroup<string>(DecimalGroup(f.precision)) == Ok(f.precision)
    ensures FromStr(Some(Unparse(f))) == Ok(f)
  {
    var c := Unparse(f);
    DigitFillText(f.width.value, c);
    FromStrDigitFill(c, f.width.value, f.precision);
  }

  /** The decimal text of a width split into a first digit and the rest is
      read back whole. */
  lemma DigitFillText(n: nat, c: Captures)
    requires n < UsizeModulus
    requires var t := ToRadix(n, 10, false);
             c.fill == Some(t[0]) && c.width == (if |t| > 1 then Some(t[1..]) else None)
    ensures c.fill.Some? && IsDecimalDigit(c.fill.value) && ParseUsize(WidthText(c)) == Some(n)
  {
    var t := ToRadix(n, 10, false);
    ParseUsizeDecimal(n);
    DecimalTextDigits(n);
    assert WidthText(c) == t by {
      if |t| > 1 {
        assert [t[0]] + t[1..] == t;
      }
    }
  }

  /** A digit in the fill group and no alignment group: fill and width
      groups are read together as the width. */
  lemma FromStrDigitFill(c: Caps, w: nat, p: Option<nat>)
    requires c.fill.Some? && IsDecimalDigit(c.fill.value) && c.align.None?
    requires ParseUsize(WidthText(c)) == Some(w) && ParseGroup<string>(c.precision) == Ok(p)
    ensures FromStr(Some(c)) == Ok(Fmt(c.ident, None, NoAlign, Some(w), p))
  {
    assert AlignOf(c.fill.value) == NoAlign && c.fill.value != '.';
  }

  lemma UnparsePrecision(f: Fmt)
    requires Reachable(f) && f.fill.None? && f.align == NoAlign && f.width.None? && f.precision.Some?
    ensures FromStr(Some(Unparse(f))) == Ok(f)
  {
    ParseUsizeDecimal(f.precision.value);
  }

  /** Whatever `from_str` produces is such a record. */
  lemma FromStrReachable(caps: Option<Caps>)
    ensures FromStr(caps).Ok? ==> Reachable(FromStr(caps).value)
  {
  }

  /** The errors of `from_str`: no match, or, with neither an alignment
      group nor a '.' or an alignment character in the fill group, fill and
      width digits that do not read as a `usize`; that is always the case
      for a fill that is not a digit or a '+' before width digits. A digit
      group too large for a `usize` panics instead. */
  lemma FromStrErrors(caps: Option<Caps>)
    ensures caps.None? ==> FromStr(caps) == Err("Invalid format string")
    ensures FromStr(caps).Err? && caps.Some? ==>
              var c := caps.value;
              && FromStr(caps) == Err("invalid width: must be an int")
              && c.fill.Some? && c.align.None? && AlignOf(c.fill.value) == NoAlign
              && !(c.fill.value == '.' && c.width.Some?)
              && ParseUsize(WidthText(c)).None?
    ensures caps.Some? && caps.value.fill.Some? && caps.value.align.None? ==>
              var c := caps.value;
              AlignOf(c.fill.value) == NoAlign && c.fill.value != '.' && !IsDecimalDigit(c.fill.value)
              && !(c.fill.value == '+' && c.width.Some?) ==>
                FromStr(caps) == Err("invalid width: must be an int")
    ensures FromStr(caps).Panic? ==>
              && caps.Some?
              && ((caps.value.width.Some? && ParseUsize(caps.value.width.value).None?) ||
                  (caps.value.precision.Some? && ParseUsize(caps.value.precision.value).None?))
  {
    if caps.Some? && caps.value.fill.Some? && caps.value.align.None? {
      var c := caps.value;
      if AlignOf(c.fill.value) == NoAlign && c.fill.value != '.' && !IsDecimalDigit(c.fill.value)
         && !(c.fill.value == '+' && c.width.Some?) {
        ParseUsizeRejects(WidthText(c), 0);
      }
    }
  }

  /** The cases of `from_str` on a match: no fill group gives the bare
      identifier; an alignment group takes the fill as it is; otherwise a
      '.' fill turns the width digits into the precision, and an alignment
      character in the fill group becomes the alignment with no fill. */
  lemma FromStrCases(c: Caps)
    ensures c.fill.None? ==> FromStr(Some(c)) == Ok(Fmt(c.ident, None, NoAlign, None, None))
    ensures c.fill.Some? && c.align.Some? ==>
              match FromStr(Some(c))
              case Ok(f) => f == Fmt(c.ident, c.fill, AlignOf(c.align.value), f.width, f.precision)
                            && ParseGroup<string>(c.width) == Ok(f.width) && ParseGroup<string>(c.precision) == Ok(f.precision)
              case _ => true
    ensures c.fill == Some('.') && c.align.None? && c.width.Some? && ParseUsize(c.width.value).Some? ==>
              FromStr(Some(c)) == Ok(Fmt(c.ident, None, NoAlign, None, ParseUsize(c.width.value)))
    ensures c.fill.Some? && c.align.None? && AlignOf(c.fill.value) != NoAlign ==>
              match FromStr(Some(c))
              case Ok(f) => f.fill.None? && f.align == AlignOf(c.fill.value)
                            && ParseGroup<string>(c.width) == Ok(f.width) && ParseGroup<string>(c.precision) == Ok(f.precision)
              case _ => true
  {
  }

  /** The fill characters before and after a value `d` characters narrower
      than its field: all before for Right and for no alignment. */
  function PadBefore(a: Align, d: nat): nat
  {
    match a
    case Left => 0
    case Center => d / 2
    case _ => d
  }

  function PadAfter(a: Align, d: nat): nat
  {
    match a
    case Left => d
    case Center => d / 2 + d % 2
    case _ => 0
  }

  function FillOf(f: Fmt): char
  {
    if f.fill.Some? then f.fill.value else ' '
  }

  /** Whether `Fmt::write` pads the whole value out to the width. */
  predicate PadsWidth(f: Fmt, v: string)
  {
    f.width.Some? && f.width.value > |v|
  }

  /** How many characters of the value `Fmt::write` keeps: all of them when
      it pads to the width or has no precision, else at most the precision. */
  function Kept(f: Fmt, v: string): (n: nat)
    ensures n <= |v|
  {
    if PadsWidth(f, v) || f.precision.None? then |v| else Min(f.precision.value, |v|)
  }

  /** The fill before and after the kept text: the alignment's share of the
      width, or, with Left alignment and no room to pad, up to the precision. */
  function FillBefore(f: Fmt, v: string): nat
  {
    if PadsWidth(f, v) then PadBefore(f.align, f.width.value - |v|) else 0
  }

  function FillAfter(f: Fmt, v: string): nat
  {
    if PadsWidth(f, v) then PadAfter(f.align, f.width.value - |v|)
    else if f.precision.Some? && f.precision.value > |v| && f.align == Left then f.precision.value - |v|
    else 0
  }

  /** What `Fmt::write` appends for the value `v`. */
  function Written(f: Fmt, v: string): string
  {
    Repeat(FillOf(f), FillBefore(f, v)) + v[..Kept(f, v)] + Repeat(FillOf(f), FillAfter(f, v))
  }

  /** The layout `Written` describes, in terms of the field. */
  lemma WrittenLayout(f: Fmt, v: string)
    ensures var r := Written(f, v);
            var fill := FillOf(f);
            && (f.width.Some? && f.width.value > |v| ==>
                  var d := f.width.value - |v|;
                  && |r| == f.width.value
                  && (f.align == Left ==> Framed(r, v, fill, 0, d))
                  && (f.align == Center ==> Framed(r, v, fill, d / 2, d / 2 + d % 2))
                  && (f.align == Right || f.align == NoAlign ==> Framed(r, v, fill, d, 0)))
            && (f.width.None? || f.width.value <= |v| ==>
                  && (f.precision.None? ==> r == v)
                  && (f.precision.Some? && f.precision.value <= |v| ==> r == v[..f.precision.value])
                  && (f.precision.Some? && f.precision.value > |v| && f.align != Left ==> r == v)
                  && (f.precision.Some? && f.precision.value > |v| && f.align == Left ==>
                        |r| == f.precision.value && Framed(r, v, fill, 0, f.precision.value - |v|)))
  {
    var fill := FillOf(f);
    assert v[..|v|] == v;
    FramedRepeat(v[..Kept(f, v)], fill, FillBefore(f, v), FillAfter(f, v));
    if !PadsWidth(f, v) && FillAfter(f, v) == 0 {
      assert Repeat(fill, 0) + v[..Kept(f, v)] + Repeat(fill, 0) == v[..Kept(f, v)];
    }
  }

  lemma Concat5(o: string, a: string, b: string, c: string, r: string)
    ensures o + a + b + c + r == o + (a + (b + c) + r)
  {
  }

  lemma WrittenUnpadded(f: Fmt, v: string)
    requires FillBefore(f, v) == 0 && FillAfter(f, v) == 0
    ensures Written(f, v) == v[..Kept(f, v)]
  {
    assert Repeat(FillOf(f), 0) == [];
  }

  const InvalidIdentifier := "invalid identifier: "

  /** `Fmt::write`: an unknown identifier replaces the buffer's text by the
      message and answers false; otherwise the padded or cut value is
      appended. */
  method Write(f: Fmt, s: StrBuf, vars: map<string, string>) returns (ok: bool)
    modifies s
    ensures f.identifier !in vars ==> !ok && s.s == InvalidIdentifier + f.identifier
    ensures f.identifier in vars ==> ok && s.s == old(s.s) + Written(f, vars[f.identifier])
  {
    if f.identifier !in vars {
      s.Clear();
      s.Append(InvalidIdentifier + f.identifier);
      return false;
    }
    var value := vars[f.identifier];
    var len := |value|;
    var pad := 0;
    var fill := FillOf(f);
    var precision: Option<nat> := None;
    ghost var before := 0;
    match f.width {
      case Some(width) =>
        if width > len {
          match f.align {
            case Left =>
              pad := width - len;
            case Center =>
              var d := width - len;
              pad := d / 2;
              WriteChar(s, fill, pad);
              before := pad;
              pad := pad + d % 2;
            case Right | NoAlign =>
              WriteChar(s, fill, width - len);
              before := width - len;
          }
        } else {
          precision := f.precision;
        }
      case None =>
        match f.precision {
          case Some(prec) => precision := Some(prec);
          case None =>
        }
    }
    ghost var padded := f.width.Some? && f.width.value > len;
    assert padded ==> before == PadBefore(f.align, f.width.value - len) && pad == PadAfter(f.align, f.width.value - len);
    assert !padded ==> before == 0 && pad == 0 && precision == f.precision;
    assert s.s == old(s.s) + Repeat(fill, before);
    var n := 0;
    match precision {
      case Some(prec) =>
        n := WriteFrom(s, value, prec);
        if n < prec {
          match f.align {
            case Left =>
              pad := prec - n;
            case _ =>
              assert n == Kept(f, value) && FillAfter(f, value) == 0;
              WrittenUnpadded(f, value);
              return true;
          }
        } else {
          assert n == Kept(f, value) && FillAfter(f, value) == 0;
          WrittenUnpadded(f, value);
          return true;
        }
      case None =>
    }
    assert n <= len && s.s == old(s.s) + Repeat(fill, before) + value[..n];
    assert before == FillBefore(f, value);
    assert pad == FillAfter(f, value);
    assert Kept(f, value) == len;
    ghost var front := s.s;
    s.Append(value[n..]);
    WriteChar(s, fill, pad);
    assert s.s == front + value[n..] + Repeat(fill, pad);
    assert value[..n] + value[n..] == value[..len];
    Concat5(old(s.s), Repeat(fill, before), value[..n], value[n..], Repeat(fill, pad));
    assert Written(f, value) == Repeat(fill, before) + value[..len] + Repeat(fill, pad);
    assert s.s == old(s.s) + Written(f, value);
    return true;
  }

  /** What a placeholder of `strfmt` appends, given the matcher and the
      variables: the text of `Written`, or the error that ends the call.
      The pattern handed over keeps its braces. */
  function Place(vars: map<string, string>, captures: string -> Option<Caps>, pattern: string): Result<string, FmtError>
  {
    match FromStr(captures(pattern))
    case Err(e) => Err(FmtError(e))
    case Panic(m) => Panic(m)
    case Ok(f) =>
      if f.identifier in vars then Ok(Written(f, vars[f.identifier]))
      else Err(FmtError(InvalidIdentifier + f.identifier))
  }

  function Handler(vars: map<string, string>, captures: string -> Option<Caps>): string -> Result<string, FmtError>
  {
    pattern => Place(vars, captures, pattern)
  }

  /** The placeholder branch of `strfmt`: `from_str` on the pattern, then
      `write` into the output, whose text after a failed write is the
      error's message. */
  method WritePlaceholder(pattern: string, out: StrBuf, vars: map<string, string>, captures: string -> Option<Caps>)
    returns (r: Result<(), FmtError>)
    modifies out
    ensures var p := Place(vars, captures, pattern);
            && (p.Ok? ==> r == Ok(()) && out.s == old(out.s) + p.value)
            && (p.Err? ==> r == Err(p.error))
            && (p.Panic? ==> r == Panic(p.message))
  {
    match FromStr(captures(pattern)) {
      case Ok(fmt) =>
        var ok := Write(fmt, out, vars);
        if !ok {
          return Err(FmtError(out.s));
        }
        return Ok(());
      case Err(err) =>
        return Err(FmtError(err));
      case Panic(m) =>
        return Panic(m);
    }
  }

  /** The state of `strfmt` between two characters: the output so far and
      the body read since an open '{', if any. */
  datatype Scan = Scan(out: string, field: Option<string>)

  const Start := Scan([], None)

  const ExtraOpen := "extra { found"

  /** One character of `strfmt`. A '{' inside a placeholder is always an
      error, so "{{" is no escape; a '}' outside one is copied. */
  function Step(c: char, st: Scan, h: string -> Result<string, FmtError>): Result<Scan, FmtError>
  {
    if c == '{' then
      if st.field.None? then Ok(st.(field := Some([])))
      else Err(FmtError(ExtraOpen))
    else if c == '}' then
      if st.field.None? then Ok(st.(out := st.out + [c]))
      else
        var text :- h("{" + st.field.value + "}");
        Ok(Scan(st.out + text, None))
    else if st.field.None? then Ok(st.(out := st.out + [c]))
    else Ok(st.(field := Some(st.field.value + [c])))
  }

  /** The outcome of `strfmt` on the unread text `rest` from state `st`; at
      the end the output is returned whether or not a placeholder is open. */
  function Scanned(rest: string, st: Scan, h: string -> Result<string, FmtError>): Result<string, FmtError>
    decreases |rest|
  {
    if rest == [] then Ok(st.out)
    else
      var next :- Step(rest[0], st, h);
      Scanned(rest[1..], next, h)
  }

  /** A '}' closing an open placeholder hands the pattern to the handler. */
  lemma StepClose(st: Scan, h: string -> Result<string, FmtError>)
    requires st.field.Some?
    ensures var p := h("{" + st.field.value + "}");
            && (p.Ok? ==> Step('}', st, h) == Ok(Scan(st.out + p.value, None)))
            && (p.Err? ==> Step('}', st, h) == Err(p.error))
            && (p.Panic? ==> Step('}', st, h) == Panic(p.message))
  {
  }

  lemma Advance(s: string, i: nat, st: Scan, next: Scan, h: string -> Result<string, FmtError>)
    requires i < |s| && Step(s[i], st, h) == Ok(next)
    ensures Scanned(s[i + 1..], next, h) == Scanned(s[i..], st, h)
  {
    assert s[i..][1..] == s[i + 1..];
  }

  lemma Halt(s: string, i: nat, st: Scan, h: string -> Result<string, FmtError>)
    requires i < |s| && !Step(s[i], st, h).Ok?
    ensures Step(s[i], st, h).Err? ==> Scanned(s[i..], st, h) == Err(Step(s[i], st, h).error)
    ensures Step(s[i], st, h).Panic? ==> Scanned(s[i..], st, h) == Panic(Step(s[i], st, h).message)
  {
    assert s[i..][0] == s[i];
  }

  /** The steps of the loop one branch at a time: a '{' outside a
      placeholder opens one. */
  lemma OpenAt(s: string, i: nat, st: Scan, h: string -> Result<string, FmtError>)
    requires i < |s| && s[i] == '{' && st.field.None?
    ensures Scanned(s[i + 1..], st.(field := Some([])), h) == Scanned(s[i..], st, h)
  {
    Advance(s, i, st, st.(field := Some([])), h);
  }

  /** A '{' inside a placeholder ends the scan. */
  lemma ExtraOpenAt(s: string, i: nat, st: Scan, h: string -> Result<string, FmtError>)
    requires i < |s| && s[i] == '{' && st.field.Some?
    ensures Scanned(s[i..], st, h) == Err(FmtError(ExtraOpen))
  {
    Halt(s, i, st, h);
  }

  /** A '}' closing a placeholder hands the pattern, braces included, to
      the handler. */
  lemma CloseFieldAt(s: string, i: nat, st: Scan, h: string -> Result<string, FmtError>)
    requires i < |s| && s[i] == '}' && st.field.Some?
    ensures var p := h("{" + st.field.value + "}");
            && (p.Ok? ==> Scanned(s[i + 1..], Scan(st.out + p.value, None), h) == Scanned(s[i..], st, h))
            && (p.Err? ==> Scanned(s[i..], st, h) == Err(p.error))
            && (p.Panic? ==> Scanned(s[i..], st, h) == Panic(p.message))
  {
    StepClose(st, h);
    if h("{" + st.field.value + "}").Ok? {
      Advance(s, i, st, Scan(st.out + h("{" + st.field.value + "}").value, None), h);
    } else {
      Halt(s, i, st, h);
    }
  }

  /** Any other character, and a '}' outside a placeholder, is copied
      outside a placeholder; inside one it joins the body. */
  lemma TextAt(s: string, i: nat, st: Scan, h: string -> Result<string, FmtError>)
    requires i < |s| && s[i] != '{' && (s[i] == '}' ==> st.field.None?)
    ensures st.field.None? ==> Scanned(s[i + 1..], st.(out := st.out + [s[i]]), h) == Scanned(s[i..], st, h)
    ensures st.field.Some? ==>
              Scanned(s[i + 1..], st.(field := Some(st.field.value + [s[i]])), h) == Scanned(s[i..], st, h)
  {
    if st.field.None? {
      Advance(s, i, st, st.(out := st.out + [s[i]]), h);
    } else {
      Advance(s, i, st, st.(field := Some(st.field.value + [s[i]])), h);
    }
  }

  /** The two cuts `strfmt` makes when a '}' closes a placeholder: the
      pattern from the opening brace to this one, and the text after it. */
  method SplitPattern(remaining: string, openingBrace: nat, bytesRead: nat)
    returns (fmtPattern: string, rest: string)
    requires openingBrace < bytesRead <= |remaining|
    ensures fmtPattern == remaining[openingBrace..][..bytesRead - openingBrace]
    ensures rest == remaining[openingBrace..][bytesRead - openingBrace..]
    ensures remaining[openingBrace..] == fmtPattern + rest
  {
    var front := remaining[openingBrace..];
    fmtPattern := front[..bytesRead - openingBrace];
    rest := front[bytesRead - openingBrace..];
  }

  /** `strfmt`: one pass over the template; a placeholder's pattern, braces
      included, goes through `from_str` and `write` (`WritePlaceholder`
      shows that route appends what `Handler` gives). */
  method Strfmt(fmtstr: string, vars: map<string, string>, captures: string -> Option<Caps>)
    returns (r: Result<string, FmtError>)
    ensures r == Scanned(fmtstr, Start, Handler(vars, captures))
  {
    r := RunStrfmt(fmtstr, Handler(vars, captures));
  }

  /** The loop of `strfmt`, for any placeholder handler `place`. */
  method RunStrfmt(fmtstr: string, place: string -> Result<string, FmtError>)
    returns (r: Result<string, FmtError>)
    ensures r == Scanned(fmtstr, Start, place)
  {
    var out: string := [];
    var bytesRead: nat := 0;
    var openingBrace: nat := 0;
    var readingFmt := false;
    var remaining := fmtstr;
    ghost var h := place;
    ghost var base := 0;
    ghost var field: Option<string> := None;
    ghost var ob := 0;
    ghost var goal := Scanned(fmtstr, Start, h);
    for i := 0 to |fmtstr|
      invariant base <= i && remaining == fmtstr[base..] && bytesRead == i - base
      invariant readingFmt <==> field.Some?
      invariant readingFmt ==> base <= ob < i && openingBrace == ob - base && fmtstr[ob] == '{'
                               && field.value == fmtstr[ob + 1..i]
      invariant Scanned(fmtstr[i..], Scan(out, field), h) == goal
    {
      var c := fmtstr[i];
      ghost var st := Scan(out, field);
      bytesRead := bytesRead + 1;
      if c == '{' {
        if readingFmt && openingBrace == bytesRead - 1 {
          // "{{": the opening brace always lies before the current one
          assert false;
        } else if !readingFmt {
          OpenAt(fmtstr, i, st, h);
          readingFmt := true;
          openingBrace := bytesRead - 1;
          ob := i;
          field := Some([]);
        } else {
          ExtraOpenAt(fmtstr, i, st, h);
          out := [];
          out := out + ExtraOpen;
          assert out == ExtraOpen;
          return Err(FmtError(out));
        }
      } else if c == '}' {
        if !readingFmt {
          TextAt(fmtstr, i, st, h);
          out := out + [c];
        } else {
          PatternSlices(fmtstr, base, ob, i, openingBrace, bytesRead);
          var fmtPattern;
          fmtPattern, remaining := SplitPattern(remaining, openingBrace, bytesRead);
          CloseFieldAt(fmtstr, i, st, h);
          var res := place(fmtPattern);
          if !res.Ok? {
            return res.PropagateFailure();
          }
          out := out + res.value;
          readingFmt := false;
          bytesRead := 0;
          base := i + 1;
          field := None;
        }
      } else if !readingFmt {
        TextAt(fmtstr, i, st, h);
        out := out + [c];
      } else {
        TextAt(fmtstr, i, st, h);
        SliceSnoc(fmtstr, ob + 1, i);
        field := Some(field.value + [c]);
      }
    }
    return Ok(out);
  }

  predicate NoOpen(t: string)
  {
    forall k :: 0 <= k < |t| ==> t[k] != '{'
  }

  predicate NoBrace(t: string)
  {
    forall k :: 0 <= k < |t| ==> t[k] != '{' && t[k] != '}'
  }

  /** Outside a placeholder, text without '{' is copied, '}' included. */
  lemma {:induction false} CopyText(t: string, rest: string, out: string, h: string -> Result<string, FmtError>)
    requires NoOpen(t)
    ensures Scanned(t + rest, Scan(out, None), h) == Scanned(rest, Scan(out + t, None), h)
    decreases |t|
  {
    if t != [] {
      assert (t + rest)[0] == t[0] && (t + rest)[1..] == t[1..] + rest;
      assert Step(t[0], Scan(out, None), h) == Ok(Scan(out + [t[0]], None));
      CopyText(t[1..], rest, out + [t[0]], h);
      assert out + [t[0]] + t[1..] == out + t;
    } else {
      assert t + rest == rest && out + t == out;
    }
  }

  /** Inside a placeholder, text without braces joins the body. */
  lemma {:induction false} ReadBody(b: string, rest: string, out: string, acc: string, h: string -> Result<string, FmtError>)
    requires NoBrace(b)
    ensures Scanned(b + rest, Scan(out, Some(acc)), h) == Scanned(rest, Scan(out, Some(acc + b)), h)
    decreases |b|
  {
    if b != [] {
      assert (b + rest)[0] == b[0] && (b + rest)[1..] == b[1..] + rest;
      assert Step(b[0], Scan(out, Some(acc)), h) == Ok(Scan(out, Some(acc + [b[0]])));
      ReadBody(b[1..], rest, out, acc + [b[0]], h);
      assert acc + [b[0]] + b[1..] == acc + b;
    } else {
      assert b + rest == rest && acc + b == acc;
    }
  }

  /** A template without '{' comes out unchanged, a lone '}' included. */
  lemma CopiesClosingBrace(t: string, h: string -> Result<string, FmtError>)
    requires NoOpen(t)
    ensures Scanned(t, Start, h) == Ok(t)
  {
    CopyText(t, [], [], h);
    assert t + [] == t && [] + t == t;
  }

  /** A second '{' inside a placeholder is always an error, also right after
      the first: "{{" is no escape here. */
  lemma DoubleOpenFails(t: string, b: string, rest: string, h: string -> Result<string, FmtError>)
    requires NoOpen(t) && NoBrace(b)
    ensures Scanned(t + ("{" + b + "{" + rest), Start, h) == Err(FmtError(ExtraOpen))
  {
    var x := "{" + b + "{" + rest;
    CopyText(t, x, [], h);
    assert x[0] == '{' && x[1..] == b + ("{" + rest);
    ReadBody(b, "{" + rest, [] + t, [], h);
  }

  /** A placeholder still open at the end is dropped, and the text before
      it is the result. */
  lemma UnclosedDropped(t: string, b: string, h: string -> Result<string, FmtError>)
    requires NoOpen(t) && NoBrace(b)
    ensures Scanned(t + ("{" + b), Start, h) == Ok(t)
  {
    var x := "{" + b;
    CopyText(t, x, [], h);
    assert x[0] == '{' && x[1..] == b + [];
    ReadBody(b, [], [] + t, [], h);
    assert [] + t == t;
  }

  /** A placeholder after plain text: the handler sees the pattern with its
      braces, and its text follows the copied text. */
  lemma PlaceholderAfterText(t: string, b: string, rest: string, h: string -> Result<string, FmtError>)
    requires NoOpen(t) && NoBrace(b)
    ensures var p := h("{" + b + "}");
            && (p.Ok? ==> Scanned(t + ("{" + b + "}" + rest), Start, h) == Scanned(rest, Scan(t + p.value, None), h))
            && (p.Err? ==> Scanned(t + ("{" + b + "}" + rest), Start, h) == Err(p.error))
            && (p.Panic? ==> Scanned(t + ("{" + b + "}" + rest), Start, h) == Panic(p.message))
  {
    var x := "{" + b + "}" + rest;
    CopyText(t, x, [], h);
    assert x[0] == '{' && x[1..] == b + ("}" + rest);
    ReadBody(b, "}" + rest, [] + t, [], h);
    assert [] + b == b && [] + t == t;
    StepClose(Scan(t, Some(b)), h);
    assert ("}" + rest)[0] == '}' && ("}" + rest)[1..] == rest;
  }

  lemma SliceSnoc(s: string, lo: nat, hi: nat)
    requires lo <= hi < |s|
    ensures s[lo..hi + 1] == s[lo..hi] + [s[hi]]
  {
  }

  /** The pattern cut out of the unread text is the placeholder with its
      braces, and the text after it is the rest of the template. */
  lemma PatternSlices(s: string, base: nat, ob: nat, i: nat, o: nat, n: nat)
    requires base <= ob < i < |s| && s[ob] == '{' && s[i] == '}'
    requires o == ob - base && n == i + 1 - base
    ensures s[base..][o..][..n - o] == "{" + s[ob + 1..i] + "}"
    ensures s[base..][o..][n - o..] == s[i + 1..]
  {
    assert s[base..][o..] == s[ob..];
    assert s[ob..][..n - o] == s[ob..i + 1];
    assert s[ob..i + 1] == [s[ob]] + s[ob + 1..i] + [s[i]];
  }
}
