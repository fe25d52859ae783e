/** The regex-based engine of src/parser.rs: `FmtChunk::from_str` turns the
    capture groups of a placeholder body into a chunk, `FmtChunk::write`
    pads and truncates the value it looks up, and `strfmt_options` runs the
    template loop of `strfmt_map` with a missing key either an error or
    left in place.

    src/parser.rs uses `FmtChunk` and `Align` without declaring them; the
    chunk is declared here with the five fields the file uses, and the
    alignment enum and the capture record are taken from src/lib.rs. The
    regular expression is not modelled: the matcher is a parameter. */
module Parser {
  import opened Wrappers
  import opened Types
  import opened RustFmt
  import opened Template
  import Lib

  /** `FmtChunk`: the parsed placeholder. */
  datatype Chunk = Chunk(identifier: string, fill: Option<char>, align: Lib.Align,
                         width: Option<nat>, precision: Option<nat>)

  const NoMatch := "Invalid format string"
  const BadWidth := "width: must be an int"

  /** `FmtChunk::from_str` after the match: `None` is a body the pattern
      does not match. */
  function FromStr(caps: Option<Lib.Caps>): Result<Chunk, FmtError>
  {
    if caps.None? then Err(Invalid(NoMatch))
    else
      var c := caps.value;
      var out := Chunk(c.ident, None, Lib.NoAlign, None, None);
      if c.fill.None? then Ok(out)
      else
        var align := if c.align.None? then Lib.NoAlign else Lib.AlignOf(c.align.value);
        if align != Lib.NoAlign then
          var width :- Lib.ParseGroup(c.width);
          var precision :- Lib.ParseGroup(c.precision);
          Ok(out.(fill := Some(c.fill.value), align := align, width := width, precision := precision))
        else if c.width.Some? && c.fill.value == '.' then
          var p :- UnwrapUsize(c.width.value);
          Ok(out.(precision := Some(p)))
        else if Lib.AlignOf(c.fill.value) != Lib.NoAlign then
          var width :- Lib.ParseGroup(c.width);
          var precision :- Lib.ParseGroup(c.precision);
          Ok(out.(align := Lib.AlignOf(c.fill.value), width := width, precision := precision))
        else
          var wstr := Lib.WidthText(c);
          if ParseUsize(wstr).None? then Err(Invalid(BadWidth))
          else
            var precision :- Lib.ParseGroup(c.precision);
            Ok(out.(width := Some(ParseUsize(wstr).value), precision := precision))
  }

  function AsFmt(ch: Chunk): Lib.Fmt
  {
    Lib.Fmt(ch.identifier, ch.fill, ch.align, ch.width, ch.precision)
  }

  /** `FmtChunk::from_str` reads the groups exactly as `Fmt::from_str` of
      src/lib.rs does; only the error type and the width message differ. */
  lemma FromStrAsLib(caps: Option<Lib.Caps>)
    ensures var r := FromStr(caps);
            var l := Lib.FromStr(caps);
            && (r.Ok? <==> l.Ok?) && (r.Ok? ==> AsFmt(r.value) == l.value)
            && (r.Panic? <==> l.Panic?)
            && (l.Err? && l.error == "Invalid format string" ==> r == Err(Invalid(NoMatch)))
            && (l.Err? && l.error != "Invalid format string" ==> r == Err(Invalid(BadWidth)))
  {
    if caps.Some? && caps.value.fill.Some? {
      var c := caps.value;
      var align := if c.align.None? then Lib.NoAlign else Lib.AlignOf(c.align.value);
      if align != Lib.NoAlign {
        GroupsAsLib(c.width, c.precision);
      } else if c.width.Some? && c.fill.value == '.' {
      } else if Lib.AlignOf(c.fill.value) != Lib.NoAlign {
        GroupsAsLib(c.width, c.precision);
      } else {
        GroupsAsLib(c.width, c.precision);
      }
    }
  }

  /** The two optional number groups parse the same under either error
      type. */
  lemma GroupsAsLib(w: Option<string>, p: Option<string>)
    ensures Lib.ParseGroup<FmtError>(w).Ok? == Lib.ParseGroup<string>(w).Ok?
    ensures Lib.ParseGroup<FmtError>(w).Ok? ==> Lib.ParseGroup<FmtError>(w).value == Lib.ParseGroup<string>(w).value
    ensures Lib.ParseGroup<FmtError>(p).Ok? == Lib.ParseGroup<string>(p).Ok?
    ensures Lib.ParseGroup<FmtError>(p).Ok? ==> Lib.ParseGroup<FmtError>(p).value == Lib.ParseGroup<string>(p).value
  {
  }

  /** Every chunk `from_str` can produce is read back from the groups that
      spell it out, and nothing else comes out of it. */
  lemma FromStrRoundTrip(ch: Chunk, caps: Option<Lib.Caps>)
    ensures Lib.Reachable(AsFmt(ch)) ==> FromStr(Some(Lib.Unparse(AsFmt(ch)))) == Ok(ch)
    ensures FromStr(caps).Ok? ==> Lib.Reachable(AsFmt(FromStr(caps).value))
  {
    if Lib.Reachable(AsFmt(ch)) {
      Lib.FromStrUnparse(AsFmt(ch));
      FromStrAsLib(Some(Lib.Unparse(AsFmt(ch))));
    }
    FromStrAsLib(caps);
    Lib.FromStrReachable(caps);
  }

  /** How many characters of the value `write` shows: at most the
      precision. */
  function Shown(ch: Chunk, v: string): (n: nat)
    ensures n <= |v|
    ensures ch.precision.Some? ==> n <= ch.precision.value
  {
    match ch.precision
    case None => |v|
    case Some(p) => if p < |v| then p else |v|
  }

  /** How far the width exceeds the shown text, or 0. */
  function Padding(ch: Chunk, v: string): nat
  {
    if ch.width.Some? && ch.width.value > Shown(ch, v) then ch.width.value - Shown(ch, v) else 0
  }

  function FillOf(ch: Chunk): char
  {
    if ch.fill.Some? then ch.fill.value else ' '
  }

  /** The fill `write` puts before the shown text. */
  function FillBefore(ch: Chunk, v: string): nat
  {
    Lib.PadBefore(ch.align, Padding(ch, v))
  }

  /** The fill `write` puts after the shown text. */
  function FillAfter(ch: Chunk, v: string): nat
  {
    Lib.PadAfter(ch.align, Padding(ch, v))
  }

  /** What `FmtChunk::write` appends for the value `v`. */
  function Written(ch: Chunk, v: string): string
  {
    Repeat(FillOf(ch), FillBefore(ch, v)) + v[..Shown(ch, v)] + Repeat(FillOf(ch), FillAfter(ch, v))
  }

  /** The layout `Written` describes: the shown prefix alone when the width
      leaves no room, otherwise exactly `width` characters with the fill all
      after for Left, split floor/ceil for Center, all before for Right and
      for no alignment. */
  lemma WrittenLayout(ch: Chunk, v: string)
    ensures var r := Written(ch, v);
            var len := Shown(ch, v);
            var fill := FillOf(ch);
            && (ch.precision.None? ==> len == |v|)
            && (ch.precision.Some? ==> len == Min(ch.precision.value, |v|))
            && (ch.width.None? || ch.width.value <= len ==> r == v[..len])
            && (ch.width.Some? && ch.width.value > len ==>
                  var d := ch.width.value - len;
                  && |r| == ch.width.value
                  && (ch.align == Lib.Left ==> Framed(r, v[..len], fill, 0, d))
                  && (ch.align == Lib.Center ==> Framed(r, v[..len], fill, d / 2, d / 2 + d % 2))
                  && (ch.align == Lib.Right || ch.align == Lib.NoAlign ==> Framed(r, v[..len], fill, d, 0)))
  {
    var len := Shown(ch, v);
    var d := Padding(ch, v);
    FramedRepeat(v[..len], FillOf(ch), FillBefore(ch, v), FillAfter(ch, v));
    if d == 0 {
      assert Repeat(FillOf(ch), 0) + v[..len] + Repeat(FillOf(ch), 0) == v[..len];
    }
  }

  /** `FmtChunk::write`: a missing key is a `KeyError` with nothing
      written; otherwise the padded, truncated value is appended. */
  method Write(ch: Chunk, s: Lib.StrBuf, vars: map<string, string>) returns (r: Result<(), FmtError>)
    modifies s
    ensures ch.identifier !in vars ==> r == Err(KeyError(ch.identifier)) && s.s == old(s.s)
    ensures ch.identifier in vars ==> r == Ok(()) && s.s == old(s.s) + Written(ch, vars[ch.identifier])
  {
    if ch.identifier !in vars {
      return Err(KeyError(ch.identifier));
    }
    var value := vars[ch.identifier];
    var len := match ch.precision
      case None => |value|
      case Some(p) => if p < |value| then p else |value|;
    var pad := 0;
    var fill := FillOf(ch);
    ghost var before := 0;
    match ch.width {
      case Some(width) =>
        if width > len {
          match ch.align {
            case Left =>
              pad := width - len;
            case Center =>
              var d := width - len;
              pad := d / 2;
              Lib.WriteChar(s, fill, pad);
              before := pad;
              pad := pad + d % 2;
            case Right | NoAlign =>
              Lib.WriteChar(s, fill, width - len);
              before := width - len;
          }
        }
      case None =>
    }
    assert len == Shown(ch, value);
    assert before == FillBefore(ch, value) && pad == FillAfter(ch, value);
    assert s.s == old(s.s) + Repeat(fill, before);
    ghost var front := s.s;
    if ch.precision.None? {
      s.Append(value);
      assert value == value[..len];
    } else {
      var _ := Lib.WriteFrom(s, value, ch.precision.value);
    }
    assert s.s == front + value[..len];
    Lib.WriteChar(s, fill, pad);
    assert s.s == old(s.s) + Repeat(fill, before) + value[..len] + Repeat(fill, pad);
    Concat4(old(s.s), Repeat(fill, before), value[..len], Repeat(fill, pad));
    assert Written(ch, value) == Repeat(fill, before) + value[..len] + Repeat(fill, pad);
    return Ok(());
  }

  /** What a placeholder of `strfmt_options` appends, given the variables,
      the `ignore_missing` switch and the matcher: a parse error always ends
      the call; a missing key ends it too, unless it is ignored, and then
      the body goes back in its braces. */
  function Place(vars: map<string, string>, ignoreMissing: bool, captures: string -> Option<Lib.Caps>,
                 body: string): Result<string, FmtError>
  {
    var ch :- FromStr(captures(body));
    if ch.identifier in vars then Ok(Written(ch, vars[ch.identifier]))
    else if ignoreMissing then Ok("{" + body + "}")
    else Err(KeyError(ch.identifier))
  }

  function Handler(vars: map<string, string>, ignoreMissing: bool, captures: string -> Option<Lib.Caps>)
    : string -> Result<string, FmtError>
  {
    body => Place(vars, ignoreMissing, captures, body)
  }

  /** The placeholder branch of `strfmt_options`: `from_str` on the body,
      then `write` into the output, and on a write error either the body
      in braces or the error. */
  method OptionsPlaceholder(body: string, out: string, vars: map<string, string>, ignoreMissing: bool,
                            captures: string -> Option<Lib.Caps>) returns (r: Result<string, FmtError>)
    ensures var p := Place(vars, ignoreMissing, captures, body);
            && (p.Ok? ==> r == Ok(out + p.value))
            && (p.Err? ==> r == Err(p.error))
            && (p.Panic? ==> r == Panic(p.message))
  {
    var fmt :- FromStr(captures(body));
    var s := new Lib.StrBuf(out);
    var w := Write(fmt, s, vars);
    if w.Err? {
      if ignoreMissing {
        s.Append("{" + body + "}");
      } else {
        return Err(w.error);
      }
    }
    return Ok(s.s);
  }

  /** `strfmt_options`: the template loop of `strfmt_map` with this file's
      placeholder handling (`OptionsPlaceholder` shows the chunk route
      computes `Handler`). */
  method StrfmtOptions(fmtstr: string, vars: map<string, string>, ignoreMissing: bool,
                       captures: string -> Option<Lib.Caps>) returns (r: Result<string, FmtError>)
    ensures r == Scanned(fmtstr, Start, Handler(vars, ignoreMissing, captures))
  {
    r := RunTemplate(fmtstr, Handler(vars, ignoreMissing, captures));
  }

  /** A missing key: with `ignore_missing` the body is kept in its braces,
      without it the call fails with the key; a body `from_str` rejects
      fails either way. */
  lemma MissingKey(vars: map<string, string>, ignoreMissing: bool, captures: string -> Option<Lib.Caps>, body: string)
    ensures var c := FromStr(captures(body));
            var p := Place(vars, ignoreMissing, captures, body);
            && (c.Ok? && c.value.identifier !in vars && ignoreMissing ==> p == Ok("{" + body + "}"))
            && (c.Ok? && c.value.identifier !in vars && !ignoreMissing ==> p == Err(KeyError(c.value.identifier)))
            && (c.Err? ==> p == Err(c.error) && c.error.Invalid?)
            && (c.Panic? ==> p.Panic?)
  {
  }

  /** With `ignore_missing`, `strfmt_options` never fails for a key: every
      error it returns is `Invalid`. */
  lemma IgnoreMissingNoKeyError(fmtstr: string, vars: map<string, string>, captures: string -> Option<Lib.Caps>)
    ensures var r := Scanned(fmtstr, Start, Handler(vars, true, captures));
            r.Err? ==> r.error.Invalid?
  {
    var h := Handler(vars, true, captures);
    forall b | h(b).Err? ensures h(b).error.Invalid? {
      MissingKey(vars, true, captures, b);
    }
    OnlyInvalid(fmtstr, Start, h);
  }
}
