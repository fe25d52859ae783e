/** The template language read by `strfmt_map` (src/fmtstr.rs) and
    `strfmt_options` (src/parser.rs): literal text, the escapes `{{` and `}}`,
    and placeholders `{body}`.

    Both functions run the same single-pass state machine over the template
    and differ only in what they do with a placeholder's body; `Scanned` is
    that machine as a function of the unread text, parameterised by the
    placeholder handler. A handler returns the text it appends, or the error
    that aborts the whole call. */
module Template {
  import opened Wrappers
  import opened Types

  const SingleClose := "Single '}' encountered in format string"
  const ExpectedClose := "Expected '}' before end of string"
  const ExtraOpen := "extra { found"

  predicate IsBrace(c: char)
  {
    c == '{' || c == '}'
  }

  predicate BraceFree(s: string)
  {
    forall k :: 0 <= k < |s| ==> !IsBrace(s[k])
  }

  /** The state between two characters: the text produced so far, whether a
      single '}' is pending, and the body read since an open '{', if any. */
  datatype Scan = Scan(out: string, closing: bool, field: Option<string>)

  const Start := Scan([], false, None)

  /** A character read while a placeholder is open becomes part of its body. */
  function Read(st: Scan, c: char): (r: Scan)
    ensures r.out == st.out && r.closing == st.closing && r.field.Some? == st.field.Some?
  {
    if st.field.Some? then st.(field := Some(st.field.value + [c])) else st
  }

  /** One character: the next state, or the outcome that ends the scan. */
  function Step(c: char, st: Scan, h: string -> Result<string, FmtError>): Result<Scan, FmtError>
  {
    if c == '{' then
      if st.field == Some([]) then Ok(st.(out := st.out + ['{'], field := None))
      else if st.field.None? then Ok(st.(field := Some([])))
      else Err(Invalid(ExtraOpen))
    else if c == '}' then
      if st.field.None? && !st.closing then Ok(st.(closing := true))
      else if st.closing then Ok(Read(st, c).(out := st.out + ['}'], closing := false))
      else
        var text :- h(st.field.value);
        Ok(Scan(st.out + text, false, None))
    else if st.closing then Err(Invalid(SingleClose))
    else if st.field.None? then Ok(st.(out := st.out + [c]))
    else Ok(Read(st, c))
  }

  /** The end of the template: a pending '}' or an open placeholder is an
      error, otherwise the text produced. */
  function Finish(st: Scan): Result<string, FmtError>
  {
    if st.closing then Err(Invalid(SingleClose))
    else if st.field.Some? then Err(Invalid(ExpectedClose))
    else Ok(st.out)
  }

  /** The outcome of scanning `rest` from state `st`. */
  function Scanned(rest: string, st: Scan, h: string -> Result<string, FmtError>): Result<string, FmtError>
    decreases |rest|
  {
    if rest == [] then Finish(st)
    else
      var next :- Step(rest[0], st, h);
      Scanned(rest[1..], next, h)
  }

  /** Scanning a non-empty text is one step, then the rest, or the step's
      failure. */
  lemma ScanCons(rest: string, st: Scan, h: string -> Result<string, FmtError>)
    requires rest != []
    ensures Step(rest[0], st, h).Ok? ==> Scanned(rest, st, h) == Scanned(rest[1..], Step(rest[0], st, h).value, h)
    ensures Step(rest[0], st, h).Err? ==> Scanned(rest, st, h) == Err(Step(rest[0], st, h).error)
    ensures Step(rest[0], st, h).Panic? ==> Scanned(rest, st, h) == Panic(Step(rest[0], st, h).message)
  {
  }

  /** A step that succeeds hands the rest of the text to the next state. */
  lemma ScanStep(rest: string, st: Scan, h: string -> Result<string, FmtError>, next: Scan)
    requires rest != [] && Step(rest[0], st, h) == Ok(next)
    ensures Scanned(rest, st, h) == Scanned(rest[1..], next, h)
  {
  }

  /** A '}' closing an open placeholder hands its body to the handler. */
  lemma StepClose(st: Scan, h: string -> Result<string, FmtError>)
    requires st.field.Some? && !st.closing
    ensures h(st.field.value).Ok? ==> Step('}', st, h) == Ok(Scan(st.out + h(st.field.value).value, false, None))
    ensures h(st.field.value).Err? ==> Step('}', st, h) == Err(h(st.field.value).error)
    ensures h(st.field.value).Panic? ==> Step('}', st, h) == Panic(h(st.field.value).message)
  {
  }

  /** A step that fails ends the scan with its failure. */
  lemma ScanStop(rest: string, st: Scan, h: string -> Result<string, FmtError>)
    requires rest != [] && !Step(rest[0], st, h).Ok?
    ensures Step(rest[0], st, h).Err? ==> Scanned(rest, st, h) == Err(Step(rest[0], st, h).error)
    ensures Step(rest[0], st, h).Panic? ==> Scanned(rest, st, h) == Panic(Step(rest[0], st, h).message)
  {
  }

  /** The scanner's own errors are all `Invalid`, so when the handler only
      fails with `Invalid`, so does the whole scan. */
  lemma {:induction false} OnlyInvalid(rest: string, st: Scan, h: string -> Result<string, FmtError>)
    requires forall b :: h(b).Err? ==> h(b).error.Invalid?
    ensures Scanned(rest, st, h).Err? ==> Scanned(rest, st, h).error.Invalid?
    decreases |rest|
  {
    if rest != [] {
      var s := Step(rest[0], st, h);
      if s.Ok? {
        OnlyInvalid(rest[1..], s.value, h);
      }
    }
  }

  /** A well-formed template, piece by piece. */
  datatype Piece = Lit(c: char) | OpenEsc | CloseEsc | Field(body: string)

  predicate WellFormed(ps: seq<Piece>)
  {
    forall k :: 0 <= k < |ps| ==>
      (ps[k].Lit? ==> !IsBrace(ps[k].c)) && (ps[k].Field? ==> BraceFree(ps[k].body))
  }

  function PieceText(p: Piece): string
  {
    match p
    case Lit(c) => [c]
    case OpenEsc => "{{"
    case CloseEsc => "}}"
    case Field(b) => "{" + b + "}"
  }

  /** The template text of a sequence of pieces. */
  function Print(ps: seq<Piece>): string
  {
    if ps == [] then [] else PieceText(ps[0]) + Print(ps[1..])
  }

  /** What a piece stands for: its character, one brace, or the handler's text. */
  function PieceOut(p: Piece, h: string -> Result<string, FmtError>): Result<string, FmtError>
  {
    match p
    case Lit(c) => Ok([c])
    case OpenEsc => Ok("{")
    case CloseEsc => Ok("}")
    case Field(b) => h(b)
  }

  /** The expected result: the pieces' outputs left to right, stopping at the
      first failing placeholder. */
  function Expected(ps: seq<Piece>, h: string -> Result<string, FmtError>): Result<string, FmtError>
  {
    if ps == [] then Ok([])
    else
      var head :- PieceOut(ps[0], h);
      var tail :- Expected(ps[1..], h);
      Ok(head + tail)
  }

  /** After text that produced `r`: on success, scanning goes on from a clean
      state with the produced text appended; a failure ends the scan. */
  function Continue(r: Result<string, FmtError>, x: string, out: string,
                    h: string -> Result<string, FmtError>): Result<string, FmtError>
  {
    if r.Ok? then Scanned(x, Scan(out + r.value, false, None), h)
    else if r.Err? then Err(r.error)
    else Panic(r.message)
  }

  /** Text without braces is copied as it is. */
  lemma {:induction false} ScanPlain(rest: string, out: string, h: string -> Result<string, FmtError>)
    requires BraceFree(rest)
    ensures Scanned(rest, Scan(out, false, None), h) == Ok(out + rest)
    decreases |rest|
  {
    if rest != [] {
      assert !IsBrace(rest[0]);
      assert BraceFree(rest[1..]) by {
        forall k | 0 <= k < |rest[1..]| ensures !IsBrace(rest[1..][k]) {
          assert rest[1..][k] == rest[k + 1];
        }
      }
      ScanPlain(rest[1..], out + [rest[0]], h);
      assert out + [rest[0]] + rest[1..] == out + rest;
    } else {
      assert out + rest == out;
    }
  }

  /** Brace-free text inside an open placeholder only extends its body. */
  lemma {:induction false} ScanBody(b: string, rest: string, out: string, acc: string,
                                    h: string -> Result<string, FmtError>)
    requires BraceFree(b)
    ensures Scanned(b + rest, Scan(out, false, Some(acc)), h) ==
            Scanned(rest, Scan(out, false, Some(acc + b)), h)
    decreases |b|
  {
    if b == [] {
      assert b + rest == rest;
      assert acc + b == acc;
    } else {
      assert (b + rest)[0] == b[0];
      assert (b + rest)[1..] == b[1..] + rest;
      ScanBody(b[1..], rest, out, acc + [b[0]], h);
      assert acc + [b[0]] + b[1..] == acc + b;
    }
  }

  /** One step over the first piece of a template. */
  lemma ScanPiece(p: Piece, x: string, out: string, h: string -> Result<string, FmtError>)
    requires WellFormed([p])
    ensures Scanned(PieceText(p) + x, Scan(out, false, None), h) ==
            Continue(PieceOut(p, h), x, out, h)
  {
    var t := PieceText(p) + x;
    assert [p][0] == p;
    match p
    case Lit(c) =>
      assert t[0] == c && t[1..] == x;
    case OpenEsc =>
      assert t[0] == '{' && t[1..][0] == '{' && t[1..][1..] == x;
    case CloseEsc =>
      assert t[0] == '}' && t[1..][0] == '}' && t[1..][1..] == x;
    case Field(b) =>
      assert t[0] == '{' && t[1..] == b + ("}" + x);
      ScanBody(b, "}" + x, out, [], h);
      assert [] + b == b;
      assert ("}" + x)[0] == '}' && ("}" + x)[1..] == x;
  }

  /** A well-formed template followed by any text: the pieces are rendered,
      then scanning goes on from a clean state. */
  lemma {:induction false} ScanTemplate(ps: seq<Piece>, x: string, out: string,
                                        h: string -> Result<string, FmtError>)
    requires WellFormed(ps)
    ensures Scanned(Print(ps) + x, Scan(out, false, None), h) ==
            Continue(Expected(ps, h), x, out, h)
    decreases |ps|
  {
    if ps == [] {
      assert Print(ps) + x == x;
      assert out + [] == out;
    } else {
      assert WellFormed([ps[0]]) by {
        assert [ps[0]][0] == ps[0];
      }
      assert WellFormed(ps[1..]) by {
        forall k | 0 <= k < |ps[1..]| ensures (ps[1..][k].Lit? ==> !IsBrace(ps[1..][k].c)) &&
                                              (ps[1..][k].Field? ==> BraceFree(ps[1..][k].body)) {
          assert ps[1..][k] == ps[k + 1];
        }
      }
      assert Print(ps) + x == PieceText(ps[0]) + (Print(ps[1..]) + x);
      ScanPiece(ps[0], Print(ps[1..]) + x, out, h);
      var head := PieceOut(ps[0], h);
      if head.Ok? {
        ScanTemplate(ps[1..], x, out + head.value, h);
        var tail := Expected(ps[1..], h);
        if tail.Ok? {
          assert out + head.value + tail.value == out + (head.value + tail.value);
        }
      }
    }
  }

  /** A well-formed template produces the pieces' outputs in order. */
  lemma RenderTemplate(ps: seq<Piece>, h: string -> Result<string, FmtError>)
    requires WellFormed(ps)
    ensures Scanned(Print(ps), Start, h) == Expected(ps, h)
  {
    ScanTemplate(ps, [], [], h);
    assert Print(ps) + [] == Print(ps);
    if Expected(ps, h).Ok? {
      assert [] + Expected(ps, h).value == Expected(ps, h).value;
    }
  }

  /** A template without braces comes back unchanged. */
  lemma PlainTextUnchanged(t: string, h: string -> Result<string, FmtError>)
    requires BraceFree(t)
    ensures Scanned(t, Start, h) == Ok(t)
  {
    ScanPlain(t, [], h);
    assert [] + t == t;
  }

  /** A single '}' followed by anything but a brace, or by the end of the
      template, is an error. */
  lemma StrayClose(ps: seq<Piece>, c: char, rest: string, h: string -> Result<string, FmtError>)
    requires WellFormed(ps) && Expected(ps, h).Ok? && !IsBrace(c)
    ensures Scanned(Print(ps) + (['}', c] + rest), Start, h) == Err(Invalid(SingleClose))
    ensures Scanned(Print(ps) + "}", Start, h) == Err(Invalid(SingleClose))
  {
    ScanTemplate(ps, ['}', c] + rest, [], h);
    ScanTemplate(ps, "}", [], h);
    var x := ['}', c] + rest;
    assert x[0] == '}' && x[1..][0] == c && c != '{' && c != '}';
    var st := Scan([] + Expected(ps, h).value, true, None);
    assert Scanned(x[1..], st, h) == Err(Invalid(SingleClose));
    assert "}"[1..] == [];
  }

  /** The template ends inside a placeholder. */
  lemma UnclosedPlaceholder(ps: seq<Piece>, b: string, h: string -> Result<string, FmtError>)
    requires WellFormed(ps) && Expected(ps, h).Ok? && BraceFree(b)
    ensures Scanned(Print(ps) + ("{" + b), Start, h) == Err(Invalid(ExpectedClose))
  {
    var out := [] + Expected(ps, h).value;
    ScanTemplate(ps, "{" + b, [], h);
    assert ("{" + b)[0] == '{' && ("{" + b)[1..] == b + [];
    ScanBody(b, [], out, [], h);
  }

  /** From a clean state, an open placeholder whose body is followed by a
      second '{'. */
  lemma OpenBodyOpen(b: string, rest: string, out: string, h: string -> Result<string, FmtError>)
    requires BraceFree(b) && b != []
    ensures Scanned("{" + b + "{" + rest, Scan(out, false, None), h) == Err(Invalid(ExtraOpen))
  {
    var x := "{" + b + "{" + rest;
    var y := "{" + rest;
    assert x[0] == '{' && x[1..] == b + y;
    assert Scanned(x, Scan(out, false, None), h) == Scanned(b + y, Scan(out, false, Some([])), h);
    ScanBody(b, y, out, [], h);
    assert [] + b == b;
    assert y[0] == '{';
  }

  /** A '{' inside a placeholder that does not directly follow its opener. */
  lemma ExtraOpenBrace(ps: seq<Piece>, b: string, rest: string, h: string -> Result<string, FmtError>)
    requires WellFormed(ps) && Expected(ps, h).Ok? && BraceFree(b) && b != []
    ensures Scanned(Print(ps) + ("{" + b + "{" + rest), Start, h) == Err(Invalid(ExtraOpen))
  {
    ScanTemplate(ps, "{" + b + "{" + rest, [], h);
    OpenBodyOpen(b, rest, [] + Expected(ps, h).value, h);
  }

  lemma SliceSnoc(s: string, lo: nat, hi: nat)
    requires lo <= hi < |s|
    ensures s[lo..hi + 1] == s[lo..hi] + [s[hi]]
  {
  }

  /** The body and the rest, cut out of the text after the last
      placeholder, are the same cuts of the whole template. */
  lemma SubSlices(s: string, base: nat, ob: nat, i: nat, o: nat, n: nat)
    requires base <= ob < i < |s|
    requires o == ob - base && n == i + 1 - base
    ensures s[base..][o + 1..n - 1] == s[ob + 1..i]
    ensures s[base..][n..] == s[i + 1..]
  {
  }

  /** A '}' closing the placeholder opened at offset `openingBrace`: the
      body between the braces is cut out of `remaining` and handed to
      `place`, whose text is appended to `out`; `remaining` moves past the
      '}'. */
  method CloseField(remaining: string, openingBrace: nat, bytesRead: nat, out: string,
                    place: string -> Result<string, FmtError>)
    returns (res: Result<string, FmtError>, rest: string)
    requires openingBrace + 1 < bytesRead <= |remaining|
    ensures rest == remaining[bytesRead..]
    ensures var body := remaining[openingBrace + 1..bytesRead - 1];
            && (place(body).Ok? ==> res == Ok(out + place(body).value))
            && (place(body).Err? ==> res == Err(place(body).error))
            && (place(body).Panic? ==> res == Panic(place(body).message))
  {
    var tail := remaining[openingBrace..];
    var fmtPattern := tail[..bytesRead - openingBrace];
    rest := tail[bytesRead - openingBrace..];
    fmtPattern := fmtPattern[1..];
    fmtPattern := fmtPattern[..|fmtPattern| - 1];
    assert fmtPattern == remaining[openingBrace + 1..bytesRead - 1];
    var text :- place(fmtPattern);
    res := Ok(out + text);
  }

  /** The loop invariant of `strfmt_map` carried over one successful step. */
  lemma Advance(s: string, i: nat, st: Scan, next: Scan, h: string -> Result<string, FmtError>)
    requires i < |s| && Step(s[i], st, h) == Ok(next)
    ensures Scanned(s[i + 1..], next, h) == Scanned(s[i..], st, h)
  {
    assert s[i..][0] == s[i] && s[i..][1..] == s[i + 1..];
    ScanStep(s[i..], st, h, next);
  }

  /** A failing step ends `strfmt_map` with that failure. */
  lemma Halt(s: string, i: nat, st: Scan, h: string -> Result<string, FmtError>)
    requires i < |s| && !Step(s[i], st, h).Ok?
    ensures Step(s[i], st, h).Err? ==> Scanned(s[i..], st, h) == Err(Step(s[i], st, h).error)
    ensures Step(s[i], st, h).Panic? ==> Scanned(s[i..], st, h) == Panic(Step(s[i], st, h).message)
  {
    assert s[i..][0] == s[i];
    ScanStop(s[i..], st, h);
  }

  /** The steps of the loop one branch at a time: a first '{' opens a
      placeholder. */
  lemma OpenAt(s: string, i: nat, st: Scan, h: string -> Result<string, FmtError>)
    requires i < |s| && s[i] == '{' && st.field.None?
    ensures Scanned(s[i + 1..], Scan(st.out, st.closing, Some([])), h) == Scanned(s[i..], st, h)
  {
    Advance(s, i, st, Scan(st.out, st.closing, Some([])), h);
  }

  /** A '{' right after an opening '{' is a literal '{'. */
  lemma OpenEscAt(s: string, i: nat, st: Scan, h: string -> Result<string, FmtError>)
    requires i < |s| && s[i] == '{' && st.field == Some([])
    ensures Scanned(s[i + 1..], Scan(st.out + ['{'], st.closing, None), h) == Scanned(s[i..], st, h)
  {
    Advance(s, i, st, Scan(st.out + ['{'], st.closing, None), h);
  }

  /** A '{' inside a non-empty body ends the scan. */
  lemma ExtraOpenAt(s: string, i: nat, st: Scan, h: string -> Result<string, FmtError>)
    requires i < |s| && s[i] == '{' && st.field.Some? && st.field != Some([])
    ensures Scanned(s[i..], st, h) == Err(Invalid(ExtraOpen))
  {
    Halt(s, i, st, h);
  }

  /** A '}' outside a placeholder, with none pending, is held back. */
  lemma CloseHeldAt(s: string, i: nat, st: Scan, h: string -> Result<string, FmtError>)
    requires i < |s| && s[i] == '}' && st.field.None? && !st.closing
    ensures Scanned(s[i + 1..], Scan(st.out, true, None), h) == Scanned(s[i..], st, h)
  {
    Advance(s, i, st, Scan(st.out, true, None), h);
  }

  /** A '}' after a pending '}' is a literal '}', also added to an open
      body. */
  lemma CloseEscAt(s: string, i: nat, st: Scan, h: string -> Result<string, FmtError>)
    requires i < |s| && s[i] == '}' && st.closing
    ensures st.field.None? ==> Scanned(s[i + 1..], Scan(st.out + ['}'], false, None), h) == Scanned(s[i..], st, h)
    ensures st.field.Some? ==>
              Scanned(s[i + 1..], Scan(st.out + ['}'], false, Some(st.field.value + ['}'])), h) == Scanned(s[i..], st, h)
  {
    Advance(s, i, st, Read(st, '}').(out := st.out + ['}'], closing := false), h);
  }

  /** A '}' closing a placeholder hands its body to the handler. */
  lemma CloseFieldAt(s: string, i: nat, st: Scan, h: string -> Result<string, FmtError>)
    requires i < |s| && s[i] == '}' && st.field.Some? && !st.closing
    ensures var t := h(st.field.value);
            && (t.Ok? ==> Scanned(s[i + 1..], Scan(st.out + t.value, false, None), h) == Scanned(s[i..], st, h))
            && (t.Err? ==> Scanned(s[i..], st, h) == Err(t.error))
            && (t.Panic? ==> Scanned(s[i..], st, h) == Panic(t.message))
  {
    StepClose(st, h);
    if h(st.field.value).Ok? {
      Advance(s, i, st, Scan(st.out + h(st.field.value).value, false, None), h);
    } else {
      Halt(s, i, st, h);
    }
  }

  /** Any other character after a pending '}' ends the scan. */
  lemma StrayCloseAt(s: string, i: nat, st: Scan, h: string -> Result<string, FmtError>)
    requires i < |s| && !IsBrace(s[i]) && st.closing
    ensures Scanned(s[i..], st, h) == Err(Invalid(SingleClose))
  {
    Halt(s, i, st, h);
  }

  /** Any other character is copied outside a placeholder and read into
      the body inside one. */
  lemma TextAt(s: string, i: nat, st: Scan, h: string -> Result<string, FmtError>)
    requires i < |s| && !IsBrace(s[i]) && !st.closing
    ensures st.field.None? ==> Scanned(s[i + 1..], Scan(st.out + [s[i]], false, None), h) == Scanned(s[i..], st, h)
    ensures st.field.Some? ==>
              Scanned(s[i + 1..], Scan(st.out, false, Some(st.field.value + [s[i]])), h) == Scanned(s[i..], st, h)
  {
    Advance(s, i, st, if st.field.None? then st.(out := st.out + [s[i]]) else Read(st, s[i]), h);
  }

  /** One '{' of the loop of `strfmt_map`, with the loop's variables
      (`bytesRead` already counting the '{'): it opens a placeholder, is
      doubled into a literal '{' right after an opening one, or is an extra
      '{' inside a body. `stop` carries the result when the scan ends here. */
  method OnOpen(ghost s: string, ghost i: nat, ghost place: string -> Result<string, FmtError>,
                out: string, ghost closingBrace: bool, readingFmt: bool, ghost remaining: string,
                bytesRead: nat, openingBrace: nat, ghost base: nat, ghost ob: nat,
                ghost field: Option<string>, ghost goal: Result<string, FmtError>)
    returns (stop: Option<Result<string, FmtError>>, out': string, readingFmt': bool,
             openingBrace': nat, ghost ob': nat, ghost field': Option<string>)
    requires i < |s| && s[i] == '{'
    requires base <= i && remaining == s[base..] && bytesRead == i + 1 - base
    requires readingFmt <==> field.Some?
    requires readingFmt ==> base <= ob < i && openingBrace == ob - base && field.value == s[ob + 1..i]
    requires Scanned(s[i..], Scan(out, closingBrace, field), place) == goal
    ensures stop.Some? ==> stop.value == goal
    ensures stop.None? ==>
              && (readingFmt' <==> field'.Some?)
              && (readingFmt' ==> base <= ob' < i + 1 && openingBrace' == ob' - base && field'.value == s[ob' + 1..i + 1])
              && Scanned(s[i + 1..], Scan(out', closingBrace, field'), place) == goal
  {
    ghost var st := Scan(out, closingBrace, field);
    stop, out', readingFmt', openingBrace', ob', field' := None, out, readingFmt, openingBrace, ob, field;
    if readingFmt && openingBrace == bytesRead - 2 {
      // "{{"
      OpenEscAt(s, i, st, place);
      out' := out + ['{'];
      readingFmt' := false;
      field' := None;
    } else if !readingFmt {
      OpenAt(s, i, st, place);
      readingFmt' := true;
      openingBrace' := bytesRead - 1;
      ob' := i;
      field' := Some([]);
    } else {
      ExtraOpenAt(s, i, st, place);
      var message := [];
      message := message + ExtraOpen;
      assert message == ExtraOpen;
      stop := Some(Err(Invalid(message)));
    }
  }

  /** One '}' of the loop of `strfmt_map`, with the loop's variables
      (`bytesRead` already counting the '}'): it is held back, doubled into
      a literal '}', or closes the placeholder whose body then goes to
      `place`. `stop` carries the result when the scan ends here. */
  method OnClose(ghost s: string, ghost i: nat, place: string -> Result<string, FmtError>,
                 out: string, closingBrace: bool, readingFmt: bool, remaining: string,
                 bytesRead: nat, openingBrace: nat, ghost base: nat, ghost ob: nat,
                 ghost field: Option<string>, ghost goal: Result<string, FmtError>)
    returns (stop: Option<Result<string, FmtError>>, out': string, closingBrace': bool,
             readingFmt': bool, remaining': string, bytesRead': nat, ghost base': nat,
             ghost field': Option<string>)
    requires i < |s| && s[i] == '}'
    requires base <= i && remaining == s[base..] && bytesRead == i + 1 - base
    requires readingFmt <==> field.Some?
    requires readingFmt ==> base <= ob < i && openingBrace == ob - base && field.value == s[ob + 1..i]
    requires Scanned(s[i..], Scan(out, closingBrace, field), place) == goal
    ensures stop.Some? ==> stop.value == goal
    ensures stop.None? ==>
              && base' <= i + 1 && remaining' == s[base'..] && bytesRead' == i + 1 - base'
              && (readingFmt' <==> field'.Some?)
              && (readingFmt' ==> base' <= ob < i + 1 && openingBrace == ob - base' && field'.value == s[ob + 1..i + 1])
              && Scanned(s[i + 1..], Scan(out', closingBrace', field'), place) == goal
  {
    ghost var st := Scan(out, closingBrace, field);
    stop, out', closingBrace', readingFmt', remaining', bytesRead', base', field' :=
      None, out, closingBrace, readingFmt, remaining, bytesRead, base, field;
    if !readingFmt && !closingBrace {
      CloseHeldAt(s, i, st, place);
      closingBrace' := true;
    } else if closingBrace {
      // "}}"
      CloseEscAt(s, i, st, place);
      out' := out + ['}'];
      closingBrace' := false;
      if readingFmt {
        SliceSnoc(s, ob + 1, i);
        field' := Some(field.value + ['}']);
      }
    } else {
      SubSlices(s, base, ob, i, openingBrace, bytesRead);
      CloseFieldAt(s, i, st, place);
      var res;
      res, remaining' := CloseField(remaining, openingBrace, bytesRead, out, place);
      if res.IsFailure() {
        stop := Some(res.PropagateFailure());
        return;
      }
      out' := res.Extract();
      readingFmt' := false;
      bytesRead' := 0;
      base' := i + 1;
      field' := None;
    }
  }

  /** The loop shared by `strfmt_map` and `strfmt_options`, with the byte
      counters of the source: `remaining` is the text after the last
      placeholder, `bytesRead` and `openingBrace` are offsets into it, and
      `place` does the work for one placeholder body. */
  method RunTemplate(fmtstr: string, place: string -> Result<string, FmtError>)
    returns (r: Result<string, FmtError>)
    ensures r == Scanned(fmtstr, Start, place)
  {
    var out: string := [];
    var bytesRead: nat := 0;
    var openingBrace: nat := 0;
    var closingBrace := false;
    var readingFmt := false;
    var remaining := fmtstr;
    ghost var base: nat := 0;
    ghost var field: Option<string> := None;
    ghost var ob: nat := 0;
    ghost var goal := Scanned(fmtstr, Start, place);
    for i := 0 to |fmtstr|
      invariant base <= i && remaining == fmtstr[base..] && bytesRead == i - base
      invariant readingFmt <==> field.Some?
      invariant readingFmt ==> base <= ob < i && openingBrace == ob - base && field.value == fmtstr[ob + 1..i]
      invariant Scanned(fmtstr[i..], Scan(out, closingBrace, field), place) == goal
    {
      var c := fmtstr[i];
      ghost var st := Scan(out, closingBrace, field);
      bytesRead := bytesRead + 1;
      if c == '{' {
        var stop;
        stop, out, readingFmt, openingBrace, ob, field :=
          OnOpen(fmtstr, i, place, out, closingBrace, readingFmt, remaining, bytesRead, openingBrace, base, ob, field, goal);
        if stop.Some? {
          return stop.value;
        }
      } else if c == '}' {
        var stop;
        stop, out, closingBrace, readingFmt, remaining, bytesRead, base, field :=
          OnClose(fmtstr, i, place, out, closingBrace, readingFmt, remaining, bytesRead, openingBrace, base, ob, field, goal);
        if stop.Some? {
          return stop.value;
        }
      } else if closingBrace {
        StrayCloseAt(fmtstr, i, st, place);
        return Err(Invalid(SingleClose));
      } else if !readingFmt {
        TextAt(fmtstr, i, st, place);
        out := out + [c];
        assert Scanned(fmtstr[i + 1..], Scan(out, closingBrace, field), place) == goal;
      } else {
        TextAt(fmtstr, i, st, place);
        SliceSnoc(fmtstr, ob + 1, i);
        field := Some(field.value + [c]);
        assert Scanned(fmtstr[i + 1..], Scan(out, closingBrace, field), place) == goal;
      }
    }
    if closingBrace {
      return Err(Invalid(SingleClose));
    } else if readingFmt {
      return Err(Invalid(ExpectedClose));
    }
    return Ok(out);
  }
}
