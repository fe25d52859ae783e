# strfmt in Dafny

A model of the core of the Rust crate `strfmt`: Rust-style string formatting where the values come from a map at run time.
Its parts:

- **The template engines.**
  - `strfmt_map` (src/fmtstr.rs) and `strfmt_options` (src/parser.rs) run the same single-pass loop over the template. Their state is the output so far, a pending `}`, whether a placeholder is open, and byte offsets into the text after the last placeholder. `{{` and `}}` are escapes.
  - The older `strfmt` (src/lib.rs) runs a simpler loop that copies a stray `}` as it is.
- **The placeholder parsers.**
  - `Formatter::from_str` with its Python-style specifier parser `parse_like_python` (src/formatter.rs), covering fill/alignment lookahead, sign, `#`, the legacy `0`, width, `,`, precision and the type letter.
  - The capture-group readers `Fmt::from_str` (src/lib.rs) and `FmtChunk::from_str` (src/parser.rs).
- **The renderers.**
  - `str` and `str_unchecked` (src/fmtstr.rs).
  - The generic integer renderer `fmtint!` (src/fmtnum.rs) and the older `i64` and `u16` renderers (src/fmti64.rs, src/fmtu16.rs).
  - `Fmt::write` and `FmtChunk::write`, which pad and truncate a looked-up value.
- **The error type.** `FmtError` and its `Display` and `description` (src/types.rs).

Each loop is a method proved against a specification function:

- `Template.Scanned` (for the two newer engines) and `Lib.Scanned` (for `strfmt`) are the scanners, one character at a time, parameterised by what a placeholder appends.
- `Formatting.ParsePy` is the specifier parser as a chain of stages.
- `FmtStr.Padded`, `FmtNum.FmtIntOut`, `Lib.Written` and `Parser.Written` are the renderers.

The lemmas beside these functions state what the source promises:

- A well-formed template renders its pieces in order.
- Text without braces is unchanged.
- Each kind of malformed template gives its error.
- Parsing inverts printing, both for the Python specifier and for the capture groups.
- Padding frames the shown text with the fill as the alignment says.
- Integer digits read back as the value (two's complement for negatives).

The `Formatter` is a class whose buffer and precision change in place, and so is the Rust `String` the lib.rs writers append to (`Lib.StrBuf`).

The value a Rust panic would unwind with is the `Panic` case of `Result`. This covers `unwrap` on an overflowing width and `panic!` on `=` alignment.

## Model

| member | source | states |
|---|---|---|
| Types.IsUnspecifiedInverted | src/types.rs:23-30 | `is_unspecified` holds for every sign except `Unspecified`, the inverse of its name |
| Types.Display | src/types.rs:42-50 | each error shows as its kind's name with the message in parentheses, e.g. `Invalid(msg)` |
| Types.DisplayInjective | src/types.rs:42-50 | two errors with the same display text are the same error |
| Types.Description | src/types.rs:52-59 | the description is `invalid format string`, `invalid key` or `error during type resolution`, by kind |
| Types.DescriptionIgnoresMessage | src/types.rs:52-59 | two errors have the same description exactly when they are of the same kind |
| Types.Cause | src/types.rs:61-63 | no error has a cause |
| Formatting.IsAlignmentToken | src/formatter.rs:24-29 | the alignment tokens are `=`, `<`, `^` and `>` |
| Formatting.IsSignElement | src/formatter.rs:31-36 | the sign characters are ' ', `-` and `+` |
| Formatting.IsTypeElement | src/formatter.rs:38-45 | the type letters are b, c, d, o, x, X, n, e, E, f, F, g, G, `%`, s and `?` |
| Formatting.IntegerRun | src/formatter.rs:49-71 | `get_integer` as a value: the length of the digit run, and its value when the run is non-empty and fits an i64 |
| Formatting.IntegerRunMaximal | src/formatter.rs:49-71 | the digit count is the maximal run of ASCII digits, and a value is given exactly when the run is non-empty and fits an i64 |
| Formatting.GetInteger | src/formatter.rs:49-71 | `get_integer` returns the length and value of that digit run at the cursor |
| Formatting.IntegerRunOfDecimal | src/formatter.rs:49-71 | the decimal text of any i64-sized number, followed by a non-digit, is read back as that number |
| Formatting.IntegerRunOverflow | src/formatter.rs:49-71 | a digit run beyond the i64 range is consumed whole and yields no value |
| Formatting.FillAlign | src/formatter.rs:118-129 | the fill/alignment stage yields a well-formed stage with nothing else set, fill and alignment given explicitly together or not at all |
| Formatting.ParseFillAlign | src/formatter.rs:118-129 | the cursor code of the fill/alignment step computes the `FillAlign` stage |
| Formatting.FillOrAlign | src/formatter.rs:118-151 | a character before an alignment token is the fill and that token the alignment. A bare alignment token gives fill `0` and alignment `=` when the text after it, past an optional sign and `#`, starts with `0`; otherwise fill ' ' and that alignment. Without an alignment token the same `0` test gives `0` and `=`, else ' ' and `>`; so `<5` has fill ' ' and alignment `<` |
| Formatting.SignOption | src/formatter.rs:131-135 | the sign stage keeps a well-formed stage well formed |
| Formatting.ParseSign | src/formatter.rs:131-135 | the sign step computes the `SignOption` stage |
| Formatting.AlternateOption | src/formatter.rs:137-142 | the `#` stage keeps a well-formed stage well formed |
| Formatting.ParseAlternate | src/formatter.rs:137-142 | the `#` step computes the `AlternateOption` stage |
| Formatting.LegacyZero | src/formatter.rs:144-151 | the legacy `0` stage keeps a well-formed stage well formed |
| Formatting.ParseLegacyZero | src/formatter.rs:144-151 | the legacy-zero step computes the `LegacyZero` stage |
| Formatting.BareAlignThenZero | src/formatter.rs:144-151 | after a bare alignment character a `0` still becomes the fill and overrides the alignment with `=` |
| Formatting.Flags | src/formatter.rs:118-151 | the stages that cannot fail yield a well-formed stage |
| Formatting.FlagsOfPrinted | src/formatter.rs:118-151 | fill, alignment, sign and `#` are read back from their printed text |
| Formatting.Width | src/formatter.rs:153-163 | the width stage never panics and keeps the stage well formed |
| Formatting.ParseWidthOnward | src/formatter.rs:153-163 | the width step and everything after it compute `AfterFlags` of the stage reached |
| Formatting.AfterFlagsStep | src/formatter.rs:153-163 | after the flags, the width stage runs, then the rest, the first error ending the parse |
| Formatting.WidthOf | src/formatter.rs:153-163 | the three outcomes of the width stage (no digits, value, overflow) in terms of the digit run |
| Formatting.WidthOfPrinted | src/formatter.rs:153-163 | a printed width is read back |
| Formatting.WidthOverflow | src/formatter.rs:153-160 | for any specifier whose flags are followed by a digit run beyond the i64 range, the parse is the "overflow error when parsing width" error |
| Formatting.WidthOverflowNoFlags | src/formatter.rs:118-160 | a specifier that starts with a digit other than `0`, and whose digit run exceeds the i64 range (e.g. `99999999999999999999`), is the width overflow error |
| Formatting.Thousands | src/formatter.rs:165-169 | the `,` stage keeps a well-formed stage well formed |
| Formatting.ParseThousandsOnward | src/formatter.rs:165-169 | the `,` step and everything after it compute `AfterWidth` |
| Formatting.ThousandsOfPrinted | src/formatter.rs:165-169 | a printed `,` is read back |
| Formatting.Precision | src/formatter.rs:171-192 | the precision stage never panics and keeps the stage well formed |
| Formatting.ParsePrecisionOnward | src/formatter.rs:171-192 | the `.` step and everything after it compute `AfterThousands` |
| Formatting.ParsePrecisionDigits | src/formatter.rs:171-192 | the digits after a `.` and everything after them compute the precision stage's continuation |
| Formatting.AfterThousandsStep | src/formatter.rs:171-192 | after `,` the precision stage runs, then the rest |
| Formatting.PrecisionOf | src/formatter.rs:171-192 | the outcomes of the precision stage in terms of the digit run |
| Formatting.PrecisionOfPrinted | src/formatter.rs:171-192 | a printed `.digits` is read back, leaving the type letter |
| Formatting.MissingPrecision | src/formatter.rs:171-189 | for any specifier whose flags, width and `,` are followed by a `.` and no digit, the parse is the "Format specifier missing precision" error |
| Formatting.MissingPrecisionExamples | src/formatter.rs:171-189 | `5.` and `.x` are the "missing precision" error |
| Formatting.PrecisionOverflow | src/formatter.rs:171-181 | for any specifier whose flags, width and `,` are followed by `.` and a digit run beyond the i64 range, the parse is the "overflow error when parsing precision" error |
| Formatting.PrecisionDigitsOverflow | src/formatter.rs:171-181 | at the precision stage, `.` and a digit run beyond the i64 range are the precision overflow error |
| Formatting.TypeField | src/formatter.rs:194-208 | the type stage never panics, and a success is a well-formed record with the stage's `,` flag |
| Formatting.TrailingText | src/formatter.rs:194-198 | for any specifier that leaves two or more characters after the stages up to the precision, the parse is the "Invalid format specifier" error |
| Formatting.TrailingTextExample | src/formatter.rs:194-198 | `.2xy` is the "Invalid format specifier" error |
| Formatting.UnknownType | src/formatter.rs:200-206 | for any specifier that leaves exactly one character after the precision, and it is no type letter, the parse is "Invalid type specifier: " followed by that character's Debug form |
| Formatting.UnknownTypeExample | src/formatter.rs:200-206 | `5q` is "Invalid type specifier: 'q'" |
| Formatting.CommaCheck | src/formatter.rs:213-224 | the `,` check never panics and keeps a well-formed record well formed |
| Formatting.ParseTypeOnward | src/formatter.rs:194-225 | the type step and the `,` check compute `AfterPrecision` |
| Formatting.ParsePy | src/formatter.rs:87-226 | the parser never panics and every success is a well-formed record |
| Formatting.BeforePrecision | src/formatter.rs:118-169 | the stages before the precision, the first error ending them; a success is a well-formed stage |
| Formatting.BeforeType | src/formatter.rs:118-192 | the stages before the type letter; a success is a well-formed stage |
| Formatting.ParsePyStages | src/formatter.rs:87-226 | the parse of a non-empty specifier is the first error of the stages before the type letter, or the type stage on what they leave |
| Formatting.ParseLikePython | src/formatter.rs:87-226 | `parse_like_python` with its cursor returns exactly `ParsePy` of its input |
| Formatting.StagesOfPrinted | src/formatter.rs:87-226 | the stages up to the type letter read back a printed record followed by any text |
| Formatting.ParsePyPrintPy | src/formatter.rs:87-226 | parsing inverts printing for every record in range, except `,` with a type that does not allow it, which is rejected |
| Formatting.ColonIndexUnique | src/formatter.rs:240-259 | a colon-free prefix ending at a `:` or at the end is where the key ends |
| Formatting.ColonIndex | src/formatter.rs:240-259 | the index of the first `:`, or the length when there is none |
| Formatting.AlignmentOf | src/formatter.rs:266-272 | no alignment token maps to `Unspecified` |
| Formatting.SignOf | src/formatter.rs:273-279 | `\0` is no sign, and `+`, `-` and ' ' name their signs |
| Formatting.Absent | src/formatter.rs:281-289 | `-1` is an absent width or precision, and anything else is present |
| Formatting.FromPy | src/formatter.rs:263-296 | the settings built from a well-formed record never have `Unspecified` alignment |
| Formatting.ParseSpec | src/formatter.rs:230-297 | an empty text or one starting with `:` is "must specify identifier"; a success keeps the whole text as its pattern, its key is the non-empty prefix before the first `:`, and its alignment is never `Unspecified`; it never panics |
| Formatting.FromStr | src/formatter.rs:230-297 | `Formatter::from_str` builds a formatter whose settings and buffer are `ParseSpec` of its input, or returns its error |
| Formatting.ParseSpecOfKeyAndSpec | src/formatter.rs:230-297 | for a colon-free key followed by `:` and a specifier, the key is kept and the specifier alone decides the outcome |
| Formatting.ParseSpecDefaults | src/formatter.rs:230-297 | a key alone, or a key and `:`, gets fill ' ', right alignment and nothing else |
| Formatting.ParseSpecRoundTrip | src/formatter.rs:230-297 | key, `:` and a printed record are parsed back to that key and the record's settings |
| Formatting.Formatter.constructor | src/formatter.rs:263-296 | the formatter holds the given settings and buffer |
| Formatting.Formatter.Skip | src/formatter.rs:301-306 | `skip` appends the placeholder text in braces and changes nothing else |
| Formatting.Formatter.ClearPrecision | src/formatter.rs:335-337 | the precision becomes absent; the buffer is unchanged |
| Formatting.FormatSpec.SignPlus | src/formatter.rs:346-352 | true exactly for the sign `+` |
| Formatting.FormatSpec.SignMinus | src/formatter.rs:356-362 | as written: always the same answer as `sign_plus`, so false for the sign `-` |
| Formatting.FormatSpec.SignMinusIntended | src/formatter.rs:356-362 | true exactly for the sign `-`, and never together with `sign_plus` |
| Formatting.SignMinusAsWritten | src/formatter.rs:356-362 | for sign `-` the getter says false; for sign `+` it says true together with `sign_plus` |
| Formatting.Formatter.WriteStr | src/formatter.rs:378-382 | a write appends to the buffer and nothing else changes |
| FmtStr.WriteChar | src/fmtstr.rs:7-11 | appends exactly `n` copies of the character |
| FmtStr.WriteFrom | src/fmtstr.rs:24-40 | appends the first min(n, length) characters and returns that count; nothing for n = 0 |
| FmtStr.StrCheck | src/fmtstr.rs:72-87 | `str` accepts exactly no type or `s`, no `#`, no `,` and no sign. In that order: another type is "Unknown format code" with the type's Debug form and "for object of type 'str'"; then `#` is "Alternate form (#) not allowed in string format specifier"; then `,` is "Cannot specify ',' with 's'"; then any sign is "Sign not allowed in string format specifier" |
| FmtStr.Str | src/fmtstr.rs:72-87 | a failing check appends nothing and returns its error; otherwise the padded text is appended |
| FmtStr.Shown | src/fmtstr.rs:102-110 | the precision limits how many characters are shown |
| FmtStr.Padded | src/fmtstr.rs:98-138 | the text `str_unchecked` appends never fails, and panics exactly for `=` alignment with padding to do |
| FmtStr.PaddedLayout | src/fmtstr.rs:98-138 | without room to pad, exactly the shown prefix; with room, that prefix framed by fill to the width: left, right, or centred with the odd fill after |
| FmtStr.StrUnchecked | src/fmtstr.rs:98-138 | appends exactly the `Padded` text, or panics when it does |
| FmtStr.FormatPlaceholder | src/fmtstr.rs:184-197 | a formatter over the output, parsed from the body, is handed to the callback; its text or its error is the outcome |
| FmtStr.MapPlaceholder | src/fmtstr.rs:184-197 | a placeholder body goes through the specifier parser and then the callback; the first failure is the outcome |
| FmtStr.StrfmtMap | src/fmtstr.rs:149-214 | `strfmt_map` returns `Template.Scanned` of the template with the callback as the placeholder handler |
| Template.RunTemplate | src/fmtstr.rs:149-214 | the loop with its byte offsets returns `Scanned` of the whole template for any placeholder handler; `strfmt_options` (src/parser.rs:206-275) runs the same loop |
| Template.Scanned | src/fmtstr.rs:149-214 | the outcome of the template loop on the unread text from a scan state: each character is a `Step`, the first failure ends the scan, and `Finish` decides at the end |
| Template.Step | src/fmtstr.rs:158-206 | one character: `{` opens a placeholder, is a literal `{` right after an opener, or is "extra { found" inside a body; `}` is held back, doubled into a literal, or closes the placeholder and appends what the handler gives; another character after a held-back `}` is "Single '}' encountered"; text is copied outside a placeholder and joins the body inside one |
| Template.Finish | src/fmtstr.rs:207-213 | at the end a held-back `}` is "Single '}' encountered in format string", an open placeholder is "Expected '}' before end of string", and otherwise the text produced is returned |
| Template.OnOpen | src/fmtstr.rs:160-174 | one `{`: opens a placeholder, becomes a literal `{` right after an opener, or ends the scan with "extra { found"; the loop invariant is kept |
| Template.OnClose | src/fmtstr.rs:175-200 | one `}`: held back, doubled into a literal `}`, or closes the placeholder and appends what the handler gives; the loop invariant is kept |
| Template.CloseField | src/fmtstr.rs:184-197 | the two `split_at`s and the brace trimming cut out exactly the body between the braces and leave the text after the `}` |
| Template.SubSlices | src/fmtstr.rs:186-194 | the cuts made in the text after the last placeholder are the same cuts of the whole template |
| Template.Read | src/fmtstr.rs:205 | a character read inside a placeholder changes only its body |
| Template.OpenAt | src/fmtstr.rs:165-168 | a first `{` opens an empty body |
| Template.OpenEscAt | src/fmtstr.rs:161-164 | `{{` emits one `{` and closes the placeholder |
| Template.ExtraOpenAt | src/fmtstr.rs:169-174 | a `{` inside a non-empty body ends the scan with "extra { found" |
| Template.CloseHeldAt | src/fmtstr.rs:176-178 | a `}` outside a placeholder with none pending is held back |
| Template.CloseEscAt | src/fmtstr.rs:179-182 | `}}` emits one `}`, also into an open body |
| Template.CloseFieldAt | src/fmtstr.rs:183-200 | a `}` closing a placeholder appends the handler's text, or ends the scan with its failure |
| Template.StepClose | src/fmtstr.rs:183-200 | the closing step hands the body to the handler and resets the state |
| Template.StrayCloseAt | src/fmtstr.rs:201-202 | any other character after a held `}` is the "Single '}'" error |
| Template.TextAt | src/fmtstr.rs:203-205 | any other character is copied outside a placeholder and read into the body inside one |
| Template.ScanCons | src/fmtstr.rs:158-206 | scanning a non-empty text is one step, then the rest, or the step's failure |
| Template.OnlyInvalid | src/fmtstr.rs:149-214 | the scanner's own errors are all `Invalid`, so a handler that fails only with `Invalid` makes the whole scan do so |
| Template.ScanPlain | src/fmtstr.rs:203-204 | text without braces is copied as it is |
| Template.ScanBody | src/fmtstr.rs:205 | brace-free text inside an open placeholder only extends its body |
| Template.ScanPiece | src/fmtstr.rs:158-206 | a literal, an escape or a placeholder is one piece of output, or the handler's failure |
| Template.ScanTemplate | src/fmtstr.rs:158-213 | a well-formed template followed by any text renders its pieces, then scanning goes on from a clean state |
| Template.RenderTemplate | src/fmtstr.rs:149-214 | a well-formed template yields its pieces' outputs in order, stopping at the first failing placeholder |
| Template.PlainTextUnchanged | src/fmtstr.rs:203-213 | a template without braces comes back unchanged |
| Template.StrayClose | src/fmtstr.rs:201-208 | a single `}` before a non-brace character, or at the end, is the "Single '}'" error |
| Template.UnclosedPlaceholder | src/fmtstr.rs:209-210 | a template ending inside a placeholder is the "Expected '}'" error |
| Template.OpenBodyOpen | src/fmtstr.rs:169-174 | an open placeholder whose non-empty body is followed by `{` is the "extra { found" error |
| Template.ExtraOpenBrace | src/fmtstr.rs:169-174 | the same after any well-formed text |
| FmtNum.IntTypeIsRadixType | src/fmtnum.rs:11-15 | the integer types are no type or b, o, x, X, all of which the digit writer handles |
| FmtNum.AltPrefix | src/fmtnum.rs:31-46 | `#` writes `0b`, `0o` or `0x` (also for `X`) and nothing else has a prefix |
| FmtNum.IntegerGuards | src/fmtnum.rs:17-27 | precision, `,` and `0` with right alignment are rejected, in that order, with "precision not allowed for integers", "thousands specifier not yet supported" and "sign aware 0 padding not yet supported" |
| FmtNum.WriteHead | src/fmtnum.rs:31-46 | the `+` and the `#` prefix are written straight to the buffer; `#` with decimal is an error after the `+` |
| FmtNum.EmitLayout | src/fmtnum.rs:29-57 | sign, then prefix, then the digits padded to the width alone: after the head, the digits framed by the fill to exactly the width, all after for Left, all before for Right, split floor/ceil for Center; errors only for `#` with decimal, panics only for `=` with padding to do |
| FmtNum.PaddedDigits | src/fmtnum.rs:48-57 | digits narrower than the width come out of `str_unchecked` framed by the fill to exactly the width, as the alignment places them |
| FmtNum.EmitInto | src/fmtnum.rs:29-57 | appends exactly what `Emit` describes, or panics when it does |
| FmtNum.FmtInt | src/fmtnum.rs:5-58 | `fmtint` returns the outcome of `FmtIntOut` and appends its text |
| FmtNum.FmtIntOut | src/fmtnum.rs:5-58 | `fmtint` as a value: a type other than the integer ones is "Unknown format code" and writes nothing, a failing guard writes nothing, and otherwise the head and padded digits of `Emit` |
| FmtNum.Emit | src/fmtnum.rs:29-57 | after the guards: the head, then the digit text padded by `str_unchecked`, or the head's error, or the panic of `=` alignment |
| FmtNum.Head | src/fmtnum.rs:31-46 | the text written first: `+` when asked for, then the `#` prefix; `#` with decimal is an error after the `+` |
| FmtNum.FmtIntErrors | src/fmtnum.rs:11-46 | a rejected type or guard writes nothing and returns that type error or the guard's own error; the only error that leaves text behind is `#` with decimal after a `+` |
| FmtNum.FmtIntText | src/fmtnum.rs:29-57 | on success: sign and prefix first, then the digits alone or framed by the fill to the width as the alignment places them, the digits read back as the value (two's complement when negative), and `x` writes lower-case hex letters and `X` upper-case ones |
| FmtI64.I64Range | src/fmti64.rs:12 | the i64 range is `fmtint`'s signed 64-bit range |
| FmtI64.I64 | src/fmti64.rs:12-63 | `i64` returns the outcome of `I64Out` and appends its text |
| FmtI64.I64Out | src/fmti64.rs:12-63 | `i64` as a value: its own type message for a non-integer type, the guards, then `Emit` over 2^64 values with `+` only for a non-negative value |
| FmtI64.I64TypeCheck | src/fmti64.rs:13-26 | a type other than the integer ones is rejected with the `i64` message, and otherwise `i64` behaves as `fmtint` |
| FmtI64.I64Guards | src/fmti64.rs:27-33 | the guards in order, each writing nothing |
| FmtU16.U16Range | src/fmtu16.rs:10 | the u16 range is `fmtint`'s unsigned 16-bit range |
| FmtU16.U16 | src/fmtu16.rs:10-57 | `u16` returns the outcome of `U16Out` and appends its text |
| FmtU16.U16Out | src/fmtu16.rs:10-57 | `u16` as a value: its own type message for a non-integer type, the guards, then `Emit` over 2^16 values with `+` whenever asked |
| FmtU16.U16TypeCheck | src/fmtu16.rs:11-19 | a type other than the integer ones is rejected with the "Unkown" message, and otherwise `u16` behaves as `fmtint` |
| FmtU16.U16Guards | src/fmtu16.rs:20-26 | the guards in order, each writing nothing |
| Lib.WriteChar | src/lib.rs:42-46 | appends exactly `n` copies of the character (src/parser.rs:18-22 repeats this helper) |
| Lib.WriteFrom | src/lib.rs:56-72 | appends the first min(n, length) characters and returns that count (src/parser.rs:32-48 repeats this helper) |
| Lib.StrBuf.constructor | src/lib.rs:248 | the output string starts as the given text |
| Lib.StrBuf.Push | src/lib.rs:42-46 | `push` appends one character and nothing else changes |
| Lib.StrBuf.Append | src/lib.rs:240 | `extend` appends the text |
| Lib.StrBuf.Clear | src/lib.rs:180 | `clear` empties the string |
| Lib.FromStr | src/lib.rs:88-172 | `Fmt::from_str` on the capture groups: no match is "Invalid format string"; a fill with an alignment reads both and the numbers; `.` and a width is a precision; an alignment character in the fill group is the alignment; any other fill makes fill and width one width, "invalid width: must be an int" when it does not parse |
| Lib.Written | src/lib.rs:176-243 | the text `write` appends: the kept prefix of the value framed by the fill before and after |
| Lib.Place | src/lib.rs:280-290 | a placeholder's text: the `from_str` error, "invalid identifier: " and the name for an unknown key, or the `Written` value |
| Lib.AlignOf | src/lib.rs:107-113 | exactly `<`, `^` and `>` name an alignment |
| Lib.ParseGroup | src/lib.rs:118-125 | an absent group is absent, a digit group is its usize value, and anything else panics |
| Lib.FromStrCases | src/lib.rs:88-156 | the cases of `from_str` on a match: no fill, fill and alignment, `.` as the fill, and an alignment character in the fill group |
| Lib.FromStrErrors | src/lib.rs:88-172 | no match is "Invalid format string"; the only other error is "invalid width: must be an int" for a fill and width that do not parse; panics come only from digit groups that do not parse |
| Lib.FromStrReachable | src/lib.rs:88-172 | every record `from_str` produces has a fill only with an alignment, and usize-sized numbers |
| Lib.FromStrUnparse | src/lib.rs:88-172 | every such record is read back from the capture groups that spell it out |
| Lib.UnparseAligned | src/lib.rs:115-127 | the round trip for a record with a fill |
| Lib.UnparsePrecision | src/lib.rs:134-138 | the round trip for a bare precision |
| Lib.UnparseBareAlign | src/lib.rs:139-156 | the round trip for an alignment without a fill |
| Lib.UnparseWidth | src/lib.rs:157-171 | the round trip for a bare width |
| Lib.FromStrDigitFill | src/lib.rs:157-171 | a digit in the fill group with no alignment group is read together with the width group as the width |
| Lib.Kept | src/lib.rs:185-237 | `write` never keeps more characters than the value has |
| Lib.WrittenLayout | src/lib.rs:185-243 | a value narrower than the width is framed by fill to exactly the width as the alignment says; otherwise it is cut to the precision, and a left-aligned value shorter than the precision is padded to it |
| Lib.Write | src/lib.rs:176-243 | an unknown identifier replaces the buffer with "invalid identifier: " and the name; a known one appends the `Written` text |
| Lib.WritePlaceholder | src/lib.rs:276-292 | `from_str` on the pattern and `write` into the output append what `Place` gives, or end with its error |
| Lib.SplitPattern | src/lib.rs:276-278 | the two cuts give the text from the opening brace to this one, and the text after it |
| Lib.PatternSlices | src/lib.rs:276-278 | that pattern is the placeholder with its braces, and the rest is the template after it |
| Lib.OpenAt | src/lib.rs:261-264 | a `{` outside a placeholder opens one |
| Lib.ExtraOpenAt | src/lib.rs:265-270 | a `{` inside a placeholder ends the scan with "extra { found" |
| Lib.CloseFieldAt | src/lib.rs:274-293 | a `}` closing a placeholder hands the pattern with its braces to the handler and appends its text, or ends with its failure |
| Lib.StepClose | src/lib.rs:274-293 | the closing step in terms of the handler's outcome |
| Lib.TextAt | src/lib.rs:271-296 | any other character, and a `}` outside a placeholder, is copied; inside a placeholder it joins the body |
| Lib.RunStrfmt | src/lib.rs:247-300 | the loop with its byte offsets returns `Lib.Scanned` of the whole template for any handler |
| Lib.Scanned | src/lib.rs:247-300 | the outcome of the `strfmt` loop on the unread text: each character is a `Lib.Step`, the first failure ends the scan, and at the end the output is returned even with a placeholder open |
| Lib.Step | src/lib.rs:253-296 | one character: `{` opens a placeholder or is "extra { found" inside one; `}` outside a placeholder is copied and inside one hands the pattern with its braces to the handler; other text is copied outside and joins the body inside |
| Lib.Strfmt | src/lib.rs:247-300 | `strfmt` returns `Lib.Scanned` with `from_str` and `write` as the handler |
| Lib.CopyText | src/lib.rs:271-296 | outside a placeholder, text without `{` is copied, `}` included |
| Lib.ReadBody | src/lib.rs:294-296 | inside a placeholder, text without braces joins the body |
| Lib.CopiesClosingBrace | src/lib.rs:271-274 | a template without `{` comes out unchanged, stray `}` included |
| Lib.DoubleOpenFails | src/lib.rs:255-270 | a second `{` inside a placeholder is always an error, even right after the first, so `{{` is no escape here |
| Lib.UnclosedDropped | src/lib.rs:297-299 | a placeholder still open at the end is dropped and the text before it is returned |
| Lib.PlaceholderAfterText | src/lib.rs:274-293 | after plain text, a placeholder's text follows the copied text |
| Parser.FromStrAsLib | src/parser.rs:65-148 | `FmtChunk::from_str` reads the groups as `Fmt::from_str` does, with its own error type |
| Parser.FromStr | src/parser.rs:65-148 | `FmtChunk::from_str` on the capture groups, with the same cases as in src/lib.rs and `Invalid` errors |
| Parser.Written | src/parser.rs:152-199 | the text `write` appends: the precision-limited prefix of the value framed by the fill |
| Parser.Place | src/parser.rs:251-258 | a placeholder's text: the `from_str` error, the written value, the body in braces for a missing key with `ignore_missing`, or a `KeyError` |
| Parser.GroupsAsLib | src/parser.rs:94-101 | the digit groups are read as in src/lib.rs |
| Parser.FromStrRoundTrip | src/parser.rs:65-148 | every chunk with a fill only beside an alignment and usize-sized numbers is read back from its groups |
| Parser.Shown | src/parser.rs:159-168 | the kept characters are no more than the value has or the precision allows |
| Parser.WrittenLayout | src/parser.rs:152-199 | the kept length is the precision-limited length; a shorter value than the width is framed by fill to exactly the width as the alignment says; otherwise the kept prefix alone |
| Parser.Write | src/parser.rs:152-199 | an unknown identifier is a `KeyError` and writes nothing; a known one appends the `Written` text |
| Parser.OptionsPlaceholder | src/parser.rs:251-258 | the placeholder appends what `Place` gives: the written value, the body in braces for an ignored missing key, or the error |
| Parser.MissingKey | src/parser.rs:251-258 | a missing key is kept in braces with `ignore_missing` and a `KeyError` without it; a body `from_str` rejects fails either way |
| Parser.StrfmtOptions | src/parser.rs:206-275 | `strfmt_options` returns `Template.Scanned` with this file's placeholder handler |
| Parser.IgnoreMissingNoKeyError | src/parser.rs:254-256 | with `ignore_missing` every error is `Invalid`, never a `KeyError` |
| RustFmt.IntTextReadsBack | src/fmtnum.rs:48-55 | the digits written for a value in each radix read back as the value's two's complement; decimal reads back with its `-`; `x` has no upper-case hex letter and `X` no lower-case one |
| RustFmt.ToRadix | src/fmtnum.rs:48-55 | the digits of a number in a radix: at least one, all below the radix, letters in the chosen case, and no leading zero except for 0 itself |
| RustFmt.FromToRadix | src/fmtnum.rs:48-55 | reading the digits of a number in a radix gives the number back |
| RustFmt.DecimalRoundTrip | src/fmtnum.rs:48-55 | decimal text of an integer, with its `-`, reads back as the integer |
| RustFmt.TwosComplement | src/fmtnum.rs:48-55 | negative values are shown by their two's complement in the type's width |
| RustFmt.DebugChar | src/fmtnum.rs:13 | the Debug form of a character is quoted, and a printable character other than a quote or backslash appears as itself |
| RustFmt.DebugOptionChar | src/fmtstr.rs:75 | the Debug form of an optional character is `None` or `Some(...)` around the character's form |
| RustFmt.ParseUsize | src/lib.rs:163-166 | a value `parse::<usize>` accepts always fits a usize |
| RustFmt.ParseUsizeDecimal | src/lib.rs:118-121 | the decimal text of any usize, with or without a leading `+`, is parsed back to it |
| RustFmt.ParseUsizeRejects | src/lib.rs:163-166 | empty text, a lone `+`, a non-digit (other than a leading `+`), or a value beyond the usize range is rejected |
| RustFmt.UnwrapUsize | src/lib.rs:118-121 | `unwrap` on the parse gives the value when it parses and panics otherwise, never an error |
| RustFmt.DigitRunUnique | src/formatter.rs:52-58 | the digit run at the front of a text ends at the first non-digit |

## Left out

- Floating-point formatting (src/fmtf64.rs and the float half of the macros) is not modelled. Neither is `set_precision`, which only that code uses.
- The type dispatch of src/fmttype.rs, the map abstraction of src/maptrait.rs with its hashbrown and serde_json backends, and the `strfmt!` macros of src/macros.rs are not modelled.
- The regular expressions of src/lib.rs and src/parser.rs are not modelled. The matcher is a parameter from placeholder text to capture groups, and `Lib.Matched` states what the pattern guarantees of those groups.
- The `println!` of the captures in `Fmt::from_str` (src/lib.rs) is output only and is left out.
- Text is taken to be ASCII: a `char` is one byte, so `len_utf8`, byte offsets and `split_at` count characters. Non-ASCII templates and values are not modelled.
- `usize` is taken as 64 bits.
- `String::with_capacity` and `shrink_to_fit` do not change contents and are left out.
- The `strfmt_map` callback is a pure function from the placeholder's settings to the text it appends or the error it returns. A callback that writes part of its text and then fails is not modelled.
- `is_int_type` is not part of this model's source files. It is taken as "no type letter, or one of b, o, x, X", the letters every integer renderer handles.
- `fmtint!` is one method parametrised by bit width and signedness, not one method per integer type.
- The renderers (`str_unchecked`, `fmtint`, `i64`, `u16`) require an alignment other than `Unspecified`. `Formatter::from_str` never produces one, and the source's `match` has no arm for it.
- The getters of `Formatter` (`fill`, `align`, `width`, ...) are its fields. Only `sign_plus` and `sign_minus` are functions, because they compute something.
- src/parser.rs uses `FmtChunk` and `Align` without declaring them. The chunk is declared with the fields the file uses, and `Align` is taken from src/lib.rs.
- The body of the `strfmt_map`/`strfmt_options` loop is split into `Template.OnOpen` and `Template.OnClose`, which take the loop variables and return their new values.
- FmtNum.FmtInt: on a panic the contract says only that the call panics, not what the buffer holds, since the panic unwinds past every caller.
- FmtNum.EmitInto: on a panic, only that it panics.
- FmtI64.I64: on a panic, only that it panics.
- FmtU16.U16: on a panic, only that it panics.
- FmtStr.StrUnchecked: on a panic, only that it panics, with the precision unchanged.
- FmtStr.Str: on a panic, only that it panics.
- RustFmt.DebugChar: escapes the ASCII control characters, quotes and backslash. Rust's escaping of non-ASCII characters is not modelled.

## Findings

| source | as written | input that shows it | evidently intended | confidence | as-written member | corrected member |
|---|---|---|---|---|---|---|
| src/formatter.rs:356-362 | `sign_minus` returns true exactly when the sign is `Sign::Plus` | the specifier `-`: `sign_minus` is false; the specifier `+`: `sign_minus` and `sign_plus` are both true | `sign_minus` is true exactly for `Sign::Minus` | not executed; high | Formatting.SignMinusAsWritten | Formatting.FormatSpec.SignMinusIntended |
