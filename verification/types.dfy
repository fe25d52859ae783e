/** The shared enums and the error type of the engine (src/types.rs). */
module Types {
  import opened Wrappers

  /** Alignment of a value inside its field. */
  datatype Alignment = Unspecified | Left | Center | Right | Equal

  /** The sign option of a format specifier. */
  datatype Sign = Unspecified | Plus | Minus | Space

  /** `Sign::is_unspecified`: despite its name it answers "was a sign given". */
  predicate IsUnspecified(s: Sign)
  {
    match s
    case Unspecified => false
    case _ => true
  }

  lemma IsUnspecifiedInverted(s: Sign)
    ensures IsUnspecified(s) <==> s != Sign.Unspecified
    ensures !IsUnspecified(Sign.Unspecified)
    ensures IsUnspecified(Sign.Plus) && IsUnspecified(Sign.Minus) && IsUnspecified(Sign.Space)
  {
  }

  /** The three error kinds, each with its message. */
  datatype FmtError = Invalid(msg: string) | KeyError(msg: string) | TypeError(msg: string)

  type FmtResult<T> = Result<T, FmtError>

  /** `Display for FmtError`: the kind's name with the message in parentheses. */
  function Display(e: FmtError): (r: string)
    ensures |r| > 0 && r[|r| - 1] == ')'
    ensures e.Invalid? ==> r == "Invalid(" + e.msg + ")"
    ensures e.KeyError? ==> r == "KeyError(" + e.msg + ")"
    ensures e.TypeError? ==> r == "TypeError(" + e.msg + ")"
  {
    match e
    case Invalid(m) => "Invalid(" + m + ")"
    case KeyError(m) => "KeyError(" + m + ")"
    case TypeError(m) => "TypeError(" + m + ")"
  }

  /** Display loses nothing: different errors are displayed differently. */
  lemma DisplayInjective(e1: FmtError, e2: FmtError)
    requires Display(e1) == Display(e2)
    ensures e1 == e2
  {
    var d := Display(e1);
    // The first character tells the kinds apart.
    assert d[0] == Display(e2)[0];
    if e1.Invalid? {
      assert e2.Invalid? && e1.msg == d[8..|d| - 1] == e2.msg;
    } else if e1.KeyError? {
      assert e2.KeyError? && e1.msg == d[9..|d| - 1] == e2.msg;
    } else {
      assert e2.TypeError? && e1.msg == d[10..|d| - 1] == e2.msg;
    }
  }

  /** `Error::description`: one fixed text per kind, whatever the message. */
  function Description(e: FmtError): (r: string)
    ensures r == (if e.Invalid? then "invalid format string"
                  else if e.KeyError? then "invalid key"
                  else "error during type resolution")
  {
    match e
    case Invalid(_) => "invalid format string"
    case KeyError(_) => "invalid key"
    case TypeError(_) => "error during type resolution"
  }

  lemma DescriptionIgnoresMessage(e1: FmtError, e2: FmtError)
    ensures Description(e1) == Description(e2) <==>
            (e1.Invalid? == e2.Invalid? && e1.KeyError? == e2.KeyError?)
  {
  }

  /** `Error::cause`: no error wraps another. */
  function Cause(e: FmtError): (r: Option<FmtError>)
    ensures r == None
  {
    None
  }
}
