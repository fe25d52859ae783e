/** Option and Result, the two wrappers the engine returns its outcomes in.

    Result carries a third outcome, Panic, for the places where the Rust code
    aborts with `panic!`, `unwrap()` on an error or an index out of range: such an
    outcome is not an error value the caller can inspect, it ends the call. */
module Wrappers {

  datatype Option<+T> = None | Some(value: T)

  datatype Result<+T, +E> = Ok(value: T) | Err(error: E) | Panic(message: string)
  {
    predicate IsFailure()
    {
      !Ok?
    }

    function PropagateFailure<U>(): Result<U, E>
      requires !Ok?
    {
      if Err? then Err(error) else Panic(message)
    }

    function Extract(): T
      requires Ok?
    {
      value
    }
  }

  /** The smaller of two naturals (Rust's `if a < b { a } else { b }`). */
  function Min(a: nat, b: nat): nat
  {
    if a < b then a else b
  }

  /** `n` copies of `c`. */
  function Repeat(c: char, n: nat): (r: string)
    ensures |r| == n
    ensures forall k :: 0 <= k < n ==> r[k] == c
  {
    if n == 0 then [] else [c] + Repeat(c, n - 1)
  }

  /** One more copy at the end. */
  lemma RepeatSnoc(c: char, n: nat)
    ensures Repeat(c, n) + [c] == Repeat(c, n + 1)
  {
    var a, b := Repeat(c, n) + [c], Repeat(c, n + 1);
    assert |a| == |b|;
    forall k | 0 <= k < |a| ensures a[k] == b[k] {
    }
  }

  /** `r` is `body` with `before` copies of `fill` in front and `after`
      copies behind. */
  predicate Framed(r: string, body: string, fill: char, before: nat, after: nat)
  {
    && |r| == before + |body| + after
    && (forall k :: 0 <= k < before ==> r[k] == fill)
    && r[before..before + |body|] == body
    && (forall k :: before + |body| <= k < |r| ==> r[k] == fill)
  }

  lemma FramedRepeat(body: string, fill: char, before: nat, after: nat)
    ensures Framed(Repeat(fill, before) + body + Repeat(fill, after), body, fill, before, after)
  {
    var r := Repeat(fill, before) + body + Repeat(fill, after);
    assert r[before..before + |body|] == body;
    forall k | before + |body| <= k < |r| ensures r[k] == fill {
      assert r[k] == Repeat(fill, after)[k - before - |body|];
    }
  }

  lemma Concat4(a: string, b: string, c: string, d: string)
    ensures a + b + c + d == a + (b + c + d)
  {
  }
}
