/** The builder-time checks of error.go. Each either returns with no
    effect or panics with an error; a panic is modelled as a `Panic`
    outcome carrying the error's text. */
module Asserts {
  import opened Wrappers
  import opened Text

  datatype Outcome = Pass | Panic(message: string)

  /** `fmt`'s `%v` rendering of a `[]string`: the elements separated by
      single spaces, in brackets. */
  function FormatList(items: seq<string>): string {
    "[" + Join(items, " ") + "]"
  }

  /** `assertIsOneOf`: passes iff `value` equals an allowed element exactly
      (case matters). */
  method AssertIsOneOf(value: string, allowed: seq<string>) returns (o: Outcome)
    ensures o == Pass <==> value in allowed
    ensures o != Pass ==> o == Panic(value + " must be one of " + FormatList(allowed))
  {
    var i := 0;
    while i < |allowed|
      invariant 0 <= i <= |allowed|
      invariant forall j :: 0 <= j < i ==> allowed[j] != value
    {
      if allowed[i] == value {
        return Pass;
      }
      i := i + 1;
    }
    return Panic(value + " must be one of " + FormatList(allowed));
  }

  const MustNotBeEmpty := " must not be EMPTY"

  /** `assertIsNotEmpty`: panics iff the value has length 0. */
  function AssertIsNotEmpty(name: string, value: string): (o: Outcome)
    ensures o == Pass <==> |value| > 0
    ensures o != Pass ==> o.message == name + MustNotBeEmpty
  {
    if |value| == 0 then Panic(name + MustNotBeEmpty) else Pass
  }

  /** `assertIsNotNil`: panics iff the value is nil. */
  function AssertIsNotNil<T>(name: string, value: Option<T>): (o: Outcome)
    ensures o == Pass <==> value.Some?
    ensures o != Pass ==> o.message == name + " must not be NIL"
  {
    if value.None? then Panic(name + " must not be NIL") else Pass
  }

  /** Running checks in order: the first panic ends the sequence. */
  function FirstPanic(checks: seq<Outcome>): (o: Outcome)
    ensures o == Pass <==> forall i :: 0 <= i < |checks| ==> checks[i] == Pass
    ensures o != Pass ==>
      exists i :: 0 <= i < |checks| && checks[i] == o && (forall j :: 0 <= j < i ==> checks[j] == Pass)
  {
    if |checks| == 0 then Pass
    else if checks[0] != Pass then checks[0]
    else
      var o := FirstPanic(checks[1..]);
      assert forall i :: 1 <= i < |checks| ==> checks[i] == checks[1..][i - 1];
      if o != Pass then
        var i :| 0 <= i < |checks[1..]| && checks[1..][i] == o && forall j :: 0 <= j < i ==> checks[1..][j] == Pass;
        assert checks[i + 1] == o;
        o
      else o
  }
}
