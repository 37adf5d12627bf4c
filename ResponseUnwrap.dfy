/** `throwErrors`: return a response envelope's data, or throw one error that lists the envelope's errors. */
module ResponseUnwrap {
  import opened Wrappers
  import opened Strings
  import opened Types

  /** The envelope carries a non-empty error list. */
  predicate ErrorsPresent(res: Response)
  {
    res.errors.Some? && |res.errors.value| > 0
  }

  /** Some invoked function's result is `null` (a missing result, `undefined`, is not). */
  predicate HasNullResult(d: map<string, Value>)
  {
    exists k :: k in d && d[k] == Null
  }

  /** One error's part of the message: its name and message, then its serialised data if that is truthy. */
  function Describe(e: ApiError, stringify: Value -> string): string
  {
    e.name + ": " + e.message + (if Truthy(e.data) then " - " + stringify(e.data) else "")
  }

  function Descriptions(errs: seq<ApiError>, stringify: Value -> string): (ds: seq<string>)
    ensures |ds| == |errs|
    ensures forall i :: 0 <= i < |errs| ==> ds[i] == Describe(errs[i], stringify)
  {
    if errs == [] then [] else [Describe(errs[0], stringify)] + Descriptions(errs[1..], stringify)
  }

  /** The thrown message: "Errors: ", then the descriptions in error order joined by "; ". */
  function ErrorMessage(errs: seq<ApiError>, stringify: Value -> string): (s: string)
    ensures |s| >= 8 && s[..8] == "Errors: "
    ensures |errs| == 1 ==> s == "Errors: " + Describe(errs[0], stringify)
  {
    "Errors: " + Join("; ", Descriptions(errs, stringify))
  }

  /**
   * Throws exactly when there are errors and the data is missing or holds a null result;
   * otherwise returns the data as it is, so a returned value never hides a failed function
   * behind reported errors.
   */
  function ThrowErrors(res: Response, stringify: Value -> string): (r: Result<Option<map<string, Value>>, string>)
    ensures r.Failure? <==> ErrorsPresent(res) && (res.data.None? || HasNullResult(res.data.value))
    ensures r.Failure? ==> r.error == ErrorMessage(res.errors.value, stringify)
    ensures r.Success? ==> r.value == res.data
    ensures r.Success? && ErrorsPresent(res) ==>
      res.data.Some? && forall k :: k in res.data.value ==> res.data.value[k] != Null
  {
    if (res.data.None? || HasNullResult(res.data.value)) && ErrorsPresent(res) then
      Failure(ErrorMessage(res.errors.value, stringify))
    else
      Success(res.data)
  }

  /** The message names every error: its description, and so its message, occurs in the text. */
  lemma MessageListsEachError(errs: seq<ApiError>, stringify: Value -> string, i: int)
    requires 0 <= i < |errs|
    ensures ErrorMessage(errs, stringify)[..8] == "Errors: "
    ensures IsInfix(Describe(errs[i], stringify), ErrorMessage(errs, stringify))
    ensures IsInfix(errs[i].message, ErrorMessage(errs, stringify))
  {
    var e, ds := errs[i], Descriptions(errs, stringify);
    var m := ErrorMessage(errs, stringify);
    JoinHasEach("; ", ds, i);
    InfixOfConcat("Errors: ", Join("; ", ds), "");
    assert "Errors: " + Join("; ", ds) + "" == m;
    InfixTrans(Describe(e, stringify), Join("; ", ds), m);
    var tail := if Truthy(e.data) then " - " + stringify(e.data) else "";
    InfixOfConcat(e.name + ": ", e.message, tail);
    assert e.name + ": " + e.message + tail == Describe(e, stringify);
    InfixTrans(e.message, Describe(e, stringify), m);
  }

  /** With one error the message is "Errors: " and that error's description, with no separator. */
  lemma SingleErrorMessage(e: ApiError, stringify: Value -> string)
    ensures ErrorMessage([e], stringify) == "Errors: " + Describe(e, stringify)
    ensures !Truthy(e.data) ==> ErrorMessage([e], stringify) == "Errors: " + e.name + ": " + e.message
  {
    assert Descriptions([e], stringify) == [Describe(e, stringify)];
  }

  /**
   * The three envelopes of the unwrapping contract: no data and one error throws a message
   * naming the error; data with a value and one error returns the data; a null result and one
   * error throws.
   */
  lemma UnwrapScenarios(e: ApiError, stringify: Value -> string)
    ensures var r := ThrowErrors(Response(Some([e]), None), stringify);
      r.Failure? && IsInfix(e.message, r.error)
    ensures ThrowErrors(Response(Some([e]), Some(map["foo" := Str("bar")])), stringify)
      == Success(Some(map["foo" := Str("bar")]))
    ensures ThrowErrors(Response(Some([e]), Some(map["foo" := Null])), stringify).Failure?
  {
    MessageListsEachError([e], stringify, 0);
    var d := map["foo" := Str("bar")];
    assert !HasNullResult(d) by {
      forall k | k in d ensures d[k] != Null {
        assert k == "foo";
      }
    }
    assert HasNullResult(map["foo" := Null]) by {
      assert map["foo" := Null]["foo"] == Null;
    }
  }
}
