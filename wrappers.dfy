/** Option and outcome types shared by every module of the model. */
module Wrappers {

  datatype Option<+T> = None | Some(value: T) {
    /** Python's `x if x is not None else default`. */
    function GetOr(default: T): T {
      match this
      case Some(v) => v
      case None => default
    }
  }

  /** The exceptions that the modelled Python code lets escape to its caller. */
  datatype Exception =
    | MultipleResultsFound          // `scalar_one_or_none` met more than one row
    | Base64Error                   // `binascii.Error` raised while decoding base64url text
    | JsonDecodeError               // `json.loads` met text it cannot parse
    | KeyError(key: string)         // a missing dictionary key or enum member name
    | IntegrityError                // a primary-key collision when the session commits
    | AttributeError(name: string)  // an attribute the object or the class does not have
    | TypeError                     // a keyword argument given twice
    | RuntimeError(message: string) // raised by code outside the model, with its text

  /** What a call produces: a returned value, or an exception that propagates. */
  datatype Outcome<+T> = Ok(value: T) | Raised(error: Exception)

  /**
   * A step that may raise, applied to every element in order: the results, or the exception of
   * the first element whose step raises (a Python loop or list comprehension over `xs`).
   */
  function MapOutcome<X, Y>(xs: seq<X>, f: X -> Outcome<Y>): (r: Outcome<seq<Y>>)
    ensures r.Ok? <==> forall i :: 0 <= i < |xs| ==> f(xs[i]).Ok?
    ensures r.Ok? ==> (|r.value| == |xs| && forall i :: 0 <= i < |xs| ==> f(xs[i]) == Ok(r.value[i]))
    ensures r.Raised? ==> exists i :: (0 <= i < |xs| && f(xs[i]) == Raised(r.error) &&
      forall j :: 0 <= j < i ==> f(xs[j]).Ok?)
    decreases |xs|
  {
    if xs == [] then Ok([])
    else
      var init := xs[..|xs| - 1];
      assert forall i :: 0 <= i < |init| ==> init[i] == xs[i];
      match MapOutcome(init, f)
      case Raised(e) => Raised(e)
      case Ok(ys) =>
        match f(xs[|xs| - 1])
        case Raised(e) => Raised(e)
        case Ok(y) => Ok(ys + [y])
  }

  /** The first element whose step raises decides the exception. */
  lemma MapOutcomeFirstFailure<X, Y>(xs: seq<X>, f: X -> Outcome<Y>, i: nat)
    requires i < |xs| && MapOutcome(xs[..i], f).Ok? && f(xs[i]).Raised?
    ensures MapOutcome(xs, f) == Raised(f(xs[i]).error)
  {
    var prefix := xs[..i];
    assert forall j :: 0 <= j < i ==> prefix[j] == xs[j];
  }
}
