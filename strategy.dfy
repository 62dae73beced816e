/**
 * A registered strategy: the tag-checking wrapper that each builder of
 * fark/src/fark.rs boxes around the host's function. The host function itself
 * is an arbitrary (uninterpreted) total function over that kind's fields; the
 * future it returns in the source is collapsed to its eventual result.
 */
module Strategies {
  import opened Wrappers
  import opened Errors
  import opened Identities
  import opened Inputs

  type AuthResult = Result<Identity, AuthError>

  /** The host function the builder for each kind accepts. */
  type LocalFn = map<string, string> -> AuthResult
  type GoogleFn = (string, string, string, seq<string>) -> AuthResult
  type PinFn = i32 -> AuthResult

  datatype Strategy =
    | LocalStrategy(local: LocalFn)
    | GoogleStrategy(google: GoogleFn)
    | PinStrategy(pin: PinFn)
  {
    /** The input tag this wrapper was built for. */
    function Kind(): InputKind {
      match this
      case LocalStrategy(_) => LocalKind
      case GoogleStrategy(_) => GoogleKind
      case PinStrategy(_) => PinKind
    }

    /** The key its builder registers it under. */
    function Key(): string {
      KeyOf(Kind())
    }

    /**
     * Runs the wrapper on `input`: an input of another tag is refused with
     * `InvalidInput`; an input of its own tag is handed, field by field, to the
     * host function, whose result is returned as it is.
     */
    function Call(input: AuthInput): (r: AuthResult)
      ensures input.Kind() != Kind() ==> r == Err(InvalidInput)
      ensures LocalStrategy? && input.Local? ==> r == local(input.data)
      ensures GoogleStrategy? && input.Google? ==>
                r == google(input.clientId, input.clientSecret, input.callbackUrl, input.scope)
      ensures PinStrategy? && input.Pin? ==> r == pin(input.pinCode)
    {
      match (this, input)
      case (LocalStrategy(f), Local(data)) => f(data)
      case (GoogleStrategy(f), Google(clientId, clientSecret, callbackUrl, scope)) =>
        f(clientId, clientSecret, callbackUrl, scope)
      case (PinStrategy(f), Pin(pinCode)) => f(pinCode)
      case _ => Err(InvalidInput)
    }
  }

  /**
   * A wrapper handed an input of a foreign tag never consults its host
   * function: two wrappers of the same kind, whatever their functions, give
   * the same answer.
   */
  lemma MismatchIgnoresHostFunction(s: Strategy, t: Strategy, input: AuthInput)
    requires s.Kind() == t.Kind() && input.Kind() != s.Kind()
    ensures s.Call(input) == t.Call(input) == Err(InvalidInput)
  {
  }
}
