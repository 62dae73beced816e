/**
 * The integration scenario of fark/tests/test.rs: a password strategy
 * registered with `with_local`, a secret set with `with_jwt`, a login, and a
 * token issued for the logged-in identity and verified again.
 */
module Scenario {
  import opened Wrappers
  import opened Errors
  import opened Identities
  import opened Inputs
  import opened Strategies
  import opened Registry
  import opened Jwt

  /** The host's password check: "admin"/"pass" is user "123" with `adminData`, anything else `PasswordMismatch`. */
  function AdminCheck(adminData: Value): LocalFn {
    (data: map<string, string>) =>
      if "username" in data && data["username"] == "admin" && "password" in data && data["password"] == "pass"
      then Ok(Identity("123", adminData))
      else Err(PasswordMismatch)
  }

  /** The login form the test submits. */
  function LoginForm(password: string): (form: map<string, string>)
    ensures form.Keys == {"username", "password"}
    ensures form["username"] == "admin" && form["password"] == password
  {
    map["username" := "admin", "password" := password]
  }

  /**
   * Runs the test: the right password logs user "123" in, and the token then
   * issued for that identity verifies back to it. The test unwraps the
   * issued token, so it demands a working clock and encoder.
   */
  method LoginIssueVerify(adminData: Value, clock: Result<u64, TimeError>, encode: Encoder, decode: Decoder)
    returns (authenticated: AuthResult, issued: Result<string, AuthError>, verified: Result<Identity, AuthError>)
    requires clock.Ok? && NoOverflow(clock.value, 3600)
    requires encode(Header(HS256), IssuedClaims(Identity("123", adminData), clock.value, 3600), FromSecret("test_secret")).Ok?
    requires DecodeInvertsOn(encode, decode, FromSecret("test_secret"),
                             IssuedClaims(Identity("123", adminData), clock.value, 3600))
    ensures authenticated == Ok(Identity("123", adminData))
    ensures issued.Ok?
    ensures verified == authenticated
  {
    var fark := new Fark();
    ghost var regs: seq<Strategy> := [];
    assert fark.strategies == Built(regs);
    fark.WithLocal(AdminCheck(adminData));
    BuiltAppend(regs, LocalStrategy(AdminCheck(adminData)));
    regs := regs + [LocalStrategy(AdminCheck(adminData))];
    fark.WithJwt("test_secret");
    assert fark.strategies == Built(regs);
    assert IsLastFor(regs, 0, "local");
    AuthenticateAfterBuilds(fark, regs, "local", Local(LoginForm("pass")));
    authenticated := fark.Authenticate("local", Local(LoginForm("pass")));
    issued := Err(InternalError);
    verified := Err(InvalidToken);
    if authenticated.Ok? {
      issued := IssueJwt(fark.secret, authenticated.value, 3600, clock, encode);
      if issued.Ok? {
        IssueThenVerify(fark.secret, authenticated.value, 3600, clock, encode, decode);
        verified := VerifyJwt(fark.secret, issued.value, decode);
      }
    }
  }

  /** A wrong password reaches the host's check and is refused by it, not as `InvalidInput`. */
  lemma WrongPasswordIsMismatch(fark: Fark, adminData: Value, password: string)
    requires "local" in fark.strategies && fark.strategies["local"] == LocalStrategy(AdminCheck(adminData))
    requires password != "pass"
    ensures fark.Authenticate("local", Local(LoginForm(password))) == Err(PasswordMismatch)
  {
  }
}
