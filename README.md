# Fark: strategy registry and token gates

Fark is a small authentication library. A host builds a `Fark` object,
registers one strategy per input kind (`with_local`, `with_google`,
`with_pin`), sets a signing secret (`with_jwt`), and then calls
`authenticate(name, input)`, which looks the strategy up by name and runs it.
The identity that comes back can be exchanged for a JSON Web Token
(`issue_jwt`) and recovered from it later (`verify_jwt`).

This project models that core in Dafny:

- `errors.dfy`, `identity.dfy`, `input.dfy`: the error taxonomy, the
  `Identity` record (its JSON document is an opaque `Value`) and the closed
  `AuthInput` union with its tags.
- `strategy.dfy`: a registered strategy is the tag-checking wrapper a builder
  boxes around the host function, one constructor per kind, each holding an
  arbitrary host function over that kind's fields.
- `fark.dfy`: the `Fark` class with its `strategies` map and `secret`, the
  three builders and `with_jwt` as methods that update those fields, and
  `Authenticate` as a read-only function. `Built` folds a chain of builder
  calls into the map they produce, for the last-write-wins lemmas.
- `jwt.dfy`: `IssueJwt` and `VerifyJwt` as functions of the secret the
  `Fark` holds. The `jsonwebtoken` crate's `encode` and `decode` are
  parameters of function type (arbitrary functions), and so is the clock
  read, as a `Result<u64, TimeError>`.
- `scenario.dfy`: the integration test of `fark/tests/test.rs`, with its
  password check as a concrete host function.

## Model

| member | source | states |
|---|---|---|
| `Inputs.KeyOf` | fark/src/fark.rs:25-67 | each input kind has its own registry key, "local", "google" or "pin", and no two kinds share one |
| `Strategies.Strategy.Call` | fark/src/fark.rs:27-65 | a wrapper given another kind's input returns `InvalidInput`; given its own kind it returns the host function's result on exactly that variant's fields |
| `Strategies.MismatchIgnoresHostFunction` | fark/src/fark.rs:27-66 | on a mismatched input the host function is never consulted: any two wrappers of the same kind give the same `InvalidInput` |
| `Registry.Register` | fark/src/fark.rs:25-31 | one registration adds or replaces exactly the strategy's own key, keeps every other entry, and keeps every entry under the key of its own kind |
| `Registry.Fark.constructor` | fark/src/fark.rs:13-18 | `new()` yields an empty strategy map and an empty secret |
| `Registry.Fark.WithLocal` | fark/src/fark.rs:20-34 | the map becomes the old map with "local" bound to the new wrapper; the secret is unchanged |
| `Registry.Fark.WithGoogle` | fark/src/fark.rs:36-54 | the map becomes the old map with "google" bound to the new wrapper; the secret is unchanged |
| `Registry.Fark.WithPin` | fark/src/fark.rs:56-69 | the map becomes the old map with "pin" bound to the new wrapper; the secret is unchanged |
| `Registry.Fark.WithJwt` | fark/src/fark.rs:70-72 | the secret becomes the given string; the strategy map is unchanged |
| `Registry.Fark.Authenticate` | fark/src/fark.rs:74-81 | an unregistered name gives `StrategyNotFound`; a registered one gives exactly what its stored strategy returns for the input; the object is only read |
| `Registry.RoutedMismatchIsInvalidInput` | fark/src/fark.rs:25-66 | in any `Fark`, a registered name receiving an input of another kind than the one it stands for gives `InvalidInput` |
| `Registry.Built` | fark/src/fark.rs:20-69 | every map a chain of builder calls produces keeps each strategy under its own kind's key and uses no key besides the three |
| `Registry.BuiltAppend` | fark/src/fark.rs:20-69 | one more builder call on a registry built by a chain gives the registry built by the longer chain, so the builder methods keep `strategies` equal to the fold of the calls made |
| `Registry.BuiltDomain` | fark/src/fark.rs:20-69 | after a chain of builder calls a name is bound if and only if some call registered under it |
| `Registry.BuiltKeepsLastWrite` | fark/src/fark.rs:20-69 | after a chain of builder calls a name is bound to the strategy of the last call that registered under it |
| `Registry.AuthenticateAfterBuilds` | fark/src/fark.rs:74-81 | after a chain of builder calls, a name no call used gives `StrategyNotFound` for every input, and a used one dispatches to the last strategy registered under it |
| `Registry.SecondRegistrationWins` | fark/src/fark.rs:25-31 | registering the same kind twice is the same as registering only the second strategy |
| `Jwt.IdentityOf` | fark/src/jwt.rs:68-71 | the identity rebuilt from a claim set has the subject as its user id and the extra document as its data |
| `Jwt.IssuedClaims` | fark/src/jwt.rs:27-37 | the issued claims carry the identity back out, `iat` is the clock reading, `exp` is `iat + ttl_secs` (so never below `iat`), and there is no audience or issuer |
| `Jwt.VerifyValidation` | fark/src/jwt.rs:55-57 | verification asks for HS256 with the expiry check on and 30 seconds of leeway |
| `Jwt.IssueJwt` | fark/src/jwt.rs:20-47 | an empty secret is `SecretNotFound` whatever the clock and encoder do; a failed clock read or a failed encoding under a non-empty secret is `InternalError`, the only error besides `SecretNotFound`; it succeeds exactly when the HS256 encoding of the issued claims under the secret succeeds, and then returns that token |
| `Jwt.VerifyJwt` | fark/src/jwt.rs:49-72 | an empty secret is `SecretNotFound` for every token; with a non-empty secret every failure, that is every decode failure, is `InvalidToken`; with a secret it succeeds exactly when the decode under that secret and validation succeeds, and returns the identity the decoded claims carry |
| `Jwt.IssueThenVerify` | fark/tests/test.rs:40-46 | if, at verification time, the decoder gives back the claims just issued from the token the encoder made of them, that token verifies to the identity it was issued for |
| `Scenario.LoginForm` | fark/tests/test.rs:29-31 | the login form holds exactly the username "admin" and the given password |
| `Scenario.LoginIssueVerify` | fark/tests/test.rs:8-53 | logging in as admin/pass through the "local" strategy yields user "123", the token issued for it is produced, and, with a decoder that accepts that fresh token, verifying it gives the same identity |
| `Scenario.WrongPasswordIsMismatch` | fark/tests/test.rs:11-25 | a wrong password reaches the host's check and is refused as `PasswordMismatch`, not `InvalidInput` |

## Left out

- Futures, `async`, `Send`/`Sync` and boxing: a strategy call is a plain function from input to result, since the dispatcher only awaits it.
- The builders take `self` by value and return it; the model updates the one `Fark` object in place, which is what the builder chain amounts to.
- The `jsonwebtoken` crate (base64url, HMAC-SHA256, signature comparison, the expiry and leeway test, header parsing): `encode` and `decode` are arbitrary functions, so no expiry boundary, signature tampering or malformed-token behaviour is claimed; the model only fixes what is passed to them and how their failures are mapped.
- fark/src/time.rs (the `SystemTime` read) is not part of this model: its result is a parameter of `IssueJwt`; the clock read inside the crate's `decode` is part of the decoder parameter.
- `serde`/`serde_json`: the JSON `Value` is opaque and serialisation of the claims happens inside the encoder.
- The secret's conversion to bytes (`as_bytes`): keys are built from the secret string itself.
- Error display strings; `UserError` and `TokenError` are declared but nothing in the core returns them.
- `IssueJwt`: requires that `now + ttl_secs` fits in a `u64`; the source's addition panics in a debug build and wraps in a release build otherwise, and neither outcome is modelled.
- fark/src/lib copy.rs is an older single-file variant that fark/src/lib.rs does not compile; it is not part of this model. Where it and the library disagree (it maps signing failures to `TokenError` and checks `exp` and `iat` itself), the model follows fark/src/jwt.rs, which maps every encoder failure to `InternalError`.
