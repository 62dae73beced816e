/** The closed set of input shapes of fark/src/input.rs. */
module Inputs {
  /** A Rust `i32`. */
  newtype i32 = x: int | -0x8000_0000 <= x < 0x8000_0000

  /** The tag of an input variant, one per strategy kind. */
  datatype InputKind = LocalKind | GoogleKind | PinKind

  datatype AuthInput =
    | Local(data: map<string, string>)
    | Google(clientId: string, clientSecret: string, callbackUrl: string, scope: seq<string>)
    | Pin(pinCode: i32)
  {
    /** The tag of this input. */
    function Kind(): InputKind {
      match this
      case Local(_) => LocalKind
      case Google(_, _, _, _) => GoogleKind
      case Pin(_) => PinKind
    }
  }

  /** The registry key under which the builder for `kind` stores its strategy. */
  function KeyOf(kind: InputKind): (key: string)
    ensures key in {"local", "google", "pin"}
    ensures key == "local" <==> kind == LocalKind
    ensures key == "google" <==> kind == GoogleKind
    ensures key == "pin" <==> kind == PinKind
  {
    match kind
    case LocalKind => "local"
    case GoogleKind => "google"
    case PinKind => "pin"
  }
}
