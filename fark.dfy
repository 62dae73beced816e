/**
 * The strategy registry and dispatch of fark/src/fark.rs: a `Fark` object
 * holding the strategies by name and the signing secret.
 */
module Registry {
  import opened Wrappers
  import opened Errors
  import opened Identities
  import opened Inputs
  import opened Strategies

  /**
   * Every entry sits under the key of its own kind. Only the three builders
   * insert into the map, so this holds of every `Fark`.
   */
  ghost predicate WellKeyed(m: map<string, Strategy>) {
    forall name :: name in m ==> m[name].Key() == name
  }

  /** The map after one builder call registering `s`. */
  function Register(m: map<string, Strategy>, s: Strategy): (r: map<string, Strategy>)
    ensures r.Keys == m.Keys + {s.Key()}
    ensures r[s.Key()] == s
    ensures forall name :: name in m && name != s.Key() ==> r[name] == m[name]
    ensures WellKeyed(m) ==> WellKeyed(r)
  {
    m[s.Key() := s]
  }

  class Fark {
    var strategies: map<string, Strategy>
    var secret: string

    ghost predicate Valid()
      reads this
    {
      WellKeyed(strategies)
    }

    /** `Fark::new()`: no strategies, no secret. */
    constructor ()
      ensures Valid()
      ensures strategies == map[] && secret == ""
    {
      strategies := map[];
      secret := "";
    }

    /** `with_local`: (re)binds exactly the key "local"; the secret stays. */
    method WithLocal(f: LocalFn)
      requires Valid()
      modifies this
      ensures Valid()
      ensures strategies == old(strategies)["local" := LocalStrategy(f)]
      ensures secret == old(secret)
    {
      strategies := Register(strategies, LocalStrategy(f));
    }

    /** `with_google`: (re)binds exactly the key "google"; the secret stays. */
    method WithGoogle(f: GoogleFn)
      requires Valid()
      modifies this
      ensures Valid()
      ensures strategies == old(strategies)["google" := GoogleStrategy(f)]
      ensures secret == old(secret)
    {
      strategies := Register(strategies, GoogleStrategy(f));
    }

    /** `with_pin`: (re)binds exactly the key "pin"; the secret stays. */
    method WithPin(f: PinFn)
      requires Valid()
      modifies this
      ensures Valid()
      ensures strategies == old(strategies)["pin" := PinStrategy(f)]
      ensures secret == old(secret)
    {
      strategies := Register(strategies, PinStrategy(f));
    }

    /** `with_jwt`: replaces the secret; the strategies stay. */
    method WithJwt(s: string)
      requires Valid()
      modifies this
      ensures Valid()
      ensures secret == s && strategies == old(strategies)
    {
      secret := s;
    }

    /**
     * `authenticate`: an unknown name is `StrategyNotFound`; a known one
     * answers whatever its stored wrapper answers. Being a function, it
     * leaves the object as it was.
     */
    function Authenticate(name: string, input: AuthInput): (r: AuthResult)
      reads this
      ensures name !in strategies ==> r == Err(StrategyNotFound)
      ensures name in strategies ==> r == strategies[name].Call(input)
    {
      if name in strategies then strategies[name].Call(input) else Err(StrategyNotFound)
    }
  }

  /**
   * In a well-keyed registry, a name bound to a strategy refuses every input
   * whose tag is not the one that name stands for, with `InvalidInput`.
   */
  lemma RoutedMismatchIsInvalidInput(fark: Fark, name: string, input: AuthInput)
    requires fark.Valid()
    requires name in fark.strategies && name != KeyOf(input.Kind())
    ensures fark.Authenticate(name, input) == Err(InvalidInput)
  {
  }

  /**
   * The registry built by `Fark::new()` followed by one builder call per
   * element of `regs`, in order.
   */
  ghost function Built(regs: seq<Strategy>): (m: map<string, Strategy>)
    ensures WellKeyed(m)
    ensures m.Keys <= {"local", "google", "pin"}
  {
    if regs == [] then map[] else Register(Built(regs[..|regs| - 1]), regs[|regs| - 1])
  }

  /**
   * One more builder call extends the chain: the map after `regs` followed by
   * a call registering `s` is the map after `regs` with `s` registered, which
   * is what `WithLocal`, `WithGoogle` and `WithPin` leave in `strategies`.
   */
  lemma BuiltAppend(regs: seq<Strategy>, s: Strategy)
    ensures Built(regs + [s]) == Register(Built(regs), s)
    ensures Built(regs + [s]) == Built(regs)[s.Key() := s]
  {
  }

  /** `regs[i]` is the last registration in `regs` under `name`. */
  ghost predicate IsLastFor(regs: seq<Strategy>, i: int, name: string) {
    && 0 <= i < |regs|
    && regs[i].Key() == name
    && forall j :: i < j < |regs| ==> regs[j].Key() != name
  }

  /** After a chain of builder calls, `name` is bound exactly when some call registered under it. */
  lemma {:induction false} BuiltDomain(regs: seq<Strategy>, name: string)
    ensures name in Built(regs) <==> exists i :: 0 <= i < |regs| && regs[i].Key() == name
  {
    if regs != [] {
      var n := |regs| - 1;
      BuiltDomain(regs[..n], name);
      if regs[n].Key() != name {
        if name in Built(regs[..n]) {
          var i :| 0 <= i < n && regs[..n][i].Key() == name;
          assert regs[i].Key() == name;
        }
        forall i | 0 <= i < |regs| && regs[i].Key() == name ensures name in Built(regs[..n]) {
          assert i < n && regs[..n][i] == regs[i];
        }
      }
    }
  }

  /**
   * Last write wins: after a chain of builder calls, a name is bound to the
   * strategy of the last call that registered under it.
   */
  lemma {:induction false} BuiltKeepsLastWrite(regs: seq<Strategy>, i: int, name: string)
    requires IsLastFor(regs, i, name)
    ensures name in Built(regs) && Built(regs)[name] == regs[i]
  {
    var n := |regs| - 1;
    if i < n {
      assert IsLastFor(regs[..n], i, name);
      BuiltKeepsLastWrite(regs[..n], i, name);
    }
  }

  /**
   * Dispatch after a chain of builder calls: a name never registered is
   * `StrategyNotFound` for every input, and a registered one answers with the
   * last strategy registered under it.
   */
  lemma AuthenticateAfterBuilds(fark: Fark, regs: seq<Strategy>, name: string, input: AuthInput)
    requires fark.strategies == Built(regs)
    ensures (forall i :: 0 <= i < |regs| ==> regs[i].Key() != name) ==>
              fark.Authenticate(name, input) == Err(StrategyNotFound)
    ensures forall i :: IsLastFor(regs, i, name) ==>
              fark.Authenticate(name, input) == regs[i].Call(input)
  {
    BuiltDomain(regs, name);
    forall i | IsLastFor(regs, i, name) ensures name in fark.strategies && fark.strategies[name] == regs[i] {
      BuiltKeepsLastWrite(regs, i, name);
    }
  }

  /** Registering the same kind twice keeps only the second strategy. */
  lemma SecondRegistrationWins(m: map<string, Strategy>, first: Strategy, second: Strategy)
    requires first.Kind() == second.Kind()
    ensures Register(Register(m, first), second) == Register(m, second)
  {
  }
}
