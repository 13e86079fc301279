/** The stand-alone copy of the validator chain (src/core/applyValidators.ts). */
module StandaloneChain {
  import opened Validation

  /** applyValidators (applyValidators.ts 6-45): the same index-stepping loop as the copy
      in types.ts, with the same outcome and the same invocations. */
  method ApplyValidators<T>(value: T, validators: seq<Validator<T>>)
    returns (result: Option<string>, invoked: seq<nat>)
    ensures result == Chain(value, validators)
    ensures |invoked| == Consulted(value, validators)
    ensures forall k :: 0 <= k < |invoked| ==> invoked[k] == k
  {
    var currentIndex := 0;
    invoked := [];
    result := None;
    var resolved := false;
    while !resolved && currentIndex < |validators|
      invariant 0 <= currentIndex <= |validators|
      invariant |invoked| == currentIndex + (if resolved then 1 else 0)
      invariant forall k :: 0 <= k < |invoked| ==> invoked[k] == k
      invariant !resolved ==> Chain(value, validators) == Chain(value, validators[currentIndex..])
      invariant !resolved ==> Consulted(value, validators) == currentIndex + Consulted(value, validators[currentIndex..])
      invariant !resolved ==> result == None
      invariant resolved ==> result == Chain(value, validators) && |invoked| == Consulted(value, validators)
      decreases |validators| - currentIndex, if resolved then 0 else 1
    {
      var res := validators[currentIndex](value);
      invoked := invoked + [currentIndex];
      assert validators[currentIndex..][1..] == validators[currentIndex + 1..];
      if !res.Async? && !Truthy(res.reply) {
        // no error
        currentIndex := currentIndex + 1;
      } else if res.Sync? {
        // some error
        result, resolved := res.reply, true;
      } else if !Truthy(res.reply) {
        // the thenable resolved with no error
        currentIndex := currentIndex + 1;
      } else {
        // the thenable resolved with an error
        result, resolved := res.reply, true;
      }
    }
  }

  /** For the same value and validators this copy and the one in types.ts agree. */
  method AgreesWithCore<T>(value: T, validators: seq<Validator<T>>)
    returns (here: Option<string>, core: Option<string>)
    ensures here == core
    ensures here == Chain(value, validators)
  {
    var i1, i2;
    here, i1 := ApplyValidators(value, validators);
    core, i2 := Validation.ApplyValidators(value, validators);
  }
}
