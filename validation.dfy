/** The validator chain and the contracts every validatable shares (src/core/types.ts).

    A validator maps a value to a response. A response is either a plain reply or a
    thenable that later resolves with a reply. A reply is a message or a falsy value:
    `null`, `undefined` and `false` are all `None` here, and the empty message is
    falsy too, exactly as JavaScript's `!res` treats it. */
module Validation {

  datatype Option<+T> = None | Some(value: T)

  /** JavaScript truthiness of a reply: a message that is not the empty string. */
  predicate Truthy(reply: Option<string>) {
    reply.Some? && reply.value != ""
  }

  /** What a chain can resolve with: `null`, or a message that is not empty. */
  predicate IsOutcome(r: Option<string>) {
    r.None? || r.value != ""
  }

  /** What one validator returns: a reply at once, or a promise resolving with a reply. */
  datatype Response = Sync(reply: Option<string>) | Async(reply: Option<string>)

  type Validator<!T> = T -> Response

  /** What applyValidators resolves with: the first truthy reply in list order, or `null`. */
  function Chain<T>(value: T, validators: seq<Validator<T>>): (r: Option<string>)
    ensures IsOutcome(r)
    decreases |validators|
  {
    if |validators| == 0 then None
    else
      var reply := validators[0](value).reply;
      if Truthy(reply) then reply else Chain(value, validators[1..])
  }

  /** How many validators the chain invokes: every one up to and including the first
      that reports an error, or all of them. */
  function Consulted<T>(value: T, validators: seq<Validator<T>>): (n: nat)
    ensures n <= |validators|
    decreases |validators|
  {
    if |validators| == 0 then 0
    else if Truthy(validators[0](value).reply) then 1
    else 1 + Consulted(value, validators[1..])
  }

  /** The chain resolves with `null` exactly when no validator reports an error; otherwise
      with the reply of the first validator that does, and it invokes no validator after
      that one. So the result is never a message no validator returned. */
  lemma {:induction false} ChainIsFirstError<T>(value: T, validators: seq<Validator<T>>)
    ensures Chain(value, validators).None? <==>
            forall k :: 0 <= k < |validators| ==> !Truthy(validators[k](value).reply)
    ensures Chain(value, validators).None? ==> Consulted(value, validators) == |validators|
    ensures Chain(value, validators).Some? ==>
              var k := Consulted(value, validators) - 1;
              && 0 <= k < |validators|
              && Truthy(validators[k](value).reply)
              && Chain(value, validators) == validators[k](value).reply
              && forall j :: 0 <= j < k ==> !Truthy(validators[j](value).reply)
    decreases |validators|
  {
    if |validators| > 0 && !Truthy(validators[0](value).reply) {
      var rest := validators[1..];
      ChainIsFirstError(value, rest);
      assert forall k :: 1 <= k < |validators| ==> validators[k] == rest[k - 1];
    }
  }

  /** An empty validator list resolves with `null` and invokes nothing. */
  lemma EmptyChainPasses<T>(value: T)
    ensures Chain(value, []) == None && Consulted(value, []) == 0
  {
  }

  /** Whether a validator answers at once or through a promise does not change the chain:
      two lists whose validators give the same replies resolve alike and invoke alike. */
  lemma {:induction false} ChainIgnoresTiming<T>(value: T, vs: seq<Validator<T>>, ws: seq<Validator<T>>)
    requires |vs| == |ws|
    requires forall k :: 0 <= k < |vs| ==> vs[k](value).reply == ws[k](value).reply
    ensures Chain(value, vs) == Chain(value, ws)
    ensures Consulted(value, vs) == Consulted(value, ws)
    decreases |vs|
  {
    if |vs| > 0 {
      assert forall k :: 0 <= k < |vs| - 1 ==> vs[1..][k] == vs[k + 1] && ws[1..][k] == ws[k + 1];
      ChainIgnoresTiming(value, vs[1..], ws[1..]);
    }
  }

  /** The chain over a concatenation: the first list decides unless all of it passes. */
  lemma {:induction false} ChainAppend<T>(value: T, vs: seq<Validator<T>>, ws: seq<Validator<T>>)
    ensures Chain(value, vs + ws) == if Chain(value, vs).Some? then Chain(value, vs) else Chain(value, ws)
    decreases |vs|
  {
    if |vs| > 0 {
      assert (vs + ws)[0] == vs[0];
      assert (vs + ws)[1..] == vs[1..] + ws;
      ChainAppend(value, vs[1..], ws);
    } else {
      assert vs + ws == ws;
    }
  }

  /** applyValidators (types.ts 22-61). `currentIndex` only moves forward, each validator
      is invoked at most once and in list order (`invoked` records the indices), a falsy
      reply moves on, a truthy plain reply resolves at once, and a thenable resolves the
      same way once its reply is in. */
  method ApplyValidators<T>(value: T, validators: seq<Validator<T>>)
    returns (result: Option<string>, invoked: seq<nat>)
    ensures result == Chain(value, validators)
    ensures |invoked| == Consulted(value, validators)
    ensures forall k :: 0 <= k < |invoked| ==> invoked[k] == k
  {
    var currentIndex := 0;
    invoked := [];
    while true
      invariant 0 <= currentIndex <= |validators|
      invariant |invoked| == currentIndex
      invariant forall k :: 0 <= k < currentIndex ==> invoked[k] == k
      invariant Chain(value, validators) == Chain(value, validators[currentIndex..])
      invariant Consulted(value, validators) == currentIndex + Consulted(value, validators[currentIndex..])
      decreases |validators| - currentIndex
    {
      if currentIndex == |validators| {
        return None, invoked;
      }
      var res := validators[currentIndex](value);
      invoked := invoked + [currentIndex];
      assert validators[currentIndex..][1..] == validators[currentIndex + 1..];
      if res.Sync? && !Truthy(res.reply) {
        // no error: go to the next validator
        currentIndex := currentIndex + 1;
      } else if res.Sync? {
        // some error
        return res.reply, invoked;
      } else if !Truthy(res.reply) {
        // the promise resolved with no error
        currentIndex := currentIndex + 1;
      } else {
        // the promise resolved with an error
        return res.reply, invoked;
      }
    }
  }

  /** The read surface of every Validatable (types.ts 65-72); hasError is derived from error. */
  datatype Status<T> = Status(validating: bool, error: Option<string>, dollar: T) {
    predicate HasError() {
      Truthy(error)
    }
  }

  /** The two handlers a parent installs on a child through the composition hook
      (types.ts 77-87): which form listens, and the identity under which it knows the child. */
  datatype Listener = Listener(form: nat, child: nat)

  /** A composition notification on its way to the listening form: the child passed
      validation with a changed `$`, or the child was reinitialised. */
  datatype Notice = ChangedAfterValidation(to: Listener) | Reinitialised(to: Listener)
}
