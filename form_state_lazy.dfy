/** A form over a collection that `getFields` recomputes on every read
    (src/core/formStateLazy.ts). Every operation that reads the children takes the
    collection as it is at that moment, so a child added or removed since the last call
    is simply present or absent. There is no composition here: the lazy form neither
    tracks passed children nor notifies a parent. */
module FormLazy {
  import opened Validation
  import opened ErrorOrs
  import opened Form

  class FormStateLazy<V> {
    var validators: seq<FormValidator<V>>
    var formError: Option<string>
    var validating: bool

    /** formStateLazy.ts 61-66, 68, 110. */
    constructor ()
      ensures validators == [] && formError == Some("") && !validating
    {
      validators := [];
      formError := Some("");
      validating := false;
    }

    function HasFieldError(kids: seq<Child<V>>): bool
      reads this
    {
      AnyChildHasError(kids)
    }

    function HasFormError(): bool
      reads this
    {
      Truthy(formError)
    }

    function HasError(kids: seq<Child<V>>): bool
      reads this
    {
      FormHasError(kids, formError)
    }

    function FieldError(kids: seq<Child<V>>): Option<string>
      reads this
    {
      FirstFieldError(kids)
    }

    function FormError(): Option<string>
      reads this
    {
      formError
    }

    function Error(kids: seq<Child<V>>): Option<string>
      reads this
    {
      CombinedError(kids, formError)
    }

    function ShowFormError(kids: seq<Child<V>>): bool
      reads this
    {
      FormErrorShown(kids, formError)
    }

    /** `$` is whatever getFields returns now (formStateLazy.ts 58-60). */
    function Status(kids: seq<Child<V>>): Status<seq<Child<V>>>
      reads this
    {
      Validation.Status(validating, Error(kids), kids)
    }

    method SetValidators(vs: seq<FormValidator<V>>)
      modifies this`validators
      ensures validators == vs
    {
      validators := vs;
    }

    /** The first step of validate (formStateLazy.ts 75-77). */
    method BeginValidate()
      modifies this`validating
      ensures validating
    {
      validating := true;
    }

    /** The rest of validate (formStateLazy.ts 77-102): `results` are what the children read
        at the start resolved with, `kids` is the collection as read after they resolved. */
    method SettleValidate<X>(results: seq<ErrorOr<X>>, kids: seq<Child<V>>)
      returns (result: ErrorOr<seq<Child<V>>>)
      modifies this`formError, this`validating
      ensures var s := Settle(results, kids, validators, old(formError));
              formError == s.formError && result == s.result
      ensures !validating
    {
      if AnyFailed(results) {
        validating := false;
        return ErrorOr.HasError;
      }
      var error, _ := ApplyValidators(kids, validators);
      if error != formError {
        formError := error;
      }
      validating := false;
      if Truthy(error) {
        return ErrorOr.HasError;
      }
      result := Ok(kids);
    }

    /** clearFormError (formStateLazy.ts 136-138). */
    method ClearFormError()
      modifies this`formError
      ensures formError == Some("") && !HasFormError()
    {
      formError := Some("");
    }
  }

  /** Adding a child is seen by the very next read: the same form, read over a collection
      with one more child, reports that child's error when no earlier child has one. */
  lemma NewChildIsSeen<V>(kids: seq<Child<V>>, extra: Child<V>, formError: Option<string>)
    requires !AnyChildHasError(kids) && extra.status.HasError()
    ensures CombinedError(kids + [extra], formError) == extra.status.error
    ensures FormHasError(kids + [extra], formError)
  {
    var all := kids + [extra];
    assert all[|kids|] == extra;
    assert forall k :: 0 <= k < |kids| ==> all[k] == kids[k];
    var i := FirstErrorIndex(all);
    assert i == |kids|;
  }
}
