/** A form over an ordered collection of children (src/core/formState.ts).

    The children are themselves stateful; the form sees them through `getValues`, which
    here is a snapshot `kids` of the children's read surfaces, in `getValues` order,
    passed to every operation that reads them. A child is identified by the number under
    which the form composed it. Form-level validators see that snapshot as the form's `$`.
    Children of one value type only; a form whose children are forms and fields of
    different types is outside this model. */
module Form {
  import opened Validation
  import opened ErrorOrs

  datatype Child<V> = Child(id: nat, status: Status<V>)

  /** The children as getValues lists them, read through `status`, each under its
      position; the fields of both FormState implementations are read this way. */
  function Snapshot<M, V>(ms: seq<M>, status: M -> Status<V>): (r: seq<Child<V>>)
    ensures |r| == |ms|
  {
    seq(|ms|, k requires 0 <= k < |ms| => Child(k, status(ms[k])))
  }

  type FormValidator<!V> = Validator<seq<Child<V>>>

  /** hasFieldError (formState.ts 128-130): some child has an error. */
  predicate AnyChildHasError<V>(kids: seq<Child<V>>) {
    exists k :: 0 <= k < |kids| && kids[k].status.HasError()
  }

  /** Where `find(f => !!f.hasError)` stops: the first child with an error, or the end. */
  function FirstErrorIndex<V>(kids: seq<Child<V>>): (i: nat)
    ensures i <= |kids|
    ensures i < |kids| ==> kids[i].status.HasError()
    ensures forall k :: 0 <= k < i ==> !kids[k].status.HasError()
    decreases |kids|
  {
    if |kids| == 0 then 0
    else if kids[0].status.HasError() then 0
    else 1 + FirstErrorIndex(kids[1..])
  }

  /** fieldError (formState.ts 149-152): the error of the first child, in order, that has
      one; `null` when none has. */
  function FirstFieldError<V>(kids: seq<Child<V>>): (r: Option<string>)
    ensures AnyChildHasError(kids) <==> Truthy(r)
    ensures AnyChildHasError(kids) ==>
              exists i :: 0 <= i < |kids| && r == kids[i].status.error
                          && forall k :: 0 <= k < i ==> !kids[k].status.HasError()
    ensures !AnyChildHasError(kids) ==> r == None
  {
    var i := FirstErrorIndex(kids);
    if i < |kids| then kids[i].status.error else None
  }

  /** error (formState.ts 164-166): `fieldError || formError`. */
  function CombinedError<V>(kids: seq<Child<V>>, formError: Option<string>): (r: Option<string>)
    ensures AnyChildHasError(kids) ==> r == FirstFieldError(kids)
    ensures !AnyChildHasError(kids) ==> r == formError
  {
    var fieldError := FirstFieldError(kids);
    if Truthy(fieldError) then fieldError else formError
  }

  /** hasError (formState.ts 121-123). */
  predicate FormHasError<V>(kids: seq<Child<V>>, formError: Option<string>) {
    AnyChildHasError(kids) || Truthy(formError)
  }

  /** showFormError (formState.ts 171-173). */
  predicate FormErrorShown<V>(kids: seq<Child<V>>, formError: Option<string>) {
    !AnyChildHasError(kids) && Truthy(formError)
  }

  /** The combined error is truthy exactly when the form has an error; so a form that
      reports an error always has a message to show. */
  lemma ErrorIffHasError<V>(kids: seq<Child<V>>, formError: Option<string>)
    ensures Truthy(CombinedError(kids, formError)) <==> FormHasError(kids, formError)
  {
  }

  /** When the form error is the one to show, it is also what `error` reports, and the form
      has an error. */
  lemma ShownFormErrorIsTheError<V>(kids: seq<Child<V>>, formError: Option<string>)
    requires FormErrorShown(kids, formError)
    ensures CombinedError(kids, formError) == formError
    ensures FormHasError(kids, formError) && !AnyChildHasError(kids)
  {
  }

  /** Some child's validate resolved with an error. */
  predicate AnyFailed<X>(results: seq<ErrorOr<X>>) {
    exists k :: 0 <= k < |results| && results[k].HasError?
  }

  /** How a form validation ends once its children have resolved: the new form error, what
      validate resolves with, and whether the form passed. */
  datatype Settlement<V> = Settlement(formError: Option<string>, result: ErrorOr<seq<Child<V>>>, passed: bool)

  /** The rest of validate (formState.ts 86-113, formStateLazy.ts 77-102): any failing child
      ends it with an error and without consulting the form's validators; otherwise the form
      error becomes the chain's outcome on the current collection, and the form passes,
      resolving with that collection, exactly when the outcome is falsy. */
  function Settle<X, V>(results: seq<ErrorOr<X>>, kids: seq<Child<V>>,
                        validators: seq<FormValidator<V>>, formError: Option<string>): (r: Settlement<V>)
    ensures AnyFailed(results) ==> r.result.HasError? && !r.passed && r.formError == formError
    ensures !AnyFailed(results) ==> r.formError == Chain(kids, validators)
    ensures r.passed <==> r.result.Ok?
    ensures r.passed <==> !AnyFailed(results) && !Truthy(Chain(kids, validators))
    ensures r.result.Ok? ==> r.result.value == kids
  {
    if AnyFailed(results) then Settlement(formError, ErrorOr.HasError, false)
    else
      var e := Chain(kids, validators);
      if Truthy(e) then Settlement(e, ErrorOr.HasError, false) else Settlement(e, Ok(kids), true)
  }

  predicate NoDuplicates(s: seq<nat>) {
    forall i, j :: 0 <= i < j < |s| ==> s[i] != s[j]
  }

  /** `filter(v => v !== value)`: every other entry, in order. */
  function Without(s: seq<nat>, x: nat): (r: seq<nat>)
    ensures forall y :: y in r <==> y in s && y != x
    ensures |r| <= |s|
    ensures x !in s ==> r == s
    ensures NoDuplicates(s) ==> NoDuplicates(r)
    decreases |s|
  {
    if |s| == 0 then []
    else if s[0] == x then Without(s[1..], x)
    else
      var rest := Without(s[1..], x);
      assert NoDuplicates(s) ==> NoDuplicates(s[1..]) && s[0] !in s[1..] && s[0] !in rest;
      [s[0]] + rest
  }

  /** `if (indexOf(value) === -1) push(value)`. */
  function AddOnce(s: seq<nat>, x: nat): (r: seq<nat>)
    ensures forall y :: y in r <==> y in s || y == x
    ensures x in s ==> r == s
    ensures x !in s ==> r == s + [x]
    ensures NoDuplicates(s) ==> NoDuplicates(r)
  {
    if x in s then s else s + [x]
  }

  /** What the composed pass handler does besides bookkeeping: the new state and whether it
      started the form's own validation. */
  datatype Reaction<!V> = Reaction(state: FormModel<V>, triggered: bool)

  /** What a form validation's completion does: the new state, the resolution, and the pass
      notification to the form's own parent, if any. */
  datatype FormCompletion<!V> = FormCompletion(state: FormModel<V>, result: ErrorOr<seq<Child<V>>>, notice: Option<Notice>)

  /** Every field of a FormState, as a value. */
  datatype FormModel<!V> = FormModel(
    validators: seq<FormValidator<V>>,
    formError: Option<string>,
    validating: bool,
    autoValidationEnabled: bool,
    validatedSubFields: seq<nat>,
    listener: Option<Listener>)
  {
    ghost predicate Valid() {
      NoDuplicates(validatedSubFields)
    }

    function Begin(): FormModel<V> {
      this.(validating := true)
    }

    function Complete<X>(results: seq<ErrorOr<X>>, kids: seq<Child<V>>): FormCompletion<V> {
      var s := Settle(results, kids, validators, formError);
      FormCompletion(this.(formError := s.formError, validating := false), s.result,
                     if s.passed && listener.Some? then Some(ChangedAfterValidation(listener.value)) else None)
    }

    /** clearFormError (formState.ts 142-144). */
    function ClearFormError(): FormModel<V> {
      this.(formError := Some(""))
    }

    /** The composed reinit handler (formState.ts 211-213). */
    function OnChildReinit(c: nat): FormModel<V> {
      this.(validatedSubFields := Without(validatedSubFields, c))
    }

    /** The composed pass handler (formState.ts 214-237). */
    function OnChildPassed(c: nat, kids: seq<Child<V>>): Reaction<V> {
      var cleared := if Truthy(formError) then ClearFormError() else this;
      var noted := cleared.(validatedSubFields := AddOnce(validatedSubFields, c));
      if noted.AutoValidates(kids) then Reaction(noted.Begin(), true) else Reaction(noted, false)
    }

    /** The condition under which a child's pass starts the form's own validation. */
    predicate AutoValidates(kids: seq<Child<V>>) {
      && !AnyChildHasError(kids)
      && !validating
      && forall k :: 0 <= k < |kids| ==> kids[k].id in validatedSubFields
    }
  }

  /** A form as its constructor leaves it (formState.ts 70, 72, 116, 185, 202). */
  function InitialForm<V>(): FormModel<V> {
    FormModel([], Some(""), false, false, [], None)
  }

  lemma FormStepsPreserveValid<V, X>(m: FormModel<V>, c: nat, kids: seq<Child<V>>, results: seq<ErrorOr<X>>)
    requires m.Valid()
    ensures m.Begin().Valid() && m.ClearFormError().Valid() && m.OnChildReinit(c).Valid()
    ensures m.OnChildPassed(c, kids).state.Valid() && m.Complete(results, kids).state.Valid()
  {
  }

  /** The reinit handler removes exactly that child and keeps the others. */
  lemma ReinitForgetsOnlyThatChild<V>(m: FormModel<V>, c: nat)
    ensures forall y :: y in m.OnChildReinit(c).validatedSubFields <==> y in m.validatedSubFields && y != c
  {
  }

  /** The pass handler always leaves no form error, records the child once, and starts a
      validation exactly when no child has an error, none is running, and every child has
      passed since its last reinit. */
  lemma PassHandler<V>(m: FormModel<V>, c: nat, kids: seq<Child<V>>)
    requires m.Valid()
    ensures var r := m.OnChildPassed(c, kids);
            && !Truthy(r.state.formError)
            && c in r.state.validatedSubFields
            && NoDuplicates(r.state.validatedSubFields)
            && (forall y :: y in r.state.validatedSubFields <==> y in m.validatedSubFields || y == c)
            && (r.triggered <==>
                  && !AnyChildHasError(kids) && !m.validating
                  && forall k :: 0 <= k < |kids| ==> kids[k].id == c || kids[k].id in m.validatedSubFields)
            && (r.triggered ==> r.state.validating)
            && (!r.triggered ==> r.state.validating == m.validating)
  {
  }

  /** A form that is already validating never starts another from the pass handler. */
  lemma NoReentrantValidation<V>(m: FormModel<V>, c: nat, kids: seq<Child<V>>)
    requires m.validating
    ensures !m.OnChildPassed(c, kids).triggered
  {
  }

  /** A failing child settles the form with an error, leaves the form error as it was, runs
      no form validator and notifies no parent. */
  lemma FailingChildShortCircuits<V, X>(m: FormModel<V>, results: seq<ErrorOr<X>>, kids: seq<Child<V>>)
    requires AnyFailed(results)
    ensures var c := m.Complete(results, kids);
            && c.result.HasError? && c.notice.None?
            && c.state.formError == m.formError && !c.state.validating
  {
  }

  class FormState<V> {
    const id: nat
    var validators: seq<FormValidator<V>>
    var formError: Option<string>
    var validating: bool
    var autoValidationEnabled: bool
    var validatedSubFields: seq<nat>
    var listener: Option<Listener>

    function Model(): FormModel<V>
      reads this
    {
      FormModel(validators, formError, validating, autoValidationEnabled, validatedSubFields, listener)
    }

    ghost predicate Valid()
      reads this
    {
      Model().Valid()
    }

    constructor (id: nat)
      ensures this.id == id && Model() == InitialForm() && Valid()
    {
      this.id := id;
      validators := [];
      formError := Some("");
      validating := false;
      autoValidationEnabled := false;
      validatedSubFields := [];
      listener := None;
    }

    function HasFieldError(kids: seq<Child<V>>): bool
      reads this
    {
      AnyChildHasError(kids)
    }

    function HasFormError(): bool
      reads this
    {
      Truthy(formError)
    }

    function HasError(kids: seq<Child<V>>): bool
      reads this
    {
      FormHasError(kids, formError)
    }

    function FieldError(kids: seq<Child<V>>): Option<string>
      reads this
    {
      FirstFieldError(kids)
    }

    function FormError(): Option<string>
      reads this
    {
      formError
    }

    function Error(kids: seq<Child<V>>): Option<string>
      reads this
    {
      CombinedError(kids, formError)
    }

    function ShowFormError(kids: seq<Child<V>>): bool
      reads this
    {
      FormErrorShown(kids, formError)
    }

    function Status(kids: seq<Child<V>>): Status<seq<Child<V>>>
      reads this
    {
      Validation.Status(validating, Error(kids), kids)
    }

    /** validators(...) (formState.ts 73-76). */
    method SetValidators(vs: seq<FormValidator<V>>)
      requires Valid()
      modifies this
      ensures Valid() && Model() == old(Model()).(validators := vs)
    {
      validators := vs;
    }

    /** The first step of validate (formState.ts 84-86); the children's own validations are
        started by whoever holds them. */
    method BeginValidate()
      requires Valid()
      modifies this
      ensures Valid() && Model() == old(Model()).Begin()
    {
      validating := true;
    }

    /** The rest of validate, once every child has resolved (formState.ts 86-113). */
    method SettleValidate<X>(results: seq<ErrorOr<X>>, kids: seq<Child<V>>)
      returns (result: ErrorOr<seq<Child<V>>>, notice: Option<Notice>)
      requires Valid()
      modifies this
      ensures Valid()
      ensures var c := old(Model()).Complete(results, kids);
              Model() == c.state && result == c.result && notice == c.notice
    {
      if AnyFailed(results) {
        validating := false;
        return ErrorOr.HasError, None;
      }
      var error, _ := ApplyValidators(kids, validators);
      if error != formError {
        formError := error;
      }
      validating := false;
      if Truthy(error) {
        return ErrorOr.HasError, None;
      }
      notice := if listener.Some? then Some(ChangedAfterValidation(listener.value)) else None;
      result := Ok(kids);
    }

    method ClearFormError()
      requires Valid()
      modifies this
      ensures Valid() && Model() == old(Model()).ClearFormError()
    {
      formError := Some("");
    }

    /** The form's own flag; the cascade to the children is in module Composition. */
    method SetAutoValidationEnabled(b: bool)
      requires Valid()
      modifies this
      ensures Valid() && Model() == old(Model()).(autoValidationEnabled := b)
    {
      autoValidationEnabled := b;
    }

    /** _setCompositionParent (formState.ts 246-252). */
    method SetCompositionParent(l: Listener)
      requires Valid()
      modifies this
      ensures Valid() && Model() == old(Model()).(listener := Some(l))
    {
      listener := Some(l);
    }

    method OnChildReinit(c: nat)
      requires Valid()
      modifies this
      ensures Valid() && Model() == old(Model()).OnChildReinit(c)
    {
      validatedSubFields := Without(validatedSubFields, c);
    }

    method OnChildPassed(c: nat, kids: seq<Child<V>>) returns (triggered: bool)
      requires Valid()
      modifies this
      ensures Valid()
      ensures Model() == old(Model()).OnChildPassed(c, kids).state
      ensures triggered == old(Model()).OnChildPassed(c, kids).triggered
    {
      if HasFormError() {
        ClearFormError();
      }
      if c !in validatedSubFields {
        validatedSubFields := validatedSubFields + [c];
      }
      triggered := Model().AutoValidates(kids);
      if triggered {
        validating := true;
      }
    }
  }
}
