/** A form together with the field objects it holds: `getValues` as a read of those
    fields, the cascades a form performs over them (formState.ts 178-197, 207-242,
    formStateLazy.ts 105-108), the routing of the composition notifications from the
    fields to the form, and a whole form validation. Each operation over objects is
    proved against a function over the fields' models; the properties are lemmas about
    those functions. The scenarios at the end follow the repository's tests. */
module Composition {
  import opened Validation
  import opened ErrorOrs
  import opened Field
  import opened Form
  import opened FormLazy
  import opened ViewField
  import opened ViewForm
  import opened ViewFormLazy

  /** The form holds each field once. */
  predicate Distinct<V>(fields: seq<FieldState<V>>) {
    forall i, j :: 0 <= i < j < |fields| ==> fields[i] != fields[j]
  }

  ghost predicate AllValid<V>(fields: seq<FieldState<V>>)
    reads fields
  {
    forall k :: 0 <= k < |fields| ==> fields[k].Valid()
  }

  /** The fields' states, as values. */
  function Models<V>(fields: seq<FieldState<V>>): (r: seq<FieldModel<V>>)
    reads fields
    ensures |r| == |fields|
  {
    seq(|fields|, k requires 0 <= k < |fields| reads fields => fields[k].Model())
  }

  /** The read surfaces of fields in a given state, each under the number it has in the form. */
  function ChildrenOf<V>(ms: seq<FieldModel<V>>): (r: seq<Child<V>>)
    ensures |r| == |ms|
  {
    Snapshot(ms, (m: FieldModel<V>) => m.Status())
  }

  /** getValues (formState.ts 61-68). */
  function Kids<V>(fields: seq<FieldState<V>>): seq<Child<V>>
    reads fields
  {
    ChildrenOf(Models(fields))
  }

  /** Every field reports to this form under its own number. */
  predicate ComposedUnder<V>(form: FormState<V>, fields: seq<FieldState<V>>)
    reads fields
  {
    forall k :: 0 <= k < |fields| ==> fields[k].listener == Some(Listener(form.id, k))
  }

  // ---------------------------------------------------------------------------------
  // Routing the notifications

  /** What the form does with one notification from a field: the handlers compose installed
      run for notices addressed to this form; anything else is not this form's business. */
  function Receive<V>(m: FormModel<V>, id: nat, kids: seq<Child<V>>, notice: Option<Notice>): Reaction<V> {
    match notice
    case Some(Reinitialised(l)) =>
      if l.form == id then Reaction(m.OnChildReinit(l.child), false) else Reaction(m, false)
    case Some(ChangedAfterValidation(l)) =>
      if l.form == id then m.OnChildPassed(l.child, kids) else Reaction(m, false)
    case None => Reaction(m, false)
  }

  /** Several notifications, in order. */
  function ReceiveAll<V>(m: FormModel<V>, id: nat, kids: seq<Child<V>>, ns: seq<Option<Notice>>): FormModel<V>
    decreases |ns|
  {
    if |ns| == 0 then m
    else Receive(ReceiveAll(m, id, kids, ns[..|ns| - 1]), id, kids, ns[|ns| - 1]).state
  }

  /** Receiving one notice more is one Receive on top of the ones before. */
  lemma ReceiveAllSnoc<V>(m: FormModel<V>, id: nat, kids: seq<Child<V>>, ns: seq<Option<Notice>>, i: nat)
    requires i < |ns|
    ensures ReceiveAll(m, id, kids, ns[..i + 1]) == Receive(ReceiveAll(m, id, kids, ns[..i]), id, kids, ns[i]).state
  {
    assert ns[..i + 1][..i] == ns[..i];
  }

  /** A form that is validating when its fields report keeps validating and starts nothing;
      the reports only clear the form error and record passed fields, and leave the form as
      it was when there are none. */
  lemma {:induction false} ReceiveWhileValidating<V>(m: FormModel<V>, id: nat, kids: seq<Child<V>>, ns: seq<Option<Notice>>)
    requires m.validating
    ensures var r := ReceiveAll(m, id, kids, ns);
            && r.validating && r.validators == m.validators && r.listener == m.listener
            && r.autoValidationEnabled == m.autoValidationEnabled
            && (r.formError == m.formError || r.formError == Some(""))
            && ((forall k :: 0 <= k < |ns| ==> ns[k].None?) ==> r == m)
    decreases |ns|
  {
    if |ns| > 0 {
      var init := ns[..|ns| - 1];
      ReceiveWhileValidating(m, id, kids, init);
      var p := ReceiveAll(m, id, kids, init);
      match ns[|ns| - 1]
      case Some(ChangedAfterValidation(l)) =>
        if l.form == id {
          NoReentrantValidation(p, l.child, kids);
        }
      case Some(Reinitialised(l)) =>
      case None =>
    }
  }

  /** Reinit notices only ever remove children from the record of passed ones; when every
      field reports to this form under its own number, exactly those numbers are removed,
      and nothing else about the form changes. */
  lemma {:induction false} ReinitsForgetChildren<V>(m: FormModel<V>, id: nat, ms: seq<FieldModel<V>>)
    ensures var r := ReceiveAll(m, id, [], ReinitNotices(ms));
            && r == m.(validatedSubFields := r.validatedSubFields)
            && (forall y :: y in r.validatedSubFields ==> y in m.validatedSubFields)
            && ((forall k :: 0 <= k < |ms| ==> ms[k].listener == Some(Listener(id, k))) ==>
                  forall y :: y in r.validatedSubFields <==> y in m.validatedSubFields && y >= |ms|)
    decreases |ms|
  {
    if |ms| > 0 {
      var init := ms[..|ms| - 1];
      assert ReinitNotices(ms)[..|ms| - 1] == ReinitNotices(init);
      ReinitsForgetChildren(m, id, init);
      var p := ReceiveAll(m, id, [], ReinitNotices(init));
      match ms[|ms| - 1].ReinitNotice()
      case Some(Reinitialised(l)) =>
        if l.form == id {
          ReinitForgetsOnlyThatChild(p, l.child);
        }
      case Some(ChangedAfterValidation(l)) =>
      case None =>
    }
  }

  method Deliver<V>(form: FormState<V>, kids: seq<Child<V>>, notice: Option<Notice>) returns (triggered: bool)
    requires form.Valid()
    modifies form
    ensures form.Valid()
    ensures form.Model() == Receive(old(form.Model()), form.id, kids, notice).state
    ensures triggered == Receive(old(form.Model()), form.id, kids, notice).triggered
  {
    triggered := false;
    match notice
    case Some(Reinitialised(l)) =>
      if l.form == form.id {
        form.OnChildReinit(l.child);
      }
    case Some(ChangedAfterValidation(l)) =>
      if l.form == form.id {
        triggered := form.OnChildPassed(l.child, kids);
      }
    case None =>
  }

  method DeliverAll<V>(form: FormState<V>, kids: seq<Child<V>>, notices: seq<Option<Notice>>)
    requires form.Valid()
    modifies form
    ensures form.Valid()
    ensures form.Model() == ReceiveAll(old(form.Model()), form.id, kids, notices)
  {
    for i := 0 to |notices|
      invariant form.Valid()
      invariant form.Model() == ReceiveAll(old(form.Model()), form.id, kids, notices[..i])
    {
      ReceiveAllSnoc(old(form.Model()), form.id, kids, notices, i);
      var _ := Deliver(form, kids, notices[i]);
    }
    assert notices[..|notices|] == notices;
  }

  // ---------------------------------------------------------------------------------
  // The cascades

  /** compose (formState.ts 207-242): every field gets this form as its parent, under its
      own number; nothing else changes. */
  method Compose<V>(form: FormState<V>, fields: seq<FieldState<V>>)
    requires Distinct(fields) && AllValid(fields)
    modifies fields
    ensures AllValid(fields) && ComposedUnder(form, fields)
    ensures forall k :: 0 <= k < |fields| ==>
              fields[k].Model() == old(fields[k].Model()).(listener := Some(Listener(form.id, k)))
  {
    for i := 0 to |fields|
      invariant AllValid(fields)
      invariant forall k :: 0 <= k < i ==>
                  fields[k].Model() == old(fields[k].Model()).(listener := Some(Listener(form.id, k)))
      invariant forall k :: i <= k < |fields| ==> fields[k].Model() == old(fields[k].Model())
    {
      fields[i].SetCompositionParent(Listener(form.id, i));
    }
  }

  function ResetAll<V>(ms: seq<FieldModel<V>>): (r: seq<FieldModel<V>>)
    ensures |r| == |ms|
  {
    seq(|ms|, k requires 0 <= k < |ms| => ms[k].Reinit(None))
  }

  function ReinitNotices<V>(ms: seq<FieldModel<V>>): (r: seq<Option<Notice>>)
    ensures |r| == |ms|
  {
    seq(|ms|, k requires 0 <= k < |ms| => ms[k].ReinitNotice())
  }

  /** One field's reset, with its notice reaching the form at once. */
  method ResetOne<V>(form: FormState<V>, f: FieldState<V>)
    requires form.Valid() && f.Valid()
    modifies form, f
    ensures form.Valid() && f.Valid()
    ensures f.Model() == old(f.Model()).Reinit(None)
    ensures form.Model() == Receive(old(form.Model()), form.id, [], old(f.Model()).ReinitNotice()).state
  {
    var notice := f.ReinitValue(None);
    var _ := Deliver(form, [], notice);
  }

  /** reset (formState.ts 178-180): every field is reinitialised to its initial value, and
      each reinit notice reaches the form (ReinitsForgetChildren says what that does). */
  method Reset<V>(form: FormState<V>, fields: seq<FieldState<V>>)
    requires Distinct(fields) && AllValid(fields) && form.Valid()
    modifies fields, form
    ensures AllValid(fields) && form.Valid()
    ensures Models(fields) == ResetAll(old(Models(fields)))
    ensures form.Model() == ReceiveAll(old(form.Model()), form.id, [], ReinitNotices(old(Models(fields))))
  {
    ghost var ms := Models(fields);
    for i := 0 to |fields|
      invariant AllValid(fields) && form.Valid()
      invariant forall k :: 0 <= k < |fields| ==> fields[k].Model() == if k < i then ms[k].Reinit(None) else ms[k]
      invariant form.Model() == ReceiveAll(old(form.Model()), form.id, [], ReinitNotices(ms)[..i])
    {
      ReceiveAllSnoc(old(form.Model()), form.id, [], ReinitNotices(ms), i);
      ResetOne(form, fields[i]);
    }
    assert ReinitNotices(ms)[..|fields|] == ReinitNotices(ms);
    assert Models(fields) == ResetAll(ms);
  }

  function AutoValidationSet<V>(ms: seq<FieldModel<V>>, enabled: bool): (r: seq<FieldModel<V>>)
    ensures |r| == |ms|
  {
    seq(|ms|, k requires 0 <= k < |ms| => ms[k].(autoValidationEnabled := enabled))
  }

  /** After the cascade, a change to any field schedules its debounced validation exactly
      when the cascade enabled auto validation or one was already scheduled
      (fieldState.ts 100-101). */
  lemma CascadeGovernsScheduling<V>(ms: seq<FieldModel<V>>, enabled: bool, k: nat, v: V)
    requires k < |ms|
    ensures AutoValidationSet(ms, enabled)[k].OnChange(v).wakeupPending <==> enabled || ms[k].wakeupPending
    ensures AutoValidationSet(ms, enabled)[k].OnChange(v).value == v
  {
  }

  /** One field of the cascade. */
  method SetOneAutoValidation<V>(f: FieldState<V>, enabled: bool)
    requires f.Valid()
    modifies f
    ensures f.Valid() && f.Model() == old(f.Model()).(autoValidationEnabled := enabled)
  {
    if enabled {
      f.EnableAutoValidation();
    } else {
      f.DisableAutoValidation();
    }
  }

  /** enableAutoValidation / disableAutoValidation (formState.ts 186-197): the form's flag
      and every field's. */
  method SetAutoValidation<V>(form: FormState<V>, fields: seq<FieldState<V>>, enabled: bool)
    requires Distinct(fields) && AllValid(fields) && form.Valid()
    modifies fields, form
    ensures AllValid(fields) && form.Valid()
    ensures form.Model() == old(form.Model()).(autoValidationEnabled := enabled)
    ensures Models(fields) == AutoValidationSet(old(Models(fields)), enabled)
  {
    ghost var ms := Models(fields);
    form.SetAutoValidationEnabled(enabled);
    for i := 0 to |fields|
      invariant AllValid(fields) && form.Valid()
      invariant form.Model() == old(form.Model()).(autoValidationEnabled := enabled)
      invariant forall k :: 0 <= k < |fields| ==>
                  fields[k].Model() == if k < i then ms[k].(autoValidationEnabled := enabled) else ms[k]
    {
      SetOneAutoValidation(fields[i], enabled);
    }
    assert Models(fields) == AutoValidationSet(ms, enabled);
  }

  /** enableAutoValidation of a lazy form (formStateLazy.ts 105-108): every current field. */
  method EnableLazy<V>(fields: seq<FieldState<V>>)
    requires Distinct(fields) && AllValid(fields)
    modifies fields
    ensures AllValid(fields)
    ensures Models(fields) == AutoValidationSet(old(Models(fields)), true)
  {
    ghost var ms := Models(fields);
    for i := 0 to |fields|
      invariant AllValid(fields)
      invariant forall k :: 0 <= k < i ==> fields[k].Model() == ms[k].(autoValidationEnabled := true)
      invariant forall k :: i <= k < |fields| ==> fields[k].Model() == ms[k]
    {
      fields[i].EnableAutoValidation();
    }
    assert Models(fields) == AutoValidationSet(ms, true);
  }

  // ---------------------------------------------------------------------------------
  // A whole form validation

  function ValidatedStates<V>(ms: seq<FieldModel<V>>): (r: seq<FieldModel<V>>)
    ensures |r| == |ms|
  {
    seq(|ms|, k requires 0 <= k < |ms| => ms[k].Validated().state)
  }

  function ValidatedResults<V>(ms: seq<FieldModel<V>>): (r: seq<ErrorOr<V>>)
    ensures |r| == |ms|
  {
    seq(|ms|, k requires 0 <= k < |ms| => ms[k].Validated().result)
  }

  function ValidatedNotices<V>(ms: seq<FieldModel<V>>): (r: seq<Option<Notice>>)
    ensures |r| == |ms|
  {
    seq(|ms|, k requires 0 <= k < |ms| => ms[k].Validated().notice)
  }

  /** What one form validation does once the form is validating: the new field states and
      how the form completes. */
  datatype Round<!V> = Round(fields: seq<FieldModel<V>>, completion: FormCompletion<V>)

  /** validate of a form after its first step (formState.ts 85-113): every field validates,
      their reports reach the form, and the form settles on the fields' new read surfaces. */
  function FormRound<V>(m: FormModel<V>, id: nat, ms: seq<FieldModel<V>>): Round<V> {
    var kids := ChildrenOf(ValidatedStates(ms));
    Round(ValidatedStates(ms),
          ReceiveAll(m, id, kids, ValidatedNotices(ms)).Complete(ValidatedResults(ms), kids))
  }

  /** A field result has an error exactly when the field then has one, and a field that
      ends with an error reports nothing. */
  lemma FieldResultsAgree<V>(ms: seq<FieldModel<V>>, k: nat)
    requires k < |ms|
    ensures ValidatedResults(ms)[k].HasError? <==> ChildrenOf(ValidatedStates(ms))[k].status.HasError()
    ensures ChildrenOf(ValidatedStates(ms))[k].status.HasError() ==> ValidatedNotices(ms)[k].None?
  {
    ValidatedOutcome(ms[k]);
  }

  /** Some result has an error exactly when some child has one. */
  lemma {:induction false} ResultsMatchFields<V>(results: seq<ErrorOr<V>>, kids: seq<Child<V>>)
    requires |results| == |kids|
    requires forall k :: 0 <= k < |kids| ==> (results[k].HasError? <==> kids[k].status.HasError())
    ensures AnyFailed(results) <==> AnyChildHasError(kids)
  {
    if AnyFailed(results) {
      var k :| 0 <= k < |results| && results[k].HasError?;
      assert kids[k].status.HasError();
    }
    if AnyChildHasError(kids) {
      var k :| 0 <= k < |kids| && kids[k].status.HasError();
      assert results[k].HasError?;
    }
  }

  /** What a form validation promises: it resolves with an error exactly when the form then
      has one (a field error or a form error), and otherwise with the fields' new read
      surfaces; when no field fails the form error is the form validators' verdict on
      those; when every field fails the form is left as it was, apart from no longer
      validating; the form's configuration is kept; and the parent is told exactly when the
      form passed (formState.ts 90-113). */
  lemma RoundOutcome<V>(m: FormModel<V>, id: nat, ms: seq<FieldModel<V>>)
    requires m.validating
    ensures var r := FormRound(m, id, ms); var kids := ChildrenOf(r.fields); var s := r.completion.state;
            && !s.validating
            && (r.completion.result.HasError? <==> FormHasError(kids, s.formError))
            && (r.completion.result.Ok? ==> r.completion.result.value == kids)
            && (!AnyChildHasError(kids) ==> s.formError == Chain(kids, m.validators))
            && (AnyChildHasError(kids) ==> r.completion.result.HasError?)
            && s.validators == m.validators && s.listener == m.listener
            && s.autoValidationEnabled == m.autoValidationEnabled
            && (r.completion.notice.Some? <==> r.completion.result.Ok? && m.listener.Some?)
            && (|ms| > 0 && (forall k :: 0 <= k < |ms| ==> kids[k].status.HasError()) ==>
                  s == m.(validating := false))
  {
    var kids := ChildrenOf(ValidatedStates(ms));
    var results, notices := ValidatedResults(ms), ValidatedNotices(ms);
    ReceiveWhileValidating(m, id, kids, notices);
    forall k | 0 <= k < |ms|
      ensures results[k].HasError? <==> kids[k].status.HasError()
      ensures kids[k].status.HasError() ==> notices[k].None?
    {
      FieldResultsAgree(ms, k);
    }
    ResultsMatchFields(results, kids);
    if |ms| > 0 && forall k :: 0 <= k < |ms| ==> kids[k].status.HasError() {
      assert kids[0].status.HasError();
    }
  }

  /** One explicit validation of a field, with nothing in between. */
  method RunValidation<T>(f: FieldState<T>) returns (result: ErrorOr<T>, notice: Option<Notice>)
    requires f.Valid()
    modifies f
    ensures f.Valid()
    ensures f.Model() == old(f.Model()).Validated().state
    ensures result == old(f.Model()).Validated().result && notice == old(f.Model()).Validated().notice
  {
    var req := f.BeginValidate();
    result, notice := f.CompleteValidate(req);
  }

  /** The fields' own validations at the start of a form validation (formState.ts 85-86),
      each run to completion; their interleaving is not modelled. */
  method ValidateFields<V>(fields: seq<FieldState<V>>) returns (results: seq<ErrorOr<V>>, notices: seq<Option<Notice>>)
    requires Distinct(fields) && AllValid(fields)
    modifies fields
    ensures AllValid(fields)
    ensures Models(fields) == ValidatedStates(old(Models(fields)))
    ensures results == ValidatedResults(old(Models(fields))) && notices == ValidatedNotices(old(Models(fields)))
  {
    ghost var ms := Models(fields);
    results, notices := [], [];
    for i := 0 to |fields|
      invariant AllValid(fields)
      invariant |results| == i && |notices| == i
      invariant forall k :: 0 <= k < i ==>
                  && fields[k].Model() == ms[k].Validated().state
                  && results[k] == ms[k].Validated().result
                  && notices[k] == ms[k].Validated().notice
      invariant forall k :: i <= k < |fields| ==> fields[k].Model() == ms[k]
    {
      var r, n := RunValidation(fields[i]);
      results, notices := results + [r], notices + [n];
    }
    assert Models(fields) == ValidatedStates(ms);
    assert results == ValidatedResults(ms);
    assert notices == ValidatedNotices(ms);
  }

  /** The form's part once its fields have resolved (formState.ts 87-113): their reports
      reach it, then it settles. */
  method SettleForm<V>(form: FormState<V>, kids: seq<Child<V>>, results: seq<ErrorOr<V>>, notices: seq<Option<Notice>>)
    returns (result: ErrorOr<seq<Child<V>>>, notice: Option<Notice>)
    requires form.Valid()
    modifies form
    ensures form.Valid()
    ensures var c := ReceiveAll(old(form.Model()), form.id, kids, notices).Complete(results, kids);
            form.Model() == c.state && result == c.result && notice == c.notice
  {
    DeliverAll(form, kids, notices);
    result, notice := form.SettleValidate(results, kids);
  }

  /** The rest of a form validation once the form is validating (formState.ts 85-113). */
  method FinishValidation<V>(form: FormState<V>, fields: seq<FieldState<V>>)
    returns (result: ErrorOr<seq<Child<V>>>, notice: Option<Notice>)
    requires Distinct(fields) && AllValid(fields) && form.Valid()
    modifies fields, form
    ensures AllValid(fields) && form.Valid()
    ensures var r := FormRound(old(form.Model()), form.id, old(Models(fields)));
            && Models(fields) == r.fields && form.Model() == r.completion.state
            && result == r.completion.result && notice == r.completion.notice
  {
    ghost var ms := Models(fields);
    var results, notices := ValidateFields(fields);
    var kids := Kids(fields);
    assert kids == ChildrenOf(ValidatedStates(ms));
    result, notice := SettleForm(form, kids, results, notices);
  }

  /** validate of a form over its fields (formState.ts 83-114). */
  method ValidateForm<V>(form: FormState<V>, fields: seq<FieldState<V>>)
    returns (result: ErrorOr<seq<Child<V>>>, notice: Option<Notice>)
    requires Distinct(fields) && AllValid(fields) && form.Valid()
    modifies fields, form
    ensures AllValid(fields) && form.Valid()
    ensures var r := FormRound(old(form.Model()).Begin(), form.id, old(Models(fields)));
            && Models(fields) == r.fields && form.Model() == r.completion.state
            && result == r.completion.result && notice == r.completion.notice
  {
    form.BeginValidate();
    result, notice := FinishValidation(form, fields);
  }

  /** enableAutoValidationAndValidate of a form (formState.ts 190-193): the cascade, then a
      whole validation. */
  method EnableAndValidate<V>(form: FormState<V>, fields: seq<FieldState<V>>)
    returns (result: ErrorOr<seq<Child<V>>>, notice: Option<Notice>)
    requires Distinct(fields) && AllValid(fields) && form.Valid()
    modifies fields, form
    ensures AllValid(fields) && form.Valid()
    ensures var r := FormRound(old(form.Model()).(autoValidationEnabled := true).Begin(), form.id,
                               AutoValidationSet(old(Models(fields)), true));
            && Models(fields) == r.fields && form.Model() == r.completion.state
            && result == r.completion.result && notice == r.completion.notice
  {
    SetAutoValidation(form, fields, true);
    result, notice := ValidateForm(form, fields);
  }

  /** validate of a lazy form (formStateLazy.ts 74-103) over the fields it reads now, given
      the form's validators and its error before the validation. */
  function LazyRound<V>(validators: seq<FormValidator<V>>, formError: Option<string>, ms: seq<FieldModel<V>>): Settlement<V> {
    Settle(ValidatedResults(ms), ChildrenOf(ValidatedStates(ms)), validators, formError)
  }

  /** A lazy validation resolves with an error exactly when the form then has one, and
      otherwise with the fields' new read surfaces; it judges whatever fields it is given. */
  lemma LazyRoundOutcome<V>(validators: seq<FormValidator<V>>, formError: Option<string>, ms: seq<FieldModel<V>>)
    ensures var s := LazyRound(validators, formError, ms); var kids := ChildrenOf(ValidatedStates(ms));
            && (s.result.HasError? <==> FormHasError(kids, s.formError))
            && (s.result.Ok? ==> s.result.value == kids)
            && (AnyChildHasError(kids) ==> s.result.HasError? && s.formError == formError)
            && (!AnyChildHasError(kids) ==> s.formError == Chain(kids, validators))
  {
    var kids := ChildrenOf(ValidatedStates(ms));
    var results := ValidatedResults(ms);
    forall k | 0 <= k < |ms|
      ensures results[k].HasError? <==> kids[k].status.HasError()
    {
      FieldResultsAgree(ms, k);
    }
    ResultsMatchFields(results, kids);
  }

  method ValidateLazy<V>(form: FormStateLazy<V>, fields: seq<FieldState<V>>) returns (result: ErrorOr<seq<Child<V>>>)
    requires Distinct(fields) && AllValid(fields)
    modifies fields, form
    ensures AllValid(fields) && !form.validating && form.validators == old(form.validators)
    ensures var s := LazyRound(form.validators, old(form.formError), old(Models(fields)));
            && Models(fields) == ValidatedStates(old(Models(fields)))
            && form.formError == s.formError && result == s.result
  {
    form.BeginValidate();
    var results, _ := ValidateFields(fields);
    result := form.SettleValidate(results, Kids(fields));
  }

  // ---------------------------------------------------------------------------------
  // Form views over the fields of the wrapped form

  /** compose through a view (ViewFormState.ts 46-49): the wrapped form becomes every
      field's parent. */
  method ViewCompose<V, T>(v: FormView<V, T>, fields: seq<FieldState<V>>)
    requires Distinct(fields) && AllValid(fields)
    modifies fields
    ensures AllValid(fields) && ComposedUnder(v.wrapped, fields)
    ensures forall k :: 0 <= k < |fields| ==>
              fields[k].Model() == old(fields[k].Model()).(listener := Some(Listener(v.wrapped.id, k)))
  {
    Compose(v.wrapped, fields);
  }

  /** enableAutoValidation / disableAutoValidation through a view (ViewFormState.ts 51-59):
      the wrapped form's cascade. */
  method ViewSetAutoValidation<V, T>(v: FormView<V, T>, fields: seq<FieldState<V>>, enabled: bool)
    requires Distinct(fields) && AllValid(fields) && v.Valid()
    modifies fields, v.wrapped
    ensures AllValid(fields) && v.Valid()
    ensures v.wrapped.Model() == old(v.wrapped.Model()).(autoValidationEnabled := enabled)
    ensures Models(fields) == AutoValidationSet(old(Models(fields)), enabled)
  {
    SetAutoValidation(v.wrapped, fields, enabled);
  }

  /** validate through a view (ViewValidatable.ts 37-39): the wrapped form's validation,
      its success value through `to`. */
  method ViewValidate<V, T>(v: FormView<V, T>, fields: seq<FieldState<V>>)
    returns (result: ErrorOr<T>, notice: Option<Notice>)
    requires Distinct(fields) && AllValid(fields) && v.Valid()
    modifies fields, v.wrapped
    ensures AllValid(fields) && v.Valid()
    ensures var r := FormRound(old(v.wrapped.Model()).Begin(), v.wrapped.id, old(Models(fields)));
            && Models(fields) == r.fields && v.wrapped.Model() == r.completion.state
            && result == MapErrorOr(r.completion.result, v.to) && notice == r.completion.notice
  {
    var r;
    r, notice := ValidateForm(v.wrapped, fields);
    result := MapErrorOr(r, v.to);
  }

  /** enableAutoValidationAndValidate through a view (ViewFormState.ts 61-63). */
  method ViewEnableAndValidate<V, T>(v: FormView<V, T>, fields: seq<FieldState<V>>)
    returns (result: ErrorOr<T>, notice: Option<Notice>)
    requires Distinct(fields) && AllValid(fields) && v.Valid()
    modifies fields, v.wrapped
    ensures AllValid(fields) && v.Valid()
    ensures var r := FormRound(old(v.wrapped.Model()).(autoValidationEnabled := true).Begin(), v.wrapped.id,
                               AutoValidationSet(old(Models(fields)), true));
            && Models(fields) == r.fields && v.wrapped.Model() == r.completion.state
            && result == MapErrorOr(r.completion.result, v.to) && notice == r.completion.notice
  {
    var r;
    r, notice := EnableAndValidate(v.wrapped, fields);
    result := MapErrorOr(r, v.to);
  }

  /** enableAutoValidation through a lazy view (ViewValidatable.ts 31-35): every field the
      wrapped form reads now. */
  method LazyViewEnable<V, T>(v: LazyFormView<V, T>, fields: seq<FieldState<V>>)
    requires Distinct(fields) && AllValid(fields)
    modifies fields
    ensures AllValid(fields)
    ensures Models(fields) == AutoValidationSet(old(Models(fields)), true)
  {
    EnableLazy(fields);
  }

  /** validate through a lazy view (ViewValidatable.ts 37-39). */
  method LazyViewValidate<V, T>(v: LazyFormView<V, T>, fields: seq<FieldState<V>>) returns (result: ErrorOr<T>)
    requires Distinct(fields) && AllValid(fields)
    modifies fields, v.wrapped
    ensures AllValid(fields) && !v.wrapped.validating
    ensures var s := LazyRound(v.wrapped.validators, old(v.wrapped.formError), old(Models(fields)));
            && Models(fields) == ValidatedStates(old(Models(fields)))
            && v.wrapped.formError == s.formError && result == MapErrorOr(s.result, v.to)
  {
    var r := ValidateLazy(v.wrapped, fields);
    result := MapErrorOr(r, v.to);
  }

  /** validate through `v.viewedAs(to2)` (ViewFormStateLazy.ts 42-44): the same lazy
      validation, its success value mapped through `to` and then through `to2`. */
  method NestedLazyViewValidate<V, T, U>(v: LazyFormView<V, T>, to2: T -> U, fields: seq<FieldState<V>>)
    returns (result: ErrorOr<U>)
    requires Distinct(fields) && AllValid(fields)
    modifies fields, v.wrapped
    ensures AllValid(fields) && !v.wrapped.validating
    ensures var s := LazyRound(v.wrapped.validators, old(v.wrapped.formError), old(Models(fields)));
            && Models(fields) == ValidatedStates(old(Models(fields)))
            && v.wrapped.formError == s.formError && result == MapErrorOr(MapErrorOr(s.result, v.to), to2)
  {
    result := LazyViewValidate(v.ViewedAs(to2), fields);
  }

  // ---------------------------------------------------------------------------------
  // Scenarios

  /** `(val) => !val && "Required"`. */
  function Required(): Validator<string> {
    (v: string) => if v == "" then Sync(Some("Required")) else Sync(None)
  }

  /** `$ => $.pass1.$ !== $.pass2.$ && "Passwords must match"`. */
  function PasswordsMatch(): FormValidator<string> {
    (kids: seq<Child<string>>) =>
      if |kids| >= 2 && kids[0].status.dollar != kids[1].status.dollar then Sync(Some("Passwords must match"))
      else Sync(None)
  }

  lemma RequiredChain(v: string)
    ensures Chain(v, [Required()]) == if v == "" then Some("Required") else None
  {
    assert [Required()][1..] == [];
  }

  lemma PasswordsMatchChain(kids: seq<Child<string>>)
    ensures Chain(kids, [PasswordsMatch()]) ==
            if |kids| >= 2 && kids[0].status.dollar != kids[1].status.dollar then Some("Passwords must match")
            else None
  {
    assert [PasswordsMatch()][1..] == [];
  }

  /** A field that reports to form 0 under number `k`. */
  function ComposedField(k: nat, vs: seq<Validator<string>>): FieldModel<string> {
    Initial("").(validators := vs, listener := Some(Listener(0, k)))
  }

  /** The user types `v` into a field with auto validation on; the debounce fires and the
      validation it starts resolves. */
  function Typed(m: FieldModel<string>, v: string): Completion<string>
    requires m.autoValidationEnabled
  {
    var w := m.OnChange(v).Elapse();
    w.state.Complete(w.request.value)
  }

  lemma TypedRequired(m: FieldModel<string>, v: string)
    requires m.autoValidationEnabled && m.validators == [Required()]
    ensures Typed(m, v).state.value == v
    ensures Typed(m, v).state.error == (if v == "" then Some("Required") else None)
    ensures Typed(m, v).state.dollar == (if v == "" then m.dollar else v)
    ensures Typed(m, v).state.listener == m.listener && Typed(m, v).state.autoValidationEnabled
    ensures Typed(m, v).state.validators == m.validators && !Typed(m, v).state.validating
    ensures Typed(m, v).notice == (if v != "" && m.dollar != v then m.ChangeNotice() else None)
  {
    RequiredChain(v);
  }

  /** A validation of a required field: it fails exactly on the empty string, `$` moves to
      a non-empty value, and the parent is told when `$` changed. */
  lemma RequiredValidated(m: FieldModel<string>)
    requires m.validators == [Required()]
    ensures var s := m.Validated().state;
            && s.error == (if m.value == "" then Some("Required") else None)
            && s.dollar == (if m.value == "" then m.dollar else m.value)
            && s.value == m.value && s.listener == m.listener && s.validators == m.validators
            && s.autoValidationEnabled == m.autoValidationEnabled && !s.validating
    ensures m.Validated().result == (if m.value == "" then ErrorOr.HasError else Ok(m.value))
    ensures m.Validated().notice == (if m.value != "" && m.dollar != m.value then m.ChangeNotice() else None)
  {
    ValidatedOutcome(m);
    RequiredChain(m.value);
  }

  /** A validation of a field without validators passes, and reports only a changed `$`. */
  lemma UncheckedValidated(m: FieldModel<string>)
    requires m.validators == []
    ensures var s := m.Validated().state;
            && s.error == None && s.dollar == m.value && s.value == m.value && s.listener == m.listener
    ensures m.Validated().notice == (if m.dollar != m.value then m.ChangeNotice() else None)
  {
    ValidatedOutcome(m);
  }

  /** A form validation in which some field fails and no field reports leaves the form as it
      was, apart from no longer validating. */
  lemma SilentFailingRound<V>(m: FormModel<V>, id: nat, ms: seq<FieldModel<V>>, k: nat)
    requires m.validating && k < |ms| && ValidatedResults(ms)[k].HasError?
    requires forall j :: 0 <= j < |ms| ==> ValidatedNotices(ms)[j].None?
    ensures FormRound(m, id, ms).completion.state == m.(validating := false)
    ensures FormRound(m, id, ms).completion.result.HasError?
  {
    ReceiveWhileValidating(m, id, ChildrenOf(ValidatedStates(ms)), ValidatedNotices(ms));
    assert AnyFailed(ValidatedResults(ms));
  }

  /** A pass while another child still has an error is recorded and starts nothing. */
  lemma PassWhileOtherFails<V>(m: FormModel<V>, c: nat, kids: seq<Child<V>>, k: nat)
    requires m.Valid() && !m.validating && k < |kids| && kids[k].status.HasError()
    ensures var r := m.OnChildPassed(c, kids);
            && !r.triggered && !r.state.validating && r.state.validators == m.validators
            && (forall y :: y in r.state.validatedSubFields <==> y in m.validatedSubFields || y == c)
            && r.state.Valid()
  {
    PassHandler(m, c, kids);
    FormStepsPreserveValid<V, V>(m, c, kids, []);
  }

  /** The pass of the last child that had not passed, with no child failing, starts the
      form's own validation. */
  lemma LastPassStartsValidation<V>(m: FormModel<V>, c: nat, kids: seq<Child<V>>)
    requires m.Valid() && !m.validating
    requires forall k :: 0 <= k < |kids| ==> !kids[k].status.HasError() && (kids[k].id == c || kids[k].id in m.validatedSubFields)
    ensures var r := m.OnChildPassed(c, kids);
            && r.triggered && r.state.validating && r.state.validators == m.validators
  {
    PassHandler(m, c, kids);
  }

  /** The validation that the second password's pass starts: both fields pass again without
      reporting, and the form validator then finds the two values different. */
  lemma MismatchFound(m: FormModel<string>, ms: seq<FieldModel<string>>)
    requires m.validating && m.validators == [PasswordsMatch()] && |ms| == 2
    requires forall k :: 0 <= k < 2 ==> ms[k].validators == [Required()] && ms[k].dollar == ms[k].value
    requires ms[0].value == "a" && ms[1].value == "b"
    ensures var r := FormRound(m, 0, ms);
            CombinedError(ChildrenOf(r.fields), r.completion.state.formError) == Some("Passwords must match")
  {
    RequiredValidated(ms[0]);
    RequiredValidated(ms[1]);
    var r := FormRound(m, 0, ms);
    var kids := ChildrenOf(r.fields);
    assert kids[0].status.dollar == "a" && kids[1].status.dollar == "b";
    assert !kids[0].status.HasError() && !kids[1].status.HasError();
    RoundOutcome(m, 0, ms);
    PasswordsMatchChain(kids);
  }

  /** A required field that reports to form 0 under number `k`, after it failed a validation
      on the empty string. */
  ghost predicate FailedRequired(p: FieldModel<string>, k: nat) {
    && p.validators == [Required()] && p.autoValidationEnabled && p.listener == Some(Listener(0, k))
    && p.value == "" && p.dollar == "" && p.error == Some("Required")
  }

  /** A form of number 0 with the password validator, after a validation that failed in its
      fields: nothing recorded as passed, no form error. */
  ghost predicate WaitingForm(m: FormModel<string>) {
    && m.Valid() && !m.validating && m.validatedSubFields == [] && m.formError == Some("")
    && m.validators == [PasswordsMatch()]
  }

  /** A required field that reports to form 0 under number `k`, never validated. */
  ghost predicate FreshRequired(p: FieldModel<string>, k: nat) {
    && p.validators == [Required()] && p.autoValidationEnabled && p.listener == Some(Listener(0, k))
    && p.value == "" && p.dollar == ""
  }

  /** The form of compose.ts 30-54 with auto validation enabled. */
  function PasswordForm(): FormModel<string> {
    InitialForm<string>().(validators := [PasswordsMatch()], autoValidationEnabled := true)
  }

  /** Validating those fields: both required ones fail and none reports. */
  lemma EmptyFieldsFail(fields: seq<FieldModel<string>>)
    requires |fields| >= 2 && FreshRequired(fields[0], 0) && FreshRequired(fields[1], 1)
    requires forall k :: 2 <= k < |fields| ==> fields[k].validators == [] && fields[k].value == fields[k].dollar
    ensures FailedRequired(ValidatedStates(fields)[0], 0) && FailedRequired(ValidatedStates(fields)[1], 1)
    ensures ValidatedResults(fields)[0].HasError?
    ensures forall j :: 0 <= j < |fields| ==> ValidatedNotices(fields)[j].None?
  {
    RequiredValidated(fields[0]);
    RequiredValidated(fields[1]);
    forall k | 2 <= k < |fields|
      ensures ValidatedNotices(fields)[k].None?
    {
      UncheckedValidated(fields[k]);
    }
  }

  /** The validation of enableAutoValidationAndValidate on that form: both required fields
      fail, no field reports, and the form is left waiting. */
  method SubmitEmpty(fields: seq<FieldModel<string>>) returns (form: FormModel<string>, after: seq<FieldModel<string>>)
    requires |fields| >= 2 && FreshRequired(fields[0], 0) && FreshRequired(fields[1], 1)
    requires forall k :: 2 <= k < |fields| ==> fields[k].validators == [] && fields[k].value == fields[k].dollar
    ensures WaitingForm(form) && |after| == |fields| && FailedRequired(after[0], 0) && FailedRequired(after[1], 1)
    ensures forall k :: 2 <= k < |fields| ==> after[k] == fields[k].Validated().state
  {
    EmptyFieldsFail(fields);
    SilentFailingRound(PasswordForm().Begin(), 0, fields, 0);
    form := FormRound(PasswordForm().Begin(), 0, fields).completion.state;
    after := ValidatedStates(fields);
  }

  /** A required field that passed with value `v` after the user typed it. */
  ghost predicate PassedWith(q: FieldModel<string>, v: string) {
    q.validators == [Required()] && q.value == v && q.dollar == v && q.error == None
  }

  /** Typing "a" into the first password, then its debounced validation: it passes and
      reports, the form records it, and as the second password still has an error nothing
      starts. `others` are the read surfaces of the remaining fields. */
  method TypeFirstPassword(form: FormModel<string>, p1: FieldModel<string>, p2: FieldModel<string>, others: seq<Child<string>>)
    returns (r: Reaction<string>, q1: FieldModel<string>)
    requires WaitingForm(form) && FailedRequired(p1, 0) && FailedRequired(p2, 1)
    ensures PassedWith(q1, "a") && !r.triggered
    ensures r.state.Valid() && !r.state.validating && r.state.validators == [PasswordsMatch()] && r.state.formError == Some("")
    ensures forall y :: y in r.state.validatedSubFields <==> y == 0
  {
    TypedRequired(p1, "a");
    var c1 := Typed(p1, "a");
    var kids := [Child(0, c1.state.Status()), Child(1, p2.Status())] + others;
    assert kids[1].status.HasError();
    PassWhileOtherFails(form, 0, kids, 1);
    r := Receive(form, 0, kids, c1.notice);
    q1 := c1.state;
  }

  /** Then typing "b" into the second password: it passes and reports, and the form starts
      its own validation exactly when no remaining field is missing from its record. */
  method TypeSecondPassword(form: FormModel<string>, q1: FieldModel<string>, p2: FieldModel<string>, others: seq<Child<string>>)
    returns (r: Reaction<string>, q2: FieldModel<string>)
    requires form.Valid() && !form.validating && form.validators == [PasswordsMatch()] && form.formError == Some("")
    requires forall y :: y in form.validatedSubFields <==> y == 0
    requires PassedWith(q1, "a") && FailedRequired(p2, 1)
    requires forall k :: 0 <= k < |others| ==> !others[k].status.HasError()
    ensures PassedWith(q2, "b")
    ensures r.state.validators == [PasswordsMatch()] && r.state.formError == Some("")
    ensures r.triggered <==> forall k :: 0 <= k < |others| ==> others[k].id in [0, 1]
    ensures r.triggered ==> r.state.validating
  {
    TypedRequired(p2, "b");
    var c2 := Typed(p2, "b");
    var kids := [Child(0, q1.Status()), Child(1, c2.state.Status())] + others;
    PassHandler(form, 1, kids);
    r := Receive(form, 0, kids, c2.notice);
    q2 := c2.state;
    assert forall k :: 0 <= k < |kids| ==> !kids[k].status.HasError();
    assert (forall k :: 0 <= k < |kids| ==> kids[k].id == 1 || kids[k].id in form.validatedSubFields)
       <==> (forall k :: 0 <= k < |others| ==> others[k].id in [0, 1]) by {
      if forall k :: 0 <= k < |kids| ==> kids[k].id == 1 || kids[k].id in form.validatedSubFields {
        forall k | 0 <= k < |others|
          ensures others[k].id in [0, 1]
        {
          assert kids[k + 2] == others[k];
        }
      }
    }
  }

  /** src/tests/formState/compose.ts 30-54, with the two password fields: after
      enableAutoValidationAndValidate fails on both, typing into both makes the second
      field's pass start the form's own validation, whose validator reports the mismatch. */
  method PasswordsMustMatch() returns (triggered: bool, error: Option<string>)
    ensures triggered && error == Some("Passwords must match")
  {
    var form, after := SubmitEmpty([ComposedField(0, [Required()]).(autoValidationEnabled := true),
                                    ComposedField(1, [Required()]).(autoValidationEnabled := true)]);
    var r1, q1 := TypeFirstPassword(form, after[0], after[1], []);
    var r, q2 := TypeSecondPassword(r1.state, q1, after[1], []);
    triggered := r.triggered;
    // the validation the second pass started: both fields pass again, then the form validator
    MismatchFound(r.state, [q1, q2]);
    var round := FormRound(r.state, 0, [q1, q2]);
    error := CombinedError(ChildrenOf(round.fields), round.completion.state.formError);
  }

  /** The same form with the third field of that test, `name`, which has no validators and
      is never typed into: it passes without its `$` changing, so it never reports, the
      form's own validation is never started, and the form shows no error where the test
      expects the mismatch. */
  method UntouchedFieldBlocksAutoValidation() returns (triggered: bool, error: Option<string>)
    ensures !triggered && error == Some("")
  {
    var untouched := ComposedField(2, []).(autoValidationEnabled := true);
    var form, after := SubmitEmpty([ComposedField(0, [Required()]).(autoValidationEnabled := true),
                                    ComposedField(1, [Required()]).(autoValidationEnabled := true),
                                    untouched]);
    UncheckedValidated(untouched);
    var name := Child(2, after[2].Status());
    var r1, q1 := TypeFirstPassword(form, after[0], after[1], [name]);
    var r, q2 := TypeSecondPassword(r1.state, q1, after[1], [name]);
    assert !([name][0].id in [0, 1]);
    triggered := r.triggered;
    var kids := [Child(0, q1.Status()), Child(1, q2.Status()), name];
    assert !AnyChildHasError(kids);
    error := CombinedError(kids, r.state.formError);
  }

  /** src/tests/formState/localValidations.ts 9-33: fields without validators all pass, so
      the form validator runs on the collection; when it reports a message the validation
      fails and the form's error is that message. */
  lemma LocalValidationFails<V>(m: FormModel<V>, ms: seq<FieldModel<V>>, vf: FormValidator<V>, msg: string)
    requires m.validating && m.validators == [vf] && msg != ""
    requires vf(ChildrenOf(ValidatedStates(ms))) == Sync(Some(msg))
    requires forall k :: 0 <= k < |ms| ==> ms[k].validators == []
    ensures var r := FormRound(m, 0, ms);
            && r.completion.result.HasError? && r.completion.notice.None?
            && CombinedError(ChildrenOf(r.fields), r.completion.state.formError) == Some(msg)
  {
    var r := FormRound(m, 0, ms);
    var kids := ChildrenOf(r.fields);
    forall k | 0 <= k < |ms|
      ensures !kids[k].status.HasError()
    {
      ValidatedOutcome(ms[k]);
    }
    RoundOutcome(m, 0, ms);
    assert m.validators[1..] == [];
    assert Chain(kids, m.validators) == Some(msg);
  }

  /** `$ => $.name.$.length < 2 && 'The lenght of name must be at least 2'`, over the
      first child. */
  function NameAtLeastTwo(): FormValidator<string> {
    (kids: seq<Child<string>>) =>
      if |kids| >= 1 && |kids[0].status.dollar| < 2 then Sync(Some("The lenght of name must be at least 2"))
      else Sync(None)
  }

  /** The first test of localValidations.ts 9-20: a form over one empty `name` field with
      the length validator fails, and its error is the validator's message. */
  method ShortNameFailsForm() returns (hasError: bool, error: Option<string>)
    ensures hasError && error == Some("The lenght of name must be at least 2")
  {
    var m := InitialForm<string>().(validators := [NameAtLeastTwo()]).Begin();
    var ms := [Initial("")];
    assert ChildrenOf(ValidatedStates(ms))[0].status.dollar == "";
    LocalValidationFails(m, ms, NameAtLeastTwo(), "The lenght of name must be at least 2");
    var r := FormRound(m, 0, ms);
    hasError := r.completion.result.HasError?;
    error := CombinedError(ChildrenOf(r.fields), r.completion.state.formError);
  }

  /** A lazy form reads its fields afresh: adding a failing field after a passing validation
      makes the next validation fail on it (formStateLazy.ts 58-64, 74-85). */
  method LazyFormSeesNewFields() returns (before: ErrorOr<seq<Child<string>>>, after: ErrorOr<seq<Child<string>>>)
    ensures before.Ok? && after.HasError?
  {
    RequiredChain("x");
    RequiredChain("");
    var a := Initial("x").(validators := [Required()]);
    var first := LazyRound([], Some(""), [a]);
    LazyRoundOutcome([], Some(""), [a]);
    FieldResultsAgree([a], 0);
    assert !AnyChildHasError(ChildrenOf(ValidatedStates([a])));
    before := first.result;

    var b := Initial("").(validators := [Required()]);
    var fields := [ValidatedStates([a])[0], b];
    LazyRoundOutcome([], first.formError, fields);
    FieldResultsAgree(fields, 1);
    assert ChildrenOf(ValidatedStates(fields))[1].status.HasError();
    after := LazyRound([], first.formError, fields).result;
  }

  /** Two validations overlapping: the older one resolving last changes nothing, so the
      field keeps the newer value's `$` (fieldState.ts 144-154). */
  method OutOfOrderValidation() returns (dollar: string, stale: ErrorOr<string>)
    ensures dollar == "b" && stale == Ok("b")
  {
    var f := new FieldState("");
    f.OnChange("a");
    var older := f.BeginValidate();
    f.OnChange("b");
    var newer := f.BeginValidate();
    var _, _ := f.CompleteValidate(newer);
    var ignored;
    stale, ignored := f.CompleteValidate(older);
    dollar := f.dollar;
  }

  /** src/tests/fieldState/views.ts 53-64: a change followed by a reinit; when the debounce
      fires, nothing is validated and the field shows the reinit value with no error. */
  method ReinitBeatsQueuedValidation() returns (validated: bool, hasError: bool, dollar: string)
    ensures !validated && !hasError && dollar == ""
  {
    var f := new FieldState("");
    f.SetValidators([Required()]);
    f.OnChange("world");
    var _ := f.ReinitValue(Some(""));
    var req := f.DebounceElapses();
    validated := req.Some?;
    hasError := f.HasError();
    dollar := f.dollar;
  }

  /** src/tests/fieldState/views.ts 66-77: a change after the reinit validates again. */
  method ChangeAfterReinitValidates() returns (hasError: bool, dollar: string)
    ensures hasError && dollar == ""
  {
    var f := new FieldState("");
    f.SetValidators([Required()]);
    f.OnChange("world");
    var _ := f.ReinitValue(Some(""));
    RequiredChain("");
    f.OnChange("");
    var req := f.DebounceElapses();
    var _, _ := f.CompleteValidate(req.value);
    hasError := f.HasError();
    dollar := f.dollar;
  }

  /** A view that shows an int field plus one, with its inverse for writes: a value typed
      into the view and validated is what the view then shows as its `$`
      (src/tests/formState/views.ts 13-14, 23-29). */
  method ViewRoundTrip() returns (shown: int, stored: int)
    ensures shown == 10 && stored == 9
  {
    var f := new FieldState(0);
    var v := FieldView(f, (n: int) => n + 1, (n: int) => n - 1);
    v.OnChange(10);
    var req := v.BeginValidate();
    var _, _ := v.CompleteValidate(req);
    shown := v.Status().dollar;
    stored := f.dollar;
  }
}
