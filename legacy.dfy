/** The validator chain of the older snapshot (src/index.ts 23-62), the same loop again. */
module LegacyChain {
  import opened Validation

  /** applyValidators (index.ts 23-62): a falsy reply moves to the next validator, a truthy
      plain reply resolves at once, a thenable resolves the same way once its reply is in;
      the end of the list resolves with `null`. */
  method ApplyValidators<T>(value: T, validators: seq<Validator<T>>) returns (result: Option<string>)
    ensures result == Chain(value, validators)
    ensures result.None? <==> forall k :: 0 <= k < |validators| ==> !Truthy(validators[k](value).reply)
  {
    ChainIsFirstError(value, validators);
    var currentIndex := 0;
    while currentIndex < |validators|
      invariant 0 <= currentIndex <= |validators|
      invariant Chain(value, validators) == Chain(value, validators[currentIndex..])
      decreases |validators| - currentIndex
    {
      var res := validators[currentIndex](value);
      assert validators[currentIndex..][1..] == validators[currentIndex + 1..];
      if res.Sync? && !Truthy(res.reply) {
        currentIndex := currentIndex + 1;
      } else if res.Sync? {
        return res.reply;
      } else if !Truthy(res.reply) {
        currentIndex := currentIndex + 1;
      } else {
        return res.reply;
      }
    }
    return None;
  }
}

/** The older snapshot of the library (src/index.ts): a config-driven field without dirty
    tracking, composition or a default value, and forms that only aggregate their children.

    Time is modelled as in the core field (Field): validate is BeginValidate, which issues a
    request carrying the chain's outcome for the captured value, and CompleteValidate, which
    delivers it; the debounce timer is `wakeupPending`, and `updates` counts calls of the
    update hook. A form's children are the legacy fields themselves, passed as the
    sequence `getValues()` returns; the forms here keep nothing else about them. */
module Legacy {
  import opened Validation
  import opened ErrorOrs
  import opened Form
  import Field
  import LegacyChain

  /** The debounce interval when the configuration gives none (index.ts 118, 213). */
  const DefaultDebounceMs: int := 200

  /** The constructor's options (index.ts 104-111); an option left out is `None`. The update
      hook is not a value here: its calls are counted. */
  datatype Config<!T> = Config(value: T, validators: Option<seq<Validator<T>>>,
                              autoValidationEnabled: Option<bool>, autoValidationDebounceMs: Option<int>)

  /** `config.autoValidationDebounceMs || 200`: an absent or zero interval falls back. */
  function DebounceOf<T>(c: Config<T>): int {
    match c.autoValidationDebounceMs
    case None => DefaultDebounceMs
    case Some(ms) => if ms == 0 then DefaultDebounceMs else ms
  }

  /** `config.autoValidationEnabled == undefined ? true : config.autoValidationEnabled`. */
  function AutoValidationOf<T>(c: Config<T>): bool {
    match c.autoValidationEnabled
    case None => true
    case Some(b) => b
  }

  /** `config.validators || []`. */
  function ValidatorsOf<T>(c: Config<T>): seq<Validator<T>> {
    match c.validators
    case None => []
    case Some(vs) => vs
  }

  /** What a completion does: the new state and what validate resolves with; `None` is the
      `undefined` a discarded completion resolves with. */
  datatype LegacyCompletion<!T> = LegacyCompletion(state: LegacyModel<T>, result: Option<ErrorOr<T>>)

  /** What a debounce wakeup does: the new state and the validation it starts, if any. */
  datatype LegacyWakeup<!T> = LegacyWakeup(state: LegacyModel<T>, request: Option<Field.Request<T>>)

  /** Every field of a legacy FieldState, as a value. */
  datatype LegacyModel<!T> = LegacyModel(
    value: T,
    dollar: T,
    error: Option<string>,
    autoValidationEnabled: bool,
    lastValidationRequest: nat,
    preventNextQueuedValidation: bool,
    validating: bool,
    wakeupPending: bool,
    debounceMs: int,
    validators: seq<Validator<T>>,
    updates: nat)
  {
    /** hasError (index.ts 154-156). */
    predicate HasError() {
      Truthy(error)
    }

    /** The error is absent or what a chain resolves with. */
    ghost predicate Valid() {
      IsOutcome(error)
    }

    function Status(): Status<T> {
      Validation.Status(validating, error, dollar)
    }

    predicate Issued(req: Field.Request<T>) {
      0 < req.ticket <= lastValidationRequest
    }

    /** onChange (index.ts 127-137). */
    function OnChange(v: T): LegacyModel<T> {
      this.(preventNextQueuedValidation := false,
            value := v,
            updates := updates + 1,
            wakeupPending := wakeupPending || autoValidationEnabled)
    }

    /** reinitValue (index.ts 143-152): the value is required, and auto validation is left
        as it is. */
    function Reinit(v: T): LegacyModel<T> {
      this.(preventNextQueuedValidation := true,
            value := v,
            error := None,
            dollar := v,
            updates := updates + 1)
    }

    /** The first half of validate (index.ts 164-167). */
    function Begin(): LegacyModel<T> {
      this.(lastValidationRequest := lastValidationRequest + 1, validating := true)
    }

    /** The request that Begin issues. */
    function NextRequest(): Field.Request<T> {
      Field.Request(lastValidationRequest + 1, value, Chain(value, validators))
    }

    /** The second half of validate (index.ts 168-199): a completion that a newer request
        has overtaken resolves with `undefined` and touches nothing; otherwise the error
        becomes the outcome and `$` the captured value whenever there is no error. */
    function Complete(req: Field.Request<T>): LegacyCompletion<T> {
      if lastValidationRequest != req.ticket then LegacyCompletion(this, None)
      else
        var hasError := Truthy(req.outcome);
        var s := this.(validating := false,
                       error := req.outcome,
                       dollar := if hasError then dollar else req.captured,
                       updates := updates + 1);
        LegacyCompletion(s, Some(if hasError then ErrorOr.HasError else Ok(req.captured)))
    }

    /** validate run to completion with nothing in between. */
    function Validated(): LegacyCompletion<T> {
      Begin().Complete(NextRequest())
    }

    /** queuedValidationWakeup (index.ts 202-208). */
    function QueuedWakeup(): LegacyWakeup<T> {
      if preventNextQueuedValidation then LegacyWakeup(this.(preventNextQueuedValidation := false), None)
      else LegacyWakeup(Begin(), Some(NextRequest()))
    }

    /** The debounce timer firing: it calls the wakeup once, if it was scheduled. */
    function Elapse(): LegacyWakeup<T> {
      if wakeupPending then this.(wakeupPending := false).QueuedWakeup() else LegacyWakeup(this, None)
    }
  }

  /** A field as the constructor leaves it (index.ts 84-124, 158). */
  function LegacyInitial<T>(c: Config<T>): LegacyModel<T> {
    LegacyModel(c.value, c.value, None, AutoValidationOf(c), 0, false, false, false,
                DebounceOf(c), ValidatorsOf(c), 0)
  }

  /** The constructor's defaults: hot and validated value the configured one, no error,
      auto validation on unless it is configured off, a debounce of 200 ms unless a
      non-zero one is configured, and no validators unless some are configured. */
  lemma ConfigDefaults<T>(c: Config<T>)
    ensures var m := LegacyInitial(c);
            && m.value == c.value && m.dollar == c.value && m.error == None && !m.validating
            && (m.autoValidationEnabled <==> c.autoValidationEnabled != Some(false))
            && (m.debounceMs == DefaultDebounceMs <==> c.autoValidationDebounceMs in {None, Some(0), Some(DefaultDebounceMs)})
            && (c.validators.None? ==> m.validators == [])
            && m.Valid()
  {
  }

  /** Every step keeps the field valid, provided completions carry chain outcomes. */
  lemma LegacyStepsPreserveValid<T>(m: LegacyModel<T>, v: T, req: Field.Request<T>)
    requires m.Valid()
    ensures m.OnChange(v).Valid() && m.Reinit(v).Valid() && m.Begin().Valid()
    ensures IsOutcome(req.outcome) ==> m.Complete(req).state.Valid()
    ensures m.QueuedWakeup().state.Valid() && m.Elapse().state.Valid()
  {
  }

  /** A completion a newer request has overtaken resolves with `undefined` and changes
      nothing, not even `validating` (index.ts 170). */
  lemma LegacyStaleCompletionIsDiscarded<T>(m: LegacyModel<T>, req: Field.Request<T>)
    requires req.ticket != m.lastValidationRequest
    ensures m.Complete(req).state == m && m.Complete(req).result.None?
  {
  }

  /** A validation that nothing overtakes: the error is the chain's outcome on the hot
      value, `$` becomes the hot value exactly when the chain finds no error, and validate
      resolves with that value or with the error flag. */
  lemma LegacyValidatedOutcome<T>(m: LegacyModel<T>)
    ensures var c := m.Validated(); var e := Chain(m.value, m.validators);
            && c.state.error == e && !c.state.validating && c.state.value == m.value
            && c.state.dollar == (if Truthy(e) then m.dollar else m.value)
            && c.state.lastValidationRequest == m.lastValidationRequest + 1
            && c.state.updates == m.updates + 1
            && c.result == Some(if Truthy(e) then ErrorOr.HasError else Ok(m.value))
  {
  }

  /** reinitValue puts hot and validated value to the given one, clears the error,
      suppresses the next queued wakeup and runs the update hook once; unlike the core
      field it neither resets auto validation nor counts as a new request. */
  lemma LegacyReinitResets<T>(m: LegacyModel<T>, v: T)
    ensures var s := m.Reinit(v);
            && s.value == v && s.dollar == v && s.error == None && s.preventNextQueuedValidation
            && s.autoValidationEnabled == m.autoValidationEnabled
            && s.lastValidationRequest == m.lastValidationRequest
            && s.validators == m.validators && s.updates == m.updates + 1
  {
  }

  /** Because reinitValue only suppresses the next queued wakeup, a validation already in
      flight still counts as the latest one when it completes after the reinit: it puts
      the value it captured back into `$`, unlike the new hot value. The core field
      behaves the same way (Field.InFlightValidationOutlivesReinit). */
  lemma InFlightValidationOutlivesReinit<T>(m: LegacyModel<T>, v: T)
    requires m.value != v && !Truthy(Chain(m.value, m.validators))
    ensures var req := m.NextRequest();
            var s := m.Begin().Reinit(v).Complete(req).state;
            && s.value == v && s.dollar == m.value && s.dollar != s.value
  {
  }

  /** onChange followed by reinitValue: when the debounce fires, nothing is validated. A
      change after the reinit lifts the suppression again. */
  lemma LegacyReinitSuppressesQueuedValidation<T>(m: LegacyModel<T>, v: T, r: T, w: T)
    requires m.autoValidationEnabled
    ensures m.OnChange(v).Reinit(r).Elapse().request.None?
    ensures m.OnChange(v).Reinit(r).Elapse().state.dollar == r
    ensures var s := m.OnChange(v).Reinit(r).OnChange(w).Elapse();
            s.request.Some? && s.request.value.captured == w
  {
  }

  /** onChange sets the hot value and runs the update hook once; the debounced validation
      runs only when auto validation is on, and its completion runs the hook a second
      time (src/tests/fieldState/onUpdate.ts 6-28). */
  lemma LegacyOnChange<T>(m: LegacyModel<T>, v: T)
    requires !m.wakeupPending
    ensures m.OnChange(v).value == v && m.OnChange(v).dollar == m.dollar
    ensures m.OnChange(v).updates == m.updates + 1
    ensures m.OnChange(v).Elapse().request.Some? <==> m.autoValidationEnabled
    ensures var w := m.OnChange(v).Elapse();
            w.request.Some? ==> w.state.Complete(w.request.value).state.updates == m.updates + 2
  {
  }

  class LegacyFieldState<T> {
    var value: T
    var dollar: T
    var error: Option<string>
    var autoValidationEnabled: bool
    var lastValidationRequest: nat
    var preventNextQueuedValidation: bool
    var validating: bool
    var wakeupPending: bool
    const debounceMs: int
    const validators: seq<Validator<T>>
    var updates: nat

    function Model(): LegacyModel<T>
      reads this
    {
      LegacyModel(value, dollar, error, autoValidationEnabled, lastValidationRequest,
                  preventNextQueuedValidation, validating, wakeupPending, debounceMs,
                  validators, updates)
    }

    ghost predicate Valid()
      reads this
    {
      Model().Valid()
    }

    function HasError(): bool
      reads this
    {
      Truthy(error)
    }

    function Status(): Status<T>
      reads this
    {
      Validation.Status(validating, error, dollar)
    }

    constructor (c: Config<T>)
      ensures Model() == LegacyInitial(c) && Valid()
    {
      value, dollar, error := c.value, c.value, None;
      debounceMs := if c.autoValidationDebounceMs.None? || c.autoValidationDebounceMs.value == 0
                    then DefaultDebounceMs else c.autoValidationDebounceMs.value;
      autoValidationEnabled := if c.autoValidationEnabled.None? then true else c.autoValidationEnabled.value;
      lastValidationRequest, preventNextQueuedValidation := 0, false;
      validating, wakeupPending := false, false;
      validators := if c.validators.None? then [] else c.validators.value;
      updates := 0;
    }

    method EnableAutoValidation()
      requires Valid()
      modifies this
      ensures Valid() && Model() == old(Model()).(autoValidationEnabled := true)
    {
      autoValidationEnabled := true;
    }

    method DisableAutoValidation()
      requires Valid()
      modifies this
      ensures Valid() && Model() == old(Model()).(autoValidationEnabled := false)
    {
      autoValidationEnabled := false;
    }

    method OnChange(v: T)
      requires Valid()
      modifies this
      ensures Valid() && Model() == old(Model()).OnChange(v)
    {
      preventNextQueuedValidation := false;
      value := v;
      updates := updates + 1;
      if autoValidationEnabled {
        wakeupPending := true;
      }
    }

    method ReinitValue(v: T)
      requires Valid()
      modifies this
      ensures Valid() && Model() == old(Model()).Reinit(v)
    {
      preventNextQueuedValidation := true;
      value := v;
      error := None;
      dollar := v;
      updates := updates + 1;
    }

    method BeginValidate() returns (req: Field.Request<T>)
      requires Valid()
      modifies this
      ensures Valid() && Model() == old(Model()).Begin()
      ensures req == old(Model()).NextRequest()
    {
      lastValidationRequest := lastValidationRequest + 1;
      validating := true;
      var outcome := LegacyChain.ApplyValidators(value, validators);
      req := Field.Request(lastValidationRequest, value, outcome);
    }

    method CompleteValidate(req: Field.Request<T>) returns (result: Option<ErrorOr<T>>)
      requires Valid() && IsOutcome(req.outcome)
      modifies this
      ensures Valid()
      ensures Model() == old(Model()).Complete(req).state && result == old(Model()).Complete(req).result
    {
      if lastValidationRequest != req.ticket {
        return None;
      }
      validating := false;
      if req.outcome != error {
        error := req.outcome;
      }
      var hasError := HasError();
      if !hasError {
        dollar := req.captured;
      }
      updates := updates + 1;
      result := Some(if hasError then ErrorOr.HasError else Ok(req.captured));
    }

    /** enableAutoValidationAndValidate (index.ts 96-99); its completion is CompleteValidate. */
    method EnableAutoValidationAndValidate() returns (req: Field.Request<T>)
      requires Valid()
      modifies this
      ensures Valid() && Model() == old(Model()).(autoValidationEnabled := true).Begin()
      ensures req == old(Model()).NextRequest()
    {
      autoValidationEnabled := true;
      req := BeginValidate();
    }

    method QueuedValidationWakeup() returns (req: Option<Field.Request<T>>)
      requires Valid()
      modifies this
      ensures Valid()
      ensures Model() == old(Model()).QueuedWakeup().state && req == old(Model()).QueuedWakeup().request
    {
      if preventNextQueuedValidation {
        preventNextQueuedValidation := false;
        return None;
      }
      var r := BeginValidate();
      req := Some(r);
    }

    method DebounceElapses() returns (req: Option<Field.Request<T>>)
      requires Valid()
      modifies this
      ensures Valid()
      ensures Model() == old(Model()).Elapse().state && req == old(Model()).Elapse().request
    {
      req := None;
      if wakeupPending {
        wakeupPending := false;
        req := QueuedValidationWakeup();
      }
    }
  }

  // ---------------------------------------------------------------------------------
  // The forms: a collection of legacy fields, in getValues order

  predicate Distinct<T>(fields: seq<LegacyFieldState<T>>) {
    forall i, j :: 0 <= i < j < |fields| ==> fields[i] != fields[j]
  }

  ghost predicate AllValid<T>(fields: seq<LegacyFieldState<T>>)
    reads fields
  {
    forall k :: 0 <= k < |fields| ==> fields[k].Valid()
  }

  /** Composition.Models over the legacy class; without traits the two field classes
      share no type through which one function could read both. */
  function Models<T>(fields: seq<LegacyFieldState<T>>): (r: seq<LegacyModel<T>>)
    reads fields
    ensures |r| == |fields|
  {
    seq(|fields|, k requires 0 <= k < |fields| reads fields => fields[k].Model())
  }

  /** The children's read surfaces, each under its position. */
  function ChildrenOf<T>(ms: seq<LegacyModel<T>>): (r: seq<Child<T>>)
    ensures |r| == |ms|
  {
    Snapshot(ms, (m: LegacyModel<T>) => m.Status())
  }

  /** Composition.ValidatedStates for legacy fields, whose validate is LegacyModel's own. */
  function ValidatedAll<T>(ms: seq<LegacyModel<T>>): (r: seq<LegacyModel<T>>)
    ensures |r| == |ms|
  {
    seq(|ms|, k requires 0 <= k < |ms| => ms[k].Validated().state)
  }

  function EnabledAll<T>(ms: seq<LegacyModel<T>>): (r: seq<LegacyModel<T>>)
    ensures |r| == |ms|
  {
    seq(|ms|, k requires 0 <= k < |ms| => ms[k].(autoValidationEnabled := true))
  }

  /** What a legacy FormState's validate resolves with (index.ts 265-274): the error flag
      when some child has an error once all have resolved, else the children. */
  function FormResult<T>(ms: seq<LegacyModel<T>>): ErrorOr<seq<Child<T>>> {
    var kids := ChildrenOf(ValidatedAll(ms));
    if AnyChildHasError(kids) then ErrorOr.HasError else Ok(kids)
  }

  /** A legacy form validation fails exactly when some child's chain finds an error on its
      hot value; when it passes, every child's `$` is its hot value and no child has an
      error. */
  lemma FormResultOutcome<T>(ms: seq<LegacyModel<T>>)
    ensures FormResult(ms).HasError? <==> exists k :: 0 <= k < |ms| && Truthy(Chain(ms[k].value, ms[k].validators))
    ensures FormResult(ms).Ok? ==>
              forall k :: 0 <= k < |ms| ==> ValidatedAll(ms)[k].dollar == ms[k].value && !ValidatedAll(ms)[k].HasError()
  {
    forall k | 0 <= k < |ms|
      ensures ChildrenOf(ValidatedAll(ms))[k].status.HasError() <==> Truthy(Chain(ms[k].value, ms[k].validators))
    {
      LegacyValidatedOutcome(ms[k]);
    }
    if FormResult(ms).HasError? {
      var kids := ChildrenOf(ValidatedAll(ms));
      var k :| 0 <= k < |kids| && kids[k].status.HasError();
      assert Truthy(Chain(ms[k].value, ms[k].validators));
    }
  }

  /** One child's validation, with nothing in between. */
  method RunValidation<T>(f: LegacyFieldState<T>)
    requires f.Valid()
    modifies f
    ensures f.Valid() && f.Model() == old(f.Model()).Validated().state
  {
    var req := f.BeginValidate();
    var _ := f.CompleteValidate(req);
  }

  /** Every child validates, each to completion; their interleaving is not modelled. */
  method ValidateAll<T>(fields: seq<LegacyFieldState<T>>)
    requires Distinct(fields) && AllValid(fields)
    modifies fields
    ensures AllValid(fields) && Models(fields) == ValidatedAll(old(Models(fields)))
  {
    ghost var ms := Models(fields);
    for i := 0 to |fields|
      invariant AllValid(fields)
      invariant forall k :: 0 <= k < |fields| ==> fields[k].Model() == if k < i then ms[k].Validated().state else ms[k]
    {
      RunValidation(fields[i]);
    }
    assert Models(fields) == ValidatedAll(ms);
  }

  /** enableAutoValidation of either legacy form (index.ts 253-255, 319-321). */
  method EnableAll<T>(fields: seq<LegacyFieldState<T>>)
    requires Distinct(fields) && AllValid(fields)
    modifies fields
    ensures AllValid(fields) && Models(fields) == EnabledAll(old(Models(fields)))
  {
    ghost var ms := Models(fields);
    for i := 0 to |fields|
      invariant AllValid(fields)
      invariant forall k :: 0 <= k < |fields| ==>
                  fields[k].Model() == if k < i then ms[k].(autoValidationEnabled := true) else ms[k]
    {
      fields[i].EnableAutoValidation();
    }
    assert Models(fields) == EnabledAll(ms);
  }

  /** error of either legacy form (index.ts 287-290, 327-330): the error of the first child
      that has one. Reading it when no child has an error throws, so it requires one. */
  function FirstChildError<T>(kids: seq<Child<T>>): (r: string)
    requires AnyChildHasError(kids)
    ensures Truthy(Some(r))
    ensures exists i :: 0 <= i < |kids| && Some(r) == kids[i].status.error
                        && forall k :: 0 <= k < i ==> !kids[k].status.HasError()
  {
    var i := FirstErrorIndex(kids);
    kids[i].status.error.value
  }

  /** FormState of index.ts (228-291): it owns only `validating`. */
  class LegacyFormState<T> {
    var validating: bool

    constructor ()
      ensures !validating
    {
      validating := false;
    }

    /** hasError (index.ts 280-282). */
    function HasError(kids: seq<Child<T>>): bool {
      AnyChildHasError(kids)
    }

    function Error(kids: seq<Child<T>>): string
      requires AnyChildHasError(kids)
    {
      FirstChildError(kids)
    }

    method EnableAutoValidation(fields: seq<LegacyFieldState<T>>)
      requires Distinct(fields) && AllValid(fields)
      modifies fields
      ensures AllValid(fields) && Models(fields) == EnabledAll(old(Models(fields)))
    {
      EnableAll(fields);
    }

    /** validate (index.ts 262-275). */
    method Validate(fields: seq<LegacyFieldState<T>>) returns (result: ErrorOr<seq<Child<T>>>)
      requires Distinct(fields) && AllValid(fields)
      modifies this, fields
      ensures !validating && AllValid(fields)
      ensures Models(fields) == ValidatedAll(old(Models(fields)))
      ensures result == FormResult(old(Models(fields)))
    {
      validating := true;
      ghost var ms := Models(fields);
      ValidateAll(fields);
      validating := false;
      var kids := seq(|fields|, k requires 0 <= k < |fields| reads fields => Child(k, fields[k].Status()));
      assert kids == ChildrenOf(ValidatedAll(ms));
      result := if HasError(kids) then ErrorOr.HasError else Ok(kids);
    }
  }

  /** FormStateLazy of index.ts (300-331): the same, over whatever getFields returns now,
      and its validate resolves with the error flag alone. */
  class LegacyFormStateLazy<T> {
    var validating: bool

    constructor ()
      ensures !validating
    {
      validating := false;
    }

    function HasError(kids: seq<Child<T>>): bool {
      AnyChildHasError(kids)
    }

    function Error(kids: seq<Child<T>>): string
      requires AnyChildHasError(kids)
    {
      FirstChildError(kids)
    }

    method EnableAutoValidation(fields: seq<LegacyFieldState<T>>)
      requires Distinct(fields) && AllValid(fields)
      modifies fields
      ensures AllValid(fields) && Models(fields) == EnabledAll(old(Models(fields)))
    {
      EnableAll(fields);
    }

    /** validate (index.ts 311-317). */
    method Validate(fields: seq<LegacyFieldState<T>>) returns (hasError: bool)
      requires Distinct(fields) && AllValid(fields)
      modifies this, fields
      ensures !validating && AllValid(fields)
      ensures Models(fields) == ValidatedAll(old(Models(fields)))
      ensures hasError == FormResult(old(Models(fields))).HasError?
    {
      validating := true;
      ghost var ms := Models(fields);
      ValidateAll(fields);
      validating := false;
      var kids := seq(|fields|, k requires 0 <= k < |fields| reads fields => Child(k, fields[k].Status()));
      assert kids == ChildrenOf(ValidatedAll(ms));
      hasError := HasError(kids);
    }
  }

  /** The legacy form validation of src/tests/formState/validation.ts 6-20: a required
      field holding the empty string makes the form fail, and the form reports its message. */
  lemma EmptyRequiredFieldFailsForm(m: LegacyModel<string>, required: Validator<string>)
    requires m.value == "" && m.validators == [required]
    requires required("") == Sync(Some("value required"))
    ensures FormResult([m]).HasError?
    ensures FirstChildError(ChildrenOf(ValidatedAll([m]))) == "value required"
  {
    assert Chain(m.value, m.validators) == Some("value required");
    FormResultOutcome([m]);
    LegacyValidatedOutcome(m);
    assert ChildrenOf(ValidatedAll([m]))[0].status.HasError();
  }
}
