# formstate, modelled in Dafny

formstate is a TypeScript library for form validation. A `FieldState` holds:

- a hot `value` bound to an input;
- a validated value `$`;
- an `error`.

Its validators run, debounced, whenever the value changes.

A `FormState` aggregates children and can run form-level validators once every child passes. With `compose`, children report their passes and reinitialisations to the form, and the form validates itself when every child has passed. A `FormStateLazy` recomputes its children on every read. Views (`viewedAs`) show a field or a form through a function `to`, and write to a field through `from`.

`src/index.ts` is an older, config-driven snapshot of the same classes.

This project models that core and proves what its code promises. It covers:

- the validator chain, in its three copies;
- the field state machine, including out-of-order validation results and the suppression of a queued validation after a reinit;
- the form aggregates and the form's validation;
- the composition bookkeeping;
- the view adapters;
- the older snapshot.

## Structure

| module | file | models |
|---|---|---|
| `Validation` | validation.dfy | `src/core/types.ts`: validators, replies, `applyValidators`, the `Validatable` read surface, the composition listener |
| `StandaloneChain` | apply_validators.dfy | `src/core/applyValidators.ts` |
| `ErrorOrs` | error_or.dfy | `src/core/ErrorOr.ts` |
| `Field` | field_state.dfy | `src/core/fieldState.ts`: the pure machine `FieldModel` and the class `FieldState` proved against it |
| `Form` | form_state.dfy | `src/core/formState.ts`: the aggregate getters, the validation settlement, the compose handlers, the class `FormState` |
| `FormLazy` | form_state_lazy.dfy | `src/core/formStateLazy.ts` |
| `Views` | view_validatable.dfy | `src/core/ViewValidatable.ts`: the read surface through `to`, validators installed through a view |
| `ViewField` | view_field_state.dfy | `src/core/ViewFieldState.ts` and the forwarding of `src/core/ViewComposibleValidatable.ts` |
| `ViewForm` | view_form_state.dfy | `src/core/ViewFormState.ts` |
| `ViewFormLazy` | view_form_state_lazy.dfy | `src/core/ViewFormStateLazy.ts` |
| `Composition` | composition.dfy | a form together with the `FieldState` objects it holds: `getValues`, `compose`, `reset`, the auto-validation cascades, the routing of notifications, a whole form validation, and scenarios from the repository's tests |
| `LegacyChain`, `Legacy` | legacy.dfy | `src/index.ts` |

### How the model reads the code

- **Replies.** A validator returns `Sync(reply)` or `Async(reply)`. A reply is an `Option<string>`: `null`, `undefined` and `false` are all `None`. A reply is truthy when it is a non-empty string, as `!res` treats it.
- **The chain.** `Chain(value, validators)` is the specification of `applyValidators`. Each copy of the loop is a method that ensures its result equals `Chain`.
- **Field validation in two steps.**
  - `BeginValidate` bumps `lastValidationRequest`. It returns a `Request` that holds the ticket, the captured hot value and the chain's outcome for that value.
  - `CompleteValidate(req)` is the promise's continuation. Any number of requests may be outstanding and may complete in any order.
- **Time.**
  - The current debounce's timer is a flag, `wakeupPending`, and an event, `DebounceElapses`.
  - `setAutoValidationDebouncedMs` installs a fresh debounce and does not cancel the old one's timer. Such replaced timers are counted by `orphanedWakeups` and fire through `ReplacedDebounceElapses`. A reinit suppresses only one of the wakeups that follow, so a replaced timer can still validate the reinit value (`Field.ReplacedTimerOutlivesReinit`).
  - The update hook is a counter, `updates`.
- **Children.** A form's children are seen through `getValues` as a sequence of `Child(id, status)` snapshots in `getValues` order. The composition handlers identify a child by its number `id`.
- **Notifications.** The core files disagree on the names used between a field and its parent. `formState.ts` uses `_setCompositionParent`, `on$ValidationPass` and `v.reset()`. `fieldState.ts` and `types.ts` use `setCompositionParent`, `on$ChangeAfterValidation` and `reinitValue`. The model uses one protocol with two notifications:
  - `ChangedAfterValidation`: the child passed and its `$` changed;
  - `Reinitialised`: the child was reinitialised.

  A form resets a child with `reinitValue` and no argument.
- **Two consequences of that unified protocol, visible in the proofs.**
  - An in-flight validation outlives a reinit. `reinitValue` only suppresses the next queued wakeup. A validation already started still holds the latest ticket, so when it completes it puts its captured value into `$` and reports the change (`Field.InFlightValidationOutlivesReinit`). The older snapshot behaves the same way (`Legacy.InFlightValidationOutlivesReinit`).
  - An untouched child never reports. A field whose `$` never changes never sends `ChangedAfterValidation`, so a composed form with such a field never validates itself. With the `name` field of `src/tests/formState/compose.ts` 30-54, the form therefore shows no error where that test expects "Passwords must match" (`Composition.UntouchedFieldBlocksAutoValidation`). With only the two password fields, the mismatch is found (`Composition.PasswordsMustMatch`). That test is written against `src/index.ts`, whose `FormState` has no `compose` at all.

## Model

| member | source | states |
|---|---|---|
| Validation.Chain | src/core/types.ts:22-61 | the chain resolves with `null` or with a non-empty message |
| Validation.Consulted | src/core/types.ts:36-43 | how many validators the chain invokes is never more than the list holds |
| Validation.ChainIsFirstError | src/core/types.ts:32-55 | `null` exactly when no validator reports an error; otherwise the reply of the first validator that does, with no validator after it invoked; so no message is invented |
| Validation.EmptyChainPasses | src/core/types.ts:32-35 | an empty list resolves with `null` and invokes nothing |
| Validation.ChainIgnoresTiming | src/core/types.ts:40-55 | whether each reply is plain or a thenable changes neither the result nor the invocations |
| Validation.ChainAppend | src/core/types.ts:26-44 | over a concatenation the first list decides unless all of it passes |
| Validation.ApplyValidators | src/core/types.ts:22-61 | the loop resolves with `Chain`, invokes validators 0, 1, … in order, each once, and exactly as many as `Consulted` |
| StandaloneChain.ApplyValidators | src/core/applyValidators.ts:6-45 | the second copy resolves with `Chain` and invokes validators in list order, each once |
| StandaloneChain.AgreesWithCore | src/core/applyValidators.ts:6-45 | this copy and the one in types.ts resolve alike for the same value and validators |
| ErrorOrs.MapErrorOr | src/core/ErrorOr.ts:3-4 | an error passes through; a success keeps `hasError` false and maps its value |
| ErrorOrs.MapIdentity | src/core/ErrorOr.ts:3-4 | mapping through the identity gives back the same result |
| ErrorOrs.MapCompose | src/core/ErrorOr.ts:3-4 | mapping twice is mapping once through the composed function |
| Field.Initial | src/core/fieldState.ts:58-68 | the state a constructor leaves: value and `$` the initial value, no error, not dirty, not validated, not validating, auto validation and its default on, no request issued, no timer armed, 200 ms, no validators, no parent |
| Field.FieldModel.OnChange | src/core/fieldState.ts:91-102 | onChange as a step: hot value and dirty set, suppression lifted, one hook call, the current timer armed when auto validation is on; `$` and error untouched |
| Field.FieldModel.Reinit | src/core/fieldState.ts:108-121 | reinitValue as a step; what it sets is stated by `Field.ReinitResets` |
| Field.FieldModel.Begin | src/core/fieldState.ts:133-136 | the synchronous half of validate: a new request number, and validating set |
| Field.FieldModel.NextRequest | src/core/fieldState.ts:133-138 | the request that half issues: the new number, the captured hot value, and what the chain resolves with for it |
| Field.FieldModel.Complete | src/core/fieldState.ts:138-188 | the continuation of validate; `Field.StaleCompletionIsDiscarded`, `Field.FreshCompletionApplies` and `Field.ChangeNoticeExactlyOnNewPass` state what it does |
| Field.FieldModel.QueuedWakeup | src/core/fieldState.ts:191-197 | a suppressed wakeup clears the suppression and starts nothing; any other begins a validation and issues its request |
| Field.FieldModel.Elapse | src/internal/utils.ts:12-24 | the current debounce's timer firing calls the wakeup once when a change armed it, and otherwise does nothing |
| Field.FieldModel.SetDebounce | src/core/fieldState.ts:81-84 | setAutoValidationDebouncedMs as a step: the interval set, the new debounce's timer unarmed, and an armed timer of the old debounce kept as a replaced timer |
| Field.FieldModel.ElapseReplaced | src/internal/utils.ts:12-24 | a replaced debounce's armed timer still fires and calls the wakeup once |
| Field.StepsPreserveValid | src/core/fieldState.ts:91-197 | every step keeps the error `null` or a message, and a validated field has issued a request |
| Field.TimerStepsPreserveValid | src/core/fieldState.ts:81-84 | the wakeup, both timers and a change of interval keep the field valid |
| Field.StaleCompletionIsDiscarded | src/core/fieldState.ts:144-154 | a completion whose ticket is not the latest changes nothing, notifies nothing, and returns the current `hasError` or `$` |
| Field.FreshCompletionApplies | src/core/fieldState.ts:156-187 | a fresh completion ends validating, marks the field validated, sets the error to the outcome, and moves `$` to the captured value only when there is no error |
| Field.ValidatedOutcome | src/core/fieldState.ts:132-189 | an uninterrupted validate sets the error to the chain on the hot value and moves `$` to it exactly when that passes; it notifies exactly when `$` changed; one hook call |
| Field.DollarMovesOnlyOnPass | src/core/fieldState.ts:164-173 | `$` never moves while the field ends with an error, and when it moves, it moves to the captured value of the latest request, which passed |
| Field.ChangeNoticeExactlyOnNewPass | src/core/fieldState.ts:168-173 | on$ChangeAfterValidation fires exactly when the latest request passes with a captured value different from `$` |
| Field.LatestValidationWins | src/core/fieldState.ts:133-154 | of two overlapping validations the newer decides whichever order they complete in; the older one changes nothing |
| Field.ReinitResets | src/core/fieldState.ts:108-121 | reinitValue sets value and `$` to the given or initial value, clears error, dirty and hasBeenValidated, restores the auto-validation default, sets the suppression flag, runs no validator, and calls the hook once |
| Field.InFlightValidationOutlivesReinit | src/core/fieldState.ts:108-121 | a validation begun before a reinit still completes as the latest: `$` becomes its captured value, unequal to the new hot value, and the change is reported |
| Field.ReinitSuppressesQueuedValidation | src/tests/fieldState/views.ts:53-64 | onChange then reinitValue: the debounce validates nothing and the field shows the reinit value with no error |
| Field.ChangeAfterReinitValidates | src/tests/fieldState/views.ts:66-77 | a change after the reinit lifts the suppression: the debounce then validates the new value |
| Field.DebounceCoalesces | src/core/fieldState.ts:99-101 | several changes before the debounce fires start one validation, of the last value |
| Field.DisabledChangeSchedulesNothing | src/core/fieldState.ts:99-101 | with auto validation off a change schedules nothing |
| Field.UpdateHookCount | src/core/fieldState.ts:98-176 | the hook runs once per onChange, reinitValue and fresh completion, never on a stale completion |
| Field.WakeupsSkipUpdateHook | src/core/fieldState.ts:191-197 | a wakeup, from the current timer or a replaced one, does not run the hook |
| Field.ReplacedTimerOutlivesReinit | src/core/fieldState.ts:81-84 | onChange, a new interval, onChange, reinitValue: the new timer's wakeup is suppressed, and the replaced timer's wakeup then validates the reinit value |
| Field.FieldState.constructor | src/core/fieldState.ts:58-68 | value and `$` are the initial value; no error; not dirty; not validated; auto validation on |
| Field.FieldState.SetValidators | src/core/fieldState.ts:70-74 | replaces the validator list and nothing else |
| Field.FieldState.SetAutoValidationDefault | src/core/fieldState.ts:37-41 | sets both the default and the current flag |
| Field.FieldState.EnableAutoValidation | src/core/fieldState.ts:45-48 | sets the flag and nothing else |
| Field.FieldState.DisableAutoValidation | src/core/fieldState.ts:53-56 | clears the flag and nothing else |
| Field.FieldState.SetAutoValidationDebouncedMs | src/core/fieldState.ts:81-84 | the new state is `SetDebounce` of the old: a fresh debounce with the given interval, the old one's armed timer left to fire |
| Field.FieldState.OnChange | src/core/fieldState.ts:91-102 | the new state is `OnChange` of the old: hot value set, dirty, suppression cleared, `$` and error kept, wakeup scheduled only when enabled |
| Field.FieldState.ReinitValue | src/core/fieldState.ts:108-121 | the new state is `Reinit` of the old, and the parent is told of the reinit |
| Field.FieldState.ResetTo | src/core/fieldState.ts:110-118 | installs a value as reinitValue does: suppression set, value and `$` the value, no error, not dirty, not validated, everything else kept |
| Field.FieldState.BeginValidate | src/core/fieldState.ts:133-137 | bumps the counter, sets validating, and issues the request for the hot value |
| Field.FieldState.CompleteValidate | src/core/fieldState.ts:138-188 | the new state, result and notice are those of `Complete`, as the completion lemmas describe |
| Field.FieldState.EnableAutoValidationAndValidate | src/core/fieldState.ts:49-52 | enables and begins a validation |
| Field.FieldState.QueuedValidationWakeup | src/core/fieldState.ts:191-197 | with the suppression flag set, clears it and validates nothing; otherwise begins a validation |
| Field.FieldState.DebounceElapses | src/core/fieldState.ts:204 | the timer calls the wakeup once if a change scheduled it |
| Field.FieldState.ReplacedDebounceElapses | src/internal/utils.ts:12-24 | a replaced debounce's armed timer calls the wakeup once |
| Field.FieldState.SetCompositionParent | src/core/fieldState.ts:215-221 | installs the parent's handlers and nothing else |
| Form.FormHasError | src/core/formState.ts:121-123 | hasError: some child has an error, or the form error is truthy |
| Form.FormErrorShown | src/core/formState.ts:171-173 | showFormError: no child has an error and the form error is truthy |
| Form.FirstErrorIndex | src/core/formState.ts:150 | where `find(f => !!f.hasError)` stops: the first child with an error, or the end |
| Form.FirstFieldError | src/core/formState.ts:149-152 | truthy exactly when some child has an error, and then the error of the first such child; otherwise `null` |
| Form.CombinedError | src/core/formState.ts:164-166 | the first field error when some child has one, else the form error |
| Form.ErrorIffHasError | src/core/formState.ts:121-166 | the combined error is truthy exactly when `hasError` holds |
| Form.ShownFormErrorIsTheError | src/core/formState.ts:164-173 | when showFormError holds, the form error is what `error` reports and the form has an error without field errors |
| Form.InitialForm | src/core/formState.ts:70-72 | the state a constructor leaves: no validators, form error `''`, not validating, auto validation off, nothing passed, no parent |
| Form.FormModel.Complete | src/core/formState.ts:86-113 | the form validation's settlement; its result is `Form.Settle`'s, and the pass notification goes to the parent exactly when the form passed and has one |
| Form.FormModel.ClearFormError | src/core/formState.ts:142-144 | clearFormError as a step: the form error becomes `''` |
| Form.FormModel.OnChildReinit | src/core/formState.ts:211-213 | the reinit handler as a step; `Form.ReinitForgetsOnlyThatChild` states what it does |
| Form.FormModel.OnChildPassed | src/core/formState.ts:214-237 | the pass handler as a step; `Form.PassHandler` states what it does |
| Form.FormModel.AutoValidates | src/core/formState.ts:228-235 | the condition for the form's own validation: no child has an error, none running, every child recorded |
| Form.Settle | src/core/formState.ts:86-113 | a failing child gives an error, with the form error kept and no form validator run; otherwise the form error is the chain on the collection, and the form passes with the collection exactly when that is falsy |
| Form.Without | src/core/formState.ts:212 | the filter keeps every other entry and keeps them duplicate-free |
| Form.AddOnce | src/core/formState.ts:221-223 | adds the child once, never duplicating it |
| Form.FormStepsPreserveValid | src/core/formState.ts:202-237 | validatedSubFields stays duplicate-free through every step |
| Form.ReinitForgetsOnlyThatChild | src/core/formState.ts:211-213 | the reinit handler removes exactly that child |
| Form.PassHandler | src/core/formState.ts:214-237 | the pass handler leaves no form error, records the child once, and starts a validation exactly when no child has an error, none is running, and every child has passed |
| Form.NoReentrantValidation | src/core/formState.ts:232 | a validating form starts no validation from a pass |
| Form.FailingChildShortCircuits | src/core/formState.ts:86-94 | a failing child settles the form with an error, keeps the form error, and notifies no parent |
| Form.FormState.constructor | src/core/formState.ts:70-72 | no validators, form error `''`, not validating, auto validation off, nothing passed, no parent |
| Form.FormState.SetValidators | src/core/formState.ts:73-76 | replaces the form validators |
| Form.FormState.BeginValidate | src/core/formState.ts:84-86 | sets validating |
| Form.FormState.SettleValidate | src/core/formState.ts:86-113 | the new state, result and pass notification are those of `Complete`, that is `Settle` |
| Form.FormState.ClearFormError | src/core/formState.ts:142-144 | sets the form error to `''`, so hasFormError is false |
| Form.FormState.SetAutoValidationEnabled | src/core/formState.ts:185-197 | sets the form's own flag |
| Form.FormState.SetCompositionParent | src/core/formState.ts:246-252 | installs the parent |
| Form.FormState.OnChildReinit | src/core/formState.ts:211-213 | the new state is that of the reinit handler |
| Form.FormState.OnChildPassed | src/core/formState.ts:214-237 | the new state and whether validation started are those of the pass handler |
| FormLazy.FormStateLazy.constructor | src/core/formStateLazy.ts:61-110 | no validators, form error `''`, not validating |
| FormLazy.FormStateLazy.SetValidators | src/core/formStateLazy.ts:69-72 | replaces the form validators |
| FormLazy.FormStateLazy.BeginValidate | src/core/formStateLazy.ts:75-76 | sets validating |
| FormLazy.FormStateLazy.SettleValidate | src/core/formStateLazy.ts:77-102 | form error and result are those of `Settle` on the collection read now, and validating ends |
| FormLazy.FormStateLazy.ClearFormError | src/core/formStateLazy.ts:136-138 | the form error becomes `''`, so hasFormError is false |
| FormLazy.NewChildIsSeen | src/core/formStateLazy.ts:58-64 | a child added since the last read is seen by the next one: its error becomes the form's error |
| Views.ViewStatus | src/core/ViewValidatable.ts:15-29 | a view's error, validating and hasError are the wrapped ones; its `$` is `to` of the wrapped `$` |
| Views.ViewOfViewIsComposedView | src/core/ViewValidatable.ts:27-29 | a view of a view reads like one view through the composed function |
| Views.IdentityViewIsTransparent | src/core/ViewValidatable.ts:27-29 | a view through the identity changes nothing |
| Views.Precompose | src/core/ViewFieldState.ts:76-79 | one installed validator per given validator |
| Views.PrecomposeAt | src/core/ViewFieldState.ts:76-79 | the k-th installed validator is the k-th given one reading through `to` |
| Views.ChainThroughView | src/core/ViewFieldState.ts:76-79 | the chain installed through a view, on the wrapped value, resolves and invokes as the given chain on the viewed value |
| Views.PrecomposeTwice | src/core/ViewFieldState.ts:76-83 | installing through two nested views is installing through the composed function |
| ViewField.ReinitArgumentAsWritten | src/core/ViewFieldState.ts:63-64 | the argument as written, `value && this.from(value)`: a given falsy value is passed on as it is, without `from` |
| ViewField.ReinitArgument | src/core/ViewFieldState.ts:63-64 | the corrected argument: omitted stays omitted, a given value goes through `from` |
| ViewField.FalsyReinitSkipsFrom | src/core/ViewFieldState.ts:63-64 | as written, reinitialising a `+1` view of an int field with 0 leaves the view showing 1 |
| ViewField.ReinitRoundTrip | src/core/ViewFieldState.ts:63-64 | with `to` undoing `from`, a reinit through the view shows the value given, or the wrapped initial value when none is given |
| ViewField.ChangeRoundTrip | src/tests/formState/views.ts:23-29 | with `to` undoing `from`, a change through the view that passes makes the view's `$` the value typed |
| ViewField.FieldView.ViewedAs | src/core/ViewFieldState.ts:81-83 | a view of a view wraps the same field |
| ViewField.FieldView.OnChange | src/core/ViewFieldState.ts:52-53 | the wrapped field's onChange of `from(x)` |
| ViewField.FieldView.ReinitValue | src/core/ViewFieldState.ts:63-64 | the wrapped field's reinitValue of the corrected argument |
| ViewField.FieldView.SetValidators | src/core/ViewFieldState.ts:76-79 | installs the given validators composed with `to` |
| ViewField.FieldView.EnableAutoValidation | src/core/ViewFieldState.ts:34-37 | forwards to the wrapped field |
| ViewField.FieldView.DisableAutoValidation | src/core/ViewFieldState.ts:29-32 | forwards to the wrapped field |
| ViewField.FieldView.SetAutoValidationDefault | src/core/ViewFieldState.ts:71-74 | forwards to the wrapped field |
| ViewField.FieldView.SetAutoValidationDebouncedMs | src/core/ViewFieldState.ts:66-69 | forwards to the wrapped field |
| ViewField.FieldView.QueuedValidationWakeup | src/core/ViewFieldState.ts:60-61 | forwards to the wrapped field |
| ViewField.FieldView.BeginValidate | src/core/ViewValidatable.ts:37-39 | begins the wrapped field's validation |
| ViewField.FieldView.CompleteValidate | src/core/ViewValidatable.ts:37-39 | the wrapped completion, its success value mapped through `to` |
| ViewField.FieldView.EnableAutoValidationAndValidate | src/core/ViewFieldState.ts:39-40 | the wrapped enable-and-validate; its completion is mapped as in CompleteValidate |
| ViewField.FieldView.SetCompositionParent | src/core/ViewComposibleValidatable.ts:23-25 | installs the parent on the wrapped field, which then reports to it |
| ViewField.ViewReads | src/core/ViewFieldState.ts:17-27 | the view's error, validating, hasError, dirty and hasBeenValidated are the wrapped ones; value and `$` go through `to` |
| ViewField.NestedView | src/core/ViewFieldState.ts:81-83 | a view of a view reads through `to` then `to2` and writes through `from2` then `from` |
| ViewField.ViewValidatorsSeeViewedValue | src/core/ViewFieldState.ts:76-79 | validators installed through the view judge the viewed value |
| ViewForm.FormView.ViewedAs | src/core/ViewFormState.ts:70-72 | a view of a view wraps the same form |
| ViewForm.FormView.ClearFormError | src/core/ViewFormState.ts:42-44 | forwards to the wrapped form |
| ViewForm.FormView.SetValidators | src/core/ViewFormState.ts:65-68 | installs the given validators composed with `to` |
| ViewForm.FormView.BeginValidate | src/core/ViewValidatable.ts:37-39 | begins the wrapped form's validation |
| ViewForm.FormView.SettleValidate | src/core/ViewValidatable.ts:37-39 | the wrapped settlement, its success value mapped through `to` |
| ViewForm.FormView.SetCompositionParent | src/core/ViewComposibleValidatable.ts:23-25 | installs the parent on the wrapped form |
| ViewForm.FormViewReads | src/core/ViewFormState.ts:18-40 | fieldError, formError, hasFieldError, showFormError, error and validatedSubFields are the wrapped form's, also through a view of the view; `$` goes through `to` |
| ViewForm.FormValidatorsSeeViewedCollection | src/tests/formState/views.ts:76-100 | form validators installed through a view judge the viewed collection |
| ViewFormLazy.LazyFormView.ViewedAs | src/core/ViewFormStateLazy.ts:42-44 | a view of a view wraps the same lazy form |
| ViewFormLazy.LazyFormView.SetValidators | src/core/ViewFormStateLazy.ts:13-16 | installs the given validators composed with `to` |
| ViewFormLazy.LazyFormView.ClearFormError | src/core/ViewFormStateLazy.ts:38-40 | forwards, so hasFormError is false |
| ViewFormLazy.LazyFormView.BeginValidate | src/core/ViewValidatable.ts:37-39 | begins the wrapped lazy form's validation |
| ViewFormLazy.LazyFormView.SettleValidate | src/core/ViewValidatable.ts:37-39 | the wrapped settlement, its success value mapped through `to` |
| ViewFormLazy.LazyViewReads | src/core/ViewFormStateLazy.ts:18-36 | the lazy view's getters are the wrapped form's over the same current collection |
| Composition.ReceiveWhileValidating | src/core/formState.ts:214-237 | a validating form that receives reports keeps validating and starts nothing; the reports only clear the form error and record passes |
| Composition.ReinitsForgetChildren | src/core/formState.ts:178-180 | the reinit notices of a reset remove exactly the form's children from validatedSubFields and change nothing else |
| Composition.Deliver | src/core/formState.ts:209-239 | a notice addressed to this form runs the matching handler; any other notice does nothing |
| Composition.DeliverAll | src/core/formState.ts:209-239 | notices are handled one after the other, in order |
| Composition.Compose | src/core/formState.ts:207-242 | every field gets this form as its parent, under its own number, and nothing else changes |
| Composition.Reset | src/core/formState.ts:178-180 | every field is reinitialised to its initial value and each reinit notice reaches the form |
| Composition.CascadeGovernsScheduling | src/core/fieldState.ts:99-101 | after the cascade, a change schedules a validation exactly when the cascade enabled it or one was already scheduled |
| Composition.SetAutoValidation | src/core/formState.ts:186-197 | the form's flag and every field's flag are set, and nothing else changes |
| Composition.EnableLazy | src/core/formStateLazy.ts:105-108 | every current field's flag is set |
| Composition.FieldResultsAgree | src/core/fieldState.ts:164-187 | a field's validate result has an error exactly when the field then has one, and a failing field reports nothing |
| Composition.ResultsMatchFields | src/core/formState.ts:88 | some result has an error exactly when some child has one |
| Composition.RoundOutcome | src/core/formState.ts:83-114 | a validation fails exactly when the form then has a field or form error; otherwise it resolves with the children; the form error is the validators' verdict when no field fails; the parent is told exactly on a pass |
| Composition.ValidateFields | src/core/formState.ts:85-86 | every field is validated to completion |
| Composition.SettleForm | src/core/formState.ts:87-113 | the fields' reports reach the form, which then settles |
| Composition.FinishValidation | src/core/formState.ts:85-113 | the fields' states and the form's completion are those of `FormRound` |
| Composition.ValidateForm | src/core/formState.ts:83-114 | validate over the held fields is `FormRound` of the validating form |
| Composition.EnableAndValidate | src/core/formState.ts:190-193 | the cascade, then a whole validation |
| Composition.LazyRoundOutcome | src/core/formStateLazy.ts:74-103 | a lazy validation fails exactly when the form then has an error; otherwise it resolves with the fields read now; a failing field leaves the form error as it was |
| Composition.ValidateLazy | src/core/formStateLazy.ts:74-103 | validate of a lazy form over its current fields is `LazyRound` |
| Composition.ViewCompose | src/core/ViewFormState.ts:46-49 | compose through a view makes the wrapped form every field's parent |
| Composition.ViewSetAutoValidation | src/core/ViewFormState.ts:51-59 | enable or disable through a view is the wrapped form's cascade |
| Composition.ViewValidate | src/core/ViewValidatable.ts:37-39 | validate through a form view is the wrapped validation, its success value mapped through `to` |
| Composition.ViewEnableAndValidate | src/core/ViewFormState.ts:61-63 | enableAutoValidationAndValidate through a view is the wrapped one, its success value mapped through `to` |
| Composition.LazyViewEnable | src/core/ViewValidatable.ts:31-35 | enableAutoValidation through a lazy view enables every current field |
| Composition.LazyViewValidate | src/core/ViewValidatable.ts:37-39 | validate through a lazy view is the wrapped lazy validation, its success value mapped through `to` |
| Composition.NestedLazyViewValidate | src/core/ViewFormStateLazy.ts:42-44 | validate through a view of a lazy view is the wrapped lazy validation, its success value mapped through `to` and then `to2` |
| Composition.RequiredChain | src/tests/formState/compose.ts:31 | the required validator fails exactly on the empty string |
| Composition.PasswordsMatchChain | src/tests/formState/compose.ts:38-40 | the password validator fails exactly when the two values differ |
| Composition.TypedRequired | src/tests/formState/compose.ts:46-50 | typing into a required field with auto validation on validates it after the debounce |
| Composition.RequiredValidated | src/tests/formState/compose.ts:43 | a required field fails exactly on the empty string, and otherwise moves `$` and reports |
| Composition.UncheckedValidated | src/tests/formState/compose.ts:35 | a field without validators passes and reports only a changed `$` |
| Composition.SilentFailingRound | src/core/formState.ts:88-94 | a validation in which some field fails and none reports leaves the form as it was, apart from validating |
| Composition.PassWhileOtherFails | src/core/formState.ts:228-236 | a pass while another child has an error is recorded and starts nothing |
| Composition.LastPassStartsValidation | src/core/formState.ts:228-236 | the pass of the last child that had not passed, with no child failing, starts the form's validation |
| Composition.MismatchFound | src/tests/formState/compose.ts:38-53 | the validation started by the second pass finds "Passwords must match" |
| Composition.EmptyFieldsFail | src/tests/formState/compose.ts:43 | both empty required fields fail and no field reports |
| Composition.SubmitEmpty | src/tests/formState/compose.ts:43 | enableAutoValidationAndValidate on the empty form fails and leaves the form waiting with nothing passed |
| Composition.TypeFirstPassword | src/tests/formState/compose.ts:46 | the first password passes and is recorded; nothing starts while the second has an error |
| Composition.TypeSecondPassword | src/tests/formState/compose.ts:47 | the second password passes; the form starts validating exactly when no other field is missing from its record |
| Composition.PasswordsMustMatch | src/tests/formState/compose.ts:30-54 | with the two password fields, the form's error ends as "Passwords must match" |
| Composition.UntouchedFieldBlocksAutoValidation | src/tests/formState/compose.ts:30-54 | with the untouched `name` field too, the form never validates itself and shows no error |
| Composition.LocalValidationFails | src/tests/formState/localValidations.ts:9-33 | when every field passes and the form validator reports on the validated children, validation fails and the form's error is that message |
| Composition.ShortNameFailsForm | src/tests/formState/localValidations.ts:9-20 | a form over one empty `name` field whose validator requires two characters fails with that validator's message |
| Composition.LazyFormSeesNewFields | src/core/formStateLazy.ts:58-85 | a field added after a passing validation makes the next validation fail |
| Composition.OutOfOrderValidation | src/core/fieldState.ts:144-154 | an older validation resolving last leaves the newer `$` and returns it |
| Composition.ReinitBeatsQueuedValidation | src/tests/fieldState/views.ts:53-64 | onChange then reinit: nothing is validated; no error; `$` is the reinit value |
| Composition.ChangeAfterReinitValidates | src/tests/fieldState/views.ts:66-77 | onChange, reinit, onChange: the debounced validation runs and reports the error |
| Composition.ViewRoundTrip | src/tests/formState/views.ts:13-29 | a value typed into a `+1` view and validated is what the view shows; the field stores it minus one |
| LegacyChain.ApplyValidators | src/index.ts:23-62 | the older loop resolves with `Chain`, so with `null` exactly when no validator reports an error |
| Legacy.DebounceOf | src/index.ts:118 | `config.autoValidationDebounceMs \|\| 200`: an absent or zero interval gives 200, any other the configured one |
| Legacy.AutoValidationOf | src/index.ts:119 | an absent setting enables auto validation; a given one is used as it is |
| Legacy.ValidatorsOf | src/index.ts:168 | `config.validators \|\| []` |
| Legacy.LegacyInitial | src/index.ts:104-124 | the state a constructor leaves: the configured value as value and `$`, no error, the configured settings, no request issued, no timer armed |
| Legacy.LegacyModel.OnChange | src/index.ts:127-137 | onChange as a step: value set, suppression lifted, one hook call, the timer armed when auto validation is on |
| Legacy.LegacyModel.Reinit | src/index.ts:143-152 | reinitValue as a step; `Legacy.LegacyReinitResets` states what it sets |
| Legacy.LegacyModel.Begin | src/index.ts:164-166 | the synchronous half of validate: a new request number, and validating set |
| Legacy.LegacyModel.NextRequest | src/index.ts:164-168 | the request it issues: the number, the captured hot value, and the chain's outcome for it |
| Legacy.LegacyModel.Complete | src/index.ts:169-199 | the continuation: an overtaken completion resolves with `undefined`; otherwise the error becomes the outcome and `$` the captured value on a pass |
| Legacy.LegacyModel.QueuedWakeup | src/index.ts:202-208 | a suppressed wakeup clears the suppression and starts nothing; any other begins a validation |
| Legacy.LegacyModel.Elapse | src/internal/utils.ts:12-24 | the timer firing calls the wakeup once when a change armed it |
| Legacy.ConfigDefaults | src/index.ts:104-120 | value and `$` are the configured value; no error; auto validation on unless configured off; 200 ms unless a non-zero interval is configured; no validators unless configured |
| Legacy.LegacyStepsPreserveValid | src/index.ts:127-208 | every step keeps the error a chain outcome |
| Legacy.LegacyStaleCompletionIsDiscarded | src/index.ts:163-170 | an overtaken completion resolves with `undefined` and changes nothing, validating included |
| Legacy.LegacyValidatedOutcome | src/index.ts:163-199 | the error becomes the chain on the hot value, `$` becomes the hot value exactly on a pass, one hook call, and validate resolves accordingly |
| Legacy.LegacyReinitResets | src/index.ts:143-152 | value and `$` set, error cleared, suppression set, one hook call; auto validation and the counter kept |
| Legacy.InFlightValidationOutlivesReinit | src/index.ts:143-170 | a validation begun before a reinit still completes as the latest and puts its captured value into `$` |
| Legacy.LegacyReinitSuppressesQueuedValidation | src/index.ts:143-152 | onChange then reinit validates nothing when the debounce fires; a further change validates again |
| Legacy.LegacyOnChange | src/tests/fieldState/onUpdate.ts:6-28 | onChange sets the value and calls the hook once; the debounce validates exactly when auto validation is on, and that validation calls the hook again |
| Legacy.LegacyFieldState.constructor | src/index.ts:104-120 | the state is `LegacyInitial` of the configuration |
| Legacy.LegacyFieldState.EnableAutoValidation | src/index.ts:93-95 | sets the flag |
| Legacy.LegacyFieldState.DisableAutoValidation | src/index.ts:100-102 | clears the flag |
| Legacy.LegacyFieldState.OnChange | src/index.ts:127-137 | the new state is `OnChange` of the old |
| Legacy.LegacyFieldState.ReinitValue | src/index.ts:143-152 | the new state is `Reinit` of the old |
| Legacy.LegacyFieldState.BeginValidate | src/index.ts:163-168 | bumps the counter, sets validating, and issues the request for the hot value |
| Legacy.LegacyFieldState.CompleteValidate | src/index.ts:169-199 | the new state and result are those of `Complete` |
| Legacy.LegacyFieldState.EnableAutoValidationAndValidate | src/index.ts:96-99 | enables and begins a validation |
| Legacy.LegacyFieldState.QueuedValidationWakeup | src/index.ts:202-208 | with the suppression flag set, clears it and validates nothing; otherwise begins a validation |
| Legacy.LegacyFieldState.DebounceElapses | src/index.ts:118 | the timer calls the wakeup once if a change scheduled it |
| Legacy.FormResultOutcome | src/index.ts:262-282 | a legacy form validation fails exactly when some child's chain finds an error on its hot value; when it passes, every child's `$` is its hot value |
| Legacy.ValidateAll | src/index.ts:264-265 | every child is validated to completion |
| Legacy.EnableAll | src/index.ts:253-255 | every child's auto validation is enabled |
| Legacy.FirstChildError | src/index.ts:287-290 | the error of the first child that has one, defined only when some child has one |
| Legacy.LegacyFormState.constructor | src/index.ts:230-251 | not validating |
| Legacy.LegacyFormState.EnableAutoValidation | src/index.ts:253-255 | enables every child |
| Legacy.LegacyFormState.Validate | src/index.ts:262-275 | every child validates; validating ends; the result is `FormResult` |
| Legacy.LegacyFormStateLazy.constructor | src/index.ts:304-309 | not validating |
| Legacy.LegacyFormStateLazy.EnableAutoValidation | src/index.ts:319-321 | enables every current child |
| Legacy.LegacyFormStateLazy.Validate | src/index.ts:311-317 | every child validates; validating ends; the flag is `FormResult`'s |
| Legacy.EmptyRequiredFieldFailsForm | src/tests/formState/validation.ts:6-20 | an empty required field makes the form fail with "value required" |

## Left out

- Debounce timing. Clock time is not modelled, and the interval is only stored. Each debounce's timer is an armed flag or count plus an explicit elapse event, so which timer fires first, and when, is the caller's choice of events. A call that arrives before the interval has passed re-arms the same timer (src/internal/utils.ts 15-16); in the model it leaves the one armed wakeup in place. The `immediate` option of `debounce` is not used by the core and is not modelled.
- mobx. Observables, actions, `makeObservable`, `runInAction` and making `$` observable carry no logic.
- Collection-mode detection. The array, map and object modes (formState.ts 5-7, 52, 61-68; index.ts 241-249) become one ordered sequence of children.
- Promise scheduling. The children of a form validation are validated one after another, each to completion (`Composition.ValidateFields`). Overlapping validations of one field are modelled at the field level only (`Field.LatestValidationWins`).
- Validator faults. A rejecting asynchronous validator leaves the chain unresolved in the code, and no model of that is given.
- Reply values. `null`, `undefined` and `false` replies all become `None`, and a falsy error is `None` or `""`.
- Handlers. The update hook becomes a counter of its calls, and no handler function is stored. `onUpdate` and `onDidChange` registration, and their forwarding by `ViewFieldState` (ViewFieldState.ts 45-50, 55-58), are left out. `onDidChange` is not defined by the field in fieldState.ts.
- Aliasing. A form holds each field once (`Distinct`). Aliasing between forms and fields is not modelled.
- Nested forms. The cascades and a whole validation are modelled for forms whose children are `FieldState` objects of one value type. A form nested in a form, and mixed child types, appear only through the child snapshots of the `Form` module.
- Return values. Methods that return `this` for chaining return nothing here.
- The form's `$` object. A form's `$` is its sequence of child snapshots, and form validators read that sequence.
- Views as children. A view that a form holds as a child reaches the form through the wrapped object (`ViewField.FieldView.SetCompositionParent`). Composition over views is not modelled separately.
- Legacy.FirstChildError: the error getters of the older forms throw when no child has an error; the model requires that some child has one instead of modelling the throw.
- Discarded legacy completions. The `undefined` that a discarded completion of the older field resolves with is `None`.

## Findings

| source | as written | input that shows it | evidently intended | confidence | as-written member | corrected member |
|---|---|---|---|---|---|---|
| src/core/ViewFieldState.ts:63-64 | `reinitValue(value?)` passes `value && this.from(value)`, so a given falsy value (0, `""`, `false`) reaches the wrapped field without going through `from` | a view of an int field with `to = n + 1`, `from = n - 1`; `reinitValue(0)` leaves the view showing 1 (`ViewField.FalsyReinitSkipsFrom`) | an omitted value stays omitted and every given value goes through `from`, so that with inverse maps the view shows the value given (`ViewField.ReinitRoundTrip`) | not executed | ViewField.ReinitArgumentAsWritten | ViewField.ReinitArgument |
