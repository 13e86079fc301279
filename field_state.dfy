/** A single field (src/core/fieldState.ts): a hot `value` bound to the input, a validated
    `$` (`dollar` here), the last error, and the bookkeeping that keeps out-of-order
    validations from touching visible state.

    `validate` is asynchronous in the source; here it is two events. BeginValidate bumps
    the request counter and captures the hot value; the chain's outcome for that value is
    fixed at that moment and travels with the request. CompleteValidate delivers it and is
    discarded when a newer request has been issued. The timer of the current debounce is
    the flag `wakeupPending`, and its firing is the event DebounceElapses. A debounce that
    setAutoValidationDebouncedMs replaced keeps a timer it had armed; those timers are
    counted by `orphanedWakeups`, and one of them firing is the event
    ReplacedDebounceElapses. The update hook is the
    counter `updates`; the composition handlers are the optional `listener`, and firing a
    handler is returning a Notice addressed to it. */
module Field {
  import opened Validation
  import opened ErrorOrs

  /** The debounce interval a field starts with (fieldState.ts 65, 204). */
  const DefaultDebounceMs: int := 200

  /** A validation in flight: its sequence number, the hot value it captured, and what the
      validator chain resolves with for that value. */
  datatype Request<T> = Request(ticket: nat, captured: T, outcome: Option<string>)

  /** What a completion does: the new state, what validate resolves with, and the
      composition notification it fires, if any. */
  datatype Completion<!T> = Completion(state: FieldModel<T>, result: ErrorOr<T>, notice: Option<Notice>)

  /** What a debounce wakeup does: the new state and the validation it starts, if any. */
  datatype Wakeup<!T> = Wakeup(state: FieldModel<T>, request: Option<Request<T>>)

  /** Every field of a FieldState, as a value. */
  datatype FieldModel<!T(==)> = FieldModel(
    value: T,
    dollar: T,
    error: Option<string>,
    dirty: bool,
    hasBeenValidated: bool,
    validating: bool,
    autoValidationEnabled: bool,
    autoValidationDefault: bool,
    lastValidationRequest: nat,
    preventNextQueuedValidation: bool,
    wakeupPending: bool,
    orphanedWakeups: nat,
    debounceMs: int,
    validators: seq<Validator<T>>,
    initValue: T,
    listener: Option<Listener>,
    updates: nat)
  {
    /** hasError (fieldState.ts 123-125). */
    predicate HasError() {
      Truthy(error)
    }

    /** The error is absent or a truthy message, and a field that has been validated has
        issued a request. */
    ghost predicate Valid() {
      && IsOutcome(error)
      && (hasBeenValidated ==> lastValidationRequest > 0)
    }

    function Status(): Status<T> {
      Validation.Status(validating, error, dollar)
    }

    /** A request this field has handed out: only such a request's promise can complete. */
    predicate Issued(req: Request<T>) {
      0 < req.ticket <= lastValidationRequest
    }

    /** onChange (fieldState.ts 91-102). */
    function OnChange(v: T): FieldModel<T> {
      this.(preventNextQueuedValidation := false,
            value := v,
            dirty := true,
            updates := updates + 1,
            wakeupPending := wakeupPending || autoValidationEnabled)
    }

    /** reinitValue (fieldState.ts 108-121); an omitted value means the initial one. */
    function Reinit(v: Option<T>): FieldModel<T> {
      var w := if v.Some? then v.value else initValue;
      this.(preventNextQueuedValidation := true,
            autoValidationEnabled := autoValidationDefault,
            value := w,
            error := None,
            dirty := false,
            hasBeenValidated := false,
            dollar := w,
            updates := updates + 1)
    }

    /** What the installed on$Reinit handler is told; the default handler does nothing. */
    function ReinitNotice(): Option<Notice> {
      if listener.Some? then Some(Reinitialised(listener.value)) else None
    }

    /** What the installed on$ChangeAfterValidation handler is told. */
    function ChangeNotice(): Option<Notice> {
      if listener.Some? then Some(ChangedAfterValidation(listener.value)) else None
    }

    /** The first half of validate (fieldState.ts 133-137). */
    function Begin(): FieldModel<T> {
      this.(lastValidationRequest := lastValidationRequest + 1, validating := true)
    }

    /** The request that Begin issues. */
    function NextRequest(): Request<T> {
      Request(lastValidationRequest + 1, value, Chain(value, validators))
    }

    /** The second half of validate, when the chain resolves (fieldState.ts 138-188). */
    function Complete(req: Request<T>): Completion<T> {
      if lastValidationRequest != req.ticket then
        // out of order: report the current status and change nothing
        Completion(this, if HasError() then ErrorOr.HasError else Ok(dollar), None)
      else
        var hasError := Truthy(req.outcome);
        var changed := !hasError && dollar != req.captured;
        var s := this.(validating := false,
                       hasBeenValidated := true,
                       error := req.outcome,
                       dollar := if changed then req.captured else dollar,
                       updates := updates + 1);
        Completion(s, if hasError then ErrorOr.HasError else Ok(req.captured),
                   if changed then ChangeNotice() else None)
    }

    /** validate (fieldState.ts 132-189) run to completion with nothing in between. */
    function Validated(): Completion<T> {
      Begin().Complete(NextRequest())
    }

    /** queuedValidationWakeup (fieldState.ts 191-197). */
    function QueuedWakeup(): Wakeup<T> {
      if preventNextQueuedValidation then Wakeup(this.(preventNextQueuedValidation := false), None)
      else Wakeup(Begin(), Some(NextRequest()))
    }

    /** The debounce timer firing: it calls the wakeup once, if it was scheduled. */
    function Elapse(): Wakeup<T> {
      if wakeupPending then this.(wakeupPending := false).QueuedWakeup() else Wakeup(this, None)
    }

    /** setAutoValidationDebouncedMs (fieldState.ts 81-84): a fresh debounce with its own,
        unarmed timer; a timer the old debounce had armed is not cancelled. */
    function SetDebounce(ms: int): FieldModel<T> {
      this.(debounceMs := ms,
            wakeupPending := false,
            orphanedWakeups := if wakeupPending then orphanedWakeups + 1 else orphanedWakeups)
    }

    /** The timer of a replaced debounce firing: it still calls the wakeup once
        (src/internal/utils.ts 12-24). */
    function ElapseReplaced(): Wakeup<T> {
      if orphanedWakeups > 0 then this.(orphanedWakeups := orphanedWakeups - 1).QueuedWakeup()
      else Wakeup(this, None)
    }
  }

  /** A field as the constructor leaves it (fieldState.ts 21, 31, 36, 58-68, 87-88, 127). */
  function Initial<T(==)>(init: T): FieldModel<T> {
    FieldModel(init, init, None, false, false, false, true, true, 0, false, false, 0,
               DefaultDebounceMs, [], init, None, 0)
  }

  /** Every step keeps the field valid, provided completions carry chain outcomes. */
  lemma StepsPreserveValid<T>(m: FieldModel<T>, v: T, w: Option<T>, req: Request<T>)
    requires m.Valid()
    ensures m.OnChange(v).Valid() && m.Reinit(w).Valid() && m.Begin().Valid()
    ensures m.Issued(req) && IsOutcome(req.outcome) ==> m.Complete(req).state.Valid()
  {
  }

  /** The timer steps keep the field valid too. */
  lemma TimerStepsPreserveValid<T>(m: FieldModel<T>, ms: int)
    requires m.Valid()
    ensures m.QueuedWakeup().state.Valid() && m.Elapse().state.Valid()
    ensures m.SetDebounce(ms).Valid() && m.ElapseReplaced().state.Valid()
  {
  }

  /** A completion whose ticket is not the latest request changes nothing, fires nothing,
      and reports the current error status and `$`. */
  lemma StaleCompletionIsDiscarded<T>(m: FieldModel<T>, req: Request<T>)
    requires req.ticket != m.lastValidationRequest
    ensures m.Complete(req).state == m
    ensures m.Complete(req).notice.None?
    ensures m.Complete(req).result == if m.HasError() then ErrorOr.HasError else Ok(m.dollar)
  {
  }

  /** A fresh completion: validation is over, the field counts as validated, the error is
      the chain's outcome, and `$` takes the captured value only when there is no error. */
  lemma FreshCompletionApplies<T>(m: FieldModel<T>, req: Request<T>)
    requires req.ticket == m.lastValidationRequest
    ensures var s := m.Complete(req).state;
            && !s.validating && s.hasBeenValidated && s.error == req.outcome
            && s.dollar == (if Truthy(req.outcome) then m.dollar else req.captured)
            && s.value == m.value
    ensures m.Complete(req).result == if Truthy(req.outcome) then ErrorOr.HasError else Ok(req.captured)
  {
  }

  /** A validation that nothing overtakes: the error is the chain's outcome on the hot value,
      the field counts as validated, and `$` becomes the hot value exactly when the chain
      finds no error; on$ChangeAfterValidation fires when that moved `$`. */
  lemma ValidatedOutcome<T>(m: FieldModel<T>)
    ensures var c := m.Validated(); var e := Chain(m.value, m.validators);
            && c.state == m.(lastValidationRequest := m.lastValidationRequest + 1, validating := false,
                             hasBeenValidated := true, error := e,
                             dollar := if Truthy(e) then m.dollar else m.value, updates := m.updates + 1)
            && c.result == (if Truthy(e) then ErrorOr.HasError else Ok(m.value))
            && c.notice == (if !Truthy(e) && m.dollar != m.value then m.ChangeNotice() else None)
  {
  }

  /** `$` never moves while the field ends with an error; when it moves, it moves to the
      captured value of the latest request, whose chain found no error. */
  lemma DollarMovesOnlyOnPass<T>(m: FieldModel<T>, req: Request<T>)
    ensures m.Complete(req).state.HasError() ==> m.Complete(req).state.dollar == m.dollar
    ensures m.Complete(req).state.dollar != m.dollar ==>
              && req.ticket == m.lastValidationRequest
              && !Truthy(req.outcome)
              && m.Complete(req).state.dollar == req.captured
  {
  }

  /** on$ChangeAfterValidation fires exactly when the latest request passes with a
      captured value that differs from `$` (and a parent is listening). */
  lemma ChangeNoticeExactlyOnNewPass<T>(m: FieldModel<T>, req: Request<T>)
    ensures m.Complete(req).notice.Some? <==>
              && req.ticket == m.lastValidationRequest
              && !Truthy(req.outcome)
              && m.dollar != req.captured
              && m.listener.Some?
    ensures m.Complete(req).notice.Some? ==> m.Complete(req).notice == Some(ChangedAfterValidation(m.listener.value))
  {
  }

  /** Two validations started one after the other for the hot values v1 and v2: whichever
      completes first, the end state is the one the v2 validation produces, and the v1
      validation never touches error, `$` or hasBeenValidated. */
  lemma LatestValidationWins<T>(m: FieldModel<T>, v1: T, v2: T)
    ensures
      var m1 := m.OnChange(v1);
      var r1 := m1.NextRequest();
      var m2 := m1.Begin().OnChange(v2);
      var r2 := m2.NextRequest();
      var m3 := m2.Begin();
      var newerFirst := m3.Complete(r2).state.Complete(r1).state;
      var olderFirst := m3.Complete(r1).state.Complete(r2).state;
      && m3.Complete(r1).state == m3
      && newerFirst == olderFirst == m3.Complete(r2).state
      && newerFirst.error == Chain(v2, m.validators)
      && (!Truthy(newerFirst.error) ==> newerFirst.dollar == v2)
      && (Truthy(newerFirst.error) ==> newerFirst.dollar == m.dollar)
  {
  }

  /** reinitValue puts the field back: hot and validated value the given (or initial)
      value, no error, not dirty, not validated, auto-validation at its default, the next
      queued wakeup suppressed, one update. It does not run the chain. */
  lemma ReinitResets<T>(m: FieldModel<T>, v: Option<T>)
    ensures var s := m.Reinit(v); var w := if v.Some? then v.value else m.initValue;
            && s.value == w && s.dollar == w && s.error == None
            && !s.dirty && !s.hasBeenValidated
            && s.autoValidationEnabled == m.autoValidationDefault
            && s.preventNextQueuedValidation
            && s.lastValidationRequest == m.lastValidationRequest
            && s.validators == m.validators
            && s.updates == m.updates + 1
  {
  }

  /** reinitValue only suppresses the next queued wakeup: a validation already in flight
      still holds the latest ticket, so when it completes after the reinit it puts the
      value it captured back into `$`, which then differs from the reinitialised hot
      value, and reports the change. */
  lemma InFlightValidationOutlivesReinit<T>(m: FieldModel<T>, v: T)
    requires m.value != v && !Truthy(Chain(m.value, m.validators))
    ensures var req := m.NextRequest();
            var c := m.Begin().Reinit(Some(v)).Complete(req);
            && c.state.value == v && c.state.dollar == m.value && c.state.dollar != c.state.value
            && c.notice == m.ChangeNotice()
  {
  }

  /** onChange followed by reinitValue: when the debounce fires, nothing is validated,
      and the field shows the reinitialised value with no error (tests/fieldState/views.ts 53-64).
      This is about the current debounce's timer; ReplacedTimerOutlivesReinit shows a replaced
      one. */
  lemma ReinitSuppressesQueuedValidation<T>(m: FieldModel<T>, v: T, r: T)
    requires m.autoValidationEnabled
    ensures var s := m.OnChange(v).Reinit(Some(r)).Elapse();
            && s.request.None?
            && !s.state.HasError() && s.state.value == r && s.state.dollar == r
            && !s.state.hasBeenValidated && !s.state.preventNextQueuedValidation
  {
  }

  /** A change after the reinit cancels the suppression: the debounce then validates the
      new hot value (tests/fieldState/views.ts 66-77). */
  lemma ChangeAfterReinitValidates<T>(m: FieldModel<T>, v: T, r: T, w: T)
    requires m.autoValidationEnabled
    ensures var s := m.OnChange(v).Reinit(Some(r)).OnChange(w).Elapse();
            && s.request.Some?
            && s.request.value.captured == w
            && s.request.value.ticket == m.lastValidationRequest + 1
  {
  }

  /** Several changes before the debounce fires start exactly one validation, of the last
      value; a second firing starts nothing. */
  lemma DebounceCoalesces<T>(m: FieldModel<T>, v1: T, v2: T, v3: T)
    requires m.autoValidationEnabled
    ensures var s := m.OnChange(v1).OnChange(v2).OnChange(v3).Elapse();
            && s.request.Some? && s.request.value.captured == v3
            && s.state.lastValidationRequest == m.lastValidationRequest + 1
            && s.state.Elapse().request.None?
  {
  }

  /** With auto-validation disabled, a change schedules nothing. */
  lemma DisabledChangeSchedulesNothing<T>(m: FieldModel<T>, v: T)
    requires !m.autoValidationEnabled && !m.wakeupPending
    ensures m.OnChange(v).Elapse().request.None?
    ensures m.OnChange(v).Elapse().state == m.OnChange(v)
  {
  }

  /** Changing the interval between two changes leaves two timers armed: the new
      debounce's and the replaced one's. A reinit suppresses only the first wakeup, so the
      second validates the reinitialised value. */
  lemma ReplacedTimerOutlivesReinit<T>(m: FieldModel<T>, a: T, b: T, r: T, ms: int)
    requires m.autoValidationEnabled
    ensures var s := m.OnChange(a).SetDebounce(ms).OnChange(b).Reinit(Some(r));
            var w1 := s.Elapse();
            var w2 := w1.state.ElapseReplaced();
            && s.wakeupPending && s.orphanedWakeups == m.orphanedWakeups + 1
            && w1.request.None?
            && w2.request == Some(Request(m.lastValidationRequest + 1, r, Chain(r, m.validators)))
  {
  }

  /** The update hook runs once per onChange, per reinitValue and per fresh completion,
      and never on a stale completion. */
  lemma UpdateHookCount<T>(m: FieldModel<T>, v: T, w: Option<T>, req: Request<T>)
    ensures m.OnChange(v).updates == m.updates + 1
    ensures m.Reinit(w).updates == m.updates + 1
    ensures m.Complete(req).state.updates == if req.ticket == m.lastValidationRequest then m.updates + 1 else m.updates
  {
  }

  /** A wakeup, from the current timer or a replaced one, does not run the update hook:
      only the validation it starts will, when it completes. */
  lemma WakeupsSkipUpdateHook<T>(m: FieldModel<T>)
    ensures m.QueuedWakeup().state.updates == m.updates
    ensures m.Elapse().state.updates == m.updates
    ensures m.ElapseReplaced().state.updates == m.updates
  {
  }

  class FieldState<T(==)> {
    var value: T
    var dollar: T
    var error: Option<string>
    var dirty: bool
    var hasBeenValidated: bool
    var validating: bool
    var autoValidationEnabled: bool
    var autoValidationDefault: bool
    var lastValidationRequest: nat
    var preventNextQueuedValidation: bool
    var wakeupPending: bool
    var orphanedWakeups: nat
    var debounceMs: int
    var validators: seq<Validator<T>>
    const initValue: T
    var listener: Option<Listener>
    var updates: nat

    function Model(): FieldModel<T>
      reads this
    {
      FieldModel(value, dollar, error, dirty, hasBeenValidated, validating,
                 autoValidationEnabled, autoValidationDefault, lastValidationRequest,
                 preventNextQueuedValidation, wakeupPending, orphanedWakeups, debounceMs, validators,
                 initValue, listener, updates)
    }

    ghost predicate Valid()
      reads this
    {
      Model().Valid()
    }

    function HasError(): bool
      reads this
    {
      Truthy(error)
    }

    function Status(): Status<T>
      reads this
    {
      Validation.Status(validating, error, dollar)
    }

    constructor (init: T)
      ensures Model() == Initial(init) && Valid()
    {
      value, dollar, error := init, init, None;
      dirty, hasBeenValidated, validating := false, false, false;
      autoValidationDefault := true;
      autoValidationEnabled := true;
      lastValidationRequest, preventNextQueuedValidation := 0, false;
      wakeupPending, orphanedWakeups, debounceMs := false, 0, DefaultDebounceMs;
      validators := [];
      initValue := init;
      listener, updates := None, 0;
    }

    /** validators(...) replaces the list (fieldState.ts 70-74). */
    method SetValidators(vs: seq<Validator<T>>)
      requires Valid()
      modifies this
      ensures Valid() && Model() == old(Model()).(validators := vs)
    {
      validators := vs;
    }

    method SetAutoValidationDefault(b: bool)
      requires Valid()
      modifies this
      ensures Valid() && Model() == old(Model()).(autoValidationDefault := b, autoValidationEnabled := b)
    {
      autoValidationDefault := b;
      autoValidationEnabled := b;
    }

    function GetAutoValidationDefault(): bool
      reads this
    {
      autoValidationDefault
    }

    method EnableAutoValidation()
      requires Valid()
      modifies this
      ensures Valid() && Model() == old(Model()).(autoValidationEnabled := true)
    {
      autoValidationEnabled := true;
    }

    method DisableAutoValidation()
      requires Valid()
      modifies this
      ensures Valid() && Model() == old(Model()).(autoValidationEnabled := false)
    {
      autoValidationEnabled := false;
    }

    /** A new debounce with the given interval; the old one's armed timer becomes a
        replaced timer that still fires. */
    method SetAutoValidationDebouncedMs(ms: int)
      requires Valid()
      modifies this
      ensures Valid() && Model() == old(Model()).SetDebounce(ms)
    {
      if wakeupPending {
        orphanedWakeups := orphanedWakeups + 1;
      }
      wakeupPending := false;
      debounceMs := ms;
    }

    method OnChange(v: T)
      requires Valid()
      modifies this
      ensures Valid() && Model() == old(Model()).OnChange(v)
    {
      preventNextQueuedValidation := false;
      value := v;
      dirty := true;
      updates := updates + 1;
      if autoValidationEnabled {
        wakeupPending := true;
      }
    }

    method ReinitValue(v: Option<T>) returns (notice: Option<Notice>)
      requires Valid()
      modifies this
      ensures Valid() && Model() == old(Model()).Reinit(v)
      ensures notice == old(Model()).ReinitNotice()
    {
      notice := Model().ReinitNotice();
      var w := if v.Some? then v.value else initValue;
      ResetTo(w);
      autoValidationEnabled := autoValidationDefault;
      updates := updates + 1;
    }

    /** The part of reinitValue that installs a value: the queued validation is suppressed
        and the field shows `w` as an untouched, unvalidated value without error. */
    method ResetTo(w: T)
      modifies this
      ensures Model() == old(Model()).(preventNextQueuedValidation := true, value := w, error := None,
                                       dirty := false, hasBeenValidated := false, dollar := w)
    {
      preventNextQueuedValidation := true;
      value, error, dirty, hasBeenValidated, dollar := w, None, false, false, w;
    }

    method BeginValidate() returns (req: Request<T>)
      requires Valid()
      modifies this
      ensures Valid() && Model() == old(Model()).Begin()
      ensures req == old(Model()).NextRequest()
    {
      lastValidationRequest := lastValidationRequest + 1;
      validating := true;
      var outcome, _ := ApplyValidators(value, validators);
      req := Request(lastValidationRequest, value, outcome);
    }

    method CompleteValidate(req: Request<T>) returns (result: ErrorOr<T>, notice: Option<Notice>)
      requires Valid() && Model().Issued(req) && IsOutcome(req.outcome)
      modifies this
      ensures Valid()
      ensures var c := old(Model()).Complete(req);
              Model() == c.state && result == c.result && notice == c.notice
    {
      notice := None;
      if lastValidationRequest != req.ticket {
        result := if HasError() then ErrorOr.HasError else Ok(dollar);
        return;
      }
      validating := false;
      hasBeenValidated := true;
      if req.outcome != error {
        error := req.outcome;
      }
      var hasError := HasError();
      if !hasError {
        if dollar != req.captured {
          dollar := req.captured;
          notice := if listener.Some? then Some(ChangedAfterValidation(listener.value)) else None;
        }
      }
      updates := updates + 1;
      result := if hasError then ErrorOr.HasError else Ok(req.captured);
    }

    /** enableAutoValidationAndValidate (fieldState.ts 49-52). */
    method EnableAutoValidationAndValidate() returns (req: Request<T>)
      requires Valid()
      modifies this
      ensures Valid() && Model() == old(Model()).(autoValidationEnabled := true).Begin()
      ensures req == old(Model()).NextRequest()
    {
      autoValidationEnabled := true;
      req := BeginValidate();
    }

    method QueuedValidationWakeup() returns (req: Option<Request<T>>)
      requires Valid()
      modifies this
      ensures Valid()
      ensures Model() == old(Model()).QueuedWakeup().state && req == old(Model()).QueuedWakeup().request
    {
      if preventNextQueuedValidation {
        preventNextQueuedValidation := false;
        return None;
      }
      var r := BeginValidate();
      req := Some(r);
    }

    method DebounceElapses() returns (req: Option<Request<T>>)
      requires Valid()
      modifies this
      ensures Valid()
      ensures Model() == old(Model()).Elapse().state && req == old(Model()).Elapse().request
    {
      req := None;
      if wakeupPending {
        wakeupPending := false;
        req := QueuedValidationWakeup();
      }
    }

    method ReplacedDebounceElapses() returns (req: Option<Request<T>>)
      requires Valid()
      modifies this
      ensures Valid()
      ensures Model() == old(Model()).ElapseReplaced().state && req == old(Model()).ElapseReplaced().request
    {
      req := None;
      if orphanedWakeups > 0 {
        orphanedWakeups := orphanedWakeups - 1;
        req := QueuedValidationWakeup();
      }
    }

    /** setCompositionParent (fieldState.ts 215-221). */
    method SetCompositionParent(l: Listener)
      requires Valid()
      modifies this
      ensures Valid() && Model() == old(Model()).(listener := Some(l))
    {
      listener := Some(l);
    }
  }
}
