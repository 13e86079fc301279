/** A field seen through a pair of functions (src/core/ViewFieldState.ts): reads go through
    `to`, writes through `from`, and every operation forwards to the wrapped field, which
    alone holds state. */
module ViewField {
  import opened Validation
  import opened ErrorOrs
  import opened Field
  import opened Views

  /** The argument the view hands to the wrapped reinitValue: an omitted value stays
      omitted (so the wrapped field falls back to its own initial value), a given one is
      mapped through `from`. */
  function ReinitArgument<T, W>(x: Option<T>, from: T -> W): (r: Option<W>)
    ensures r.None? <==> x.None?
  {
    match x
    case None => None
    case Some(v) => Some(from(v))
  }

  /** The same argument as ViewFieldState.ts 63-64 computes it, `value && from(value)`, for
      a view whose two sides share one type: a falsy value that is given reaches the
      wrapped field without going through `from`. */
  function ReinitArgumentAsWritten<T>(x: Option<T>, truthy: T -> bool, from: T -> T): (r: Option<T>)
    ensures x.Some? && !truthy(x.value) ==> r == x
  {
    match x
    case None => None
    case Some(v) => if truthy(v) then Some(from(v)) else Some(v)
  }

  /** The view of an int field that shows it plus one: reinitialising the view with 0 leaves
      the view showing 1, where the corrected argument leaves it showing 0. */
  lemma FalsyReinitSkipsFrom()
    ensures var to := (n: int) => n + 1;
            var from := (n: int) => n - 1;
            var truthy := (n: int) => n != 0;
            var asWritten := Initial(5).Reinit(ReinitArgumentAsWritten(Some(0), truthy, from));
            var corrected := Initial(5).Reinit(ReinitArgument(Some(0), from));
            && to(asWritten.value) == 1 && to(asWritten.dollar) == 1
            && to(corrected.value) == 0 && to(corrected.dollar) == 0
  {
  }

  /** With `to` undoing `from`, reinitialising a view with a value makes the view show that
      value, hot and validated; reinitialising without one shows the wrapped initial value
      through `to`. */
  lemma ReinitRoundTrip<W, T>(m: FieldModel<W>, to: W -> T, from: T -> W, x: Option<T>)
    requires forall t :: to(from(t)) == t
    ensures var s := m.Reinit(ReinitArgument(x, from));
            if x.Some? then to(s.value) == x.value && to(s.dollar) == x.value
            else to(s.value) == to(m.initValue) && to(s.dollar) == to(m.initValue)
  {
  }

  /** With `to` undoing `from`, a change through the view that then passes validation
      makes the view's `$` the value typed (src/tests/formState/views.ts 23-29). */
  lemma ChangeRoundTrip<W, T>(m: FieldModel<W>, to: W -> T, from: T -> W, x: T)
    requires forall t :: to(from(t)) == t
    ensures var m1 := m.OnChange(from(x));
            var c := m1.Begin().Complete(m1.NextRequest());
            && to(m1.value) == x
            && (!c.state.HasError() ==> to(c.state.dollar) == x && c.result == Ok(from(x)))
  {
  }

  datatype FieldView<!W(==), !T> = FieldView(wrapped: FieldState<W>, to: W -> T, from: T -> W)
  {
    ghost predicate Valid()
      reads wrapped
    {
      wrapped.Valid()
    }

    function Status(): Status<T>
      reads wrapped
    {
      ViewStatus(wrapped.Status(), to)
    }

    function Value(): T
      reads wrapped
    {
      to(wrapped.value)
    }

    function Dirty(): bool
      reads wrapped
    {
      wrapped.dirty
    }

    function HasBeenValidated(): bool
      reads wrapped
    {
      wrapped.hasBeenValidated
    }

    function GetAutoValidationDefault(): bool
      reads wrapped
    {
      wrapped.autoValidationDefault
    }

    /** viewedAs (ViewFieldState.ts 81-83): a view of this view. Reading through it is
        reading through `to` then `to2`; writing is `from2` then `from`. */
    function ViewedAs<U>(to2: T -> U, from2: U -> T): (r: FieldView<W, U>)
      ensures r.wrapped == wrapped
    {
      FieldView(wrapped, (w: W) => to2(to(w)), (u: U) => from(from2(u)))
    }

    method OnChange(x: T)
      requires Valid()
      modifies wrapped
      ensures Valid() && wrapped.Model() == old(wrapped.Model()).OnChange(from(x))
    {
      wrapped.OnChange(from(x));
    }

    method ReinitValue(x: Option<T>) returns (notice: Option<Notice>)
      requires Valid()
      modifies wrapped
      ensures Valid() && wrapped.Model() == old(wrapped.Model()).Reinit(ReinitArgument(x, from))
      ensures notice == old(wrapped.Model()).ReinitNotice()
    {
      notice := wrapped.ReinitValue(ReinitArgument(x, from));
    }

    method SetValidators(vs: seq<Validator<T>>)
      requires Valid()
      modifies wrapped
      ensures Valid() && wrapped.Model() == old(wrapped.Model()).(validators := Precompose(vs, to))
    {
      wrapped.SetValidators(Precompose(vs, to));
    }

    method EnableAutoValidation()
      requires Valid()
      modifies wrapped
      ensures Valid() && wrapped.Model() == old(wrapped.Model()).(autoValidationEnabled := true)
    {
      wrapped.EnableAutoValidation();
    }

    method DisableAutoValidation()
      requires Valid()
      modifies wrapped
      ensures Valid() && wrapped.Model() == old(wrapped.Model()).(autoValidationEnabled := false)
    {
      wrapped.DisableAutoValidation();
    }

    method SetAutoValidationDefault(b: bool)
      requires Valid()
      modifies wrapped
      ensures Valid() && wrapped.Model() == old(wrapped.Model()).(autoValidationDefault := b, autoValidationEnabled := b)
    {
      wrapped.SetAutoValidationDefault(b);
    }

    method SetAutoValidationDebouncedMs(ms: int)
      requires Valid()
      modifies wrapped
      ensures Valid() && wrapped.Model() == old(wrapped.Model()).SetDebounce(ms)
    {
      wrapped.SetAutoValidationDebouncedMs(ms);
    }

    method QueuedValidationWakeup() returns (req: Option<Request<W>>)
      requires Valid()
      modifies wrapped
      ensures Valid()
      ensures wrapped.Model() == old(wrapped.Model()).QueuedWakeup().state
      ensures req == old(wrapped.Model()).QueuedWakeup().request
    {
      req := wrapped.QueuedValidationWakeup();
    }

    method BeginValidate() returns (req: Request<W>)
      requires Valid()
      modifies wrapped
      ensures Valid() && wrapped.Model() == old(wrapped.Model()).Begin()
      ensures req == old(wrapped.Model()).NextRequest()
    {
      req := wrapped.BeginValidate();
    }

    /** validate through the view (ViewValidatable.ts 37-39): the wrapped result, mapped. */
    method CompleteValidate(req: Request<W>) returns (result: ErrorOr<T>, notice: Option<Notice>)
      requires Valid() && wrapped.Model().Issued(req) && IsOutcome(req.outcome)
      modifies wrapped
      ensures Valid()
      ensures var c := old(wrapped.Model()).Complete(req);
              wrapped.Model() == c.state && result == MapErrorOr(c.result, to) && notice == c.notice
    {
      var r;
      r, notice := wrapped.CompleteValidate(req);
      result := MapErrorOr(r, to);
    }

    /** enableAutoValidationAndValidate (ViewFieldState.ts 39-40); its completion is
        CompleteValidate. */
    method EnableAutoValidationAndValidate() returns (req: Request<W>)
      requires Valid()
      modifies wrapped
      ensures Valid() && wrapped.Model() == old(wrapped.Model()).(autoValidationEnabled := true).Begin()
      ensures req == old(wrapped.Model()).NextRequest()
    {
      req := wrapped.EnableAutoValidationAndValidate();
    }

    /** setCompositionParent (ViewComposibleValidatable.ts 23-25): the parent listens to the
        wrapped field itself. */
    method SetCompositionParent(l: Listener)
      requires Valid()
      modifies wrapped
      ensures Valid() && wrapped.Model() == old(wrapped.Model()).(listener := Some(l))
    {
      wrapped.SetCompositionParent(l);
    }

    /** on$ChangeAfterValidation and on$Reinit called on the view
        (ViewComposibleValidatable.ts 15-21) reach the wrapped field's handlers. */
    function ChangeNotice(): Option<Notice>
      reads wrapped
    {
      wrapped.Model().ChangeNotice()
    }

    function ReinitNotice(): Option<Notice>
      reads wrapped
    {
      wrapped.Model().ReinitNotice()
    }
  }

  /** A view's read surface is the wrapped field's, with the values through `to`
      (ViewValidatable.ts 15-29, ViewFieldState.ts 17-27). */
  lemma ViewReads<W, T>(v: FieldView<W, T>)
    ensures v.Status().error == v.wrapped.error && v.Status().validating == v.wrapped.validating
    ensures v.Status().HasError() == v.wrapped.HasError()
    ensures v.Status().dollar == v.to(v.wrapped.dollar) && v.Value() == v.to(v.wrapped.value)
    ensures v.Dirty() == v.wrapped.dirty && v.HasBeenValidated() == v.wrapped.hasBeenValidated
  {
  }

  /** A view of a view reads what the outer view would read of the inner one, and writes
      what the outer view would write through the inner one. */
  lemma NestedView<W, T, U>(v: FieldView<W, T>, to2: T -> U, from2: U -> T, u: U)
    ensures v.ViewedAs(to2, from2).Status() == ViewStatus(v.Status(), to2)
    ensures v.ViewedAs(to2, from2).Value() == to2(v.Value())
    ensures v.ViewedAs(to2, from2).from(u) == v.from(from2(u))
  {
  }

  /** Validators installed through a view judge the viewed value: the wrapped field's chain
      on its hot value is the given chain on the view's value. */
  lemma ViewValidatorsSeeViewedValue<W, T>(v: FieldView<W, T>, vs: seq<Validator<T>>)
    ensures Chain(v.wrapped.value, Precompose(vs, v.to)) == Chain(v.Value(), vs)
  {
    ChainThroughView(v.wrapped.value, vs, v.to);
  }
}
