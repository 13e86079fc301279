/** A form seen through a function of its collection (src/core/ViewFormState.ts). The
    aggregate reads are the wrapped form's; `$` and the validate result go through `to`;
    form-level validators installed through the view judge the viewed collection. */
module ViewForm {
  import opened Validation
  import opened ErrorOrs
  import opened Form
  import opened Views

  datatype FormView<!V, !T> = FormView(wrapped: FormState<V>, to: seq<Child<V>> -> T)
  {
    ghost predicate Valid()
      reads wrapped
    {
      wrapped.Valid()
    }

    function Status(kids: seq<Child<V>>): Status<T>
      reads wrapped
    {
      ViewStatus(wrapped.Status(kids), to)
    }

    function FieldError(kids: seq<Child<V>>): Option<string>
      reads wrapped
    {
      wrapped.FieldError(kids)
    }

    function FormError(): Option<string>
      reads wrapped
    {
      wrapped.FormError()
    }

    function HasFieldError(kids: seq<Child<V>>): bool
      reads wrapped
    {
      wrapped.HasFieldError(kids)
    }

    function HasFormError(): bool
      reads wrapped
    {
      wrapped.HasFormError()
    }

    function ShowFormError(kids: seq<Child<V>>): bool
      reads wrapped
    {
      wrapped.ShowFormError(kids)
    }

    function ValidatedSubFields(): seq<nat>
      reads wrapped
    {
      wrapped.validatedSubFields
    }

    /** viewedAs (ViewFormState.ts 70-72): a view of this view, over the same form. */
    function ViewedAs<U>(to2: T -> U): (r: FormView<V, U>)
      ensures r.wrapped == wrapped
    {
      FormView(wrapped, (kids: seq<Child<V>>) => to2(to(kids)))
    }

    method ClearFormError()
      requires Valid()
      modifies wrapped
      ensures Valid() && wrapped.Model() == old(wrapped.Model()).ClearFormError()
    {
      wrapped.ClearFormError();
    }

    method SetValidators(vs: seq<Validator<T>>)
      requires Valid()
      modifies wrapped
      ensures Valid() && wrapped.Model() == old(wrapped.Model()).(validators := Precompose(vs, to))
    {
      wrapped.SetValidators(Precompose(vs, to));
    }

    method BeginValidate()
      requires Valid()
      modifies wrapped
      ensures Valid() && wrapped.Model() == old(wrapped.Model()).Begin()
    {
      wrapped.BeginValidate();
    }

    /** validate through the view (ViewValidatable.ts 37-39, ViewFormState.ts 61-63). */
    method SettleValidate<X>(results: seq<ErrorOr<X>>, kids: seq<Child<V>>)
      returns (result: ErrorOr<T>, notice: Option<Notice>)
      requires Valid()
      modifies wrapped
      ensures Valid()
      ensures var c := old(wrapped.Model()).Complete(results, kids);
              wrapped.Model() == c.state && result == MapErrorOr(c.result, to) && notice == c.notice
    {
      var r;
      r, notice := wrapped.SettleValidate(results, kids);
      result := MapErrorOr(r, to);
    }

    method SetCompositionParent(l: Listener)
      requires Valid()
      modifies wrapped
      ensures Valid() && wrapped.Model() == old(wrapped.Model()).(listener := Some(l))
    {
      wrapped.SetCompositionParent(l);
    }
  }

  /** The aggregate reads of a view are the wrapped form's (ViewFormState.ts 18-40), and so
      are those of a view of a view. */
  lemma FormViewReads<V, T, U>(v: FormView<V, T>, to2: T -> U, kids: seq<Child<V>>)
    ensures v.FieldError(kids) == FirstFieldError(kids) && v.FormError() == v.wrapped.formError
    ensures v.HasFieldError(kids) == AnyChildHasError(kids)
    ensures v.ShowFormError(kids) == FormErrorShown(kids, v.wrapped.formError)
    ensures v.Status(kids).error == CombinedError(kids, v.wrapped.formError)
    ensures v.Status(kids).dollar == v.to(kids)
    ensures v.ViewedAs(to2).Status(kids) == ViewStatus(v.Status(kids), to2)
    ensures v.ViewedAs(to2).ValidatedSubFields() == v.ValidatedSubFields()
  {
  }

  /** Form validators installed through a view see the collection through `to`
      (src/tests/formState/views.ts 76-100). */
  lemma FormValidatorsSeeViewedCollection<V, T>(v: FormView<V, T>, vs: seq<Validator<T>>, kids: seq<Child<V>>)
    ensures Chain(kids, Precompose(vs, v.to)) == Chain(v.to(kids), vs)
  {
    ChainThroughView(kids, vs, v.to);
  }
}
