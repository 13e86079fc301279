/** A lazy form seen through a function of its current collection
    (src/core/ViewFormStateLazy.ts). */
module ViewFormLazy {
  import opened Validation
  import opened ErrorOrs
  import opened Form
  import opened FormLazy
  import opened Views

  datatype LazyFormView<!V, !T> = LazyFormView(wrapped: FormStateLazy<V>, to: seq<Child<V>> -> T)
  {
    function Status(kids: seq<Child<V>>): Status<T>
      reads wrapped
    {
      ViewStatus(wrapped.Status(kids), to)
    }

    function FieldError(kids: seq<Child<V>>): Option<string>
      reads wrapped
    {
      wrapped.FieldError(kids)
    }

    function FormError(): Option<string>
      reads wrapped
    {
      wrapped.FormError()
    }

    function HasFieldError(kids: seq<Child<V>>): bool
      reads wrapped
    {
      wrapped.HasFieldError(kids)
    }

    function HasFormError(): bool
      reads wrapped
    {
      wrapped.HasFormError()
    }

    function ShowFormError(kids: seq<Child<V>>): bool
      reads wrapped
    {
      wrapped.ShowFormError(kids)
    }

    /** viewedAs (ViewFormStateLazy.ts 42-44). */
    function ViewedAs<U>(to2: T -> U): (r: LazyFormView<V, U>)
      ensures r.wrapped == wrapped
    {
      LazyFormView(wrapped, (kids: seq<Child<V>>) => to2(to(kids)))
    }

    method SetValidators(vs: seq<Validator<T>>)
      modifies wrapped`validators
      ensures wrapped.validators == Precompose(vs, to)
    {
      wrapped.SetValidators(Precompose(vs, to));
    }

    method ClearFormError()
      modifies wrapped`formError
      ensures wrapped.formError == Some("") && !HasFormError()
    {
      wrapped.ClearFormError();
    }

    method BeginValidate()
      modifies wrapped`validating
      ensures wrapped.validating
    {
      wrapped.BeginValidate();
    }

    /** validate through the view, inherited from ViewValidatable (ViewValidatable.ts 37-39). */
    method SettleValidate<X>(results: seq<ErrorOr<X>>, kids: seq<Child<V>>) returns (result: ErrorOr<T>)
      modifies wrapped`formError, wrapped`validating
      ensures var s := Settle(results, kids, wrapped.validators, old(wrapped.formError));
              wrapped.formError == s.formError && result == MapErrorOr(s.result, to)
      ensures !wrapped.validating
    {
      var r := wrapped.SettleValidate(results, kids);
      result := MapErrorOr(r, to);
    }
  }

  /** The reads of a lazy view are the wrapped lazy form's over the same current collection
      (ViewFormStateLazy.ts 18-36), and so are those of a view of a view. */
  lemma LazyViewReads<V, T, U>(v: LazyFormView<V, T>, to2: T -> U, kids: seq<Child<V>>)
    ensures v.FieldError(kids) == FirstFieldError(kids) && v.FormError() == v.wrapped.formError
    ensures v.HasFieldError(kids) == AnyChildHasError(kids)
    ensures v.ShowFormError(kids) == FormErrorShown(kids, v.wrapped.formError)
    ensures v.Status(kids).dollar == v.to(kids)
    ensures v.ViewedAs(to2).Status(kids) == ViewStatus(v.Status(kids), to2)
  {
  }
}
