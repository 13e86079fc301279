/** The result of a validate call (src/core/ErrorOr.ts): `{hasError: true}` or
    `{hasError: false, value}`. */
module ErrorOrs {

  datatype ErrorOr<+T> = HasError | Ok(value: T)

  /** mapErrorOr (ErrorOr.ts 3-4): an error passes through, a success maps its value. */
  function MapErrorOr<A, B>(res: ErrorOr<A>, f: A -> B): (r: ErrorOr<B>)
    ensures r.HasError? <==> res.HasError?
    ensures res.Ok? ==> r == Ok(f(res.value))
  {
    match res
    case HasError => HasError
    case Ok(v) => Ok(f(v))
  }

  /** Mapping through the identity gives back the same result. */
  lemma MapIdentity<A>(res: ErrorOr<A>)
    ensures MapErrorOr(res, (a: A) => a) == res
  {
  }

  /** Mapping twice is mapping once through the composed function: views of views rely on it. */
  lemma MapCompose<A, B, C>(res: ErrorOr<A>, f: A -> B, g: B -> C)
    ensures MapErrorOr(MapErrorOr(res, f), g) == MapErrorOr(res, (a: A) => g(f(a)))
  {
  }
}
