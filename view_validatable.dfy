/** What every view shares (src/core/ViewValidatable.ts, src/core/ViewComposibleValidatable.ts):
    a view holds the wrapped validatable and a function `to`, and nothing else. Its
    `error`, `validating` and `hasError` are the wrapped object's, its `$` is `to` of the
    wrapped `$`, and its validate result is the wrapped result mapped through `to`.
    Validators installed through a view see the value through `to`. */
module Views {
  import opened Validation
  import opened ErrorOrs

  /** The read surface of a view, given the wrapped object's (ViewValidatable.ts 15-29). */
  function ViewStatus<W, T>(s: Status<W>, to: W -> T): (r: Status<T>)
    ensures r.validating == s.validating && r.error == s.error && r.HasError() == s.HasError()
    ensures r.dollar == to(s.dollar)
  {
    Status(s.validating, s.error, to(s.dollar))
  }

  /** A view of a view reads like one view through the composed function, which is what
      `viewedAs` relies on. */
  lemma ViewOfViewIsComposedView<W, T, U>(s: Status<W>, to: W -> T, to2: T -> U)
    ensures ViewStatus(ViewStatus(s, to), to2) == ViewStatus(s, (w: W) => to2(to(w)))
  {
  }

  /** A view through the identity changes nothing. */
  lemma IdentityViewIsTransparent<W>(s: Status<W>)
    ensures ViewStatus(s, (w: W) => w) == s
  {
  }

  /** The validators a view installs on what it wraps: each one reads through `to`, in the
      same order (ViewFieldState.ts 76-79, ViewFormState.ts 65-68, ViewFormStateLazy.ts 13-16). */
  function Precompose<W, T>(vs: seq<Validator<T>>, to: W -> T): (r: seq<Validator<W>>)
    ensures |r| == |vs|
    decreases |vs|
  {
    if |vs| == 0 then []
    else
      var v := vs[0];
      [(w: W) => v(to(w))] + Precompose(vs[1..], to)
  }

  /** The k-th installed validator is the k-th given one, reading the wrapped value through `to`. */
  lemma {:induction false} PrecomposeAt<W, T>(vs: seq<Validator<T>>, to: W -> T, k: nat, w: W)
    requires k < |vs|
    ensures Precompose(vs, to)[k](w) == vs[k](to(w))
    decreases k
  {
    if k > 0 {
      PrecomposeAt(vs[1..], to, k - 1, w);
    }
  }

  /** The chain installed through a view, run on the wrapped value, resolves exactly as the
      view's own validators would on the viewed value, and invokes as many of them. */
  lemma {:induction false} ChainThroughView<W, T>(w: W, vs: seq<Validator<T>>, to: W -> T)
    ensures Chain(w, Precompose(vs, to)) == Chain(to(w), vs)
    ensures Consulted(w, Precompose(vs, to)) == Consulted(to(w), vs)
    decreases |vs|
  {
    if |vs| > 0 {
      var r := Precompose(vs, to);
      assert r[0](w) == vs[0](to(w));
      assert r[1..] == Precompose(vs[1..], to);
      ChainThroughView(w, vs[1..], to);
    }
  }

  /** Installing through two nested views is installing through the composed function. */
  lemma {:induction false} PrecomposeTwice<W, T, U>(w: W, vs: seq<Validator<U>>, to: W -> T, to2: T -> U)
    ensures Chain(w, Precompose(Precompose(vs, to2), to)) == Chain(w, Precompose(vs, (x: W) => to2(to(x))))
  {
    ChainThroughView(w, Precompose(vs, to2), to);
    ChainThroughView(to(w), vs, to2);
    ChainThroughView(w, vs, (x: W) => to2(to(x)));
  }
}
