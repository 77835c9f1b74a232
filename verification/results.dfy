/** Failure-compatible wrappers standing in for Rust's `Option` and
    `io::Result`. The puzzle solutions only ever raise one kind of error of
    their own, `io::ErrorKind::InvalidData`. */
module Results {

  datatype Option<+T> = None | Some(value: T)

  /** The `io::ErrorKind`s the modelled code produces. */
  datatype ErrorKind = InvalidData

  /** `io::Result<T>`: `?` in Rust becomes `:-` here. */
  datatype Result<+T> = Ok(value: T) | Err(error: ErrorKind) {

    predicate IsFailure() {
      Err?
    }

    function PropagateFailure<U>(): Result<U>
      requires Err?
    {
      Err(error)
    }

    function Extract(): T
      requires Ok?
    {
      value
    }
  }

  /** The first `n` items are in `f`'s domain and map to `Ok`. */
  ghost predicate OkBefore<A, T>(xs: seq<A>, f: A --> Result<T>, n: int)
  {
    forall j :: 0 <= j < n && j < |xs| ==> f.requires(xs[j]) && f(xs[j]).Ok?
  }

  /** Applying `f` to the items one after another never leaves its domain:
      an item may lie outside it only once an earlier item has failed, since
      a loop with `?` returns at the first failure. */
  ghost predicate DefinedUntilError<A, T>(xs: seq<A>, f: A --> Result<T>)
  {
    forall i :: 0 <= i < |xs| && OkBefore(xs, f, i) ==> f.requires(xs[i])
  }

  lemma OkBeforePrefix<A, T>(xs: seq<A>, f: A --> Result<T>, n: int)
    requires 0 <= n <= |xs|
    ensures OkBefore(xs[..n], f, n) <==> OkBefore(xs, f, n)
  {
    assert forall j :: 0 <= j < n ==> xs[..n][j] == xs[j];
  }

  lemma DefinedUntilErrorPrefix<A, T>(xs: seq<A>, f: A --> Result<T>, n: int)
    requires 0 <= n <= |xs| && DefinedUntilError(xs, f)
    ensures DefinedUntilError(xs[..n], f)
  {
    forall i | 0 <= i < n && OkBefore(xs[..n], f, i)
      ensures f.requires(xs[..n][i])
    {
      OkBeforePrefix(xs[..n], f, i);
      OkBeforePrefix(xs, f, i);
      assert xs[..n][..i] == xs[..i];
    }
  }

  /** The loop `for x in xs { out.push(f(x)?) }`: the results of `f` in
      order, or the first failure. */
  function TryMap<A, T>(xs: seq<A>, f: A --> Result<T>): (r: Result<seq<T>>)
    requires DefinedUntilError(xs, f)
    ensures r.Ok? <==> OkBefore(xs, f, |xs|)
    ensures r.Ok? ==> |r.value| == |xs| && forall i :: 0 <= i < |xs| ==> f(xs[i]) == Ok(r.value[i])
    decreases |xs|
  {
    if |xs| == 0 then Ok([])
    else
      var n := |xs| - 1;
      DefinedUntilErrorPrefix(xs, f, n);
      OkBeforePrefix(xs, f, n);
      var prev := TryMap(xs[..n], f);
      if prev.Err? then Err(prev.error)
      else
        var y := f(xs[n]);
        if y.Err? then Err(y.error)
        else
          assert forall i :: 0 <= i < n ==> xs[..n][i] == xs[i];
          Ok(prev.value + [y.value])
  }

  /** A successful `TryMap` is determined by its elements: if `f` succeeds on
      every item with the matching element of `ys`, the result is `Ok(ys)`. */
  lemma TryMapOk<A, T>(xs: seq<A>, f: A --> Result<T>, ys: seq<T>)
    requires |ys| == |xs|
    requires forall i :: 0 <= i < |xs| ==> f.requires(xs[i]) && f(xs[i]) == Ok(ys[i])
    ensures DefinedUntilError(xs, f) && TryMap(xs, f) == Ok(ys)
  {
    assert OkBefore(xs, f, |xs|);
    assert DefinedUntilError(xs, f);
    var r := TryMap(xs, f);
    assert forall i :: 0 <= i < |xs| ==> f(xs[i]) == Ok(r.value[i]) && r.value[i] == ys[i];
    assert r.value == ys;
  }

  /** One more step of the loop: on a successful prefix, `f` is defined on the
      next item, and the longer prefix adds its result or stops at its failure. */
  lemma TryMapStep<A, T>(xs: seq<A>, f: A --> Result<T>, n: int)
    requires DefinedUntilError(xs, f) && 0 <= n < |xs|
    ensures DefinedUntilError(xs[..n], f) && DefinedUntilError(xs[..n + 1], f)
    ensures TryMap(xs[..n], f).Ok? ==> f.requires(xs[n])
    ensures TryMap(xs[..n], f).Ok? && f.requires(xs[n]) ==>
      TryMap(xs[..n + 1], f) ==
        if f(xs[n]).Ok? then Ok(TryMap(xs[..n], f).value + [f(xs[n]).value]) else Err(f(xs[n]).error)
  {
    DefinedUntilErrorPrefix(xs, f, n);
    DefinedUntilErrorPrefix(xs, f, n + 1);
    assert xs[..n + 1][..n] == xs[..n];
    if TryMap(xs[..n], f).Ok? {
      OkBeforePrefix(xs, f, n);
    }
  }

  /** Once a prefix fails, so does the whole: the loop has already returned. */
  lemma TryMapErrExtends<A, T>(xs: seq<A>, f: A --> Result<T>, n: int)
    requires DefinedUntilError(xs, f) && 0 <= n <= |xs|
    ensures DefinedUntilError(xs[..n], f)
    ensures TryMap(xs[..n], f).Err? ==> TryMap(xs, f).Err?
  {
    DefinedUntilErrorPrefix(xs, f, n);
    OkBeforePrefix(xs, f, n);
  }
}
