/**
  The loop shape shared by list conversion, program evaluation and compilation: append outputs, stop
  at the first error.
 */
module Traversal {
  import opened Prelude

  function Traverse<T, U, E>(f: T -> Result<seq<U>, E>, xs: seq<T>): Result<seq<U>, E> {
    if xs == [] then Ok([])
    else
      var n := |xs| - 1;
      var init := Traverse(f, xs[..n]);
      if init.Err? then init
      else
        var last := f(xs[n]);
        if last.Err? then last else Ok(init.value + last.value)
  }

  /** One more iteration of the loop. */
  lemma TraverseStep<T, U, E>(f: T -> Result<seq<U>, E>, xs: seq<T>, n: nat)
    requires n < |xs|
    ensures var init, last := Traverse(f, xs[..n]), f(xs[n]);
            Traverse(f, xs[..n + 1]) ==
            if init.Err? then init else if last.Err? then last else Ok(init.value + last.value)
  {
    assert xs[..n + 1][..n] == xs[..n];
  }

  /** An error in a prefix is the error of the whole. */
  lemma {:induction false} TraversePrefixError<T, U, E>(f: T -> Result<seq<U>, E>, xs: seq<T>, n: nat)
    requires n <= |xs| && Traverse(f, xs[..n]).Err?
    ensures Traverse(f, xs) == Traverse(f, xs[..n])
  {
    if n < |xs| {
      var init := xs[..|xs| - 1];
      assert init[..n] == xs[..n];
      TraversePrefixError(f, init, n);
    } else {
      assert xs[..n] == xs;
    }
  }

  lemma {:induction false} TraverseConcat<T, U, E>(f: T -> Result<seq<U>, E>, xs: seq<T>, ys: seq<T>)
    ensures var a, b := Traverse(f, xs), Traverse(f, ys);
            Traverse(f, xs + ys) == if a.Err? then a else if b.Err? then b else Ok(a.value + b.value)
  {
    var a := Traverse(f, xs);
    if ys == [] {
      assert xs + ys == xs;
      assert a.Ok? ==> a.value + [] == a.value;
    } else {
      var n := |ys| - 1;
      TraverseConcat(f, xs, ys[..n]);
      assert (xs + ys)[..|xs + ys| - 1] == xs + ys[..n];
      var b, c := Traverse(f, ys[..n]), f(ys[n]);
      if a.Ok? && b.Ok? && c.Ok? {
        assert (a.value + b.value) + c.value == a.value + (b.value + c.value);
      }
    }
  }

  lemma TraverseSingle<T, U, E>(f: T -> Result<seq<U>, E>, x: T)
    ensures Traverse(f, [x]) == f(x)
  {
    assert [x][..0] == [];
    assert f(x).Ok? ==> [] + f(x).value == f(x).value;
  }

  /** A traversal fails exactly when one element does. */
  lemma {:induction false} TraverseFailsIff<T, U, E>(f: T -> Result<seq<U>, E>, xs: seq<T>)
    ensures Traverse(f, xs).Err? <==> exists i :: 0 <= i < |xs| && f(xs[i]).Err?
    ensures Traverse(f, xs).Err? ==> exists i :: 0 <= i < |xs| && Traverse(f, xs) == f(xs[i])
  {
    if xs != [] {
      var n := |xs| - 1;
      var init := xs[..n];
      TraverseFailsIff(f, init);
      assert forall i :: 0 <= i < n ==> init[i] == xs[i];
    }
  }

  /** What holds of every output of `f` holds of everything a traversal collects. */
  lemma {:induction false} TraverseCollects<T(!new), U, E>(f: T -> Result<seq<U>, E>, xs: seq<T>, p: U -> bool)
    requires forall x, i :: f(x).Ok? && 0 <= i < |f(x).value| ==> p(f(x).value[i])
    requires Traverse(f, xs).Ok?
    ensures forall i :: 0 <= i < |Traverse(f, xs).value| ==> p(Traverse(f, xs).value[i])
  {
    if xs != [] {
      TraverseCollects(f, xs[..|xs| - 1], p);
    }
  }

  /** Where every output is a single element, the collected outputs line up with the inputs. */
  lemma {:induction false} TraverseOneEach<T, U, E>(f: T -> Result<seq<U>, E>, xs: seq<T>)
    requires forall i :: 0 <= i < |xs| && f(xs[i]).Ok? ==> |f(xs[i]).value| == 1
    requires Traverse(f, xs).Ok?
    ensures |Traverse(f, xs).value| == |xs|
    ensures forall i :: 0 <= i < |xs| ==> f(xs[i]) == Ok([Traverse(f, xs).value[i]])
  {
    if xs != [] {
      var n := |xs| - 1;
      var init := xs[..n];
      assert forall i :: 0 <= i < n ==> init[i] == xs[i];
      TraverseOneEach(f, init);
      var last := f(xs[n]).value;
      assert last == [last[0]];
      forall i | 0 <= i < |xs| ensures f(xs[i]) == Ok([Traverse(f, xs).value[i]]) {
        if i < n {
          assert f(init[i]) == Ok([Traverse(f, init).value[i]]);
        }
      }
    }
  }

  /** `f` succeeds on every element, with these results in order. */
  predicate Pointwise<T, U(==), E(==)>(f: T -> Result<U, E>, xs: seq<T>, us: seq<U>) {
    |xs| == |us| && forall i :: 0 <= i < |xs| ==> f(xs[i]) == Ok(us[i])
  }

  lemma PointwiseConcat<T, U, E>(f: T -> Result<U, E>, xs: seq<T>, us: seq<U>, ys: seq<T>, vs: seq<U>)
    requires Pointwise(f, xs, us) && Pointwise(f, ys, vs)
    ensures Pointwise(f, xs + ys, us + vs)
  {
  }

  /** The shared loop. */
  method TraverseLoop<T, U, E>(f: T -> Result<seq<U>, E>, xs: seq<T>) returns (r: Result<seq<U>, E>)
    ensures r == Traverse(f, xs)
  {
    var out := [];
    for i := 0 to |xs|
      invariant Traverse(f, xs[..i]) == Ok(out)
    {
      TraverseStep(f, xs, i);
      var next := f(xs[i]);
      if next.Err? {
        TraversePrefixError(f, xs, i + 1);
        return next;
      }
      out := out + next.value;
    }
    assert xs[..|xs|] == xs;
    return Ok(out);
  }
}
