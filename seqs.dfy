/**
 * The batches the scripts build with nested `for` loops that append to a
 * list: each element contributes a (possibly empty) run of items, appended
 * in loop order.
 */
module Seqs {
  /** The items `f(x)` of every `x` of `xs`, concatenated in order. */
  function FlatMap<T, U>(f: T -> seq<U>, xs: seq<T>): seq<U>
    decreases |xs|
  {
    if xs == [] then [] else FlatMap(f, xs[..|xs| - 1]) + f(xs[|xs| - 1])
  }

  /** One more element: its items go at the end. */
  lemma FlatMapSnoc<T, U>(f: T -> seq<U>, xs: seq<T>, x: T)
    ensures FlatMap(f, xs + [x]) == FlatMap(f, xs) + f(x)
  {
    assert (xs + [x])[..|xs|] == xs;
  }

  /** Looping over `a` and then over `b` collects the items of `a + b`. */
  lemma {:induction false} FlatMapAppend<T, U>(f: T -> seq<U>, a: seq<T>, b: seq<T>)
    ensures FlatMap(f, a + b) == FlatMap(f, a) + FlatMap(f, b)
    decreases |b|
  {
    if b == [] {
      assert a + b == a;
    } else {
      var init, last := b[..|b| - 1], b[|b| - 1];
      FlatMapAppend(f, a, init);
      assert b == init + [last];
      assert a + b == (a + init) + [last];
      FlatMapSnoc(f, a + init, last);
      FlatMapSnoc(f, init, last);
      var x, y, z := FlatMap(f, a), FlatMap(f, init), f(last);
      assert x + y + z == x + (y + z);
    }
  }

  /** An item is collected exactly when some element contributes it. */
  lemma {:induction false} FlatMapMember<T, U>(f: T -> seq<U>, xs: seq<T>, y: U)
    ensures y in FlatMap(f, xs) <==> exists x :: x in xs && y in f(x)
    decreases |xs|
  {
    if xs != [] {
      var init, last := xs[..|xs| - 1], xs[|xs| - 1];
      FlatMapMember(f, init, y);
      assert xs == init + [last];
      if y in FlatMap(f, xs) && y !in f(last) {
        var x :| x in init && y in f(x);
        assert x in xs;
      }
    }
  }
}
