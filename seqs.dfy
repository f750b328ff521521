/** Sequence folds shared by the readers: what a list of lines contributes
    is the concatenation of what each line contributes. */
module Seqs {

  function Collect<T, U>(xs: seq<T>, g: T -> seq<U>): seq<U>
    decreases |xs|
  {
    if xs == [] then [] else Collect(xs[..|xs| - 1], g) + g(xs[|xs| - 1])
  }

  lemma CollectOne<T, U>(x: T, g: T -> seq<U>)
    ensures Collect([x], g) == g(x)
  {
    assert [x][..0] == [];
  }

  lemma CollectSnoc<T, U>(xs: seq<T>, x: T, g: T -> seq<U>)
    ensures Collect(xs + [x], g) == Collect(xs, g) + g(x)
  {
    assert (xs + [x])[..|xs|] == xs;
  }

  /** Collecting over a concatenation concatenates the collections. */
  lemma {:induction false} CollectAppend<T, U>(a: seq<T>, b: seq<T>, g: T -> seq<U>)
    ensures Collect(a + b, g) == Collect(a, g) + Collect(b, g)
    decreases |b|
  {
    if b == [] {
      assert a + b == a;
    } else {
      var n := |b| - 1;
      assert a + b == (a + b[..n]) + [b[n]];
      assert b == b[..n] + [b[n]];
      CollectSnoc(a + b[..n], b[n], g);
      CollectAppend(a, b[..n], g);
      CollectSnoc(b[..n], b[n], g);
    }
  }

  /** Collecting in two stages is collecting, for each element, the second
      stage over what the first stage gives for it. */
  lemma {:induction false} CollectFlatten<T, V, U>(xs: seq<T>, f: T -> seq<V>, g: V -> seq<U>, h: T -> seq<U>)
    requires forall x :: h(x) == Collect(f(x), g)
    ensures Collect(Collect(xs, f), g) == Collect(xs, h)
    decreases |xs|
  {
    if xs != [] {
      var n := |xs| - 1;
      CollectFlatten(xs[..n], f, g, h);
      CollectAppend(Collect(xs[..n], f), f(xs[n]), g);
    }
  }

  /** A step applied to each element in turn, from the left. */
  function Fold<S, T>(s: S, xs: seq<T>, step: (S, T) -> S): S
    decreases |xs|
  {
    if xs == [] then s else step(Fold(s, xs[..|xs| - 1], step), xs[|xs| - 1])
  }

  /** The first i + 1 elements are the first i, then element i. */
  lemma PrefixSnoc<T>(xs: seq<T>, i: nat)
    requires i < |xs|
    ensures xs[..i + 1] == xs[..i] + [xs[i]]
  {
  }

  /** All the elements taken are all the elements. */
  lemma PrefixAll<T>(xs: seq<T>)
    ensures xs[..|xs|] == xs
  {
  }

  lemma FoldSnoc<S, T>(s: S, xs: seq<T>, x: T, step: (S, T) -> S)
    ensures Fold(s, xs + [x], step) == step(Fold(s, xs, step), x)
  {
    assert (xs + [x])[..|xs|] == xs;
  }

  /** Folding over a concatenation folds over the second part from where
      the first part left off. */
  lemma {:induction false} FoldAppend<S, T>(s: S, a: seq<T>, b: seq<T>, step: (S, T) -> S)
    ensures Fold(s, a + b, step) == Fold(Fold(s, a, step), b, step)
    decreases |b|
  {
    if b == [] {
      assert a + b == a;
    } else {
      var n := |b| - 1;
      assert a + b == (a + b[..n]) + [b[n]];
      FoldSnoc(s, a + b[..n], b[n], step);
      FoldAppend(s, a, b[..n], step);
    }
  }

  /** A step that, when it leaves the state good, started from a good state
      and added h(x) to the measure m of the state. */
  ghost predicate Accumulates<S(!new), T(!new), U>(step: (S, T) -> S, ok: S -> bool, m: S -> seq<U>, h: T -> seq<U>) {
    forall s, x :: ok(step(s, x)) ==> ok(s) && m(step(s, x)) == m(s) + h(x)
  }

  /** A fold of such a step that ends good added what Collect collects. */
  lemma {:induction false} FoldCollects<S(!new), T(!new), U>(s: S, xs: seq<T>, step: (S, T) -> S,
                                                  ok: S -> bool, m: S -> seq<U>, h: T -> seq<U>)
    requires Accumulates(step, ok, m, h)
    requires ok(Fold(s, xs, step))
    ensures ok(s) && m(Fold(s, xs, step)) == m(s) + Collect(xs, h)
    decreases |xs|
  {
    if xs != [] {
      var n := |xs| - 1;
      var mid := Fold(s, xs[..n], step);
      assert ok(mid) && m(step(mid, xs[n])) == m(mid) + h(xs[n]);
      FoldCollects(s, xs[..n], step, ok, m, h);
    }
  }

  /** A property every step keeps holds after the fold. */
  ghost predicate Preserves<S(!new), T(!new)>(step: (S, T) -> S, inv: S -> bool) {
    forall s, x :: inv(s) ==> inv(step(s, x))
  }

  lemma {:induction false} FoldPreserves<S(!new), T(!new)>(s: S, xs: seq<T>, step: (S, T) -> S, inv: S -> bool)
    requires inv(s) && Preserves(step, inv)
    ensures inv(Fold(s, xs, step))
    decreases |xs|
  {
    if xs != [] {
      FoldPreserves(s, xs[..|xs| - 1], step, inv);
    }
  }

  function Elems<U>(s: seq<U>): set<U> {
    set x | x in s
  }

  lemma ElemsAppend<U>(a: seq<U>, b: seq<U>)
    ensures Elems(a + b) == Elems(a) + Elems(b)
  {
  }

  /** A step that, when it leaves the state good, started from a good state
      and added the elements of h(x) to the set m of the state. */
  ghost predicate Gathers<S(!new), T(!new), U>(step: (S, T) -> S, ok: S -> bool, m: S -> set<U>, h: T -> seq<U>) {
    forall s, x :: ok(step(s, x)) ==> ok(s) && m(step(s, x)) == m(s) + Elems(h(x))
  }

  lemma {:induction false} FoldGathers<S(!new), T(!new), U>(s: S, xs: seq<T>, step: (S, T) -> S,
                                                             ok: S -> bool, m: S -> set<U>, h: T -> seq<U>)
    requires Gathers(step, ok, m, h)
    requires ok(Fold(s, xs, step))
    ensures ok(s) && m(Fold(s, xs, step)) == m(s) + Elems(Collect(xs, h))
    decreases |xs|
  {
    if xs != [] {
      var n := |xs| - 1;
      var mid := Fold(s, xs[..n], step);
      assert ok(mid) && m(step(mid, xs[n])) == m(mid) + Elems(h(xs[n]));
      FoldGathers(s, xs[..n], step, ok, m, h);
      ElemsAppend(Collect(xs[..n], h), h(xs[n]));
    }
  }

  /** A step that adds |g(x)| to the counter m of the state. */
  ghost predicate Tallies<S(!new), T(!new), U>(step: (S, T) -> S, m: S -> nat, g: T -> seq<U>) {
    forall s, x :: m(step(s, x)) == m(s) + |g(x)|
  }

  lemma {:induction false} FoldTallies<S(!new), T(!new), U>(s: S, xs: seq<T>, step: (S, T) -> S, m: S -> nat, g: T -> seq<U>)
    requires Tallies(step, m, g)
    ensures m(Fold(s, xs, step)) == m(s) + |Collect(xs, g)|
    decreases |xs|
  {
    if xs != [] {
      var n := |xs| - 1;
      assert m(step(Fold(s, xs[..n], step), xs[n])) == m(Fold(s, xs[..n], step)) + |g(xs[n])|;
      FoldTallies(s, xs[..n], step, m, g);
    }
  }

  /** A part of the state that each good step moves by f, whatever the
      rest of the state is. */
  ghost predicate Projects<S(!new), T(!new), P>(step: (S, T) -> S, ok: S -> bool, proj: S -> P, f: (P, T) -> P) {
    forall s, x :: ok(step(s, x)) ==> ok(s) && proj(step(s, x)) == f(proj(s), x)
  }

  lemma {:induction false} FoldProjects<S(!new), T(!new), P>(s: S, xs: seq<T>, step: (S, T) -> S,
                                                              ok: S -> bool, proj: S -> P, f: (P, T) -> P)
    requires Projects(step, ok, proj, f)
    requires ok(Fold(s, xs, step))
    ensures ok(s) && proj(Fold(s, xs, step)) == Fold(proj(s), xs, f)
    decreases |xs|
  {
    if xs != [] {
      var n := |xs| - 1;
      var mid := Fold(s, xs[..n], step);
      assert ok(mid) && proj(step(mid, xs[n])) == f(proj(mid), xs[n]);
      FoldProjects(s, xs[..n], step, ok, proj, f);
    }
  }

  /** What the steps contribute when what a step contributes depends on the
      state it starts from. */
  function Trace<S, T, U>(s: S, xs: seq<T>, step: (S, T) -> S, h: (S, T) -> seq<U>): seq<U>
    decreases |xs|
  {
    if xs == [] then []
    else Trace(s, xs[..|xs| - 1], step, h) + h(Fold(s, xs[..|xs| - 1], step), xs[|xs| - 1])
  }

  /** What each element contributes, given the elements before it. */
  function Along<T, U>(xs: seq<T>, g: (seq<T>, T) -> seq<U>): seq<U>
    decreases |xs|
  {
    if xs == [] then [] else Along(xs[..|xs| - 1], g) + g(xs[..|xs| - 1], xs[|xs| - 1])
  }

  /** A trace whose every step contributes what g makes of the elements
      before it is what g makes along the sequence. */
  lemma {:induction false} TraceAlong<S, T, U>(s: S, xs: seq<T>, step: (S, T) -> S, h: (S, T) -> seq<U>,
                                              g: (seq<T>, T) -> seq<U>)
    requires forall k :: 0 <= k < |xs| ==> h(Fold(s, xs[..k], step), xs[k]) == g(xs[..k], xs[k])
    ensures Trace(s, xs, step, h) == Along(xs, g)
    decreases |xs|
  {
    if xs != [] {
      var n := |xs| - 1;
      var init := xs[..n];
      forall k | 0 <= k < n
        ensures h(Fold(s, init[..k], step), init[k]) == g(init[..k], init[k])
      {
        assert init[..k] == xs[..k] && init[k] == xs[k];
      }
      TraceAlong(s, init, step, h, g);
      assert h(Fold(s, init, step), xs[n]) == g(init, xs[n]);
    }
  }

  ghost predicate AccumulatesAlong<S(!new), T(!new), U>(step: (S, T) -> S, ok: S -> bool, m: S -> seq<U>, h: (S, T) -> seq<U>) {
    forall s, x :: ok(step(s, x)) ==> ok(s) && m(step(s, x)) == m(s) + h(s, x)
  }

  lemma {:induction false} FoldTraces<S(!new), T(!new), U>(s: S, xs: seq<T>, step: (S, T) -> S,
                                                            ok: S -> bool, m: S -> seq<U>, h: (S, T) -> seq<U>)
    requires AccumulatesAlong(step, ok, m, h)
    requires ok(Fold(s, xs, step))
    ensures ok(s) && m(Fold(s, xs, step)) == m(s) + Trace(s, xs, step, h)
    decreases |xs|
  {
    if xs != [] {
      var n := |xs| - 1;
      var mid := Fold(s, xs[..n], step);
      assert ok(mid) && m(step(mid, xs[n])) == m(mid) + h(mid, xs[n]);
      FoldTraces(s, xs[..n], step, ok, m, h);
    }
  }

  /** A step that goes wrong for good, and, from a good state, goes wrong
      exactly on the elements bad says (for the state it starts from). */
  ghost predicate FailsOn<S(!new), T(!new)>(step: (S, T) -> S, ok: S -> bool, bad: (S, T) -> bool) {
    forall s, x :: ok(step(s, x)) <==> ok(s) && !bad(s, x)
  }

  /** No element is bad for the state the steps before it reach. */
  ghost predicate NoneBad<S, T>(s: S, xs: seq<T>, step: (S, T) -> S, bad: (S, T) -> bool) {
    forall k :: 0 <= k < |xs| ==> !bad(Fold(s, xs[..k], step), xs[k])
  }

  lemma NoneBadSnoc<S, T>(s: S, xs: seq<T>, step: (S, T) -> S, bad: (S, T) -> bool)
    requires xs != []
    ensures var n := |xs| - 1;
      NoneBad(s, xs, step, bad) <==> NoneBad(s, xs[..n], step, bad) && !bad(Fold(s, xs[..n], step), xs[n])
  {
    var n := |xs| - 1;
    assert forall k :: 0 <= k < n ==> xs[..n][..k] == xs[..k] && xs[..n][k] == xs[k];
  }

  lemma {:induction false} FoldFails<S(!new), T(!new)>(s: S, xs: seq<T>, step: (S, T) -> S, ok: S -> bool, bad: (S, T) -> bool)
    requires FailsOn(step, ok, bad)
    ensures ok(Fold(s, xs, step)) <==> ok(s) && NoneBad(s, xs, step, bad)
    decreases |xs|
  {
    if xs != [] {
      var n := |xs| - 1;
      var mid := Fold(s, xs[..n], step);
      assert ok(Fold(s, xs, step)) <==> ok(mid) && !bad(mid, xs[n]);
      FoldFails(s, xs[..n], step, ok, bad);
      NoneBadSnoc(s, xs, step, bad);
    }
  }

  /** Collections that take as many items from each element are as long. */
  lemma {:induction false} CollectSameLength<T, U, V>(xs: seq<T>, f: T -> seq<U>, g: T -> seq<V>)
    requires forall k :: 0 <= k < |xs| ==> |f(xs[k])| == |g(xs[k])|
    ensures |Collect(xs, f)| == |Collect(xs, g)|
    decreases |xs|
  {
    if xs != [] {
      var n := |xs| - 1;
      assert forall k :: 0 <= k < n ==> xs[..n][k] == xs[k];
      CollectSameLength(xs[..n], f, g);
    }
  }

  /** A property every step keeps on the elements that satisfy good. */
  ghost predicate PreservesOn<S(!new), T(!new)>(step: (S, T) -> S, inv: S -> bool, good: T -> bool) {
    forall s, x :: inv(s) && good(x) ==> inv(step(s, x))
  }

  lemma {:induction false} FoldPreservesOn<S(!new), T(!new)>(s: S, xs: seq<T>, step: (S, T) -> S,
                                                              inv: S -> bool, good: T -> bool)
    requires inv(s) && PreservesOn(step, inv, good)
    requires forall k :: 0 <= k < |xs| ==> good(xs[k])
    ensures inv(Fold(s, xs, step))
    decreases |xs|
  {
    if xs != [] {
      var n := |xs| - 1;
      assert forall k :: 0 <= k < n ==> xs[..n][k] == xs[k];
      FoldPreservesOn(s, xs[..n], step, inv, good);
    }
  }

  /** A property every piece has holds of everything collected. */
  lemma {:induction false} CollectAll<T, U>(xs: seq<T>, g: T -> seq<U>, p: U -> bool)
    requires forall k, j :: 0 <= k < |xs| && 0 <= j < |g(xs[k])| ==> p(g(xs[k])[j])
    ensures forall i :: 0 <= i < |Collect(xs, g)| ==> p(Collect(xs, g)[i])
    decreases |xs|
  {
    if xs != [] {
      var n := |xs| - 1;
      assert forall k :: 0 <= k < n ==> xs[..n][k] == xs[k];
      CollectAll(xs[..n], g, p);
      var a := Collect(xs[..n], g);
      assert forall i :: |a| <= i < |a| + |g(xs[n])| ==> (a + g(xs[n]))[i] == g(xs[n])[i - |a|];
    }
  }
}
