// Small shared vocabulary of the model.
module Common {
  datatype Option<+T> = None | Some(value: T)

  function Max(a: int, b: int): int {
    if a < b then b else a
  }

  function Min(a: int, b: int): int {
    if a < b then a else b
  }

  function Map<A, B>(f: A -> B, xs: seq<A>): (r: seq<B>)
    ensures |r| == |xs|
    ensures forall i :: 0 <= i < |xs| ==> r[i] == f(xs[i])
  {
    if xs == [] then [] else Map(f, xs[..|xs| - 1]) + [f(xs[|xs| - 1])]
  }

  /** A sequence is its last element behind the others. */
  lemma LastOf<T>(xs: seq<T>) returns (before: seq<T>, last: T)
    requires xs != []
    ensures xs == before + [last] && |before| == |xs| - 1 && before == xs[..|xs| - 1] && last == xs[|xs| - 1]
  {
    before, last := xs[..|xs| - 1], xs[|xs| - 1];
  }

  lemma MapConcat<A, B>(f: A -> B, xs: seq<A>, ys: seq<A>)
    ensures Map(f, xs + ys) == Map(f, xs) + Map(f, ys)
  {
  }

  lemma MapAppend<A, B>(f: A -> B, xs: seq<A>, x: A)
    ensures Map(f, xs + [x]) == Map(f, xs) + [f(x)]
  {
    assert (xs + [x])[..|xs|] == xs;
  }

  lemma Reassemble<T>(s: seq<T>, i: nat, j: nat)
    requires i <= j <= |s|
    ensures s == s[..i] + s[i..j] + s[j..]
  {
  }

  function ToSeq<T>(o: Option<T>): seq<T> {
    if o.Some? then [o.value] else []
  }

  function Fold<A, B>(f: (B, A) -> B, start: B, xs: seq<A>): B {
    if xs == [] then start else f(Fold(f, start, xs[..|xs| - 1]), xs[|xs| - 1])
  }

  lemma FoldNext<A, B>(f: (B, A) -> B, start: B, xs: seq<A>, i: nat)
    requires i < |xs|
    ensures Fold(f, start, xs[..i + 1]) == f(Fold(f, start, xs[..i]), xs[i])
  {
    assert xs[..i + 1][..i] == xs[..i];
  }

  /** What holds at the start and survives every step holds of the whole fold. */
  lemma {:induction false} FoldKeeps<A(!new), B(!new)>(f: (B, A) -> B, start: B, xs: seq<A>, inv: (B, seq<A>) -> bool)
    requires inv(start, [])
    requires forall b: B, done: seq<A>, x: A :: inv(b, done) ==> inv(f(b, x), done + [x])
    ensures inv(Fold(f, start, xs), xs)
  {
    if xs != [] {
      var before, last := xs[..|xs| - 1], xs[|xs| - 1];
      FoldKeeps(f, start, before, inv);
      assert inv(f(Fold(f, start, before), last), before + [last]);
      assert before + [last] == xs;
    }
  }

  /** The values `f` finds in `xs`, in order. */
  function Collect<A, B>(f: A -> Option<B>, xs: seq<A>): seq<B> {
    if xs == [] then [] else Collect(f, xs[..|xs| - 1]) + ToSeq(f(xs[|xs| - 1]))
  }

  lemma CollectNext<A, B>(f: A -> Option<B>, xs: seq<A>, x: A)
    ensures Collect(f, xs + [x]) == Collect(f, xs) + ToSeq(f(x))
  {
    assert (xs + [x])[..|xs|] == xs;
  }

  lemma {:induction false} CollectConcat<A, B>(f: A -> Option<B>, xs: seq<A>, ys: seq<A>)
    ensures Collect(f, xs + ys) == Collect(f, xs) + Collect(f, ys)
  {
    if ys == [] {
      assert xs + ys == xs;
    } else {
      var before, y := ys[..|ys| - 1], ys[|ys| - 1];
      assert ys == before + [y];
      calc {
        Collect(f, xs + ys);
        { assert xs + ys == (xs + before) + [y]; CollectNext(f, xs + before, y); }
        Collect(f, xs + before) + ToSeq(f(y));
        { CollectConcat(f, xs, before); }
        (Collect(f, xs) + Collect(f, before)) + ToSeq(f(y));
        Collect(f, xs) + (Collect(f, before) + ToSeq(f(y)));
      }
    }
  }

  function FlatMap<A, B>(f: A -> seq<B>, xs: seq<A>): seq<B> {
    if xs == [] then [] else FlatMap(f, xs[..|xs| - 1]) + f(xs[|xs| - 1])
  }

  lemma FlatMapNext<A, B>(f: A -> seq<B>, xs: seq<A>, x: A)
    ensures FlatMap(f, xs + [x]) == FlatMap(f, xs) + f(x)
  {
    assert (xs + [x])[..|xs|] == xs;
  }

  function AsSeq<A, B>(f: A -> Option<B>): A -> seq<B> {
    x => ToSeq(f(x))
  }

  lemma {:induction false} CollectIsFlatMap<A, B>(f: A -> Option<B>, xs: seq<A>)
    ensures Collect(f, xs) == FlatMap(AsSeq(f), xs)
  {
    if xs != [] {
      CollectIsFlatMap(f, xs[..|xs| - 1]);
    }
  }

  lemma SubsetSize<T>(a: set<T>, b: set<T>)
    requires a <= b
    ensures |a| <= |b|
  {
    if a != {} {
      var x :| x in a;
      SubsetSize(a - {x}, b - {x});
    }
  }

  lemma CollectFirst<A, B>(f: A -> Option<B>, x: A, xs: seq<A>)
    ensures Collect(f, [x] + xs) == ToSeq(f(x)) + Collect(f, xs)
  {
    CollectConcat(f, [x], xs);
    assert [x][..0] == [];
  }
}
