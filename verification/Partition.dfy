/** Greedy packing of a sequence into consecutive groups, and why no other grouping is shorter. */
module Partition {

  function Flatten<T>(groups: seq<seq<T>>): seq<T> {
    if groups == [] then [] else groups[0] + Flatten(groups[1..])
  }

  /** `groups` cuts `xs` into consecutive non-empty groups that all satisfy `ok`. */
  ghost predicate Grouping<T>(groups: seq<seq<T>>, xs: seq<T>, ok: seq<T> -> bool) {
    && Flatten(groups) == xs
    && forall i :: 0 <= i < |groups| ==> groups[i] != [] && ok(groups[i])
  }

  /** Whatever is allowed stays allowed when elements are dropped from either end. */
  ghost predicate Hereditary<T(!new)>(ok: seq<T> -> bool) {
    forall s: seq<T>, i, j :: 0 <= i < j <= |s| && ok(s) ==> ok(s[i..j])
  }

  ghost predicate SingletonsOk<T(!new)>(ok: seq<T> -> bool) {
    forall x: T :: ok([x])
  }

  /** How far the group that starts with `xs[..n]` is extended. */
  function Reach<T>(xs: seq<T>, n: nat, ok: seq<T> -> bool): (r: nat)
    requires n <= |xs|
    ensures n <= r <= |xs|
    ensures r < |xs| ==> !ok(xs[..r + 1])
    ensures forall k :: n < k <= r ==> ok(xs[..k])
    decreases |xs| - n
  {
    if n < |xs| && ok(xs[..n + 1]) then Reach(xs, n + 1, ok) else n
  }

  lemma {:induction false} ReachCovers<T>(xs: seq<T>, n: nat, e: nat, ok: seq<T> -> bool)
    requires n <= e <= |xs|
    requires forall k :: n < k <= e ==> ok(xs[..k])
    ensures e <= Reach(xs, n, ok)
    decreases e - n
  {
    if n < e {
      ReachCovers(xs, n + 1, e, ok);
    }
  }

  function Greedy<T>(xs: seq<T>, ok: seq<T> -> bool): seq<seq<T>>
    decreases |xs|
  {
    if xs == [] then []
    else
      var n := Reach(xs, 1, ok);
      [xs[..n]] + Greedy(xs[n..], ok)
  }

  lemma {:induction false} GreedyGroups<T(!new)>(xs: seq<T>, ok: seq<T> -> bool)
    requires SingletonsOk(ok)
    ensures Grouping(Greedy(xs, ok), xs, ok)
    decreases |xs|
  {
    if xs != [] {
      var n := Reach(xs, 1, ok);
      GreedyGroups(xs[n..], ok);
      assert xs[..1] == [xs[0]];
      assert xs == xs[..n] + xs[n..];
    }
  }

  /** A group that can be closed, because all its prefixes are allowed and one more element is not, is
    * the group greedy packing closes. */
  lemma GreedyCloses<T>(group: seq<T>, x: T, rest: seq<T>, ok: seq<T> -> bool)
    requires group != [] && !ok(group + [x])
    requires forall k :: 1 < k <= |group| ==> ok(group[..k])
    ensures Greedy(group + [x] + rest, ok) == [group] + Greedy([x] + rest, ok)
  {
    var xs := group + [x] + rest;
    forall k | 1 < k <= |group|
      ensures ok(xs[..k])
    {
      assert xs[..k] == group[..k];
    }
    assert xs[..|group| + 1] == group + [x];
    ReachStops(xs, |group|, ok);
    assert xs[..|group|] == group && xs[|group|..] == [x] + rest;
  }

  lemma ReachStops<T>(xs: seq<T>, n: nat, ok: seq<T> -> bool)
    requires 0 < n < |xs| && !ok(xs[..n + 1])
    requires forall k :: 1 < k <= n ==> ok(xs[..k])
    ensures Reach(xs, 1, ok) == n
  {
    ReachCovers(xs, 1, n, ok);
  }

  lemma GreedyLast<T>(group: seq<T>, ok: seq<T> -> bool)
    requires group != []
    requires forall k :: 1 < k <= |group| ==> ok(group[..k])
    ensures Greedy(group, ok) == [group]
  {
    var n := Reach(group, 1, ok);
    assert n == |group|;
    assert group[..n] == group && group[n..] == [];
  }

  // ----- Packing step by step, as a loop does it -----

  /** `groups` are closed, `group` is open, `rest` is still to come. */
  ghost predicate Packing<T>(groups: seq<seq<T>>, group: seq<T>, rest: seq<T>, xs: seq<T>, ok: seq<T> -> bool) {
    && (forall k :: 0 <= k < |groups| ==> groups[k] != [])
    && (forall k :: 1 < k <= |group| ==> ok(group[..k]))
    && groups + Greedy(group + rest, ok) == Greedy(xs, ok)
  }

  lemma DropNext<T>(xs: seq<T>, i: nat)
    requires i < |xs|
    ensures xs[i..] == [xs[i]] + xs[i + 1..]
  {
  }

  lemma PackingStarts<T>(xs: seq<T>, ok: seq<T> -> bool)
    ensures Packing([], [], xs, xs, ok)
  {
    assert [] + xs == xs;
  }

  lemma PackingExtends<T>(groups: seq<seq<T>>, group: seq<T>, x: T, rest: seq<T>, xs: seq<T>, ok: seq<T> -> bool)
    requires Packing(groups, group, [x] + rest, xs, ok)
    requires group == [] || ok(group + [x])
    ensures Packing(groups, group + [x], rest, xs, ok)
  {
    var next := group + [x];
    assert group + ([x] + rest) == next + rest;
    assert forall k :: 1 < k <= |next| ==> next[..k] == if k == |next| then next else group[..k];
  }

  lemma PackingCloses<T>(groups: seq<seq<T>>, group: seq<T>, x: T, rest: seq<T>, xs: seq<T>, ok: seq<T> -> bool)
    requires Packing(groups, group, [x] + rest, xs, ok)
    requires group != [] && !ok(group + [x])
    ensures Packing(groups + [group], [x], rest, xs, ok)
  {
    assert group + ([x] + rest) == group + [x] + rest;
    GreedyCloses(group, x, rest, ok);
    assert groups + ([group] + Greedy([x] + rest, ok)) == (groups + [group]) + Greedy([x] + rest, ok);
  }

  lemma PackingEnds<T>(groups: seq<seq<T>>, group: seq<T>, xs: seq<T>, ok: seq<T> -> bool)
    requires Packing(groups, group, [], xs, ok)
    ensures Greedy(xs, ok) == if group == [] then groups else groups + [group]
  {
    assert group + [] == group;
    if group != [] {
      GreedyLast(group, ok);
    }
  }

  /** Greedy packing stays ahead: even if the other grouping also has to cover `pre`, it needs at least
    * as many groups. */
  lemma {:induction false} GreedyStaysAhead<T(!new)>(pre: seq<T>, xs: seq<T>, groups: seq<seq<T>>, ok: seq<T> -> bool)
    requires Hereditary(ok)
    requires Grouping(groups, pre + xs, ok)
    ensures |Greedy(xs, ok)| <= |groups|
    decreases |groups|
  {
    if xs != [] {
      var first, rest := groups[0], groups[1..];
      var n := Reach(xs, 1, ok);
      if |first| <= |pre| {
        CutBefore(pre, xs, first, Flatten(rest));
        GreedyStaysAhead(pre[|first|..], xs, rest, ok);
      } else {
        var e := |first| - |pre|;
        CutAfter(pre, xs, first, Flatten(rest));
        forall k | 1 <= k <= e
          ensures ok(xs[..k])
        {
          assert xs[..k] == first[|pre|..|pre| + k];
        }
        ReachCovers(xs, 1, e, ok);
        assert Flatten(rest) == xs[e..n] + xs[n..];
        GreedyStaysAhead(xs[e..n], xs[n..], rest, ok);
      }
    }
  }

  lemma CutBefore<T>(a: seq<T>, b: seq<T>, c: seq<T>, d: seq<T>)
    requires a + b == c + d && |c| <= |a|
    ensures d == a[|c|..] + b
  {
    assert (a + b)[|c|..] == a[|c|..] + b;
    assert (c + d)[|c|..] == d;
  }

  lemma CutAfter<T>(a: seq<T>, b: seq<T>, c: seq<T>, d: seq<T>)
    requires a + b == c + d && |a| <= |c|
    ensures |c| - |a| <= |b| && c == a + b[..|c| - |a|] && d == b[|c| - |a|..]
  {
    assert (a + b)[..|c|] == a + b[..|c| - |a|];
    assert (c + d)[..|c|] == c;
    assert (a + b)[|c|..] == b[|c| - |a|..];
    assert (c + d)[|c|..] == d;
  }

  /** No grouping of `xs` has fewer groups than the greedy one. */
  lemma GreedyIsFewest<T(!new)>(xs: seq<T>, groups: seq<seq<T>>, ok: seq<T> -> bool)
    requires Hereditary(ok) && Grouping(groups, xs, ok)
    ensures |Greedy(xs, ok)| <= |groups|
  {
    assert [] + xs == xs;
    GreedyStaysAhead([], xs, groups, ok);
  }

  lemma SingleGroup<T>(groups: seq<seq<T>>, xs: seq<T>)
    requires Flatten(groups) == xs && xs != [] && |groups| <= 1
    ensures groups == [xs]
  {
    assert groups == [groups[0]];
    assert groups[1..] == [];
    assert groups[0] + [] == groups[0];
  }

  /** Every element is in some group. */
  lemma {:induction false} FlattenHas<T>(groups: seq<seq<T>>, x: T)
    requires x in Flatten(groups)
    ensures exists i :: 0 <= i < |groups| && x in groups[i]
  {
    if x !in groups[0] {
      FlattenHas(groups[1..], x);
      var i :| 0 <= i < |groups[1..]| && x in groups[1..][i];
      assert x in groups[i + 1];
    }
  }

  lemma {:induction false} FlattenAppend<T>(a: seq<seq<T>>, b: seq<seq<T>>)
    ensures Flatten(a + b) == Flatten(a) + Flatten(b)
  {
    if a == [] {
      assert a + b == b;
    } else {
      calc {
        Flatten(a + b);
        { assert (a + b)[1..] == a[1..] + b; }
        a[0] + Flatten(a[1..] + b);
        { FlattenAppend(a[1..], b); }
        a[0] + (Flatten(a[1..]) + Flatten(b));
        (a[0] + Flatten(a[1..])) + Flatten(b);
      }
    }
  }

  /** Greedy packing looks at stretches of the input only. */
  lemma {:induction false} GreedyDependsOnStretches<T>(xs: seq<T>, ok: seq<T> -> bool, ok': seq<T> -> bool)
    requires forall i, j :: 0 <= i <= j <= |xs| ==> ok(xs[i..j]) == ok'(xs[i..j])
    ensures Greedy(xs, ok) == Greedy(xs, ok')
    decreases |xs|
  {
    if xs != [] {
      forall k | 0 <= k <= |xs|
        ensures ok(xs[..k]) == ok'(xs[..k])
      {
        assert xs[0..k] == xs[..k];
      }
      ReachDependsOnPrefixes(xs, 1, ok, ok');
      var n := Reach(xs, 1, ok);
      forall i, j | 0 <= i <= j <= |xs| - n
        ensures ok(xs[n..][i..j]) == ok'(xs[n..][i..j])
      {
        StretchOfRest(xs, n, i, j);
      }
      GreedyDependsOnStretches(xs[n..], ok, ok');
    }
  }

  lemma StretchOfRest<T>(xs: seq<T>, n: nat, i: nat, j: nat)
    requires n <= |xs| && i <= j <= |xs| - n
    ensures xs[n..][i..j] == xs[n + i..n + j]
  {
  }

  lemma {:induction false} ReachDependsOnPrefixes<T>(xs: seq<T>, n: nat, ok: seq<T> -> bool, ok': seq<T> -> bool)
    requires n <= |xs| && forall k :: 0 <= k <= |xs| ==> ok(xs[..k]) == ok'(xs[..k])
    ensures Reach(xs, n, ok) == Reach(xs, n, ok')
    decreases |xs| - n
  {
    if n < |xs| && ok(xs[..n + 1]) {
      ReachDependsOnPrefixes(xs, n + 1, ok, ok');
    }
  }

  /** The groups are stretches of what they cut. */
  lemma {:induction false} GroupIsStretch<T>(groups: seq<seq<T>>, xs: seq<T>, k: nat) returns (i: nat, j: nat)
    requires Flatten(groups) == xs && k < |groups|
    ensures i <= j <= |xs| && groups[k] == xs[i..j]
  {
    if k == 0 {
      i, j := 0, |groups[0]|;
    } else {
      var rest := Flatten(groups[1..]);
      i, j := GroupIsStretch(groups[1..], rest, k - 1);
      assert xs == groups[0] + rest;
      assert rest[i..j] == xs[|groups[0]| + i..|groups[0]| + j];
      i, j := |groups[0]| + i, |groups[0]| + j;
    }
  }
}
