/** Generic sequence facts the pipeline relies on: flattening a sequence of
    sequences (the parser's row-by-row reading), and gathering elements in a
    permuted index order with the lemmas that show the result is a
    permutation (the fan-in of the row tasks). */
module Seqs {

  /** The concatenation of the parts, in order. */
  function Flatten<T>(parts: seq<seq<T>>): seq<T>
  {
    if |parts| == 0 then [] else Flatten(parts[..|parts| - 1]) + parts[|parts| - 1]
  }

  /** Parts of at most one element flatten to at most one element each. */
  lemma {:induction false} FlattenShort<T>(parts: seq<seq<T>>)
    requires forall i :: 0 <= i < |parts| ==> |parts[i]| <= 1
    ensures |Flatten(parts)| <= |parts|
    decreases |parts|
  {
    if |parts| > 0 {
      FlattenShort(parts[..|parts| - 1]);
    }
  }

  /** When every part is a single element, the flattening lines up with the
      parts one to one. */
  lemma {:induction false} FlattenSingletons<T>(parts: seq<seq<T>>)
    requires forall i :: 0 <= i < |parts| ==> |parts[i]| == 1
    ensures |Flatten(parts)| == |parts|
    ensures forall i :: 0 <= i < |parts| ==> Flatten(parts)[i] == parts[i][0]
    decreases |parts|
  {
    if |parts| > 0 {
      FlattenSingletons(parts[..|parts| - 1]);
    }
  }

  /** Flattening peels off its first part. */
  lemma {:induction false} FlattenFirst<T>(parts: seq<seq<T>>)
    requires |parts| >= 1
    ensures Flatten(parts) == parts[0] + Flatten(parts[1..])
    decreases |parts|
  {
    var init := parts[..|parts| - 1];
    var last := parts[|parts| - 1];
    if |parts| == 1 {
      assert init == [];
      assert parts[1..] == [];
    } else {
      FlattenFirst(init);
      assert parts[1..][..|parts| - 2] == init[1..];
      assert parts[1..][|parts| - 2] == last;
    }
  }

  /** The indices `0 .. n-1`, in order. */
  function Indices(n: nat): (s: seq<nat>)
    ensures |s| == n
    ensures forall i :: 0 <= i < n ==> s[i] == i
  {
    if n == 0 then [] else Indices(n - 1) + [n - 1]
  }

  /** Every entry of `order` is an index of a sequence of length `n`. */
  predicate InRange(order: seq<nat>, n: nat) {
    forall k :: 0 <= k < |order| ==> order[k] < n
  }

  /** The elements of `xs` in the order `order` lists their positions. */
  function Gather<T>(xs: seq<T>, order: seq<nat>): (out: seq<T>)
    requires InRange(order, |xs|)
    ensures |out| == |order|
    ensures forall k :: 0 <= k < |order| ==> out[k] == xs[order[k]]
  {
    seq(|order|, k requires 0 <= k < |order| => xs[order[k]])
  }

  /** Gathering distributes over concatenation of orders. */
  lemma GatherAppend<T>(xs: seq<T>, a: seq<nat>, b: seq<nat>)
    requires InRange(a, |xs|) && InRange(b, |xs|)
    ensures InRange(a + b, |xs|)
    ensures Gather(xs, a + b) == Gather(xs, a) + Gather(xs, b)
  {
    var lhs := Gather(xs, a + b);
    var rhs := Gather(xs, a) + Gather(xs, b);
    forall k | 0 <= k < |lhs|
      ensures lhs[k] == rhs[k]
    {
      if k >= |a| {
        assert rhs[k] == Gather(xs, b)[k - |a|];
      }
    }
  }

  /** Gathering splits around any one position of the order. */
  lemma GatherSplit<T>(xs: seq<T>, order: seq<nat>, j: nat)
    requires InRange(order, |xs|) && j < |order|
    ensures Gather(xs, order) == Gather(xs, order[..j]) + [xs[order[j]]] + Gather(xs, order[j + 1..])
  {
    var front, back := order[..j], order[j + 1..];
    var mid := [order[j]] + back;
    assert order == front + mid;
    assert InRange(front, |xs|) && InRange(mid, |xs|) && InRange(back, |xs|);
    var a, y, c := Gather(xs, front), xs[order[j]], Gather(xs, back);
    assert Gather(xs, mid) == [y] + c by {
      GatherAppend(xs, [order[j]], back);
    }
    assert Gather(xs, order) == a + Gather(xs, mid) by {
      GatherAppend(xs, front, mid);
    }
    assert a + ([y] + c) == a + [y] + c;
  }

  /** Removing the first element of `a`, and one occurrence of it from `b`,
      keeps two equal multisets equal. */
  lemma RemoveOne<T>(a: seq<T>, b: seq<T>, j: nat)
    requires multiset(a) == multiset(b) && |a| > 0 && j < |b| && b[j] == a[0]
    ensures multiset(a[1..]) == multiset(b[..j] + b[j + 1..])
    ensures multiset(b[..j] + b[j + 1..]) <= multiset(b)
  {
    assert a == [a[0]] + a[1..];
    assert b == b[..j] + [b[j]] + b[j + 1..];
    assert multiset(a[1..]) == multiset(a) - multiset{a[0]};
    assert multiset(b[..j] + b[j + 1..]) == multiset(b) - multiset{a[0]};
  }

  /** A rearrangement of an in-range order is in range. */
  lemma InRangePermutation(a: seq<nat>, b: seq<nat>, n: nat)
    requires InRange(b, n) && multiset(a) <= multiset(b)
    ensures InRange(a, n)
  {
    forall k | 0 <= k < |a|
      ensures a[k] < n
    {
      assert a[k] in multiset(b);
    }
  }

  /** The inductive step of `GatherPermutation`: moving the position `b[j]`
      to the front preserves the gathered multiset. */
  lemma GatherMoveFront<T>(xs: seq<T>, a: seq<nat>, b: seq<nat>, j: nat)
    requires InRange(a, |xs|) && InRange(b, |xs|)
    requires |a| > 0 && j < |b| && b[j] == a[0]
    requires InRange(b[..j] + b[j + 1..], |xs|)
    requires multiset(Gather(xs, a[1..])) == multiset(Gather(xs, b[..j] + b[j + 1..]))
    ensures multiset(Gather(xs, a)) == multiset(Gather(xs, b))
  {
    var y := xs[a[0]];
    var left, right := Gather(xs, b[..j]), Gather(xs, b[j + 1..]);
    assert Gather(xs, a) == [y] + Gather(xs, a[1..]);
    GatherAppend(xs, b[..j], b[j + 1..]);
    GatherSplit(xs, b, j);
    assert multiset(Gather(xs, b)) == multiset(left) + multiset{y} + multiset(right);
  }

  /** Two orders listing the same positions gather the same multiset. */
  lemma {:induction false} GatherPermutation<T>(xs: seq<T>, a: seq<nat>, b: seq<nat>)
    requires InRange(a, |xs|) && InRange(b, |xs|)
    requires multiset(a) == multiset(b)
    ensures multiset(Gather(xs, a)) == multiset(Gather(xs, b))
    decreases |a|
  {
    if |a| == 0 {
      assert |b| == |multiset(b)| == 0;
    } else {
      assert a[0] in multiset(b);
      var j :| 0 <= j < |b| && b[j] == a[0];
      var rest := b[..j] + b[j + 1..];
      RemoveOne(a, b, j);
      InRangePermutation(rest, b, |xs|);
      GatherPermutation(xs, a[1..], rest);
      GatherMoveFront(xs, a, b, j);
    }
  }

  /** Gathering in index order gives the sequence back. */
  lemma GatherIndices<T>(xs: seq<T>)
    ensures Gather(xs, Indices(|xs|)) == xs
  {
  }
}
