/**
 * The replay generator `cycle` (screensaver.py): it yields every element of
 * its input once, in order, remembering each one, then yields the remembered
 * list again and again for as long as it is not empty.  An empty input makes
 * it yield nothing at all.
 */
module Cycle {
  import opened Prelude

  /** The k-th element (counting from 0) that the generator yields for a non-empty input. */
  function CycleAt<T>(xs: seq<T>, k: nat): (r: T)
    requires xs != []
    ensures r in xs
  {
    xs[k % |xs|]
  }

  /**
   * The first n elements the generator yields, built the way the generator
   * builds them: one pass over the input, then the saved copy over and over.
   */
  function Yielded<T>(xs: seq<T>, n: nat): (r: seq<T>)
    ensures |r| == if xs == [] then 0 else n
    decreases n
  {
    if xs == [] then []
    else if n <= |xs| then xs[..n]
    else xs + Yielded(xs, n - |xs|)
  }

  lemma ModShift(k: nat, n: nat)
    requires 0 < n <= k
    ensures (k - n) % n == k % n
  {
    var q, r := (k - n) / n, (k - n) % n;
    assert k == (q + 1) * n + r;
    ModUnique(k, n, q + 1, r);
  }

  /** Counting one more output moves the replay position one step, wrapping at N. */
  lemma ModStep(e: nat, n: nat)
    requires 0 < n
    ensures (e + 1) % n == if e % n + 1 == n then 0 else e % n + 1
  {
    var q, r := e / n, e % n;
    if r + 1 == n {
      ModUnique(e + 1, n, q + 1, 0);
    } else {
      ModUnique(e + 1, n, q, r + 1);
    }
  }

  /** Output k of the generator is input element k mod N. */
  lemma {:induction false} YieldedAt<T>(xs: seq<T>, n: nat, k: nat)
    requires xs != [] && k < n
    ensures Yielded(xs, n)[k] == CycleAt(xs, k)
    decreases n
  {
    if n <= |xs| {
      assert k % |xs| == k;
    } else if k < |xs| {
      assert k % |xs| == k;
    } else {
      YieldedAt(xs, n - |xs|, k - |xs|);
      ModShift(k, |xs|);
    }
  }

  /** The generator first yields the whole input, in order. */
  lemma FirstPass<T>(xs: seq<T>, n: nat)
    requires |xs| <= n
    ensures Yielded(xs, n)[..|xs|] == xs
  {
  }

  /** Past the first pass the output repeats with period N: output k equals output k + N. */
  lemma Periodic<T>(xs: seq<T>, n: nat, k: nat)
    requires xs != [] && k + |xs| < n
    ensures Yielded(xs, n)[k + |xs|] == Yielded(xs, n)[k]
  {
    YieldedAt(xs, n, k);
    YieldedAt(xs, n, k + |xs|);
    ModShift(k + |xs|, |xs|);
  }

  /** Asking for more outputs only extends what was already yielded. */
  lemma {:induction false} YieldedPrefix<T>(xs: seq<T>, n: nat, m: nat)
    requires n <= m
    ensures Yielded(xs, n) <= Yielded(xs, m)
  {
    if xs != [] {
      forall k | 0 <= k < n
        ensures Yielded(xs, n)[k] == Yielded(xs, m)[k]
      {
        YieldedAt(xs, n, k);
        YieldedAt(xs, m, k);
      }
    }
  }

  /**
   * The generator object.  During the first pass `pos` walks the input and
   * `saved` holds what has been yielded; afterwards `pos` walks `saved`.
   * The ghost `emitted` counts the elements yielded so far.
   */
  class CycleGen<T> {
    const source: seq<T>
    var saved: seq<T>
    var pos: nat
    var replaying: bool
    ghost var emitted: nat

    ghost predicate Valid()
      reads this
    {
      (!replaying ==> pos <= |source| && saved == source[..pos] && emitted == pos) &&
      (replaying ==> saved == source && pos < |saved| && |saved| <= emitted && emitted % |saved| == pos)
    }

    constructor (xs: seq<T>)
      ensures Valid() && source == xs && emitted == 0
    {
      source := xs;
      saved := [];
      pos := 0;
      replaying := false;
      emitted := 0;
    }

    /** `next()`: the next element, or None once an empty input is exhausted (StopIteration). */
    method Next() returns (r: Option<T>)
      requires Valid()
      modifies this
      ensures Valid()
      ensures source == [] ==> r == None && emitted == old(emitted)
      ensures source != [] ==> r == Some(CycleAt(source, old(emitted))) && emitted == old(emitted) + 1
    {
      if !replaying && pos < |source| {
        ModUnique(pos, |source|, 0, pos);
        r := Some(source[pos]);
        saved := saved + [source[pos]];
        pos := pos + 1;
        emitted := emitted + 1;
      } else if !replaying && saved == [] {
        r := None;
      } else {
        if !replaying {
          ModUnique(emitted, |saved|, 1, 0);
          replaying := true;
          pos := 0;
        }
        r := Some(saved[pos]);
        ModStep(emitted, |saved|);
        pos := if pos + 1 == |saved| then 0 else pos + 1;
        emitted := emitted + 1;
      }
    }
  }
}
