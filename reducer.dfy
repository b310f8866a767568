/**
 * SimpleExample.IntSumReducer: for one key and all its values, write the
 * single pair (key, sum of the values). The sum is accumulated in a Java
 * `int`, so it wraps around modulo 2^32. The same class serves as the
 * combiner, which is sound because wrapped addition is associative and
 * commutative: see CombinerTransparent.
 */
module IntSum {
  import opened Records
  import opened Seqs

  /** The mathematical sum, accumulated left to right as the reducer's loop does. */
  function Sum(vs: seq<int>): int
  {
    if vs == [] then 0 else Sum(vs[..|vs| - 1]) + vs[|vs| - 1]
  }

  /** The value the reducer writes for `vs`: their sum as a Java `int`. */
  function ReduceValue(vs: seq<Int32>): (r: Int32)
    ensures Congruent(r, Sum(vs))
    ensures vs == [] ==> r == 0
    ensures -0x8000_0000 <= Sum(vs) < 0x8000_0000 ==> r == Sum(vs)
  {
    Wrap(Sum(vs))
  }

  /** What the reducer, used as a combiner, writes for each value list. */
  function Partials(gs: seq<seq<Int32>>): (ps: seq<Int32>)
    ensures |ps| == |gs|
    ensures forall i :: 0 <= i < |gs| ==> ps[i] == ReduceValue(gs[i])
  {
    if gs == [] then [] else [ReduceValue(gs[0])] + Partials(gs[1..])
  }

  lemma {:induction false} SumAppend(a: seq<int>, b: seq<int>)
    ensures Sum(a + b) == Sum(a) + Sum(b)
    decreases |b|
  {
    if b != [] {
      var c := b[..|b| - 1];
      assert (a + b)[..|a + b| - 1] == a + c;
      SumAppend(a, c);
    } else {
      assert a + b == a;
    }
  }

  /** The sum does not depend on the order of the values. */
  lemma {:induction false} SumPermutation(a: seq<int>, b: seq<int>)
    requires multiset(a) == multiset(b)
    ensures Sum(a) == Sum(b)
    decreases |a|
  {
    if a == [] {
      assert |multiset(b)| == 0;
    } else {
      var x := a[|a| - 1];
      var a' := a[..|a| - 1];
      assert a == a' + [x];
      assert x in multiset(b);
      var j :| 0 <= j < |b| && b[j] == x;
      var b' := b[..j] + b[j + 1..];
      assert b == b[..j] + [x] + b[j + 1..];
      calc {
        multiset(a') + multiset{x};
        multiset(a);
        multiset(b);
        multiset(b[..j]) + multiset{x} + multiset(b[j + 1..]);
        multiset(b') + multiset{x};
      }
      assert multiset(a') == multiset(a') + multiset{x} - multiset{x};
      assert multiset(b') == multiset(b') + multiset{x} - multiset{x};
      SumPermutation(a', b');
      SumAppend(b[..j] + [x], b[j + 1..]);
      SumAppend(b[..j], [x]);
      SumAppend(b[..j], b[j + 1..]);
    }
  }

  /** The reducer's result does not depend on the order the values arrive in. */
  lemma ReduceOrderIndependent(a: seq<Int32>, b: seq<Int32>)
    requires multiset(a) == multiset(b)
    ensures ReduceValue(a) == ReduceValue(b)
  {
    SumPermutation(a, b);
  }

  lemma {:induction false} FlattenCongruent(gs: seq<seq<Int32>>)
    ensures Congruent(Sum(Flatten(gs)), Sum(Partials(gs)))
  {
    if gs != [] {
      FlattenCongruent(gs[1..]);
      SumAppend(gs[0], Flatten(gs[1..]));
      SumAppend([ReduceValue(gs[0])], Partials(gs[1..]));
      assert Sum([ReduceValue(gs[0])]) == ReduceValue(gs[0]) by {
        assert [ReduceValue(gs[0])][..0] == [];
      }
      CongruentSymmetric(ReduceValue(gs[0]), Sum(gs[0]));
      CongruentAdd(Sum(gs[0]), ReduceValue(gs[0]),
                   Sum(Flatten(gs[1..])), Sum(Partials(gs[1..])),
                   Sum(Flatten(gs)), Sum(Partials(gs)));
    }
  }

  /**
   * Combiner transparency: reducing every value at once gives what reducing
   * the per-group results of the reducer gives, wrap-around included.
   */
  lemma CombinerTransparent(gs: seq<seq<Int32>>)
    ensures ReduceValue(Flatten(gs)) == ReduceValue(Partials(gs))
  {
    FlattenCongruent(gs);
    WrapCongruent(Sum(Flatten(gs)), Sum(Partials(gs)));
  }

  class IntSumReducer {
    /** The reusable `IntWritable result` that holds the value being written. */
    var result: Int32

    constructor ()
      ensures result == 0
    {
      result := 0;
    }

    /**
     * `reduce(key, values, context)`: adds the values up in a Java `int` and
     * writes exactly one pair, (key, sum). Returns the context's contents
     * afterwards.
     */
    method Reduce(key: Key, values: seq<Int32>, context: seq<Pair>) returns (written: seq<Pair>)
      modifies this
      ensures result == ReduceValue(values)
      ensures written == context + [Pair(key, result)]
    {
      var sum: Int32 := 0;
      for i := 0 to |values|
        invariant sum == ReduceValue(values[..i])
      {
        assert values[..i + 1][..i] == values[..i];
        WrapAddLeft(Sum(values[..i]), values[i]);
        sum := AddInt(sum, values[i]);
      }
      assert values[..|values|] == values;
      result := sum;
      written := context + [Pair(key, result)];
    }
  }
}
