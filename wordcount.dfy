/**
 * The word-count job at the level of what it computes, with no engine:
 * `ValuesOf` is the group-by-key that the framework performs between map
 * and reduce, `Combine` is IntSumReducer run as a combiner over one map
 * task's output, and the final count for a key is `ReduceValue` of the
 * values grouped under it.
 */
module WordCount {
  import opened Records
  import opened Tokenizer
  import opened WordMapper
  import opened IntSum
  import opened Seqs

  /** The values written under key `k`, in the order they were written. */
  function ValuesOf(ps: seq<Pair>, k: Key): seq<Int32>
  {
    if ps == [] then []
    else (if ps[0].key == k then [ps[0].value] else []) + ValuesOf(ps[1..], k)
  }

  lemma {:induction false} ValuesOfAppend(a: seq<Pair>, b: seq<Pair>, k: Key)
    ensures ValuesOf(a + b, k) == ValuesOf(a, k) + ValuesOf(b, k)
  {
    if a == [] {
      assert a + b == b;
    } else {
      var head := if a[0].key == k then [a[0].value] else [];
      assert (a + b)[0] == a[0] && (a + b)[1..] == a[1..] + b;
      assert ValuesOf(a + b, k) == head + ValuesOf(a[1..] + b, k);
      ValuesOfAppend(a[1..], b, k);
      assert ValuesOf(a, k) == head + ValuesOf(a[1..], k);
      assert head + (ValuesOf(a[1..], k) + ValuesOf(b, k)) == (head + ValuesOf(a[1..], k)) + ValuesOf(b, k);
    }
  }

  /** A key that was never written has no values. */
  lemma {:induction false} ValuesOfAbsent(ps: seq<Pair>, k: Key)
    requires k !in Keys(ps)
    ensures ValuesOf(ps, k) == []
  {
    if ps != [] {
      assert Keys(ps)[0] == ps[0].key;
      assert Keys(ps[1..]) == Keys(ps)[1..];
      ValuesOfAbsent(ps[1..], k);
    }
  }

  /** No key is listed twice. */
  predicate Distinct(keys: seq<Key>)
  {
    forall i, j :: 0 <= i < j < |keys| ==> keys[i] != keys[j]
  }

  /** `keys` lists each key of `ps` exactly once, in some order: how the framework groups a task's output. */
  predicate GroupsOf(ps: seq<Pair>, keys: seq<Key>)
  {
    Distinct(keys) && (forall k :: k in keys ==> k in Keys(ps)) && (forall k :: k in Keys(ps) ==> k in keys)
  }

  /** IntSumReducer as combiner over one map task's output: one pair per key. */
  function Combine(ps: seq<Pair>, keys: seq<Key>): (cs: seq<Pair>)
    ensures Keys(cs) == keys
  {
    if keys == [] then []
    else [Pair(keys[0], ReduceValue(ValuesOf(ps, keys[0])))] + Combine(ps, keys[1..])
  }

  /** After combining, a key carries one value, the reduction of its values, or none. */
  lemma {:induction false} ValuesOfCombine(ps: seq<Pair>, keys: seq<Key>, k: Key)
    requires Distinct(keys)
    ensures ValuesOf(Combine(ps, keys), k) ==
            if k in keys then [ReduceValue(ValuesOf(ps, k))] else []
  {
    if keys != [] {
      assert Distinct(keys[1..]) by {
        forall i, j | 0 <= i < j < |keys| - 1 ensures keys[1..][i] != keys[1..][j] {
          assert keys[1..][i] == keys[i + 1] && keys[1..][j] == keys[j + 1];
        }
      }
      ValuesOfCombine(ps, keys[1..], k);
      if keys[0] == k {
        assert k !in keys[1..] by {
          forall j | 0 <= j < |keys| - 1 ensures keys[1..][j] != k {
            assert keys[1..][j] == keys[j + 1];
          }
        }
      }
    }
  }

  /** Every map task's output run through the combiner, given each task's keys. */
  function CombineAll(tasks: seq<seq<Pair>>, keys: seq<seq<Key>>): (cs: seq<seq<Pair>>)
    requires |keys| == |tasks|
    ensures |cs| == |tasks|
  {
    if tasks == [] then []
    else [Combine(tasks[0], keys[0])] + CombineAll(tasks[1..], keys[1..])
  }

  /** Combining one task's output changes no key's sum modulo 2^32. */
  lemma CombineCongruent(t: seq<Pair>, keys: seq<Key>, k: Key)
    requires GroupsOf(t, keys)
    ensures Congruent(Sum(ValuesOf(Combine(t, keys), k)), Sum(ValuesOf(t, k)))
  {
    ValuesOfCombine(t, keys, k);
    var vs := ValuesOf(t, k);
    if k in keys {
      var r := ReduceValue(vs);
      assert ValuesOf(Combine(t, keys), k) == [r];
      assert Sum([r]) == r by {
        assert [r][..0] == [];
      }
    } else {
      ValuesOfAbsent(t, k);
      assert ValuesOf(Combine(t, keys), k) == [];
      CongruentReflexive(0);
    }
  }

  /** Congruent sums for two parts give congruent sums for the whole. */
  lemma CongruentAppend(c: seq<Pair>, restC: seq<Pair>, t: seq<Pair>, restT: seq<Pair>, k: Key)
    requires Congruent(Sum(ValuesOf(c, k)), Sum(ValuesOf(t, k)))
    requires Congruent(Sum(ValuesOf(restC, k)), Sum(ValuesOf(restT, k)))
    ensures Congruent(Sum(ValuesOf(c + restC, k)), Sum(ValuesOf(t + restT, k)))
  {
    var vc, vrc, vt, vrt := ValuesOf(c, k), ValuesOf(restC, k), ValuesOf(t, k), ValuesOf(restT, k);
    ValuesOfAppend(c, restC, k);
    ValuesOfAppend(t, restT, k);
    SumAppend(vc, vrc);
    SumAppend(vt, vrt);
    CongruentAdd(Sum(vc), Sum(vt), Sum(vrc), Sum(vrt),
                 Sum(ValuesOf(c + restC, k)), Sum(ValuesOf(t + restT, k)));
  }

  lemma {:induction false} CombineAllCongruent(tasks: seq<seq<Pair>>, keys: seq<seq<Key>>, k: Key)
    requires |keys| == |tasks|
    requires forall i :: 0 <= i < |tasks| ==> GroupsOf(tasks[i], keys[i])
    ensures Congruent(Sum(ValuesOf(Flatten(CombineAll(tasks, keys)), k)),
                      Sum(ValuesOf(Flatten(tasks), k)))
  {
    if tasks == [] {
      CongruentReflexive(0);
    } else {
      var t, c := tasks[0], Combine(tasks[0], keys[0]);
      var restT, restC := Flatten(tasks[1..]), Flatten(CombineAll(tasks[1..], keys[1..]));
      assert Flatten(tasks) == t + restT;
      assert Flatten(CombineAll(tasks, keys)) == c + restC;
      assert forall i :: 0 <= i < |tasks| - 1 ==> tasks[1..][i] == tasks[i + 1] && keys[1..][i] == keys[i + 1];
      CombineAllCongruent(tasks[1..], keys[1..], k);
      CombineCongruent(t, keys[0], k);
      CongruentAppend(c, restC, t, restT, k);
    }
  }

  /**
   * Combiner transparency for the job: whatever the split of the map output
   * into tasks, running IntSumReducer as combiner on each task and then as
   * reducer gives every key the count the reducer alone would give it.
   */
  lemma CombinerPreservesCounts(tasks: seq<seq<Pair>>, keys: seq<seq<Key>>, k: Key)
    requires |keys| == |tasks|
    requires forall i :: 0 <= i < |tasks| ==> GroupsOf(tasks[i], keys[i])
    ensures ReduceValue(ValuesOf(Flatten(CombineAll(tasks, keys)), k))
            == ReduceValue(ValuesOf(Flatten(tasks), k))
  {
    CombineAllCongruent(tasks, keys, k);
    WrapCongruent(Sum(ValuesOf(Flatten(CombineAll(tasks, keys)), k)),
                  Sum(ValuesOf(Flatten(tasks), k)));
  }

  /** Every line of the input mapped, outputs one after the other. */
  function MapLines(lines: seq<seq<char>>): seq<Pair>
  {
    if lines == [] then [] else MapOutput(lines[0]) + MapLines(lines[1..])
  }

  /** Every token of the input, in order. */
  function AllTokens(lines: seq<seq<char>>): seq<Key>
  {
    if lines == [] then [] else Tokens(lines[0]) + AllTokens(lines[1..])
  }

  lemma {:induction false} EmitOnesAppend(a: seq<Key>, b: seq<Key>)
    ensures EmitOnes(a + b) == EmitOnes(a) + EmitOnes(b)
  {
    assert forall i :: 0 <= i < |a + b| ==> EmitOnes(a + b)[i] == (EmitOnes(a) + EmitOnes(b))[i];
  }

  lemma {:induction false} MapLinesEmitsAllTokens(lines: seq<seq<char>>)
    ensures MapLines(lines) == EmitOnes(AllTokens(lines))
  {
    if lines != [] {
      MapLinesEmitsAllTokens(lines[1..]);
      EmitOnesAppend(Tokens(lines[0]), AllTokens(lines[1..]));
    }
  }

  lemma {:induction false} SumOfOnes(ts: seq<Key>, k: Key)
    ensures Sum(ValuesOf(EmitOnes(ts), k)) == multiset(ts)[k]
  {
    if ts != [] {
      var ps := EmitOnes(ts);
      assert ps[1..] == EmitOnes(ts[1..]);
      SumOfOnes(ts[1..], k);
      var head := if ts[0] == k then [One] else [];
      SumAppend(head, ValuesOf(ps[1..], k));
      assert Sum(head) == if ts[0] == k then 1 else 0 by {
        if ts[0] == k { assert head[..0] == []; }
      }
      assert ts == [ts[0]] + ts[1..];
    }
  }

  /**
   * Word count: the value the job writes for `k` is the number of times `k`
   * occurs as a token in the input, as a Java `int`.
   */
  lemma WordCountIsOccurrences(lines: seq<seq<char>>, k: Key)
    ensures ReduceValue(ValuesOf(MapLines(lines), k)) == Wrap(multiset(AllTokens(lines))[k])
  {
    MapLinesEmitsAllTokens(lines);
    SumOfOnes(AllTokens(lines), k);
  }

  /** A line of three one-character tokens separated by single commas. */
  lemma ThreeTokenLine(x: char, y: char, z: char)
    requires x != Comma && y != Comma && z != Comma
    ensures Tokens([x, Comma, y, Comma, z]) == [[x], [y], [z]]
  {
    var s := [x, Comma, y, Comma, z];
    var r1 := [y, Comma, z];
    var r2 := [Comma, z];
    FirstToken(s, 1);
    assert s[..1] == [x] && s[1..] == [Comma] + r1;
    SkipCommas(s[1..], 1);
    assert s[1..][1..] == r1;
    FirstToken(r1, 1);
    assert r1[..1] == [y] && r1[1..] == r2;
    SkipCommas(r2, 1);
    assert r2[1..] == [z];
    SingleToken([z]);
  }

  /** The tokens of the two lines "a,b,a" and "b,c,a". */
  lemma TwoLineExampleTokens(lines: seq<seq<char>>)
    requires lines == ["a,b,a", "b,c,a"]
    ensures AllTokens(lines) == ["a", "b", "a", "b", "c", "a"]
  {
    ThreeTokenLine('a', 'b', 'a');
    ThreeTokenLine('b', 'c', 'a');
    assert lines[0] == ['a', Comma, 'b', Comma, 'a'];
    assert lines[1] == ['b', Comma, 'c', Comma, 'a'];
    assert AllTokens(lines[1..][1..]) == [];
    assert AllTokens(lines[1..]) == Tokens(lines[1]) + [];
    assert AllTokens(lines) == Tokens(lines[0]) + AllTokens(lines[1..]);
  }

  /** The two lines "a,b,a" and "b,c,a" count a three times, b twice and c once. */
  lemma TwoLineExample(lines: seq<seq<char>>)
    requires lines == ["a,b,a", "b,c,a"]
    ensures ReduceValue(ValuesOf(MapLines(lines), "a")) == 3
    ensures ReduceValue(ValuesOf(MapLines(lines), "b")) == 2
    ensures ReduceValue(ValuesOf(MapLines(lines), "c")) == 1
  {
    TwoLineExampleTokens(lines);
    var ts := AllTokens(lines);
    assert ts == ["a", "b", "a"] + ["b", "c", "a"];
    assert multiset(ts)["a"] == 3 && multiset(ts)["b"] == 2 && multiset(ts)["c"] == 1;
    WordCountIsOccurrences(lines, "a");
    WordCountIsOccurrences(lines, "b");
    WordCountIsOccurrences(lines, "c");
  }
}
