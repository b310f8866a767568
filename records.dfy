/**
 * The records that flow through the word-count job: Java `int` values
 * (`IntWritable`) with their 32-bit two's-complement wrap-around, and the
 * (key, value) pairs a mapper or reducer writes to its context.
 */
module Records {

  /** The modulus of Java `int` arithmetic. */
  const Modulus: int := 0x1_0000_0000

  /** The values a Java `int` can hold. */
  type Int32 = x: int | -0x8000_0000 <= x < 0x8000_0000

  /** `x` and `y` differ by a multiple of 2^32. */
  predicate Congruent(x: int, y: int)
  {
    (x - y) % Modulus == 0
  }

  /** Reduces a mathematical integer to the Java `int` with the same residue mod 2^32. */
  function Wrap(x: int): (r: Int32)
    ensures Congruent(r, x)
    ensures -0x8000_0000 <= x < 0x8000_0000 ==> r == x
  {
    (x + 0x8000_0000) % Modulus - 0x8000_0000
  }

  /** Java's `a + b` on two `int`s. */
  function AddInt(a: Int32, b: Int32): (r: Int32)
    ensures Congruent(r, a + b)
  {
    Wrap(a + b)
  }

  /** Two integers congruent mod 2^32 wrap to the same Java `int`. */
  lemma WrapCongruent(x: int, y: int)
    requires Congruent(x, y)
    ensures Wrap(x) == Wrap(y)
  {
  }

  lemma CongruentReflexive(x: int)
    ensures Congruent(x, x)
  {
  }

  lemma CongruentSymmetric(x: int, y: int)
    requires Congruent(x, y)
    ensures Congruent(y, x)
  {
    var q := (x - y) / Modulus;
    assert y - x == (-q) * Modulus;
  }

  /** Congruence mod 2^32 is preserved by addition. */
  lemma CongruentAdd(a: int, b: int, c: int, d: int, sum1: int, sum2: int)
    requires Congruent(a, b) && Congruent(c, d)
    requires sum1 == a + c && sum2 == b + d
    ensures Congruent(sum1, sum2)
  {
    var p, q := (a - b) / Modulus, (c - d) / Modulus;
    assert sum1 - sum2 == (p + q) * Modulus;
  }

  /** Wrapping an operand of a sum first does not change the wrapped sum. */
  lemma WrapAddLeft(a: int, b: int)
    ensures Wrap(Wrap(a) + b) == Wrap(a + b)
  {
    WrapCongruent(Wrap(a) + b, a + b);
  }

  /** The key of a pair is a Java `Text`, modelled as its characters. */
  type Key = seq<char>

  /** One `context.write(key, value)` record. */
  datatype Pair = Pair(key: Key, value: Int32)

  /** The keys of a run of written pairs, in the order they were written. */
  function Keys(ps: seq<Pair>): (ks: seq<Key>)
    ensures |ks| == |ps|
    ensures forall i :: 0 <= i < |ps| ==> ks[i] == ps[i].key
  {
    if ps == [] then [] else [ps[0].key] + Keys(ps[1..])
  }
}
