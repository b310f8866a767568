/**
 * SimpleExample.TokenizerMapper: for every token of the input line, write
 * the pair (token, 1). The context it writes to is modelled as the sequence
 * of pairs written so far.
 */
module WordMapper {
  import opened Records
  import opened Tokenizer
  import opened Seqs

  /** The mapper's shared `IntWritable one`. */
  const One: Int32 := 1

  /** One (token, 1) pair per token, in token order. */
  function EmitOnes(ts: seq<Key>): (ps: seq<Pair>)
    ensures |ps| == |ts|
    ensures forall i :: 0 <= i < |ps| ==> ps[i] == Pair(ts[i], One)
  {
    if ts == [] then [] else [Pair(ts[0], One)] + EmitOnes(ts[1..])
  }

  /** Everything one call of `map` writes for the line `value`. */
  function MapOutput(value: seq<char>): seq<Pair>
  {
    EmitOnes(Tokens(value))
  }

  /** The keys written are the line's tokens, in order, and every value is 1. */
  lemma MapWritesTokensWithOne(value: seq<char>)
    ensures Keys(MapOutput(value)) == Tokens(value)
    ensures forall p :: p in MapOutput(value) ==> p.value == 1
  {
    var ps := MapOutput(value);
    assert forall i :: 0 <= i < |ps| ==> Keys(ps)[i] == Tokens(value)[i];
  }

  /** Every key written is non-empty and contains no comma. */
  lemma MapKeysWellFormed(value: seq<char>)
    ensures forall p :: p in MapOutput(value) ==> p.key != [] && Comma !in p.key
  {
    var ps, ts := MapOutput(value), Tokens(value);
    forall p | p in ps
      ensures p.key != [] && Comma !in p.key
    {
      var i :| 0 <= i < |ps| && ps[i] == p;
      assert ts[i] in ts;
    }
  }

  /** The keys written, laid end to end, spell the line without its commas. */
  lemma MapKeysSpellLine(value: seq<char>)
    ensures Flatten(Keys(MapOutput(value))) == RemoveCommas(value)
  {
    MapWritesTokensWithOne(value);
    ConcatTokens(value);
  }

  /** One pair is written per maximal non-empty comma-free run of the line. */
  lemma MapPairCount(value: seq<char>)
    ensures |MapOutput(value)| == RunCount(value)
  {
    TokenCount(value);
  }

  /** Nothing is written exactly when the line is empty or made only of commas. */
  lemma MapWritesNothingIffOnlyCommas(value: seq<char>)
    ensures MapOutput(value) == [] <==> forall k :: 0 <= k < |value| ==> value[k] == Comma
  {
    NoTokensIffOnlyCommas(value);
  }

  /** A non-empty line without a comma is written as one pair: (the whole line, 1). */
  lemma MapCommaFreeLine(value: seq<char>)
    requires value != [] && Comma !in value
    ensures MapOutput(value) == [Pair(value, 1)]
  {
    SingleToken(value);
  }

  class TokenizerMapper {
    /** The reusable `Text word` that holds the token being written. */
    var word: Key

    constructor ()
      ensures word == []
    {
      word := [];
    }

    /**
     * `map(key, value, context)`: tokenizes `value` on commas and writes
     * (token, 1) for each token. `key` (the line's byte offset) is unused,
     * as in the source. Returns the context's contents afterwards; `word`
     * is left holding the last token written.
     */
    method Map(key: int, value: seq<char>, context: seq<Pair>) returns (written: seq<Pair>)
      modifies this
      ensures written == context + MapOutput(value)
      ensures Tokens(value) == [] ==> word == old(word)
      ensures Tokens(value) != [] ==> word == Tokens(value)[|Tokens(value)| - 1]
    {
      var itr := new StringTokenizer(value);
      written := context;
      var more := itr.HasMoreTokens();
      while more
        invariant itr.Valid() && itr.str == value
        invariant more <==> itr.Remaining() != []
        invariant written + EmitOnes(itr.Remaining()) == context + MapOutput(value)
        invariant |written| == |context| ==> word == old(word)
        invariant |written| > |context| ==> word == written[|written| - 1].key
        decreases |itr.Remaining()|
      {
        var t := itr.NextToken();
        word := t.value;
        written := written + [Pair(word, One)];
        more := itr.HasMoreTokens();
      }
      assert written == context + MapOutput(value);
    }
  }
}
