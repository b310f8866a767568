/** Sequence helpers shared by the tokenizer, the reducer and the job model. */
module Seqs {

  /** The elements of `ss`, laid end to end in order. */
  function Flatten<T>(ss: seq<seq<T>>): seq<T>
  {
    if ss == [] then [] else ss[0] + Flatten(ss[1..])
  }
}
