# Word count: a verified model of SimpleExample

`SimpleExample` is a Hadoop MapReduce word-count job. `TokenizerMapper.map`
splits each input line on commas with `java.util.StringTokenizer` and writes
`(token, 1)` for every token. `IntSumReducer.reduce` adds up the values of one
key in a Java `int` and writes `(key, sum)`. The job uses it both as combiner
and as reducer. `main` checks that an input and an output argument are
present, wires the classes into a job called "word count", submits it, and
exits with 0 or 1 depending on the job's success, or 2 on a usage error.
An exception from one of the library calls also ends it, with status 1.

The Dafny model has one module per concern:

- `Seqs`: `Flatten`, a sequence of sequences laid end to end.
- `Records`: Java `int` values (`Int32`) with their 32-bit wrap-around
  (`Wrap`, `AddInt`), and the `(key, value)` pairs written to a context.
- `Tokenizer`: the comma tokenizer. `Tokens` is the specification.
  `Fields`/`NonEmpty` is an independent reference: split at every comma,
  then drop the empty fields. `StringTokenizer` is a class with a cursor
  (`currentPosition`), the way `java.util.StringTokenizer` scans: skip
  delimiters, then scan a token.
- `WordMapper`: the class `TokenizerMapper` with its reusable `word` field.
  Its `Map` method drives the `hasMoreTokens`/`nextToken` loop and is proved
  to write exactly `MapOutput(value)`.
- `IntSum`: the class `IntSumReducer` with its reusable `result` field.
  Its `Reduce` method holds the summing loop and is proved to write exactly
  one pair, `(key, ReduceValue(values))`. The module also has the lemmas
  that the sum ignores value order and that the reducer can serve as its
  own combiner.
- `WordCount`: the job's meaning with no engine. `ValuesOf` is the group-by
  on the key. `Combine` is the combiner applied to one map task's output.
  The lemmas prove that combining never changes a count, and that the count
  for a key is its number of occurrences among the tokens.
- `Driver`: `main`'s argument check, job configuration and exit code, as a
  pure function.

A context is modelled as the sequence of pairs written to it. `map` and
`reduce` take that sequence and return it with their own pairs appended.

The summation is modelled with Java's wrap-around modulo 2^32. This is not
assumed away. Every statement about sums, including combiner transparency,
holds exactly with wrap-around, because addition modulo 2^32 is
associative and commutative.

`map` splits on the comma only. Newlines are not separators inside `map`,
because the framework hands it one line at a time (`WordCount.MapLines`
models the input as a sequence of lines).

## Model

| member | source | states |
|---|---|---|
| `Records.Wrap` | mapreduce-exmple-normal/src/main/java/com/h3c/mapreduce/SimpleExample.java:76 | the Java `int` result is congruent to the exact value modulo 2^32, and equals it when it fits in 32 bits |
| `Records.AddInt` | mapreduce-exmple-normal/src/main/java/com/h3c/mapreduce/SimpleExample.java:76 | Java `int` addition `sum + val` is the exact sum modulo 2^32 |
| `Records.WrapAddLeft` | mapreduce-exmple-normal/src/main/java/com/h3c/mapreduce/SimpleExample.java:75-77 | wrapping the running sum at each step gives the same result as wrapping once at the end |
| `Tokenizer.TokenLength` | mapreduce-exmple-normal/src/main/java/com/h3c/mapreduce/SimpleExample.java:106 | the scanned token runs exactly to the first comma or to the end of the line |
| `Tokenizer.Tokens` | mapreduce-exmple-normal/src/main/java/com/h3c/mapreduce/SimpleExample.java:103-106 | every token is non-empty and contains no comma |
| `Tokenizer.Fields` | mapreduce-exmple-normal/src/main/java/com/h3c/mapreduce/SimpleExample.java:103 | the reference split produces at least one field, and no field contains a comma |
| `Tokenizer.JoinFields` | mapreduce-exmple-normal/src/main/java/com/h3c/mapreduce/SimpleExample.java:103 | splitting at every comma and joining with commas gives the line back |
| `Tokenizer.FieldsJoin` | mapreduce-exmple-normal/src/main/java/com/h3c/mapreduce/SimpleExample.java:103 | joining comma-free fields with commas and splitting again gives the fields back |
| `Tokenizer.TokensAreNonEmptyFields` | mapreduce-exmple-normal/src/main/java/com/h3c/mapreduce/SimpleExample.java:103-106 | the tokens are exactly the non-empty comma-separated fields, in order, so comma runs and leading or trailing commas give no empty token |
| `Tokenizer.ConcatTokens` | mapreduce-exmple-normal/src/main/java/com/h3c/mapreduce/SimpleExample.java:103-106 | the tokens laid end to end equal the line with every comma removed, so tokens keep their order |
| `Tokenizer.TokenCount` | mapreduce-exmple-normal/src/main/java/com/h3c/mapreduce/SimpleExample.java:105-106 | the number of tokens equals the number of maximal non-empty comma-free runs, counted character by character |
| `Tokenizer.NoTokensIffOnlyCommas` | mapreduce-exmple-normal/src/main/java/com/h3c/mapreduce/SimpleExample.java:103-105 | a line has no tokens if and only if it is empty or made only of commas |
| `Tokenizer.SingleToken` | mapreduce-exmple-normal/src/main/java/com/h3c/mapreduce/SimpleExample.java:103-106 | a non-empty line with no comma is one token: the whole line, spaces included |
| `Tokenizer.SkipCommas` | mapreduce-exmple-normal/src/main/java/com/h3c/mapreduce/SimpleExample.java:105 | skipping leading commas does not change the tokens |
| `Tokenizer.FirstToken` | mapreduce-exmple-normal/src/main/java/com/h3c/mapreduce/SimpleExample.java:106 | at a non-comma, the first token runs to the next comma and the rest of the tokens follow it |
| `Tokenizer.StringTokenizer.constructor` | mapreduce-exmple-normal/src/main/java/com/h3c/mapreduce/SimpleExample.java:103 | a new tokenizer starts at position 0 with all of the line's tokens remaining |
| `Tokenizer.StringTokenizer.SkipDelimiters` | mapreduce-exmple-normal/src/main/java/com/h3c/mapreduce/SimpleExample.java:105 | returns the first non-comma position at or after the start, or the end; everything skipped is a comma |
| `Tokenizer.StringTokenizer.ScanToken` | mapreduce-exmple-normal/src/main/java/com/h3c/mapreduce/SimpleExample.java:106 | returns the first comma at or after the start, or the end; everything scanned is a non-comma |
| `Tokenizer.StringTokenizer.HasMoreTokens` | mapreduce-exmple-normal/src/main/java/com/h3c/mapreduce/SimpleExample.java:105 | true if and only if at least one token remains |
| `Tokenizer.StringTokenizer.NextToken` | mapreduce-exmple-normal/src/main/java/com/h3c/mapreduce/SimpleExample.java:106 | returns the first remaining token and removes it; with none left it fails (`None`) and nothing remains |
| `WordMapper.EmitOnes` | mapreduce-exmple-normal/src/main/java/com/h3c/mapreduce/SimpleExample.java:105-108 | one pair per token, at the same position, with value `one` = 1 |
| `WordMapper.MapWritesTokensWithOne` | mapreduce-exmple-normal/src/main/java/com/h3c/mapreduce/SimpleExample.java:105-108 | the keys written are the tokens in order, and every value written is 1 |
| `WordMapper.MapKeysWellFormed` | mapreduce-exmple-normal/src/main/java/com/h3c/mapreduce/SimpleExample.java:103-108 | every key written is non-empty and contains no comma |
| `WordMapper.MapKeysSpellLine` | mapreduce-exmple-normal/src/main/java/com/h3c/mapreduce/SimpleExample.java:103-106 | the keys written, concatenated, equal the line with its commas removed |
| `WordMapper.MapPairCount` | mapreduce-exmple-normal/src/main/java/com/h3c/mapreduce/SimpleExample.java:105-108 | the number of pairs written equals the number of maximal non-empty comma-free runs |
| `WordMapper.MapWritesNothingIffOnlyCommas` | mapreduce-exmple-normal/src/main/java/com/h3c/mapreduce/SimpleExample.java:103-105 | nothing is written if and only if the line is empty or only commas |
| `WordMapper.MapCommaFreeLine` | mapreduce-exmple-normal/src/main/java/com/h3c/mapreduce/SimpleExample.java:103-108 | a non-empty comma-free line writes exactly `(line, 1)` |
| `WordMapper.TokenizerMapper.constructor` | mapreduce-exmple-normal/src/main/java/com/h3c/mapreduce/SimpleExample.java:90-91 | the reusable `word` starts empty |
| `WordMapper.TokenizerMapper.Map` | mapreduce-exmple-normal/src/main/java/com/h3c/mapreduce/SimpleExample.java:101-110 | the context afterwards is the old context followed by `MapOutput(value)`; `word` holds the last token, or is unchanged when there is none |
| `IntSum.ReduceValue` | mapreduce-exmple-normal/src/main/java/com/h3c/mapreduce/SimpleExample.java:74-78 | the value written is congruent to the sum of the values modulo 2^32, equals it when it fits in an `int`, and is 0 for no values |
| `IntSum.Partials` | mapreduce-exmple-normal/src/main/java/com/h3c/mapreduce/SimpleExample.java:43 | the combiner writes one value per group, and the value at each position is the reducer's result for that group |
| `IntSum.SumAppend` | mapreduce-exmple-normal/src/main/java/com/h3c/mapreduce/SimpleExample.java:75-77 | the sum of two value lists in sequence is the sum of their sums |
| `IntSum.SumPermutation` | mapreduce-exmple-normal/src/main/java/com/h3c/mapreduce/SimpleExample.java:74-77 | two value lists with the same elements, in any order, have the same sum |
| `IntSum.ReduceOrderIndependent` | mapreduce-exmple-normal/src/main/java/com/h3c/mapreduce/SimpleExample.java:74-78 | the reducer's result does not depend on the order of its values |
| `IntSum.FlattenCongruent` | mapreduce-exmple-normal/src/main/java/com/h3c/mapreduce/SimpleExample.java:74-78 | summing everything and summing the per-group results agree modulo 2^32 |
| `IntSum.CombinerTransparent` | mapreduce-exmple-normal/src/main/java/com/h3c/mapreduce/SimpleExample.java:43-44 | reducing all values at once equals reducing the reducer's results for each group, wrap-around included |
| `IntSum.IntSumReducer.constructor` | mapreduce-exmple-normal/src/main/java/com/h3c/mapreduce/SimpleExample.java:61-63 | the reusable `result` starts at 0 |
| `IntSum.IntSumReducer.Reduce` | mapreduce-exmple-normal/src/main/java/com/h3c/mapreduce/SimpleExample.java:73-81 | writes exactly one pair, with the input key and the wrapped sum of the values; `result` holds that sum |
| `WordCount.ValuesOfAppend` | mapreduce-exmple-normal/src/main/java/com/h3c/mapreduce/SimpleExample.java:43-44 | grouping output written in two parts gives the first part's values followed by the second part's |
| `WordCount.ValuesOfAbsent` | mapreduce-exmple-normal/src/main/java/com/h3c/mapreduce/SimpleExample.java:73 | a key never written has no values |
| `WordCount.Combine` | mapreduce-exmple-normal/src/main/java/com/h3c/mapreduce/SimpleExample.java:43 | the combiner writes one pair per key of its task, in the order it is given the keys |
| `WordCount.ValuesOfCombine` | mapreduce-exmple-normal/src/main/java/com/h3c/mapreduce/SimpleExample.java:43 | after combining, a key carries exactly one value, the reduction of its values, or none if the task did not write it |
| `WordCount.CombineCongruent` | mapreduce-exmple-normal/src/main/java/com/h3c/mapreduce/SimpleExample.java:43 | combining one task's output keeps every key's sum modulo 2^32 |
| `WordCount.CongruentAppend` | mapreduce-exmple-normal/src/main/java/com/h3c/mapreduce/SimpleExample.java:43-44 | congruent sums for the two parts of an output give congruent sums for the whole |
| `WordCount.CombineAllCongruent` | mapreduce-exmple-normal/src/main/java/com/h3c/mapreduce/SimpleExample.java:43-44 | over any number of map tasks, combining keeps every key's total sum modulo 2^32 |
| `WordCount.CombinerPreservesCounts` | mapreduce-exmple-normal/src/main/java/com/h3c/mapreduce/SimpleExample.java:43-44 | for any split of the map output into tasks, combining each task with IntSumReducer and then reducing gives every key the value reduction alone gives |
| `WordCount.MapLinesEmitsAllTokens` | mapreduce-exmple-normal/src/main/java/com/h3c/mapreduce/SimpleExample.java:101-110 | mapping every line writes `(token, 1)` for every token of the input, in order |
| `WordCount.SumOfOnes` | mapreduce-exmple-normal/src/main/java/com/h3c/mapreduce/SimpleExample.java:89 | summing the 1s written under a key gives the number of times it occurs as a token |
| `WordCount.WordCountIsOccurrences` | mapreduce-exmple-normal/src/main/java/com/h3c/mapreduce/SimpleExample.java:41-44 | the value the job writes for a key is its number of occurrences as a token in the input, as a Java `int` |
| `WordCount.ThreeTokenLine` | mapreduce-exmple-normal/src/main/java/com/h3c/mapreduce/SimpleExample.java:103-106 | `x,y,z` with single non-comma characters tokenizes to `x`, `y`, `z` |
| `WordCount.TwoLineExampleTokens` | mapreduce-exmple-normal/src/main/java/com/h3c/mapreduce/SimpleExample.java:103-106 | the lines `a,b,a` and `b,c,a` give the tokens a b a b c a |
| `WordCount.TwoLineExample` | mapreduce-exmple-normal/src/main/java/com/h3c/mapreduce/SimpleExample.java:41-44 | for the lines `a,b,a` and `b,c,a` the job writes a=3, b=2, c=1 |
| `Driver.Main` | mapreduce-exmple-normal/src/main/java/com/h3c/mapreduce/SimpleExample.java:32-53 | exit code 2 if and only if fewer than two arguments remain, and then no job is configured; otherwise the job reads `otherArgs[0]`, writes `otherArgs[1]`, uses TokenizerMapper with IntSumReducer as combiner and reducer, and exits 0 exactly when it succeeds and 1 exactly when it fails |
| `Driver.MainIgnoresExtraArguments` | mapreduce-exmple-normal/src/main/java/com/h3c/mapreduce/SimpleExample.java:49-50 | arguments after the second one do not change what main does |
| `Driver.MainAsUsage` | mapreduce-exmple-normal/src/main/java/com/h3c/mapreduce/SimpleExample.java:33 | the usage line's reading: every argument but the last is an input, the last is the output, with the same exit codes |
| `Driver.MainMatchesUsageOnTwoArguments` | mapreduce-exmple-normal/src/main/java/com/h3c/mapreduce/SimpleExample.java:32-50 | with exactly two arguments the code and its usage line agree |
| `Driver.UsageLineMismatch` | mapreduce-exmple-normal/src/main/java/com/h3c/mapreduce/SimpleExample.java:33-50 | for `in1 in2 out` the code reads only `in1` and writes to `in2`, where the usage line says it writes to `out` |

## Left out

- Hadoop's `Configuration`, `GenericOptionsParser`, `Job`, `FileInputFormat`,
  `FileOutputFormat`, `Path` and `setJarByClass`/`setOutputKeyClass`/`setOutputValueClass`
  are library calls and cluster I/O. `Driver.Main` takes the arguments that
  remain after option parsing (`otherArgs`). It takes the job's success as the
  parameter `waitForCompletion`, a function of the configured job.
- Exceptions thrown by the library calls in `main` (declared `throws
  Exception`) are not modelled: for example, job submission inside
  `waitForCompletion` failing because the output directory exists or an
  input path is missing, or `GenericOptionsParser` rejecting a bad option.
  Such an exception ends the JVM with status 1 without reaching
  `System.exit`; the model reaches status 1 only through `waitForCompletion`
  returning false, so the set of exit codes is the same.
- `System.err.println` of the usage line, and process termination by
  `System.exit`, are not modelled. The exit code is returned as a value.
- `Text` and `IntWritable` serialisation, and the `Context` object, are not
  modelled. Keys are character sequences with no UTF-8 decoding. A context is
  the sequence of pairs written so far. The `IOException` and
  `InterruptedException` that `context.write` may throw are not modelled.
- The `key` argument of `map` (the line's byte offset) is accepted and ignored,
  as in the source.
- The distributed engine is not modelled. That covers input splitting into
  lines, partitioning, spill, sort, shuffle, scheduling, retries and the
  sorted key order of the reducer's output. Grouping by key is the
  specification function `WordCount.ValuesOf`. The engine may deliver
  values in any order, and `IntSum.ReduceOrderIndependent` covers that.
  `WordCount.Combine` takes each task's distinct keys in any order the
  engine chooses.
- `StringTokenizer` is modelled only as the mapper constructs it: delimiter
  set {','}, delimiters not returned. Its `newPosition` cache, which
  `hasMoreTokens` fills and `nextToken` reuses, is left out. It saves a
  rescan and does not change any result. Its handling of supplementary code
  points does not arise, because ',' is a single UTF-16 unit.
- Each mapper and reducer object is used by one thread, as the framework
  guarantees, so the reuse of `word` and `result` across calls is modelled
  sequentially.

## Findings

| source | as written | input that shows it | evidently intended | confidence | as-written member | corrected member |
|---|---|---|---|---|---|---|
| mapreduce-exmple-normal/src/main/java/com/h3c/mapreduce/SimpleExample.java:33-50 | the input is `otherArgs[0]`, the output is `otherArgs[1]`, and further arguments are ignored | `otherArgs = in1 in2 out`: only `in1` is read, the output goes to the second input `in2`, and `out` is ignored | the usage line `wordcount <in> [<in>...] <out>`: every argument but the last is an input and the last is the output | medium, not executed | `Driver.UsageLineMismatch` (about `Driver.Main`) | `Driver.MainAsUsage` |

`Driver.Main` stays the model of `main` as it is written. `MainAsUsage`
proves the usage line's contract, and
`MainMatchesUsageOnTwoArguments` proves that both agree on every call with
exactly two arguments.
