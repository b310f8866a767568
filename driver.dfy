/**
 * SimpleExample.main after option parsing: checks that at least two
 * arguments remain, configures the "word count" job with TokenizerMapper
 * as mapper and IntSumReducer as combiner and reducer, submits it and
 * turns its completion status into the process exit code.
 *
 * The cluster is not modelled: `waitForCompletion` stands for whatever
 * the framework reports for the configured job.
 */
module Driver {
  import opened Wrappers

  /** The user classes main plugs into the job. */
  datatype Stage = TokenizerMapperStage | IntSumReducerStage

  /** The job description main builds before submitting it. */
  datatype JobConfig = JobConfig(
    name: string,
    mapper: Stage,
    combiner: Stage,
    reducer: Stage,
    inputPaths: seq<string>,
    outputPath: string)

  /** What main ends with: the code given to System.exit, and the job it submitted, if any. */
  datatype Launch = Launch(exitCode: int, job: Option<JobConfig>)

  /** The job as main configures it for the given input and output paths. */
  function WordCountJob(inputPaths: seq<string>, outputPath: string): JobConfig
  {
    JobConfig("word count", TokenizerMapperStage, IntSumReducerStage, IntSumReducerStage,
              inputPaths, outputPath)
  }

  /**
   * main as written: with fewer than two remaining arguments it exits with 2
   * and configures nothing; otherwise it reads the input from the first
   * argument and the output from the second and exits with 0 if the job
   * succeeded and 1 if not.
   */
  function Main(otherArgs: seq<string>, waitForCompletion: JobConfig -> bool): (r: Launch)
    ensures r.exitCode == 2 <==> |otherArgs| < 2
    ensures r.job == None <==> |otherArgs| < 2
    ensures r.job != None ==>
              r.job.value == WordCountJob([otherArgs[0]], otherArgs[1])
              && (r.exitCode == 0 <==> waitForCompletion(r.job.value))
              && (r.exitCode == 1 <==> !waitForCompletion(r.job.value))
  {
    if |otherArgs| < 2 then Launch(2, None)
    else
      var job := WordCountJob([otherArgs[0]], otherArgs[1]);
      Launch(if waitForCompletion(job) then 0 else 1, Some(job))
  }

  /** Arguments after the second one are ignored. */
  lemma MainIgnoresExtraArguments(otherArgs: seq<string>, extra: seq<string>,
                                  waitForCompletion: JobConfig -> bool)
    requires |otherArgs| >= 2
    ensures Main(otherArgs + extra, waitForCompletion) == Main(otherArgs, waitForCompletion)
  {
    assert (otherArgs + extra)[0] == otherArgs[0] && (otherArgs + extra)[1] == otherArgs[1];
  }

  /**
   * main as its usage line "wordcount <in> [<in>...] <out>" describes it:
   * every argument but the last is an input and the last is the output.
   */
  function MainAsUsage(otherArgs: seq<string>, waitForCompletion: JobConfig -> bool): (r: Launch)
    ensures r.exitCode == 2 <==> |otherArgs| < 2
    ensures r.job == None <==> |otherArgs| < 2
    ensures r.job != None ==>
              r.job.value.inputPaths + [r.job.value.outputPath] == otherArgs
              && (r.exitCode == 0 <==> waitForCompletion(r.job.value))
              && (r.exitCode == 1 <==> !waitForCompletion(r.job.value))
  {
    if |otherArgs| < 2 then Launch(2, None)
    else
      var job := WordCountJob(otherArgs[..|otherArgs| - 1], otherArgs[|otherArgs| - 1]);
      Launch(if waitForCompletion(job) then 0 else 1, Some(job))
  }

  /** With exactly two arguments the code and its usage line agree. */
  lemma MainMatchesUsageOnTwoArguments(otherArgs: seq<string>, waitForCompletion: JobConfig -> bool)
    requires |otherArgs| == 2
    ensures Main(otherArgs, waitForCompletion) == MainAsUsage(otherArgs, waitForCompletion)
  {
    assert otherArgs[..1] == [otherArgs[0]];
  }

  /**
   * With the three arguments `in1 in2 out` that the usage line allows, main
   * reads only `in1`, writes to the second input `in2`, and ignores `out`.
   */
  lemma UsageLineMismatch(waitForCompletion: JobConfig -> bool)
    ensures var args := ["in1", "in2", "out"];
            var job := Main(args, waitForCompletion).job.value;
            job.inputPaths == ["in1"] && job.outputPath == "in2"
            && MainAsUsage(args, waitForCompletion).job.value.outputPath == "out"
  {
  }
}
