/** The run-statistics record (`CompileData`) and the one-line summary that
    both it and the build orchestrator print. The elapsed and average times
    come from a timer object whose code is not part of this model; they
    enter the summary as already formatted text. */
module Performance {
  import opened Wrappers
  import opened Text

  /** The integer fields of `CompileData`. None of them is a constructor
      parameter: a record always starts from zero. */
  datatype CompileData = CompileData(scriptsCount: int, successCount: int, commandCount: int)
  {
    /** Commands that did not succeed; derived, never stored. */
    function FailedCount(): (r: int)
      ensures r + successCount == commandCount
      ensures r >= 0 <==> successCount <= commandCount
    {
      commandCount - successCount
    }

    /** `to_string`: the summary line under the `Compile time: ` heading. */
    function ToString(rawTime: string, avgTime: string): (r: string)
      ensures StartsWith(r, "Compile time: ")
      ensures ParseSummaryCounts(r) == Some(Counts(successCount, FailedCount(), scriptsCount))
    {
      SummaryRoundTrip("Compile time: ", rawTime, avgTime, successCount, FailedCount(), scriptsCount);
      SummaryStartsWithHeading("Compile time: ", rawTime, avgTime, successCount, FailedCount(), scriptsCount);
      Summary("Compile time: ", rawTime, avgTime, successCount, FailedCount(), scriptsCount)
    }
  }

  /** A new record: the dataclass takes no arguments and every counter
      starts at zero, so nothing has failed yet. */
  function NewCompileData(): (d: CompileData)
    ensures d.scriptsCount == 0 && d.successCount == 0 && d.commandCount == 0
    ensures d.FailedCount() == 0
  {
    CompileData(0, 0, 0)
  }

  /** The three counts a summary line reports, in the order it reports them. */
  datatype Counts = Counts(succeeded: int, failed: int, scripts: int)

  /** `<heading><raw> (<avg>/script) - <s> succeeded, <f> failed (<n> scripts)`. */
  function Summary(heading: string, rawTime: string, avgTime: string,
                   succeeded: int, failed: int, scripts: int): string
  {
    heading + rawTime + " (" + avgTime + "/script) - "
      + IntString(succeeded) + " succeeded, "
      + IntString(failed) + " failed ("
      + IntString(scripts) + " scripts)"
  }

  /** A summary line opens with its heading. */
  lemma SummaryStartsWithHeading(heading: string, rawTime: string, avgTime: string,
                                 succeeded: int, failed: int, scripts: int)
    ensures StartsWith(Summary(heading, rawTime, avgTime, succeeded, failed, scripts), heading)
  {
    var line := Summary(heading, rawTime, avgTime, succeeded, failed, scripts);
    var tail := line[|heading|..];
    assert line == heading + tail;
  }

  /** `s` with `suffix` cut off its end, when it ends with it. */
  function CutSuffix(s: string, suffix: string): Option<string> {
    if EndsWith(s, suffix) then Some(s[..|s| - |suffix|]) else None
  }

  /** Reads the three counts back off the end of a summary line, right to
      left, whatever text the heading and the two times hold. */
  function ParseSummaryCounts(line: string): Option<Counts> {
    match CutSuffix(line, " scripts)")
    case None => None
    case Some(t1) =>
      match ParseIntSuffix(t1)
      case None => None
      case Some((t2, scripts)) =>
        match CutSuffix(t2, " failed (")
        case None => None
        case Some(t3) =>
          match ParseIntSuffix(t3)
          case None => None
          case Some((t4, failed)) =>
            match CutSuffix(t4, " succeeded, ")
            case None => None
            case Some(t5) =>
              match ParseIntSuffix(t5)
              case None => None
              case Some((t6, succeeded)) =>
                if EndsWith(t6, "/script) - ") then Some(Counts(succeeded, failed, scripts)) else None
  }

  lemma CutSuffixAppend(s: string, suffix: string)
    ensures CutSuffix(s + suffix, suffix) == Some(s)
  {
    assert (s + suffix)[|s + suffix| - |suffix|..] == suffix;
    assert (s + suffix)[..|s + suffix| - |suffix|] == s;
  }

  /** One step of the right-to-left reading: a number followed by a literal. */
  lemma ReadNumberThenLiteral(p: string, n: int, literal: string, s: string)
    requires |p| > 0 && !IsDigit(p[|p| - 1]) && p[|p| - 1] != '-'
    requires s == p + IntString(n) + literal
    ensures CutSuffix(s, literal) == Some(p + IntString(n))
    ensures ParseIntSuffix(p + IntString(n)) == Some((p, n))
  {
    CutSuffixAppend(p + IntString(n), literal);
    IntStringRoundTrip(p, n);
  }

  /** Round trip: the counts written into a summary line are read back. */
  lemma SummaryRoundTrip(heading: string, rawTime: string, avgTime: string,
                         succeeded: int, failed: int, scripts: int)
    ensures ParseSummaryCounts(Summary(heading, rawTime, avgTime, succeeded, failed, scripts))
            == Some(Counts(succeeded, failed, scripts))
  {
    var t6 := heading + rawTime + " (" + avgTime + "/script) - ";
    var t4 := t6 + IntString(succeeded) + " succeeded, ";
    var t2 := t4 + IntString(failed) + " failed (";
    var line := t2 + IntString(scripts) + " scripts)";
    assert line == Summary(heading, rawTime, avgTime, succeeded, failed, scripts);
    ReadNumberThenLiteral(t2, scripts, " scripts)", line);
    ReadNumberThenLiteral(t4, failed, " failed (", t2);
    ReadNumberThenLiteral(t6, succeeded, " succeeded, ", t4);
    assert EndsWith(t6, "/script) - ") by {
      EndsWithConcat(heading + rawTime + " (" + avgTime, "/script) - ", "/script) - ");
    }
  }
}
