/** The run over all configured sources: each source is classified in
    configuration order, one result record is appended per source, the
    summary counters are updated after each one, and the exit status is
    decided from the failure count. */
module FeedAggregator {
  import opened FeedValidator

  /** One configured source, as loaded from the configuration file. */
  datatype Source = Source(name: string, url: string, category: string)

  /** The record appended to the report for one source. */
  datatype FeedResult =
    FeedResult(name: string, url: string, category: string, working: bool, message: string)

  datatype Summary = Summary(total: nat, working: nat, failed: nat)

  /** The status document: the run's timestamp, one result per source in
      configuration order, and the summary counters. */
  datatype RunReport = RunReport(timestamp: string, feeds: seq<FeedResult>, summary: Summary)

  /** The record for a source whose fetch-and-parse gave outcome o. */
  function ResultFor(s: Source, o: ParseOutcome): (r: FeedResult)
    ensures r.name == s.name && r.url == s.url && r.category == s.category
    ensures r.working <==> IsValidOutcome(o)
    ensures Diagnose(Verdict(r.working, r.message)) == Some(ReasonOf(o))
  {
    var v := VerifyRssFeed(o);
    DiagnoseRecoversReason(ReasonOf(o));
    FeedResult(s.name, s.url, s.category, v.working, v.message)
  }

  /** The results of classifying every source, in order. */
  function Results(sources: seq<Source>, outcomes: seq<ParseOutcome>): (feeds: seq<FeedResult>)
    requires |outcomes| == |sources|
    ensures |feeds| == |sources|
    ensures forall i :: 0 <= i < |sources| ==> feeds[i] == ResultFor(sources[i], outcomes[i])
    decreases |sources|
  {
    if |sources| == 0 then []
    else
      var n := |sources| - 1;
      Results(sources[..n], outcomes[..n]) + [ResultFor(sources[n], outcomes[n])]
  }

  /** The number of working records. */
  function CountWorking(feeds: seq<FeedResult>): (c: nat)
    ensures c <= |feeds|
    decreases |feeds|
  {
    if |feeds| == 0 then 0
    else CountWorking(feeds[..|feeds| - 1]) + (if feeds[|feeds| - 1].working then 1 else 0)
  }

  /** The number of failed records. */
  function CountFailed(feeds: seq<FeedResult>): (c: nat)
    ensures c <= |feeds|
    decreases |feeds|
  {
    if |feeds| == 0 then 0
    else CountFailed(feeds[..|feeds| - 1]) + (if feeds[|feeds| - 1].working then 0 else 1)
  }

  /** The summary a list of records should carry. */
  function Summarize(feeds: seq<FeedResult>): (s: Summary)
    ensures s.total == s.working + s.failed == |feeds|
    ensures s.failed == 0 <==> forall i :: 0 <= i < |feeds| ==> feeds[i].working
  {
    CountsPartition(feeds);
    NoFailureMeansAllWorking(feeds);
    Summary(|feeds|, CountWorking(feeds), CountFailed(feeds))
  }

  /** The report the run should produce. */
  function ExpectedReport(timestamp: string, sources: seq<Source>, outcomes: seq<ParseOutcome>): (r: RunReport)
    requires |outcomes| == |sources|
    ensures r.timestamp == timestamp
    ensures |r.feeds| == |sources|
    ensures forall i :: 0 <= i < |sources| ==> r.feeds[i] == ResultFor(sources[i], outcomes[i])
    ensures r.summary.total == r.summary.working + r.summary.failed == |sources|
  {
    var feeds := Results(sources, outcomes);
    RunReport(timestamp, feeds, Summarize(feeds))
  }

  /** This version's exit policy: a failing status when any feed failed,
      a normal exit otherwise. */
  function ExitCode(summary: Summary): (code: nat)
    ensures code == 1 <==> summary.failed > 0
    ensures code == 0 <==> summary.failed == 0
  {
    if summary.failed > 0 then 1 else 0
  }

  /** Every record is either working or failed, so the two counts add up to
      the number of records. */
  lemma {:induction false} CountsPartition(feeds: seq<FeedResult>)
    ensures CountWorking(feeds) + CountFailed(feeds) == |feeds|
    decreases |feeds|
  {
    if |feeds| > 0 {
      CountsPartition(feeds[..|feeds| - 1]);
    }
  }

  /** No record failed exactly when every record is working. */
  lemma {:induction false} NoFailureMeansAllWorking(feeds: seq<FeedResult>)
    ensures CountFailed(feeds) == 0 <==> forall i :: 0 <= i < |feeds| ==> feeds[i].working
    decreases |feeds|
  {
    if |feeds| > 0 {
      var n := |feeds| - 1;
      NoFailureMeansAllWorking(feeds[..n]);
      assert forall i :: 0 <= i < n ==> feeds[..n][i] == feeds[i];
    }
  }

  /** The working counter counts exactly the records that are working:
      it reaches the number of records only when all of them are. */
  lemma AllWorkingIffFullCount(feeds: seq<FeedResult>)
    ensures CountWorking(feeds) == |feeds| <==> forall i :: 0 <= i < |feeds| ==> feeds[i].working
  {
    CountsPartition(feeds);
    NoFailureMeansAllWorking(feeds);
  }

  /** The summary invariant of every run: total == working + failed ==
      number of records. */
  lemma SummaryIsConsistent(timestamp: string, sources: seq<Source>, outcomes: seq<ParseOutcome>)
    requires |outcomes| == |sources|
    ensures var s := ExpectedReport(timestamp, sources, outcomes).summary;
            s.total == s.working + s.failed == |sources|
  {
    CountsPartition(Results(sources, outcomes));
  }

  /** The run exits with status 1 exactly when some source's outcome is not
      a valid feed; with status 0 exactly when all of them are. */
  lemma ExitCodeMatchesOutcomes(timestamp: string, sources: seq<Source>, outcomes: seq<ParseOutcome>)
    requires |outcomes| == |sources|
    ensures var code := ExitCode(ExpectedReport(timestamp, sources, outcomes).summary);
            (code == 1 <==> exists i :: 0 <= i < |outcomes| && !IsValidOutcome(outcomes[i])) &&
            (code == 0 <==> forall i :: 0 <= i < |outcomes| ==> IsValidOutcome(outcomes[i]))
  {
    var feeds := Results(sources, outcomes);
    NoFailureMeansAllWorking(feeds);
    assert forall i :: 0 <= i < |feeds| ==> (feeds[i].working <==> IsValidOutcome(outcomes[i]));
  }

  /** An empty source list gives an all-zero summary and a normal exit. */
  lemma EmptyConfigurationExitsNormally(timestamp: string)
    ensures ExpectedReport(timestamp, [], []) == RunReport(timestamp, [], Summary(0, 0, 0))
    ensures ExitCode(ExpectedReport(timestamp, [], []).summary) == 0
  {
  }

  /** Each record of the report can be read back into the reason its source
      was classified as it was. */
  lemma ReportIsDiagnosable(timestamp: string, sources: seq<Source>, outcomes: seq<ParseOutcome>, i: nat)
    requires |outcomes| == |sources|
    requires i < |sources|
    ensures var f := ExpectedReport(timestamp, sources, outcomes).feeds[i];
            f.name == sources[i].name && f.url == sources[i].url && f.category == sources[i].category &&
            Diagnose(Verdict(f.working, f.message)) == Some(ReasonOf(outcomes[i]))
  {
    DiagnoseRecoversReason(ReasonOf(outcomes[i]));
  }

  /** Two sources, one valid feed with three entries and one that raises:
      one working, one failed, and under this version's policy a failing
      exit status. */
  lemma OneValidOneUnreachable(timestamp: string, a: Source, b: Source, text: string)
    ensures var r := ExpectedReport(timestamp, [a, b], [Parsed(false, "", 3), Raised(text)]);
            r.summary == Summary(2, 1, 1) && ExitCode(r.summary) == 1 &&
            r.feeds[1].message == AccessErrorPrefix + text
  {
    var outcomes := [Parsed(false, "", 3), Raised(text)];
    var feeds := Results([a, b], outcomes);
    assert feeds[0].working && !feeds[1].working;
    assert feeds[..1] == [feeds[0]];
    assert feeds[..1][..0] == [];
    assert CountWorking(feeds[..1]) == 1 && CountFailed(feeds[..1]) == 0;
  }

  /** Classifying one more source appends its record to the results. */
  lemma ResultsExtend(sources: seq<Source>, outcomes: seq<ParseOutcome>, i: nat)
    requires |outcomes| == |sources| && i < |sources|
    ensures Results(sources[..i + 1], outcomes[..i + 1]) ==
            Results(sources[..i], outcomes[..i]) + [ResultFor(sources[i], outcomes[i])]
  {
    assert sources[..i + 1][..i] == sources[..i];
    assert outcomes[..i + 1][..i] == outcomes[..i];
  }

  /** Appending a record adds one to exactly one of the two counts. */
  lemma CountsExtend(feeds: seq<FeedResult>, f: FeedResult)
    ensures CountWorking(feeds + [f]) == CountWorking(feeds) + (if f.working then 1 else 0)
    ensures CountFailed(feeds + [f]) == CountFailed(feeds) + (if f.working then 0 else 1)
  {
    assert (feeds + [f])[..|feeds|] == feeds;
  }

  /** The run itself: walks the sources in order, appends a record per
      source, increments total and either working or failed after each one,
      and picks the exit status at the end. */
  method RunValidation(timestamp: string, sources: seq<Source>, outcomes: seq<ParseOutcome>)
    returns (report: RunReport, exitCode: nat)
    requires |outcomes| == |sources|
    ensures report == ExpectedReport(timestamp, sources, outcomes)
    ensures report.timestamp == timestamp
    ensures |report.feeds| == |sources|
    ensures forall i :: 0 <= i < |sources| ==> report.feeds[i] == ResultFor(sources[i], outcomes[i])
    ensures report.summary.total == report.summary.working + report.summary.failed == |sources|
    ensures report.summary.working == CountWorking(report.feeds)
    ensures exitCode == ExitCode(report.summary)
    ensures exitCode == 1 <==> exists i :: 0 <= i < |sources| && !report.feeds[i].working
    ensures exitCode == 0 <==> forall i :: 0 <= i < |sources| ==> report.feeds[i].working
  {
    var results := RunReport(timestamp, [], Summary(0, 0, 0));
    for i := 0 to |sources|
      invariant results.timestamp == timestamp
      invariant results.feeds == Results(sources[..i], outcomes[..i])
      invariant results.summary.total == i
      invariant results.summary.working == CountWorking(results.feeds)
      invariant results.summary.failed == CountFailed(results.feeds)
      invariant results.summary.total == results.summary.working + results.summary.failed == |results.feeds|
    {
      var v := VerifyRssFeed(outcomes[i]);
      var feedResult := FeedResult(sources[i].name, sources[i].url, sources[i].category, v.working, v.message);
      ResultsExtend(sources, outcomes, i);
      CountsExtend(results.feeds, feedResult);
      results := results.(feeds := results.feeds + [feedResult]);
      var s := results.summary;
      s := s.(total := s.total + 1);
      if v.working {
        s := s.(working := s.working + 1);
      } else {
        s := s.(failed := s.failed + 1);
      }
      results := results.(summary := s);
      CountsPartition(results.feeds);
    }
    assert sources[..|sources|] == sources;
    assert outcomes[..|outcomes|] == outcomes;
    report := results;
    CountsPartition(report.feeds);
    NoFailureMeansAllWorking(report.feeds);
    if report.summary.failed > 0 {
      exitCode := 1;
    } else {
      exitCode := 0;
    }
  }
}
