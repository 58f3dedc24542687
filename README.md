# Feed checker model

A Dafny model of a small feed-checking script, `verify_feeds.py`. It reads a
list of RSS/Atom sources (name, url, category) and checks each one. To check
a source it fetches and parses the URL and classifies the result as working
or failed, with a message that gives the reason. It then writes a status
document holding a timestamp, one record per source and the counters
`total`/`working`/`failed`. It exits with status 1 when any feed failed.

Two modules:

- `FeedValidator` (`feed_validator.dfy`) models `verify_rss_feed`. The result
  of the fetch-and-parse call is an abstract `ParseOutcome`: either
  `Raised(text)` (the call raised an exception) or
  `Parsed(bozo, bozoDetail, entryCount)`. `VerifyRssFeed` is a pure, total
  function from that outcome to a `Verdict(working, message)`. `ReasonOf`
  decides which check applies: the exception first, then the bozo flag, then
  the entry count. `Render` gives each reason its own message. `Diagnose` is
  the inverse partner of `Render`: it reads a verdict back
  into the `Reason` that produced it. Two lemmas prove that it loses nothing
  and accepts nothing else.
- `FeedAggregator` (`feed_aggregator.dfy`) models the loop in `main` and the
  exit decision. It has three inputs: the timestamp (an opaque string), the
  source list, and one parse outcome per source in the same order.
  `RunValidation` is a method with a `for` loop. Like the source, it appends
  one record per source and updates the counters in place. Its contract ties
  the report it returns to the specification functions `Results`,
  `CountWorking`, `CountFailed` and `ExpectedReport`. The lemmas beside it
  prove the summary invariant, the exit policy and the per-record reason.

The script inspects no HTTP status. A record missing `name`, `url` or
`category` raises `KeyError` (see Left out). It exits with status 1 whenever
any feed failed, so an empty source list exits 0
(`EmptyConfigurationExitsNormally`) and one valid plus one unreachable source
exits 1 (`OneValidOneUnreachable`).

## Model

| member | source | states |
|---|---|---|
| `FeedValidator.VerifyRssFeed` | verify_feeds.py:12-21 | working exactly when the parse did not raise, the bozo flag is clear and there is at least one entry; the message is "Error accessing feed: " + exception text on a raise, "Invalid RSS feed format: " + detail on bozo (even with entries), "No entries found in feed" on zero entries, "Feed is valid and contains entries" otherwise; every failure message carries one of the three failure forms |
| `FeedValidator.DiagnoseRecoversReason` | verify_feeds.py:13-21 | reading a rendered verdict back gives exactly the reason rendered: which check decided it and the exception or parser text it carried (the four messages never collide) |
| `FeedValidator.DiagnoseIsExact` | verify_feeds.py:13-21 | conversely, every verdict that reads back as a reason is exactly that reason's rendering, and the verdict the classifier gives for an outcome with that reason |
| `FeedValidator.BozoTakesPrecedence` | verify_feeds.py:15-18 | a bozo feed is failed as malformed whatever its entry count |
| `FeedValidator.FailureMessagesDiffer` | verify_feeds.py:15-19 | a failing outcome never gets the success message |
| `FeedAggregator.ResultFor` | verify_feeds.py:37-45 | the record for one source: the source's name, url and category with the classifier's verdict; it is working exactly when the outcome is a valid feed, and its flag and message read back as the outcome's reason |
| `FeedAggregator.Results` | verify_feeds.py:36-47 | one record per source, in configuration order; record i copies source i's name, url and category and carries the classification of outcome i |
| `FeedAggregator.ResultsExtend` | verify_feeds.py:47 | classifying one more source appends exactly its record to the end of the results |
| `FeedAggregator.CountsExtend` | verify_feeds.py:49-52 | appending a record raises exactly one of the working and failed counts by one, according to its working flag |
| `FeedAggregator.CountWorking` | verify_feeds.py:49-50 | the number of working records, at most the number of records |
| `FeedAggregator.CountFailed` | verify_feeds.py:51-52 | the number of failed records, at most the number of records |
| `FeedAggregator.Summarize` | verify_feeds.py:27-31 | the summary of a record list: total is its length, total == working + failed, and failed is zero exactly when every record is working |
| `FeedAggregator.ExpectedReport` | verify_feeds.py:24-52 | the report of a run: the given timestamp, record i built from source i and outcome i for every source, and total == working + failed == number of sources |
| `FeedAggregator.ExitCode` | verify_feeds.py:58-60 | 1 when failed > 0, else 0 |
| `FeedAggregator.CountsPartition` | verify_feeds.py:48-52 | the working and failed counts of any record list add up to its length |
| `FeedAggregator.NoFailureMeansAllWorking` | verify_feeds.py:49-52 | the failed count is zero exactly when every record is working |
| `FeedAggregator.AllWorkingIffFullCount` | verify_feeds.py:49-50 | the working count equals the number of records exactly when every record is working |
| `FeedAggregator.SummaryIsConsistent` | verify_feeds.py:27-31 | in the report of every run, total == working + failed == number of sources |
| `FeedAggregator.ExitCodeMatchesOutcomes` | verify_feeds.py:58-60 | the exit status is 1 exactly when some source's outcome is not a valid feed, and 0 exactly when all are |
| `FeedAggregator.EmptyConfigurationExitsNormally` | verify_feeds.py:24-36 | an empty source list gives an empty feed list, an all-zero summary and exit status 0 |
| `FeedAggregator.ReportIsDiagnosable` | verify_feeds.py:37-45 | record i keeps source i's name, url and category, and its working flag and message read back as the reason outcome i was classified as it was |
| `FeedAggregator.OneValidOneUnreachable` | verify_feeds.py:36-60 | one valid feed with three entries and one raising source give summary (2, 1, 1), the access-error message on the second record and exit status 1 |
| `FeedAggregator.RunValidation` | verify_feeds.py:23-60 | the loop: after every iteration total == working + failed == number of records so far; the returned report equals the expected report (timestamp set once, records in source order, each the classification of its source); total == working + failed == number of sources, working is the number of working records; the exit code is 1 exactly when some record failed and 0 exactly when all are working |

## Left out

- `load_sources` and YAML parsing (verify_feeds.py:8-10) are file I/O and a foreign library. The model takes the source list as an input sequence.
- A missing `sources` key, or a record without `name`, `url` or `category`, would raise `KeyError` and crash the run. The model takes records that are well formed.
- The network fetch and feed parsing are a foreign call. They are replaced by the abstract `ParseOutcome`, one per source. Whether a given network failure shows up as a raised exception or as a bozo result depends on the parser library, which is not part of this model.
- The timestamp comes from the wall clock. It is an opaque string parameter, set once before the loop.
- Writing the report as JSON to `feed_status.json` (verify_feeds.py:55-56) is I/O. The model returns the report as a value.
- `sys.exit` is modelled as the returned exit code. A normal return from `main` is code 0.
- An exception outside the classifier (a failed file write, say) would crash the process. It is not modelled.
- The counters are unbounded naturals. Python integers do not wrap, so nothing is lost.
