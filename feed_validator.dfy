/** Classification of one feed source: the outcome of fetching and parsing a
    URL is turned into a (working, message) verdict. The fetch and the parser
    are not modelled; their outcome is the input. */
module FeedValidator {

  datatype Option<T> = None | Some(value: T)

  /** What fetching and parsing a feed URL can produce: the call raised an
      exception with the given text, or it returned a parse result with the
      parser's "bozo" (malformed markup) flag, its error detail and the
      number of entries found. */
  datatype ParseOutcome =
    | Raised(error: string)
    | Parsed(bozo: bool, bozoDetail: string, entryCount: nat)

  /** The pair the validator returns. */
  datatype Verdict = Verdict(working: bool, message: string)

  const AccessErrorPrefix: string := "Error accessing feed: "
  const InvalidFormatPrefix: string := "Invalid RSS feed format: "
  const NoEntriesMessage: string := "No entries found in feed"
  const ValidMessage: string := "Feed is valid and contains entries"

  /** A feed is working when the fetch succeeded, the markup is well formed
      and there is at least one entry. */
  predicate IsValidOutcome(o: ParseOutcome) {
    o.Parsed? && !o.bozo && o.entryCount > 0
  }

  /** The reason a verdict was given, as a value: which of the four checks
      decided it, with the text it carried. */
  datatype Reason =
    | AccessError(text: string)
    | MalformedFeed(detail: string)
    | NoEntries
    | ValidFeed

  /** The check of the classifier that decides an outcome. The checks run in
      a fixed order: an exception, then the bozo flag, then an empty entry
      list; a bozo feed is reported as malformed even when it has entries. */
  function ReasonOf(o: ParseOutcome): Reason {
    match o
    case Raised(text) => AccessError(text)
    case Parsed(bozo, detail, n) =>
      if bozo then MalformedFeed(detail)
      else if n == 0 then NoEntries
      else ValidFeed
  }

  /** The verdict, with its message, that the classifier returns for a
      reason. */
  function Render(r: Reason): Verdict {
    match r
    case AccessError(text) => Verdict(false, AccessErrorPrefix + text)
    case MalformedFeed(detail) => Verdict(false, InvalidFormatPrefix + detail)
    case NoEntries => Verdict(false, NoEntriesMessage)
    case ValidFeed => Verdict(true, ValidMessage)
  }

  /** The classifier: decide the reason, then report it. It never fails. */
  function VerifyRssFeed(o: ParseOutcome): (v: Verdict)
    ensures v.working <==> IsValidOutcome(o)
    ensures v.working ==> v.message == ValidMessage
    ensures o.Raised? ==> !v.working && v.message == AccessErrorPrefix + o.error
    ensures o.Parsed? && o.bozo ==>
              !v.working && v.message == InvalidFormatPrefix + o.bozoDetail
    ensures o.Parsed? && !o.bozo && o.entryCount == 0 ==>
              !v.working && v.message == NoEntriesMessage
    ensures !v.working ==>
              AccessErrorPrefix <= v.message || InvalidFormatPrefix <= v.message ||
              v.message == NoEntriesMessage
  {
    Render(ReasonOf(o))
  }

  /** Reads a verdict back into the reason that produced it; None when the
      verdict is not one the classifier can give. */
  function Diagnose(v: Verdict): Option<Reason> {
    if v.working then
      (if v.message == ValidMessage then Some(ValidFeed) else None)
    else if AccessErrorPrefix <= v.message then
      Some(AccessError(v.message[|AccessErrorPrefix|..]))
    else if InvalidFormatPrefix <= v.message then
      Some(MalformedFeed(v.message[|InvalidFormatPrefix|..]))
    else if v.message == NoEntriesMessage then
      Some(NoEntries)
    else
      None
  }

  /** An outcome whose classification is decided by the given reason. */
  function Witness(r: Reason): ParseOutcome {
    match r
    case AccessError(text) => Raised(text)
    case MalformedFeed(detail) => Parsed(true, detail, 0)
    case NoEntries => Parsed(false, "", 0)
    case ValidFeed => Parsed(false, "", 1)
  }

  /** Every message names its reason unambiguously: the verdict alone gives
      back which check failed and the exception or parser text it carried. */
  lemma DiagnoseRecoversReason(r: Reason)
    ensures Diagnose(Render(r)) == Some(r)
  {
    var v := Render(r);
    match r
    case AccessError(text) =>
      assert AccessErrorPrefix <= v.message;
      assert v.message[|AccessErrorPrefix|..] == text;
    case MalformedFeed(detail) =>
      assert v.message[0] == 'I';
      assert !(AccessErrorPrefix <= v.message);
      assert InvalidFormatPrefix <= v.message;
      assert v.message[|InvalidFormatPrefix|..] == detail;
    case NoEntries =>
      assert v.message[0] == 'N';
      assert !(AccessErrorPrefix <= v.message);
      assert !(InvalidFormatPrefix <= v.message);
    case ValidFeed =>
  }

  /** The converse: whatever Diagnose accepts is exactly the rendering of
      that reason, which is the verdict the classifier gives for an outcome
      with that reason. */
  lemma DiagnoseIsExact(v: Verdict, r: Reason)
    requires Diagnose(v) == Some(r)
    ensures Render(r) == v
    ensures ReasonOf(Witness(r)) == r
    ensures VerifyRssFeed(Witness(r)) == v
  {
    if !v.working {
      if AccessErrorPrefix <= v.message {
        assert AccessErrorPrefix + v.message[|AccessErrorPrefix|..] == v.message;
      } else if InvalidFormatPrefix <= v.message {
        assert InvalidFormatPrefix + v.message[|InvalidFormatPrefix|..] == v.message;
      }
    }
  }

  /** The bozo check comes before the entry check: a malformed feed is
      failed as malformed whatever number of entries the parser found. */
  lemma BozoTakesPrecedence(detail: string, n: nat)
    ensures VerifyRssFeed(Parsed(true, detail, n)) ==
            Verdict(false, InvalidFormatPrefix + detail)
    ensures ReasonOf(Parsed(true, detail, n)) == MalformedFeed(detail)
  {
  }

  /** The four messages the classifier can give are pairwise distinguishable,
      so a failure message is never the success message. */
  lemma FailureMessagesDiffer(o: ParseOutcome)
    requires !IsValidOutcome(o)
    ensures VerifyRssFeed(o).message != ValidMessage
  {
    var m := VerifyRssFeed(o).message;
    assert m[0] != ValidMessage[0];
  }
}
