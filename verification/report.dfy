/**
 * The text the driver prints for the items it shows: the numbered list of
 * checks (regular output only), the summary of counts, one failure message per
 * failed check, the verdict line and the warnings.
 */
module Report {
  import opened Wrappers
  import opened Strings
  import opened CbmcTypes
  import opened Postprocess
  import opened Seqs

  /** The output formats `format_item` supports (`Old` is not implemented by the driver). */
  datatype OutputFormat = Regular | Terse

  /** The block `format_result` prints for the check numbered `index`. */
  function CheckText(index: nat, p: Property, relPath: string -> string): string {
    var checkId := "Check " + NatToString(index) + ": " + p.property + "\n";
    var statusMsg := "\t - Status: " + StatusText(p.status) + "\n";
    var descriptionMsg := "\t - Description: \"" + p.description + "\"\n";
    var locationMsg := if p.sourceLocation.IsMissing() then ""
                       else "\t - Location: " + LocationText(p.sourceLocation, relPath) + "\n";
    checkId + statusMsg + descriptionMsg + locationMsg + "\n"
  }

  /** The `RESULTS:` heading followed by the blocks of all checks of `ps`, numbered from 1 in order. */
  function ChecksListing(ps: seq<Property>, relPath: string -> string): string
    decreases |ps|
  {
    if ps == [] then "\nRESULTS:\n" else ChecksListing(ps[..|ps| - 1], relPath) + CheckText(|ps|, ps[|ps| - 1], relPath)
  }

  /** The checks of `ps` that failed, in order (`failed_tests`). */
  function FailedChecks(ps: seq<Property>): (r: seq<Property>)
    ensures |r| == CountStatus(ps, Failure)
    ensures forall p :: p in r <==> p in ps && p.status == Failure
    ensures IsSubsequence(r, ps)
    decreases |ps|
  {
    if ps == [] then []
    else
      var prefix := ps[..|ps| - 1];
      var last := ps[|ps| - 1];
      assert ps == prefix + [last];
      var failed := FailedChecks(prefix);
      SubsequenceSnoc(failed, prefix, last);
      if last.status == Failure then failed + [last] else failed
  }

  /** `parts.join(sep)`. */
  function Join(parts: seq<string>, sep: string): string
    decreases |parts|
  {
    if parts == [] then ""
    else if |parts| == 1 then parts[0]
    else parts[0] + sep + Join(parts[1..], sep)
  }

  /** The counts of undetermined and unreachable checks that the summary mentions (`other_status`). */
  function OtherStatuses(undetermined: nat, unreachable: nat): (r: seq<string>)
    ensures |r| == (if undetermined > 0 then 1 else 0) + (if unreachable > 0 then 1 else 0)
    ensures undetermined > 0 ==> r[0] == NatToString(undetermined) + " undetermined"
    ensures unreachable > 0 ==> r[|r| - 1] == NatToString(unreachable) + " unreachable"
  {
    (if undetermined > 0 then [NatToString(undetermined) + " undetermined"] else [])
    + (if unreachable > 0 then [NatToString(unreachable) + " unreachable"] else [])
  }

  /** The first line of the summary: `** F of N failed`. */
  function SummaryLine(failed: nat, total: nat): string {
    "\n ** " + NatToString(failed) + " of " + NatToString(total) + " failed"
  }

  /** The other counts, in parentheses, when there are any. */
  function OthersText(others: seq<string>): string {
    if |others| > 0 then " (" + Join(others, ",") + ")" else ""
  }

  /** The last step of the trace knows the file, the line and the function. */
  predicate HasFullLocation(trace: Option<seq<TraceItem>>) {
    trace.Some? && |trace.value| > 0
    && var loc := trace.value[|trace.value| - 1].sourceLocation;
    loc.Some? && loc.value.file.Some? && loc.value.functionName.Some? && loc.value.line.Some?
  }

  /** The failure message that names only the description. */
  function FallbackFailureMessage(description: string): string {
    "Failed Checks: " + description + "\n"
  }

  /**
   * `build_failure_message`: the description, followed by the file, line and
   * function of the last trace step when all three are known. Indexing the last
   * step of an empty trace panics.
   */
  function BuildFailureMessage(description: string, trace: Option<seq<TraceItem>>): (r: Outcome<string>)
    ensures r.Panic? <==> trace == Some([])
    ensures r.Panic? ==> r.error == EmptyTrace(description)
    ensures r.Ok? ==> StartsWith(r.value, FallbackFailureMessage(description))
    ensures r.Ok? ==> (r.value == FallbackFailureMessage(description) <==> !HasFullLocation(trace))
    ensures r.Ok? && HasFullLocation(trace) ==>
      var loc := trace.value[|trace.value| - 1].sourceLocation.value;
      r.value == FallbackFailureMessage(description)
                 + " File: \"" + loc.file.value + "\", line " + loc.line.value + ", in " + loc.functionName.value + "\n"
  {
    var backup := FallbackFailureMessage(description);
    if trace.None? then Ok(backup)
    else if trace.value == [] then Panic(EmptyTrace(description))
    else
      match trace.value[|trace.value| - 1].sourceLocation
      case None => Ok(backup)
      case Some(loc) =>
        if loc.file.Some? && loc.functionName.Some? && loc.line.Some? then
          var detail := " File: \"" + loc.file.value + "\", line " + loc.line.value + ", in " + loc.functionName.value + "\n";
          assert (backup + detail)[..|backup|] == backup;
          Ok(backup + detail)
        else Ok(backup)
  }

  /** `text` followed by the failure messages of the checks `failed`, in order; the first empty trace panics. */
  function WithFailureMessages(text: string, failed: seq<Property>): (r: Outcome<string>)
    ensures r.Panic? <==> exists i :: 0 <= i < |failed| && failed[i].trace == Some([])
    decreases |failed|
  {
    if failed == [] then Ok(text)
    else
      var prefix := failed[..|failed| - 1];
      var last := failed[|failed| - 1];
      assert forall i :: 0 <= i < |prefix| ==> prefix[i] == failed[i];
      var before :- WithFailureMessages(text, prefix);
      var message :- BuildFailureMessage(last.description, last.trace);
      Ok(before + message)
  }

  /** Once a prefix of the failed checks panics, so do all of them, with the same error. */
  lemma {:induction false} FailureMessagesPanicPersists(text: string, failed: seq<Property>, k: nat)
    requires k <= |failed| && WithFailureMessages(text, failed[..k]).Panic?
    ensures WithFailureMessages(text, failed) == WithFailureMessages(text, failed[..k])
    decreases |failed| - k
  {
    if k < |failed| {
      assert failed[..k + 1][..k] == failed[..k];
      FailureMessagesPanicPersists(text, failed, k + 1);
    } else {
      assert failed[..k] == failed;
    }
  }

  /** The verdict line: `SUCCESSFUL ` (with its trailing space) or `FAILED`. */
  function VerdictText(success: bool): string {
    "\nVERIFICATION:- " + (if success then "SUCCESSFUL " else "FAILED") + "\n"
  }

  /** The two verdict lines differ, so the line printed tells the verdict. */
  lemma VerdictTextTells(success: bool)
    ensures VerdictText(success) == VerdictText(true) <==> success
  {
    if !success {
      assert VerdictText(success)[16] != VerdictText(true)[16];
    }
  }

  /** The two notices `format_result` may print after the verdict. */
  datatype Notice = UnsupportedConstruct | UnwindingFailures

  /** The text of a notice. */
  function NoticeText(n: Notice): string {
    match n
    case UnsupportedConstruct =>
      "** WARNING: A Rust "
      + "construct that is not "
      + "currently supported by "
      + "Kani was found to be "
      + "reachable. Check the "
      + "results for more "
      + "details."
    case UnwindingFailures =>
      "[Kani] info: "
      + "Verification output "
      + "shows one or more "
      + "unwinding failures.\n"
      + "[Kani] tip: Consider "
      + "increasing the "
      + "unwinding value or "
      + "disabling "
      + "`--unwinding-assertions`.\n"
  }

  /** A notice, printed only when its condition holds. */
  function NoticeWhen(shown: bool, n: Notice): string {
    if shown then NoticeText(n) else ""
  }

  /** The warning, if any check reports a reachable unsupported construct. */
  function UnsupportedConstructText(ps: seq<Property>): string {
    NoticeWhen(HasCheckFailures(ps, UNSUPPORTED_CONSTRUCT_DESC), UnsupportedConstruct)
  }

  /** The advice, if an unwinding assertion failed. */
  function UnwindingText(ps: seq<Property>): string {
    NoticeWhen(HasCheckFailures(ps, UNWINDING_ASSERT_DESC), UnwindingFailures)
  }

  /** What `format_result` prints before the failure messages: the listing or heading, and the summary. */
  function ReportHead(ps: seq<Property>, showChecks: bool, relPath: string -> string): string {
    var heading := if showChecks then ChecksListing(ps, relPath) + "\nSUMMARY:" else "\nVERIFICATION RESULT:";
    heading + SummaryLine(CountStatus(ps, Failure), |ps|)
    + OthersText(OtherStatuses(CountStatus(ps, Undetermined), CountStatus(ps, Unreachable))) + "\n"
  }

  /** The whole text of `format_result`, or the panic of a failure message. */
  function Report(ps: seq<Property>, showChecks: bool, relPath: string -> string): Outcome<string> {
    var text :- WithFailureMessages(ReportHead(ps, showChecks, relPath), FailedChecks(ps));
    Ok(text + VerdictText(CountStatus(ps, Failure) == 0) + UnsupportedConstructText(ps) + UnwindingText(ps))
  }

  lemma EndsWithAppends(a: string, b: string, c: string, d: string)
    ensures EndsWith(a + b + c + d, b + c + d)
  {
    assert a + b + c + d == a + (b + c + d);
  }

  /**
   * The verdict printed is `SUCCESSFUL ` exactly when `determine_result` holds,
   * that is when no check failed; only the warnings follow it. The report
   * panics exactly when a failed check comes with an empty trace.
   */
  lemma ReportVerdict(ps: seq<Property>, showChecks: bool, relPath: string -> string)
    ensures Report(ps, showChecks, relPath).Ok? ==>
      EndsWith(Report(ps, showChecks, relPath).value,
               VerdictText(DetermineResult(ps)) + UnsupportedConstructText(ps) + UnwindingText(ps))
    ensures Report(ps, showChecks, relPath).Panic? <==> exists p :: p in ps && p.status == Failure && p.trace == Some([])
  {
    var failed := FailedChecks(ps);
    var text := WithFailureMessages(ReportHead(ps, showChecks, relPath), failed);
    if text.Ok? {
      EndsWithAppends(text.value, VerdictText(DetermineResult(ps)), UnsupportedConstructText(ps), UnwindingText(ps));
    } else {
      var i :| 0 <= i < |failed| && failed[i].trace == Some([]);
      assert failed[i] in failed;
    }
  }

  /**
   * A real check that failed, and that no filter may drop, can never be
   * reported as passing: the verdict `postprocess_result` returns is false and
   * the report of the shown checks prints `FAILED`.
   */
  lemma FailedCheckNeverReportedSuccessful(ps: seq<Property>, extraPtrChecks: bool, shown: seq<Property>, verdict: bool,
                                           p: Property)
    requires ShownFaithfully(ps, extraPtrChecks, shown, verdict)
    requires p in RealChecks(ps) && p.status == Failure && (extraPtrChecks || !IsPointerCheck(p))
    ensures !verdict && !DetermineResult(shown)
    ensures forall showChecks: bool, relPath: string -> string :: Report(shown, showChecks, relPath).Ok? ==>
      EndsWith(Report(shown, showChecks, relPath).value,
               VerdictText(false) + UnsupportedConstructText(shown) + UnwindingText(shown))
  {
    var k :| 0 <= k < |shown| && shown[k].property == p.property && shown[k].status == Failure;
    forall showChecks: bool, relPath: string -> string
      ensures Report(shown, showChecks, relPath).Ok? ==>
        EndsWith(Report(shown, showChecks, relPath).value,
                 VerdictText(false) + UnsupportedConstructText(shown) + UnwindingText(shown))
    {
      ReportVerdict(shown, showChecks, relPath);
    }
  }

  /**
   * The state of `format_result` after the first `i` checks: the counts and the
   * failed checks of that prefix, and its listing when the checks are shown.
   */
  ghost predicate Listed(ps: seq<Property>, i: nat, showChecks: bool, relPath: string -> string, resultStr: string,
                         failed: nat, undetermined: nat, unreachable: nat, failedTests: seq<Property>)
  {
    i <= |ps|
    && failed == CountStatus(ps[..i], Failure)
    && undetermined == CountStatus(ps[..i], Undetermined)
    && unreachable == CountStatus(ps[..i], Unreachable)
    && failedTests == FailedChecks(ps[..i])
    && resultStr == if showChecks then ChecksListing(ps[..i], relPath) else ""
  }

  /** Counting and listing one more check extends the state to the longer prefix. */
  lemma ListedStep(ps: seq<Property>, i: nat, showChecks: bool, relPath: string -> string,
                   resultStr: string, failed: nat, undetermined: nat, unreachable: nat, failedTests: seq<Property>,
                   resultStr': string, failed': nat, undetermined': nat, unreachable': nat, failedTests': seq<Property>)
    requires i < |ps| && Listed(ps, i, showChecks, relPath, resultStr, failed, undetermined, unreachable, failedTests)
    requires failed' == failed + (if ps[i].status == Failure then 1 else 0)
    requires undetermined' == undetermined + (if ps[i].status == Undetermined then 1 else 0)
    requires unreachable' == unreachable + (if ps[i].status == Unreachable then 1 else 0)
    requires failedTests' == failedTests + (if ps[i].status == Failure then [ps[i]] else [])
    requires resultStr' == if showChecks then resultStr + CheckText(i + 1, ps[i], relPath) else resultStr
    ensures Listed(ps, i + 1, showChecks, relPath, resultStr', failed', undetermined', unreachable', failedTests')
  {
    assert ps[..i + 1][..i] == ps[..i];
  }

  /** Appending a text only when `b` holds is appending it or nothing. */
  lemma AppendWhen(s: string, b: bool, t: string)
    ensures (if b then s + t else s) == s + (if b then t else "")
  {
    if !b {
      assert s + "" == s;
    }
  }

  /** One more failure message extends the text by that message. */
  lemma FailureMessageStep(text: string, failed: seq<Property>, j: nat, before: string, message: string)
    requires j < |failed|
    requires WithFailureMessages(text, failed[..j]) == Ok(before)
    requires BuildFailureMessage(failed[j].description, failed[j].trace) == Ok(message)
    ensures WithFailureMessages(text, failed[..j + 1]) == Ok(before + message)
  {
    assert failed[..j + 1][..j] == failed[..j];
  }

  /** A failure message that panics makes the whole text panic with it. */
  lemma FailureMessagePanics(text: string, failed: seq<Property>, j: nat, e: FatalError)
    requires j < |failed|
    requires WithFailureMessages(text, failed[..j]).Ok?
    requires BuildFailureMessage(failed[j].description, failed[j].trace) == Panic(e)
    ensures WithFailureMessages(text, failed) == Panic(e)
  {
    assert failed[..j + 1][..j] == failed[..j];
    FailureMessagesPanicPersists(text, failed, j + 1);
  }

  /** The counters `format_result` updates for one check, by its status. */
  method CountCheck(prop: Property, numberTestsFailed: nat, numberTestsUndetermined: nat, numberTestsUnreachable: nat,
                    failedTests: seq<Property>)
    returns (failed: nat, undetermined: nat, unreachable: nat, failedTests': seq<Property>)
    ensures failed == numberTestsFailed + (if prop.status == Failure then 1 else 0)
    ensures undetermined == numberTestsUndetermined + (if prop.status == Undetermined then 1 else 0)
    ensures unreachable == numberTestsUnreachable + (if prop.status == Unreachable then 1 else 0)
    ensures failedTests' == failedTests + (if prop.status == Failure then [prop] else [])
  {
    failed, undetermined, unreachable, failedTests' :=
      numberTestsFailed, numberTestsUndetermined, numberTestsUnreachable, failedTests;
    match prop.status {
      case Failure =>
        failed := failed + 1;
        failedTests' := failedTests' + [prop];
      case Undetermined =>
        undetermined := undetermined + 1;
      case Unreachable =>
        unreachable := unreachable + 1;
      case Success =>
    }
  }

  /**
   * The loop of `format_result` over the checks: it counts the failed,
   * undetermined and unreachable ones, collects the failed ones and, when the
   * checks are shown, prints the block of each.
   */
  method ListChecks(ps: seq<Property>, showChecks: bool, relPath: string -> string)
    returns (resultStr: string, numberTestsFailed: nat, numberTestsUndetermined: nat, numberTestsUnreachable: nat,
             failedTests: seq<Property>)
    ensures resultStr == if showChecks then ChecksListing(ps, relPath) else ""
    ensures numberTestsFailed == CountStatus(ps, Failure) && failedTests == FailedChecks(ps)
    ensures numberTestsUndetermined == CountStatus(ps, Undetermined)
    ensures numberTestsUnreachable == CountStatus(ps, Unreachable)
  {
    resultStr := "";
    numberTestsFailed, numberTestsUnreachable, numberTestsUndetermined := 0, 0, 0;
    failedTests := [];
    var index := 1;
    if showChecks {
      resultStr := resultStr + "\nRESULTS:\n";
    }
    var i := 0;
    while i < |ps|
      invariant index == i + 1
      invariant Listed(ps, i, showChecks, relPath, resultStr, numberTestsFailed, numberTestsUndetermined,
                       numberTestsUnreachable, failedTests)
    {
      var prop := ps[i];
      ghost var before := (resultStr, numberTestsFailed, numberTestsUndetermined, numberTestsUnreachable, failedTests);
      numberTestsFailed, numberTestsUndetermined, numberTestsUnreachable, failedTests :=
        CountCheck(prop, numberTestsFailed, numberTestsUndetermined, numberTestsUnreachable, failedTests);
      if showChecks {
        resultStr := resultStr + CheckText(index, prop, relPath);
      }
      ListedStep(ps, i, showChecks, relPath, before.0, before.1, before.2, before.3, before.4,
                 resultStr, numberTestsFailed, numberTestsUndetermined, numberTestsUnreachable, failedTests);
      index := index + 1;
      i := i + 1;
    }
    assert ps[..i] == ps;
  }

  /** The part of `format_result` after the heading: the summary line and the other counts. */
  method Summarise(heading: string, numberTestsFailed: nat, total: nat, numberTestsUndetermined: nat,
                   numberTestsUnreachable: nat)
    returns (resultStr: string)
    ensures resultStr == heading + SummaryLine(numberTestsFailed, total)
                         + OthersText(OtherStatuses(numberTestsUndetermined, numberTestsUnreachable)) + "\n"
  {
    var summary := "\n ** " + NatToString(numberTestsFailed) + " of " + NatToString(total) + " failed";
    resultStr := heading + summary;
    var otherStatus: seq<string> := [];
    if numberTestsUndetermined > 0 {
      otherStatus := otherStatus + [NatToString(numberTestsUndetermined) + " undetermined"];
    }
    if numberTestsUnreachable > 0 {
      otherStatus := otherStatus + [NatToString(numberTestsUnreachable) + " unreachable"];
    }
    if |otherStatus| > 0 {
      resultStr := resultStr + (" (" + Join(otherStatus, ",") + ")");
    }
    AppendWhen(heading + summary, |otherStatus| > 0, " (" + Join(otherStatus, ",") + ")");
    resultStr := resultStr + "\n";
  }

  /** The loop of `format_result` that appends the failure message of each failed check. */
  method AppendFailureMessages(head: string, failedTests: seq<Property>) returns (r: Outcome<string>)
    ensures r == WithFailureMessages(head, failedTests)
  {
    var resultStr := head;
    var j := 0;
    assert failedTests[..0] == [];
    while j < |failedTests|
      invariant 0 <= j <= |failedTests|
      invariant WithFailureMessages(head, failedTests[..j]) == Ok(resultStr)
    {
      var prop := failedTests[j];
      var failureMessage := BuildFailureMessage(prop.description, prop.trace);
      if failureMessage.Panic? {
        FailureMessagePanics(head, failedTests, j, failureMessage.error);
        return Panic(failureMessage.error);
      }
      FailureMessageStep(head, failedTests, j, resultStr, failureMessage.value);
      resultStr := resultStr + failureMessage.value;
      j := j + 1;
    }
    assert failedTests[..j] == failedTests;
    r := Ok(resultStr);
  }

  /** The two notices, each appended when its condition holds. */
  lemma NoticesAt(verdictShown: string, unsupported: bool, warned: string, unwinding: bool, final: string)
    requires warned == if unsupported then verdictShown + NoticeText(UnsupportedConstruct) else verdictShown
    requires final == if unwinding then warned + NoticeText(UnwindingFailures) else warned
    ensures final == verdictShown + NoticeWhen(unsupported, UnsupportedConstruct) + NoticeWhen(unwinding, UnwindingFailures)
  {
    AppendWhen(verdictShown, unsupported, NoticeText(UnsupportedConstruct));
    AppendWhen(warned, unwinding, NoticeText(UnwindingFailures));
  }

  /** The report is put together from the counts, the listing, the summary and the failure messages. */
  lemma ReportAt(ps: seq<Property>, showChecks: bool, relPath: string -> string, listing: string,
                 failed: nat, undetermined: nat, unreachable: nat, failedTests: seq<Property>,
                 head: string, text: Outcome<string>)
    requires listing == if showChecks then ChecksListing(ps, relPath) else ""
    requires failed == CountStatus(ps, Failure) && failedTests == FailedChecks(ps)
    requires undetermined == CountStatus(ps, Undetermined)
    requires unreachable == CountStatus(ps, Unreachable)
    requires head == (if showChecks then listing + "\nSUMMARY:" else listing + "\nVERIFICATION RESULT:")
                     + SummaryLine(failed, |ps|) + OthersText(OtherStatuses(undetermined, unreachable)) + "\n"
    requires text == WithFailureMessages(head, failedTests)
    ensures text.Panic? ==> Report(ps, showChecks, relPath) == Panic(text.error)
    ensures text.Ok? ==>
      Report(ps, showChecks, relPath) == Ok(text.value + VerdictText(failed == 0) + UnsupportedConstructText(ps) + UnwindingText(ps))
  {
    if !showChecks {
      assert listing + "\nVERIFICATION RESULT:" == "\nVERIFICATION RESULT:";
    }
  }

  /**
   * `format_result`: counts, lists and summarises the checks, appends the
   * failure messages, then prints the verdict and the warnings.
   */
  method FormatResult(ps: seq<Property>, showChecks: bool, relPath: string -> string) returns (r: Outcome<string>)
    ensures r == Report(ps, showChecks, relPath)
  {
    var resultStr, numberTestsFailed, numberTestsUndetermined, numberTestsUnreachable, failedTests :=
      ListChecks(ps, showChecks, relPath);
    ghost var listing := resultStr;
    if showChecks {
      resultStr := resultStr + "\nSUMMARY:";
    } else {
      resultStr := resultStr + "\nVERIFICATION RESULT:";
    }
    resultStr := Summarise(resultStr, numberTestsFailed, |ps|, numberTestsUndetermined, numberTestsUnreachable);
    var withMessages := AppendFailureMessages(resultStr, failedTests);
    ReportAt(ps, showChecks, relPath, listing, numberTestsFailed, numberTestsUndetermined, numberTestsUnreachable,
             failedTests, resultStr, withMessages);
    if withMessages.Panic? {
      return Panic(withMessages.error);
    }
    resultStr := withMessages.value;

    var verificationResult := if numberTestsFailed == 0 then "SUCCESSFUL " else "FAILED";
    assert "\nVERIFICATION:- " + verificationResult + "\n" == VerdictText(numberTestsFailed == 0);
    resultStr := resultStr + ("\nVERIFICATION:- " + verificationResult + "\n");
    ghost var verdictShown := resultStr;
    if HasCheckFailures(ps, UNSUPPORTED_CONSTRUCT_DESC) {
      resultStr := resultStr + NoticeText(UnsupportedConstruct);
    }
    ghost var warned := resultStr;
    if HasCheckFailures(ps, UNWINDING_ASSERT_DESC) {
      resultStr := resultStr + NoticeText(UnwindingFailures);
    }
    NoticesAt(verdictShown, HasCheckFailures(ps, UNSUPPORTED_CONSTRUCT_DESC), warned,
              HasCheckFailures(ps, UNWINDING_ASSERT_DESC), resultStr);
    r := Ok(resultStr);
  }

  /**
   * `format_item`: the regular format prints programs, messages and results
   * (with the list of checks); the terse format prints only results, without
   * the list. Prover statuses are never printed.
   */
  method FormatItem(item: ParserItem, format: OutputFormat, relPath: string -> string) returns (r: Outcome<Option<string>>)
    ensures item.Result? ==> (r.Panic? <==> Report(item.result, format == Regular, relPath).Panic?)
    ensures item.Result? && r.Ok? ==> r.value == Some(Report(item.result, format == Regular, relPath).value)
    ensures format == Regular && item.Program? ==> r == Ok(Some(item.program))
    ensures format == Regular && item.Message? ==> r == Ok(Some(item.messageText))
    ensures item.ProverStatus? || (format == Terse && !item.Result?) ==> r == Ok(None)
  {
    match item
    case Result(result) =>
      var text := FormatResult(result, format == Regular, relPath);
      if text.Panic? {
        return Panic(text.error);
      }
      r := Ok(Some(text.value));
    case Program(program) =>
      r := if format == Regular then Ok(Some(program)) else Ok(None);
    case Message(messageText, _) =>
      r := if format == Regular then Ok(Some(messageText)) else Ok(None);
    case ProverStatus(_) =>
      r := Ok(None);
  }
}
