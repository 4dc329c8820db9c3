# CBMC output parser of the Kani driver, in Dafny

Kani verifies Rust programs by handing them to the CBMC model checker. CBMC
writes its findings as one JSON array on standard output. The driver
(`kani-driver/src/cbmc_output_parser.rs`) reads that array line by line,
postprocesses the list of checks ("properties") it contains, and prints a
report that ends in the verdict `VERIFICATION:- SUCCESSFUL ` or
`VERIFICATION:- FAILED`. The driver's central promise is that a failing check is
never reported as passing. This project models that code and proves that
promise together with the properties of each stage.

The modules follow the parts of the Rust file:

- `Wrappers`, `Strings`, `Seqs`: `Option`; the `str` operations the driver uses
  (`starts_with`, `contains`, `find`, `replace`, decimal rendering of counts);
  and the order relations that specify the filters (subsequence, interleaving).
- `CbmcTypes`: the records decoded from CBMC's JSON (`ParserItem`, `Property`,
  `SourceLocation`, `TraceItem`, `CheckStatus`) and their `Display` forms.
  It also holds `extract_property_class` and `FatalError`, the list of
  conditions under which the driver panics. Every `unwrap` and `assert!` that can
  fail becomes an explicit `Panic(...)` result of type `Outcome`, not a
  precondition.
- `Descriptions`: the table `CBMC_DESCRIPTIONS`, as `DescriptionAliases`, and
  `get_readable_description`.
- `CheckIds`: the three regular expressions written out as scanners. They follow
  the leftmost-first, greedy semantics of Rust's `regex` crate, where `.` stops at
  a newline:
  - `KANI_CHECK_ID_.*_([0-9])*` on reachability checks;
  - `\[KANI_CHECK_ID_([^\]]*)\]` on real checks;
  - `\[KANI_CHECK_ID_.*_([0-9])*\] ` for stripping.
- `StreamParser`: the class `Parser` with its field `inputSoFar`, and its
  methods `ClearInputText`, `AddToInput`, `DoAction`, `ProcessLine` and
  `ProcessLines`. A value-level specification (`Step`, `Run`) states what they do.
  The JSON decoder is a parameter `parse`.
- `Postprocess`: `postprocess_result` and every stage it calls.
  - The loops the driver runs become methods with loop invariants:
    `modify_undefined_function_checks`, `filter_properties`, both loops of
    `annotate_properties_with_reach_results`, `remove_check_ids_from_description`
    and `final_changes`.
  - Iterator filters and counts become functions: `filter_sanity_checks`,
    `filter_ptr_checks`, `determine_result` and `has_check_failures`.
  - `ShownFaithfully` collects what the whole pipeline guarantees about the
    checks it shows and the verdict it returns. The shown checks are, one for
    one and in order, the real checks that are neither successful sanity checks
    nor, unless asked for, pointer checks (`DisplayedChecks`). Each shown check is
    that check with the reachability its reachability check gives it, the first id
    token cut from its description, then its readable description and final
    status; its id, location and trace are unchanged. The verdict is true exactly
    when none of those checks failed.
- `Classifier`: `must_be_skipped`, `postprocess_error_message` and `process_item`.
- `Report`: `format_result`, as the method `FormatResult`, proved equal to the
  function `Report`. Its phases are separate methods: the loop over the checks
  (`ListChecks`), the summary (`Summarise`) and the loop over the failure
  messages (`AppendFailureMessages`). This module also holds
  `build_failure_message` and `format_item`.

The end-to-end result is `Report.FailedCheckNeverReportedSuccessful`. Take a
real check that CBMC reports as failed and that no filter is allowed to drop.
Then the verdict `postprocess_result` returns is false. Whenever the report on
the shown checks is printed, it ends with the `FAILED` verdict line followed only
by the advisories.

Where the driver's written description and its code differ, the model follows
the code:

- An advisory is printed only for a check that both mentions the marker text and
  has status `FAILURE` (`has_check_failures`). Mentioning the marker is not
  enough.
- Removing the check id replaces only the first match of a greedy pattern, so
  it is not idempotent. Two tokens on separate lines need two passes.
- A failure message shows the location of the last trace step only when the
  file, the line and the function are all known.
- The listing prints the full property id (`Check N: <id>`).
- The terse format prints the same summary, failure messages, verdict and
  advisories as the regular one, without the list of checks.
- The success verdict reads `SUCCESSFUL ` with a trailing space.

## Model

| member | source | states |
|---|---|---|
| CbmcTypes.ParseStatus | kani-driver/src/cbmc_output_parser.rs:295-302 | A status decoded from its upper-case name prints back as that name. |
| CbmcTypes.StatusTextRoundTrip | kani-driver/src/cbmc_output_parser.rs:189-199 | Decoding the printed name of a status gives that status back. |
| CbmcTypes.LocationText | kani-driver/src/cbmc_output_parser.rs:213-237 | Without a file the location is `Unknown File`, with no line or column. With a file it is the relative path, then `:<line>` when a line is known, then `:<column>` only when the line is known too. A known function adds ` in function <name>` at the end. |
| CbmcTypes.LocationFunctionClause | kani-driver/src/cbmc_output_parser.rs:230-233 | The function clause is appended to the text of the place, whatever the place is. |
| CbmcTypes.LastIndexBefore | kani-driver/src/cbmc_output_parser.rs:739-742 | The index found holds the last `.` before the bound; None means there is no `.` before the bound. |
| CbmcTypes.PropertyClassIsSecondToLastSegment | kani-driver/src/cbmc_output_parser.rs:739-742 | The class of an id is its second-to-last dot-separated segment. It is None exactly when the id has fewer than two segments. |
| CbmcTypes.WellFormedIdIffDot | kani-driver/src/cbmc_output_parser.rs:739-742 | An id has a class, so the stages that `unwrap` it cannot panic, exactly when it contains a `.`. |
| CbmcTypes.CountStatusZero | kani-driver/src/cbmc_output_parser.rs:658-662 | The count of checks with a status is zero exactly when no check has it. |
| CbmcTypes.CountStatusPartition | kani-driver/src/cbmc_output_parser.rs:512-525 | The four status counts add up to the number of checks, so the checks not counted as failed, undetermined or unreachable are the successful ones. |
| Strings.ReplaceAllAbsent | kani-driver/src/cbmc_output_parser.rs:434-436 | `replace` leaves a text without the pattern unchanged. |
| Strings.ReplaceAllIntroduces | kani-driver/src/cbmc_output_parser.rs:434-436 | After `replace`, a text that held the pattern holds the replacement. |
| Strings.NatToStringValue | kani-driver/src/cbmc_output_parser.rs:551 | The decimal digits printed for a count read back as that count. |
| Seqs.InterleavesMultiset | kani-driver/src/cbmc_output_parser.rs:748-759 | Splitting a list into two interleaved parts loses and invents no entry. |
| Seqs.InterleavesSubsequences | kani-driver/src/cbmc_output_parser.rs:748-759 | Each part of the split keeps the relative order of the input. |
| Descriptions.FirstAlias | kani-driver/src/cbmc_output_parser.rs:670-680 | The alias search gives None exactly when no alias text occurs in the description. Otherwise it gives the first alias that occurs, shown as its replacement if it has one and as the matched text otherwise. |
| Descriptions.FirstMatchWins | kani-driver/src/cbmc_output_parser.rs:670-680 | If alias `k` is the first whose text occurs, the result is alias `k`'s replacement, or its text. |
| Descriptions.GetReadableDescription | kani-driver/src/cbmc_output_parser.rs:664-683 | It panics exactly when the id has no class, with `MalformedPropertyId`. Otherwise it gives the readable form of the description for that class. |
| CheckIds.LineEnd | kani-driver/src/cbmc_output_parser.rs:716 | The reach of `.*`: the first newline at or after the start, or the end of the text, with no newline before it. |
| CheckIds.DigitsEnd | kani-driver/src/cbmc_output_parser.rs:775 | The end of the greedy `([0-9])*`: every character before it is a digit, and the character at it is not. |
| CheckIds.LastUnderscore | kani-driver/src/cbmc_output_parser.rs:775 | Where greedy `.*_` places its `_`: the last `_` in the range, or None when the range has none. |
| CheckIds.MarkerEndFound | kani-driver/src/cbmc_output_parser.rs:775 | A match of the id pattern can start after an occurrence of `KANI_CHECK_ID_` exactly when an `_` follows on the same line. |
| CheckIds.MarkerEndIsGreedy | kani-driver/src/cbmc_output_parser.rs:775 | A match that starts at a position ends at `e` exactly when `e` is where greedy `.*_([0-9])*` stops: after the maximal run of digits that follows the last `_` of the line. |
| CheckIds.MarkerMatchFromNone | kani-driver/src/cbmc_output_parser.rs:775-779 | The search from a position finds nothing exactly when no match of the id pattern starts at or after it. |
| CheckIds.MarkerMatchFromIsLeftmost | kani-driver/src/cbmc_output_parser.rs:775-779 | The search reports `(s, e)` exactly when `s` is the leftmost position where a match can start and `e` is where that match ends. |
| CheckIds.MarkerCheckIdIsFirstMatch | kani-driver/src/cbmc_output_parser.rs:779-780 | A description has an id exactly when some match exists. The id is the text of the leftmost match, and the key is that id in brackets. |
| CheckIds.MarkerKeyOfKaniId | kani-driver/src/cbmc_output_parser.rs:775-780 | When the first `KANI_CHECK_ID_` in a description starts an id `KANI_CHECK_ID_<name>_<digits>` that runs to the end, the key is that id in brackets. |
| CheckIds.CheckTokenIsFirstMatch | kani-driver/src/cbmc_output_parser.rs:790-793 | A token is found whenever some `[KANI_CHECK_ID_` is followed later by `]`, and only then. It runs from the first opening to the first `]` after it. |
| CheckIds.TokenNeedsOpening | kani-driver/src/cbmc_output_parser.rs:790-791 | A description has a token only if it contains `[KANI_CHECK_ID_`. |
| CheckIds.CheckTokenOfKaniId | kani-driver/src/cbmc_output_parser.rs:790-793 | For `[<id>] <rest>` with a Kani id and no `]` in the rest, the token is `[<id>]`. Stripping gives exactly the rest. |
| CheckIds.StripEndFinds | kani-driver/src/cbmc_output_parser.rs:716 | The scan of a line for the stripping pattern succeeds exactly when some `_` on it is followed by its digits and then `] `. |
| CheckIds.StripEndIsLastClosing | kani-driver/src/cbmc_output_parser.rs:716 | Greedy `.*` takes the last such `_` of the line: the match ends after its digits and the `] `. |
| CheckIds.StripAtFound | kani-driver/src/cbmc_output_parser.rs:716 | A stripping match can start at an occurrence of `[KANI_CHECK_ID_` (some `_` on its line is followed by its digits and `] `) exactly when the scan of its line succeeds. |
| CheckIds.StripMatchFromNone | kani-driver/src/cbmc_output_parser.rs:716-719 | The search from a position finds nothing exactly when no stripping match starts at or after it. |
| CheckIds.StripMatchFromIsLeftmost | kani-driver/src/cbmc_output_parser.rs:716-719 | The search reports `(s, e)` exactly when `s` is the leftmost position where a stripping match can start and `e` is where that match ends. |
| CheckIds.StripCheckIdRemovesFirstMatch | kani-driver/src/cbmc_output_parser.rs:718 | Stripping leaves a description without any match unchanged. Otherwise it cuts out exactly the leftmost match and keeps the rest. |
| CheckIds.StripRemovesToken | kani-driver/src/cbmc_output_parser.rs:716-719 | Take a description of the form `[KANI_CHECK_ID_<name>_<digits>] <rest>` with no newline in the name and no `]` in the rest. Stripping leaves exactly the rest. |
| StreamParser.TriggersAction | kani-driver/src/cbmc_output_parser.rs:332-340 | A line starting with `[` or `]` clears the gathered text. A line starting with `  }`, and with neither bracket, completes an item. Any other line asks for nothing. |
| StreamParser.ParseBuffer | kani-driver/src/cbmc_output_parser.rs:364-378 | The text without its last two characters is decoded first, then the whole text. It panics with `UnparsableItem` exactly when both decodings fail. |
| StreamParser.Step | kani-driver/src/cbmc_output_parser.rs:380-389 | A bracket line empties the gathered text and yields nothing. A closing line yields exactly the item decoded from the gathered text including that line, and empties the text. Any other line is appended and yields nothing. |
| StreamParser.RunYieldsOneItemPerClosingLine | kani-driver/src/cbmc_output_parser.rs:380-389 | A run of lines that does not panic yields exactly one item per closing line. |
| StreamParser.RunWithoutClosingLine | kani-driver/src/cbmc_output_parser.rs:380-389 | Lines without a closing line never panic and yield no item. |
| StreamParser.BracketLineResets | kani-driver/src/cbmc_output_parser.rs:332-344 | After a bracket line, the text gathered before it has no effect on what follows. |
| StreamParser.Parser.constructor | kani-driver/src/cbmc_output_parser.rs:328-330 | A new parser has gathered nothing. |
| StreamParser.Parser.ClearInputText | kani-driver/src/cbmc_output_parser.rs:342-344 | Afterwards the gathered text is empty. |
| StreamParser.Parser.AddToInput | kani-driver/src/cbmc_output_parser.rs:360-362 | The line is appended to the gathered text. |
| StreamParser.Parser.DoAction | kani-driver/src/cbmc_output_parser.rs:346-358 | Clearing yields nothing. Processing yields the decoded item, or panics exactly when decoding fails. On success the gathered text is empty. |
| StreamParser.Parser.ProcessLine | kani-driver/src/cbmc_output_parser.rs:380-389 | The item yielded, the new gathered text and the panic case all match `Step` applied to the old gathered text. |
| StreamParser.Parser.ProcessLines | kani-driver/src/cbmc_output_parser.rs:392-415 | Feeding lines one at a time yields exactly the items `Run` gives, in order, and leaves the text `Run` leaves. It panics exactly when `Run` does. |
| Classifier.SkippedItemsAreMessages | kani-driver/src/cbmc_output_parser.rs:441-444 | Only messages are skipped. Programs, results and prover statuses never are. |
| Classifier.CbmcVerdictSkipped | kani-driver/src/cbmc_output_parser.rs:441-444 | CBMC's own `VERIFICATION SUCCESSFUL` and `VERIFICATION FAILED` messages are skipped. |
| Classifier.PostprocessErrorMessage | kani-driver/src/cbmc_output_parser.rs:432-440 | A message with the `--object-bits` hint gets type `ERROR` and text with every `--object-bits ` replaced by the Kani form, which it then contains. Any other item is unchanged. |
| Classifier.ProcessItem | kani-driver/src/cbmc_output_parser.rs:417-430 | A result is postprocessed and its verdict becomes the new `res`, with `ShownFaithfully` holding. An `ERROR` message goes through the rewrite. Every other item passes unchanged, and only a result can panic or change `res`. |
| Postprocess.CountFailuresWithPositive | kani-driver/src/cbmc_output_parser.rs:805-811 | The count of failed checks mentioning a text is positive exactly when one exists. |
| Postprocess.HasCheckFailures | kani-driver/src/cbmc_output_parser.rs:805-811 | True exactly when some check both mentions the text and has status `FAILURE`. |
| Postprocess.RewriteUndefined | kani-driver/src/cbmc_output_parser.rs:726-732 | An undefined-function check gets the missing-definition description, and nothing else about it changes. Every other check is unchanged. |
| Postprocess.RelabelIfUndefined | kani-driver/src/cbmc_output_parser.rs:725-735 | It panics exactly when the description says `assertion false` and the id has no class. Otherwise it gives the rewrite, and flags a failed undefined-function check. |
| Postprocess.ModifyUndefinedFunctionChecks | kani-driver/src/cbmc_output_parser.rs:723-737 | It panics exactly when some check is malformed in that way. Otherwise every check is rewritten in place, and the flag is true exactly when a failed undefined-function check exists. |
| Postprocess.SplitIsSelection | kani-driver/src/cbmc_output_parser.rs:748-759 | A split that keeps order, with the text in every entry of one part and in none of the other, is determined: the parts are the two selections. |
| Postprocess.FilterProperties | kani-driver/src/cbmc_output_parser.rs:748-759 | The two lists interleave to the input. The removed list holds exactly the checks mentioning the text, and the kept list exactly the others, each in input order. |
| Postprocess.FilterReachChecks | kani-driver/src/cbmc_output_parser.rs:744-746 | The reachability checks are split from the real checks in the same way, by `[KANI_REACHABILITY_CHECK]`. |
| Postprocess.FilterSanityChecks | kani-driver/src/cbmc_output_parser.rs:761-769 | It panics exactly when some id has no class. Otherwise the result keeps order and holds exactly the checks that are not successful sanity checks, so failed sanity checks stay. |
| Postprocess.FilterSanityChecksKeepsCounts | kani-driver/src/cbmc_output_parser.rs:761-769 | When the filter does not panic, a successful sanity check occurs zero times in the result and every other check exactly as often as in the input. |
| Postprocess.FilterPtrChecks | kani-driver/src/cbmc_output_parser.rs:705-714 | It panics exactly when some id has no class. Otherwise the result keeps order and holds exactly the checks whose class mentions neither `pointer_arithmetic` nor `pointer_primitives`. |
| Postprocess.FilterPtrChecksKeepsCounts | kani-driver/src/cbmc_output_parser.rs:705-714 | When the filter does not panic, a pointer check occurs zero times in the result and every other check exactly as often as in the input. |
| Postprocess.FilterSanityChecksSelects | kani-driver/src/cbmc_output_parser.rs:761-769 | When it does not panic, the sanity filter returns exactly the checks that are not successful sanity checks, in order. |
| Postprocess.FilterPtrChecksSelects | kani-driver/src/cbmc_output_parser.rs:705-714 | When it does not panic, the pointer filter returns exactly the checks that are not pointer checks, in order. |
| Postprocess.WithoutPointerChecksKeepsPlaces | kani-driver/src/cbmc_output_parser.rs:705-714 | The pointer filter reads only ids: on two lists with the same ids it keeps the same places, so a relation between the checks at each place survives it. |
| Postprocess.MissingKeyFault | kani-driver/src/cbmc_output_parser.rs:779 | A reachability check without an id is fatal. |
| Postprocess.DuplicateKeyFault | kani-driver/src/cbmc_output_parser.rs:782-783 | Two reachability checks with the same id are fatal. |
| Postprocess.RecordReachResults | kani-driver/src/cbmc_output_parser.rs:776-784 | The loop succeeds exactly when every reachability check has an id and no two share one; otherwise it panics with the fault. The map sends each check's key to its status and holds no other key. |
| Postprocess.ApplyReachResults | kani-driver/src/cbmc_output_parser.rs:786-801 | Each check, in place, gets the recorded status of its token as `reach` when the token is in the map. |
| Postprocess.AnnotatePropertiesWithReachResults | kani-driver/src/cbmc_output_parser.rs:771-803 | Same length and order, and only `reach` changes. A check whose token is some reachability check's key gets that check's status. A check whose token matches no key keeps its `reach`. Missing or duplicate ids are fatal. |
| Postprocess.RemoveCheckIdsFromDescription | kani-driver/src/cbmc_output_parser.rs:715-721 | Each description, in place, loses its first id token, and nothing else changes. |
| Postprocess.FinalStatus | kani-driver/src/cbmc_output_parser.rs:687-700 | With a fundamental failure, `SUCCESS` becomes `UNDETERMINED` and the other statuses stay. Without one, a check whose reachability check succeeded is `UNREACHABLE`. A check counts as failed exactly when it did before. |
| Postprocess.FinaliseProperty | kani-driver/src/cbmc_output_parser.rs:686-701 | It panics exactly when the id has no class, or a check marked unreachable was not proved. Otherwise the check gets its readable description and final status. |
| Postprocess.FinalChanges | kani-driver/src/cbmc_output_parser.rs:685-703 | It succeeds exactly when every check can be finalised, and otherwise panics with the fault of one of them. Length and order are kept, and each check is finalised in place. |
| Postprocess.DetermineResult | kani-driver/src/cbmc_output_parser.rs:658-662 | The verdict is true exactly when no check has status `FAILURE`. |
| Postprocess.ShownChecksKeepOrder | kani-driver/src/cbmc_output_parser.rs:622-656 | The ids shown are a subsequence of the ids CBMC reported. |
| Postprocess.RealChecksWellFormed | kani-driver/src/cbmc_output_parser.rs:761-769 | When the pipeline gets past the sanity filter, every real check has a class. |
| Postprocess.ShownChecksFiltered | kani-driver/src/cbmc_output_parser.rs:644-648 | No successful sanity check is shown. Without extra pointer checks, no pointer check is shown. |
| Postprocess.ShownStatuses | kani-driver/src/cbmc_output_parser.rs:651-654 | After a fundamental failure no check is shown as `SUCCESS`. Otherwise every check whose reachability check succeeded is shown `UNREACHABLE`. |
| Postprocess.FailedChecksShown | kani-driver/src/cbmc_output_parser.rs:622-656 | A failed real check is shown as failed, unless it is a pointer check that was not asked for. |
| Postprocess.DisplayedChecks | kani-driver/src/cbmc_output_parser.rs:633-648 | A check is in the selection exactly when it is a real check that is neither a successful sanity check nor, unless asked for, a pointer check. |
| Postprocess.DisplayedChecksAreFiltered | kani-driver/src/cbmc_output_parser.rs:636-648 | The sanity filter, followed by the pointer filter unless pointer checks are asked for, keeps exactly the displayed checks, in order. |
| Postprocess.ShownAreDisplayed | kani-driver/src/cbmc_output_parser.rs:633-653 | The checks shown carry, one for one and in order, the ids of the displayed real checks, each with its final status. |
| Postprocess.ShownRecordsAreDisplayed | kani-driver/src/cbmc_output_parser.rs:636-653 | Each shown check is its displayed real check with the reachability the reachability checks give it and the first id token cut from its description, finalised: readable description and final status, with id, location and trace unchanged. |
| Postprocess.VerdictTellsFailures | kani-driver/src/cbmc_output_parser.rs:653-662 | The verdict is true exactly when every failed real check is a pointer check that was not asked for. |
| Postprocess.PostprocessGuarantees | kani-driver/src/cbmc_output_parser.rs:622-656 | The staged results satisfy every clause of `ShownFaithfully`. |
| Postprocess.StagesCompose | kani-driver/src/cbmc_output_parser.rs:622-656 | The lists the stages' contracts describe, one stage after the other, are related as the pipeline requires. This includes the fundamental-failure flag: an unsupported construct or an unwinding assertion failed, or an undefined-function check failed. |
| Postprocess.StagesShownFaithfully | kani-driver/src/cbmc_output_parser.rs:622-656 | The stages, followed by `determine_result`, satisfy every clause of `ShownFaithfully`, including that each shown check is its displayed check annotated, stripped and finalised. |
| Postprocess.PostprocessResult | kani-driver/src/cbmc_output_parser.rs:622-656 | The shown checks and the verdict satisfy `ShownFaithfully`. The shown checks are, one for one and in order, the real checks that are neither successful sanity checks nor, unless asked for, pointer checks. Each is that check annotated with its reachability, stripped of its first id token and finalised, with location and trace unchanged. The verdict is true exactly when no shown check failed, and so exactly when no real check failed apart from pointer checks that were not asked for. |
| Report.FailedChecks | kani-driver/src/cbmc_output_parser.rs:512-516 | The failed checks collected are exactly those with status `FAILURE`, as many as the failure count, in the order they are listed (a subsequence of the checks). |
| Report.OtherStatuses | kani-driver/src/cbmc_output_parser.rs:554-562 | One part is printed per non-zero count among undetermined and unreachable. The undetermined part `N undetermined` comes first and the unreachable part `N unreachable` last. |
| Report.BuildFailureMessage | kani-driver/src/cbmc_output_parser.rs:594-620 | It panics exactly when the trace is present but empty. Otherwise the message starts with the fallback `Failed Checks: <description>`. It is exactly the fallback when the last trace step lacks a file, a line or a function. When all three are known, the fallback is followed by ` File: "<file>", line <line>, in <function>` of the last step, with the file as CBMC gave it. |
| Report.WithFailureMessages | kani-driver/src/cbmc_output_parser.rs:570-573 | Appending the failure messages panics exactly when a failed check has an empty trace. |
| Report.FailureMessagesPanicPersists | kani-driver/src/cbmc_output_parser.rs:570-573 | Once the messages of a prefix panic, the whole list panics with the same error. |
| Report.FailureMessagePanics | kani-driver/src/cbmc_output_parser.rs:570-573 | A message that panics makes the whole report panic with its error. |
| Report.VerdictTextTells | kani-driver/src/cbmc_output_parser.rs:575-577 | The verdict line is the success line exactly when the verdict is success. |
| Report.ReportVerdict | kani-driver/src/cbmc_output_parser.rs:575-589 | A report that does not panic ends with the verdict line of `determine_result`, followed only by the advisories. It panics exactly when a failed check has an empty trace. |
| Report.FailedCheckNeverReportedSuccessful | kani-driver/src/cbmc_output_parser.rs:622-662 | A failed real check that no filter may drop makes the returned verdict false. The report on the shown checks then ends with `FAILED` followed only by the advisories. |
| Report.CountCheck | kani-driver/src/cbmc_output_parser.rs:512-525 | Exactly the counter of the check's status goes up by one, except for `SUCCESS`. A failed check is appended to the failed checks. |
| Report.ListChecks | kani-driver/src/cbmc_output_parser.rs:502-544 | After the loop the counters are the status counts and the failed checks are `FailedChecks`. The text is the numbered listing when checks are shown and empty otherwise. |
| Report.Summarise | kani-driver/src/cbmc_output_parser.rs:551-568 | The heading is followed by `** F of N failed`, the parenthesised other counts when there are any, and a newline. |
| Report.AppendFailureMessages | kani-driver/src/cbmc_output_parser.rs:570-573 | The loop gives exactly `WithFailureMessages`, including its panic. |
| Report.FormatResult | kani-driver/src/cbmc_output_parser.rs:493-592 | The text `format_result` builds, or the panic it hits, is `Report` of the checks. |
| Report.FormatItem | kani-driver/src/cbmc_output_parser.rs:469-491 | Regular format: results print with the list of checks, and programs and messages print their text. Terse format: only results print, without the list. Prover statuses never print. |

## Left out

- Reading CBMC's standard output (`Iterator::next` of the parser) and `call_loop` are I/O and printing. `ProcessLines` receives the lines as a sequence. Panics on a read error, and the `println!` of each formatted item, are not modelled.
- JSON decoding with `serde_json` is a foreign library. It is the parameter `parse`, which maps a text to an item or to nothing.
- `filepath` depends on the process's current directory and on `pathdiff`. It is the parameter `relPath`.
- `OutputFormat::Old` is `todo!()` in the driver and is not modelled. Neither are the unused `Printer`/`AllPrinter`, `CbmcOutput`, `Message` and `Program`.
- The `Display` of `ParserItem` is not modelled, because the formatter does not use it.
- The `regex` crate is not modelled in general. Only the three fixed patterns are written out as scanners.
- The vectors that the driver updates in place are moved into and out of each stage, so nothing aliases them. The stages are modelled as methods over `seq` values that return the new list. The `HashMap` is a Dafny `map`.
- The `index` and the counters of `format_result` are integer literals that Rust types as `i32`. Here they are unbounded, so the overflow on a list of more than 2^31 - 1 checks is not modelled.
- StreamParser.ParseBuffer: the driver cuts the last two BYTES of the UTF-8 text, while the model cuts the last two characters. They agree when the last two characters are ASCII. Otherwise the driver either panics on a slice that is not on a character boundary or decodes a different prefix, and the model does not capture either.
- Postprocess.PostprocessResult: its contract says what holds when it succeeds, not when it panics. Each stage's own contract states its panic conditions.
- The case in `parse_item` where the gathered text is shorter than two characters cannot arise: a line completes an item only when it starts with `  }`.
