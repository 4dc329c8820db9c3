/**
 * What the driver does with each item the parser yields before printing it:
 * CBMC's progress messages are skipped, a result is postprocessed, and an
 * error message suggesting `--object-bits` is rewritten to name the flags
 * Kani needs to pass the option on to CBMC.
 */
module Classifier {
  import opened Strings
  import opened CbmcTypes
  import opened Postprocess

  /** The hint in CBMC's error message when the object bits run out. */
  const OBJECT_BITS_HINT := "use the `--object-bits n` option"
  /** The option as CBMC spells it. */
  const OBJECT_BITS_FLAG := "--object-bits "
  /** The option as it has to be given to Kani. */
  const KANI_OBJECT_BITS_FLAG := "--enable-unstable --cbmc-args --object-bits "

  /** `must_be_skipped`: messages announcing the error trace or CBMC's own verdict are not shown. */
  predicate MustBeSkipped(item: ParserItem) {
    item.Message?
    && (StartsWith(item.messageText, "Building error trace") || StartsWith(item.messageText, "VERIFICATION"))
  }

  /** Only messages are skipped: programs, results and prover statuses always reach the formatter. */
  lemma SkippedItemsAreMessages(item: ParserItem)
    ensures MustBeSkipped(item) ==> item.Message?
    ensures item.Result? || item.Program? || item.ProverStatus? ==> !MustBeSkipped(item)
  {
  }

  /** CBMC's own verdict never reaches the user: the driver prints its own. */
  lemma CbmcVerdictSkipped(messageType: string)
    ensures MustBeSkipped(Message("VERIFICATION SUCCESSFUL", messageType))
    ensures MustBeSkipped(Message("VERIFICATION FAILED", messageType))
  {
    assert "VERIFICATION SUCCESSFUL"[..12] == "VERIFICATION";
    assert "VERIFICATION FAILED"[..12] == "VERIFICATION";
  }

  /** A string containing `t` contains whatever `t` contains. */
  lemma ContainsTransitive(s: string, t: string, u: string)
    requires Contains(s, t) && Contains(t, u)
    ensures Contains(s, u)
  {
    var i :| 0 <= i <= |s| - |t| && OccursAt(s, t, i);
    var j :| 0 <= j <= |t| - |u| && OccursAt(t, u, j);
    forall k | 0 <= k < |u| ensures s[i + j + k] == u[k] {
      assert s[i + j + k] == t[j + k];
    }
    assert s[i + j..i + j + |u|] == u;
    assert OccursAt(s, u, i + j);
  }

  /** The hint names the option as CBMC spells it. */
  lemma HintNamesFlag()
    ensures Contains(OBJECT_BITS_HINT, OBJECT_BITS_FLAG)
  {
    assert OBJECT_BITS_HINT == "use the `" + OBJECT_BITS_FLAG + "n` option";
    assert OBJECT_BITS_HINT[9..9 + |OBJECT_BITS_FLAG|] == OBJECT_BITS_FLAG;
    assert OccursAt(OBJECT_BITS_HINT, OBJECT_BITS_FLAG, 9);
  }

  /**
   * `postprocess_error_message`: a message with the `--object-bits` hint gets
   * every `--object-bits ` replaced by the Kani form and the type `ERROR`;
   * anything else is returned as it is.
   */
  function PostprocessErrorMessage(message: ParserItem): (r: ParserItem)
    ensures !(message.Message? && Contains(message.messageText, OBJECT_BITS_HINT)) ==> r == message
    ensures message.Message? && Contains(message.messageText, OBJECT_BITS_HINT) ==>
      r.Message? && r.messageType == "ERROR"
      && r.messageText == ReplaceAll(message.messageText, OBJECT_BITS_FLAG, KANI_OBJECT_BITS_FLAG)
      && Contains(r.messageText, KANI_OBJECT_BITS_FLAG)
  {
    if message.Message? && Contains(message.messageText, OBJECT_BITS_HINT) then
      HintNamesFlag();
      ContainsTransitive(message.messageText, OBJECT_BITS_HINT, OBJECT_BITS_FLAG);
      ReplaceAllIntroduces(message.messageText, OBJECT_BITS_FLAG, KANI_OBJECT_BITS_FLAG);
      Message(ReplaceAll(message.messageText, OBJECT_BITS_FLAG, KANI_OBJECT_BITS_FLAG), "ERROR")
    else
      message
  }

  /**
   * `process_item`: a result is postprocessed and its verdict stored in `res`
   * (modelled as the incoming `res` and the returned `newRes`); an error
   * message goes through `postprocess_error_message`; every other item is
   * passed on unchanged.
   */
  method ProcessItem(item: ParserItem, extraPtrChecks: bool, res: bool) returns (r: Outcome<ParserItem>, newRes: bool)
    ensures r.Panic? ==> item.Result?
    ensures item.Result? && r.Ok? ==> r.value.Result? && ShownFaithfully(item.result, extraPtrChecks, r.value.result, newRes)
    ensures !item.Result? ==> newRes == res
    ensures item.Message? && item.messageType == "ERROR" ==> r == Ok(PostprocessErrorMessage(item))
    ensures item.Message? ==> r.Ok? && r.value.Message? && r.value.messageType == item.messageType
    ensures item.Program? || item.ProverStatus? || (item.Message? && item.messageType != "ERROR") ==> r == Ok(item)
  {
    newRes := res;
    match item
    case Result(result) =>
      var post := PostprocessResult(result, extraPtrChecks);
      if post.Panic? {
        return Panic(post.error), newRes;
      }
      newRes := post.value.1;
      r := Ok(Result(post.value.0));
    case Message(_, messageType) =>
      if messageType == "ERROR" {
        r := Ok(PostprocessErrorMessage(item));
      } else {
        r := Ok(item);
      }
    case _ =>
      r := Ok(item);
  }
}
