/**
 * `postprocess_result` and its stages: the list of checks CBMC reports is
 * rewritten, filtered and annotated before it is shown, and the overall
 * verdict is computed from what remains.
 */
module Postprocess {
  import opened Wrappers
  import opened Strings
  import opened Seqs
  import opened CbmcTypes
  import opened Descriptions
  import opened CheckIds

  const UNSUPPORTED_CONSTRUCT_DESC := "is not currently supported by Kani"
  const UNWINDING_ASSERT_DESC := "unwinding assertion loop"
  const ASSERTION_FALSE := "assertion false"
  const DEFAULT_ASSERTION := "assertion"
  const REACH_CHECK_DESC := "[KANI_REACHABILITY_CHECK]"
  const MISSING_DEFINITION_DESC := "Function with missing definition is unreachable"

  /** A failed check whose description mentions `msg`. */
  predicate FailsWith(p: Property, msg: string) {
    Contains(p.description, msg) && p.status == Failure
  }

  /** The number of failed checks whose description mentions `msg`. */
  function CountFailuresWith(ps: seq<Property>, msg: string): nat
    decreases |ps|
  {
    if ps == [] then 0
    else CountFailuresWith(ps[..|ps| - 1], msg) + (if FailsWith(ps[|ps| - 1], msg) then 1 else 0)
  }

  lemma {:induction false} CountFailuresWithPositive(ps: seq<Property>, msg: string)
    ensures CountFailuresWith(ps, msg) > 0 <==> exists i :: 0 <= i < |ps| && FailsWith(ps[i], msg)
    decreases |ps|
  {
    if ps != [] {
      var init := ps[..|ps| - 1];
      CountFailuresWithPositive(init, msg);
      assert forall i :: 0 <= i < |init| ==> init[i] == ps[i];
      if FailsWith(ps[|ps| - 1], msg) {
        assert FailsWith(ps[|ps| - 1], msg);
      } else if exists i :: 0 <= i < |ps| && FailsWith(ps[i], msg) {
        var i :| 0 <= i < |ps| && FailsWith(ps[i], msg);
        assert i < |init| && FailsWith(init[i], msg);
      }
    }
  }

  /** `has_check_failures`: some failed check mentions `msg` in its description. */
  function HasCheckFailures(ps: seq<Property>, msg: string): (r: bool)
    ensures r <==> exists i :: 0 <= i < |ps| && FailsWith(ps[i], msg)
  {
    CountFailuresWithPositive(ps, msg);
    CountFailuresWith(ps, msg) > 0
  }

  /** The check CBMC emits for a call to a function without a body. */
  predicate IsUndefinedFunctionCheck(p: Property) {
    Contains(p.description, ASSERTION_FALSE)
    && PropertyClass(p.property) == Some(DEFAULT_ASSERTION)
    && p.sourceLocation.file.None?
  }

  /** The rewrite `modify_undefined_function_checks` applies to one check. */
  function RewriteUndefined(p: Property): (r: Property)
    ensures r.property == p.property && r.status == p.status && r.sourceLocation == p.sourceLocation
    ensures r.reach == p.reach && r.trace == p.trace
    ensures IsUndefinedFunctionCheck(p) ==> r.description == MISSING_DEFINITION_DESC
    ensures !IsUndefinedFunctionCheck(p) ==> r == p
  {
    if IsUndefinedFunctionCheck(p) then p.(description := MISSING_DEFINITION_DESC) else p
  }

  /** Every check of `ps` after that rewrite. */
  function RewriteAllUndefined(ps: seq<Property>): (r: seq<Property>)
    ensures |r| == |ps| && forall i :: 0 <= i < |ps| ==> r[i] == RewriteUndefined(ps[i])
  {
    seq(|ps|, i requires 0 <= i < |ps| => RewriteUndefined(ps[i]))
  }

  /** A check whose class `modify_undefined_function_checks` must read but cannot. */
  predicate UnwrapsMalformed(p: Property) {
    Contains(p.description, ASSERTION_FALSE) && !WellFormedId(p.property)
  }

  /** The body of the loop in `modify_undefined_function_checks`, for one check. */
  method RelabelIfUndefined(prop: Property) returns (r: Outcome<Property>, failedUndefined: bool)
    ensures r.Panic? <==> UnwrapsMalformed(prop)
    ensures r.Panic? ==> r.error == MalformedPropertyId(prop.property)
    ensures r.Ok? ==> r.value == RewriteUndefined(prop)
    ensures r.Ok? ==> (failedUndefined <==> IsUndefinedFunctionCheck(prop) && prop.status == Failure)
  {
    failedUndefined := false;
    r := Ok(prop);
    if Contains(prop.description, ASSERTION_FALSE) {
      var cls := PropertyClass(prop.property);
      if cls.None? {
        r := Panic(MalformedPropertyId(prop.property));
        return;
      }
      if cls.value == DEFAULT_ASSERTION && prop.sourceLocation.file.None? {
        r := Ok(prop.(description := MISSING_DEFINITION_DESC));
        if prop.status == Failure {
          failedUndefined := true;
        }
      }
    }
  }

  /**
   * `modify_undefined_function_checks`: relabels the checks for calls to
   * undefined functions and reports whether one of them failed.
   */
  method ModifyUndefinedFunctionChecks(ps: seq<Property>) returns (r: Outcome<seq<Property>>, hasUnknownLocationChecks: bool)
    ensures r.Panic? <==> exists i :: 0 <= i < |ps| && UnwrapsMalformed(ps[i])
    ensures r.Panic? ==> exists i :: 0 <= i < |ps| && UnwrapsMalformed(ps[i]) && r.error == MalformedPropertyId(ps[i].property)
    ensures r.Ok? ==> r.value == RewriteAllUndefined(ps)
    ensures r.Ok? ==>
      (hasUnknownLocationChecks <==> exists i :: 0 <= i < |ps| && IsUndefinedFunctionCheck(ps[i]) && ps[i].status == Failure)
  {
    var props := ps;
    hasUnknownLocationChecks := false;
    var i := 0;
    while i < |props|
      invariant 0 <= i <= |props| == |ps|
      invariant forall j :: 0 <= j < i ==> !UnwrapsMalformed(ps[j])
      invariant forall j :: 0 <= j < i ==> props[j] == RewriteUndefined(ps[j])
      invariant forall j :: i <= j < |ps| ==> props[j] == ps[j]
      invariant hasUnknownLocationChecks <==>
        exists j :: 0 <= j < i && IsUndefinedFunctionCheck(ps[j]) && ps[j].status == Failure
    {
      var next, failed := RelabelIfUndefined(props[i]);
      if next.Panic? {
        r := Panic(next.error);
        assert UnwrapsMalformed(ps[i]);
        return;
      }
      props := props[i := next.value];
      hasUnknownLocationChecks := hasUnknownLocationChecks || failed;
      i := i + 1;
    }
    r := Ok(props);
  }

  /** The checks of `ps` whose description mentions `msg`, in order. */
  function SelectWith(ps: seq<Property>, msg: string): seq<Property>
    decreases |ps|
  {
    if ps == [] then []
    else (if Contains(ps[0].description, msg) then [ps[0]] else []) + SelectWith(ps[1..], msg)
  }

  /** The checks of `ps` whose description does not mention `msg`, in order. */
  function SelectWithout(ps: seq<Property>, msg: string): seq<Property>
    decreases |ps|
  {
    if ps == [] then []
    else (if Contains(ps[0].description, msg) then [] else [ps[0]]) + SelectWithout(ps[1..], msg)
  }

  /** Splitting by a test and keeping the order determines both parts. */
  lemma {:induction false} SplitIsSelection(ps: seq<Property>, a: seq<Property>, b: seq<Property>, msg: string)
    requires Interleaves(ps, a, b)
    requires forall p :: p in a ==> !Contains(p.description, msg)
    requires forall p :: p in b ==> Contains(p.description, msg)
    ensures a == SelectWithout(ps, msg) && b == SelectWith(ps, msg)
    decreases |ps|
  {
    if ps != [] {
      if a != [] && a[0] == ps[0] && Interleaves(ps[1..], a[1..], b) {
        assert a[0] in a;
        SplitIsSelection(ps[1..], a[1..], b, msg);
        assert a == [a[0]] + a[1..];
      } else {
        assert b[0] in b;
        SplitIsSelection(ps[1..], a, b[1..], msg);
        assert b == [b[0]] + b[1..];
      }
    }
  }

  /**
   * `filter_properties`: the checks that do not mention `message`, and those
   * that do, each in input order.
   */
  method FilterProperties(ps: seq<Property>, message: string) returns (filtered: seq<Property>, removed: seq<Property>)
    ensures Interleaves(ps, filtered, removed)
    ensures forall p :: p in filtered ==> !Contains(p.description, message)
    ensures forall p :: p in removed ==> Contains(p.description, message)
    ensures filtered == SelectWithout(ps, message) && removed == SelectWith(ps, message)
  {
    filtered, removed := [], [];
    var i := 0;
    assert Interleaves<Property>([], [], []);
    while i < |ps|
      invariant 0 <= i <= |ps|
      invariant Interleaves(ps[..i], filtered, removed)
      invariant forall p :: p in filtered ==> !Contains(p.description, message)
      invariant forall p :: p in removed ==> Contains(p.description, message)
    {
      assert ps[..i + 1] == ps[..i] + [ps[i]];
      if Contains(ps[i].description, message) {
        InterleavesAppendRight(ps[..i], filtered, removed, ps[i]);
        removed := removed + [ps[i]];
      } else {
        InterleavesAppendLeft(ps[..i], filtered, removed, ps[i]);
        filtered := filtered + [ps[i]];
      }
      i := i + 1;
    }
    assert ps[..i] == ps;
    SplitIsSelection(ps, filtered, removed, message);
  }

  /** `filter_reach_checks`: set the reachability checks apart from the real checks. */
  method FilterReachChecks(ps: seq<Property>) returns (withoutReachs: seq<Property>, reachChecks: seq<Property>)
    ensures Interleaves(ps, withoutReachs, reachChecks)
    ensures withoutReachs == SelectWithout(ps, REACH_CHECK_DESC)
    ensures reachChecks == SelectWith(ps, REACH_CHECK_DESC)
  {
    withoutReachs, reachChecks := FilterProperties(ps, REACH_CHECK_DESC);
  }

  /** A sanity check CBMC proved, which is not worth showing. */
  predicate IsSuccessfulSanityCheck(p: Property) {
    PropertyClass(p.property) == Some("sanity_check") && p.status == Success
  }

  /**
   * `filter_sanity_checks`: drops the successful sanity checks; every check's
   * class is read, so any id without a class is fatal.
   */
  function FilterSanityChecks(ps: seq<Property>): (r: Outcome<seq<Property>>)
    ensures r.Panic? <==> exists i :: 0 <= i < |ps| && !WellFormedId(ps[i].property)
    ensures r.Panic? ==> exists i :: 0 <= i < |ps| && !WellFormedId(ps[i].property) && r.error == MalformedPropertyId(ps[i].property)
    ensures r.Ok? ==> IsSubsequence(r.value, ps)
    ensures r.Ok? ==> forall p :: p in r.value <==> p in ps && !IsSuccessfulSanityCheck(p)
    decreases |ps|
  {
    if ps == [] then Ok([])
    else
      match PropertyClass(ps[0].property)
      case None => Panic(MalformedPropertyId(ps[0].property))
      case Some(cls) =>
        var rest := FilterSanityChecks(ps[1..]);
        assert rest.Panic? ==> exists i :: 0 <= i < |ps| && !WellFormedId(ps[i].property) && rest.error == MalformedPropertyId(ps[i].property) by {
          if rest.Panic? {
            var i :| 0 <= i < |ps| - 1 && !WellFormedId(ps[1..][i].property) && rest.error == MalformedPropertyId(ps[1..][i].property);
            assert ps[i + 1] == ps[1..][i];
          }
        }
        assert rest.Ok? ==> forall i :: 1 <= i < |ps| ==> WellFormedId(ps[i].property) by {
          if rest.Ok? {
            forall i | 1 <= i < |ps| ensures WellFormedId(ps[i].property) {
              assert ps[i] == ps[1..][i - 1];
            }
          }
        }
        assert ps == [ps[0]] + ps[1..];
        if rest.Panic? then Panic(rest.error)
        else if cls == "sanity_check" && ps[0].status == Success then Ok(rest.value)
        else Ok([ps[0]] + rest.value)
  }

  /**
   * Each check that is not a successful sanity check is kept as often as it occurs,
   * and none of the others is kept: with the order kept, the result is exactly
   * the checks that survive the filter.
   */
  lemma {:induction false} FilterSanityChecksKeepsCounts(ps: seq<Property>)
    ensures FilterSanityChecks(ps).Ok? ==> forall p :: multiset(FilterSanityChecks(ps).value)[p] == if IsSuccessfulSanityCheck(p) then 0 else multiset(ps)[p]
    decreases |ps|
  {
    if ps != [] && FilterSanityChecks(ps).Ok? {
      FilterSanityChecksKeepsCounts(ps[1..]);
      assert ps == [ps[0]] + ps[1..];
      assert multiset(ps) == multiset([ps[0]]) + multiset(ps[1..]);
    }
  }

  /** A check of a pointer class that is only shown when extra pointer checks are requested. */
  predicate IsPointerCheck(p: Property) {
    match PropertyClass(p.property)
    case None => false
    case Some(cls) => Contains(cls, "pointer_arithmetic") || Contains(cls, "pointer_primitives")
  }

  /** `filter_ptr_checks`: drops the pointer-arithmetic and pointer-primitive checks. */
  function FilterPtrChecks(ps: seq<Property>): (r: Outcome<seq<Property>>)
    ensures r.Panic? <==> exists i :: 0 <= i < |ps| && !WellFormedId(ps[i].property)
    ensures r.Panic? ==> exists i :: 0 <= i < |ps| && !WellFormedId(ps[i].property) && r.error == MalformedPropertyId(ps[i].property)
    ensures r.Ok? ==> IsSubsequence(r.value, ps)
    ensures r.Ok? ==> forall p :: p in r.value <==> p in ps && !IsPointerCheck(p)
    decreases |ps|
  {
    if ps == [] then Ok([])
    else
      match PropertyClass(ps[0].property)
      case None => Panic(MalformedPropertyId(ps[0].property))
      case Some(cls) =>
        var rest := FilterPtrChecks(ps[1..]);
        assert rest.Panic? ==> exists i :: 0 <= i < |ps| && !WellFormedId(ps[i].property) && rest.error == MalformedPropertyId(ps[i].property) by {
          if rest.Panic? {
            var i :| 0 <= i < |ps| - 1 && !WellFormedId(ps[1..][i].property) && rest.error == MalformedPropertyId(ps[1..][i].property);
            assert ps[i + 1] == ps[1..][i];
          }
        }
        assert rest.Ok? ==> forall i :: 1 <= i < |ps| ==> WellFormedId(ps[i].property) by {
          if rest.Ok? {
            forall i | 1 <= i < |ps| ensures WellFormedId(ps[i].property) {
              assert ps[i] == ps[1..][i - 1];
            }
          }
        }
        assert ps == [ps[0]] + ps[1..];
        if rest.Panic? then Panic(rest.error)
        else if Contains(cls, "pointer_arithmetic") || Contains(cls, "pointer_primitives") then Ok(rest.value)
        else Ok([ps[0]] + rest.value)
  }

  /**
   * Each check that is not a pointer check is kept as often as it occurs,
   * and none of the others is kept: with the order kept, the result is exactly
   * the checks that survive the filter.
   */
  lemma {:induction false} FilterPtrChecksKeepsCounts(ps: seq<Property>)
    ensures FilterPtrChecks(ps).Ok? ==> forall p :: multiset(FilterPtrChecks(ps).value)[p] == if IsPointerCheck(p) then 0 else multiset(ps)[p]
    decreases |ps|
  {
    if ps != [] && FilterPtrChecks(ps).Ok? {
      FilterPtrChecksKeepsCounts(ps[1..]);
      assert ps == [ps[0]] + ps[1..];
      assert multiset(ps) == multiset([ps[0]]) + multiset(ps[1..]);
    }
  }

  /** The checks of `ps` that are not successful sanity checks, in order. */
  function WithoutProvedSanityChecks(ps: seq<Property>): seq<Property>
    decreases |ps|
  {
    if ps == [] then []
    else (if IsSuccessfulSanityCheck(ps[0]) then [] else [ps[0]]) + WithoutProvedSanityChecks(ps[1..])
  }

  /** When it does not panic, `filter_sanity_checks` returns exactly the checks that are not successful sanity checks, in order. */
  lemma {:induction false} FilterSanityChecksSelects(ps: seq<Property>)
    ensures FilterSanityChecks(ps).Ok? ==> FilterSanityChecks(ps).value == WithoutProvedSanityChecks(ps)
    decreases |ps|
  {
    if ps != [] && FilterSanityChecks(ps).Ok? {
      FilterSanityChecksSelects(ps[1..]);
    }
  }

  /** The checks of `ps` that are not pointer checks, in order. */
  function WithoutPointerChecks(ps: seq<Property>): seq<Property>
    decreases |ps|
  {
    if ps == [] then []
    else (if IsPointerCheck(ps[0]) then [] else [ps[0]]) + WithoutPointerChecks(ps[1..])
  }

  /** When it does not panic, `filter_ptr_checks` returns exactly the checks that are not pointer checks, in order. */
  lemma {:induction false} FilterPtrChecksSelects(ps: seq<Property>)
    ensures FilterPtrChecks(ps).Ok? ==> FilterPtrChecks(ps).value == WithoutPointerChecks(ps)
    decreases |ps|
  {
    if ps != [] && FilterPtrChecks(ps).Ok? {
      FilterPtrChecksSelects(ps[1..]);
    }
  }

  /** Each of the first `n` reachability checks carries an id. */
  predicate KeyedUpTo(markers: seq<Property>, n: int)
    requires n <= |markers|
  {
    forall j :: 0 <= j < n ==> MarkerKey(markers[j].description).Some?
  }

  /** No two of the first `n` reachability checks carry the same id. */
  predicate DistinctUpTo(markers: seq<Property>, n: int)
    requires n <= |markers|
  {
    forall i, j :: 0 <= i < j < n ==> MarkerKey(markers[i].description) != MarkerKey(markers[j].description)
  }

  /** Each reachability check carries an id, and no two the same. */
  predicate WellKeyed(markers: seq<Property>) {
    KeyedUpTo(markers, |markers|) && DistinctUpTo(markers, |markers|)
  }

  /** The reason the reachability checks cannot be recorded. */
  ghost predicate KeyingFault(markers: seq<Property>, e: FatalError) {
    (exists j :: 0 <= j < |markers| && MarkerKey(markers[j].description).None?
                 && e == MissingCheckId(markers[j].description))
    || (exists i, j :: 0 <= i < j < |markers| && e.DuplicateCheckId?
                       && MarkerKey(markers[i].description) == Some(e.key)
                       && MarkerKey(markers[j].description) == Some(e.key))
  }

  /** A reachability check without an id makes the checks impossible to record. */
  lemma MissingKeyFault(markers: seq<Property>, j: int)
    requires 0 <= j < |markers| && MarkerKey(markers[j].description).None?
    ensures !WellKeyed(markers) && KeyingFault(markers, MissingCheckId(markers[j].description))
  {
  }

  /** Two reachability checks with the same id make the checks impossible to record. */
  lemma DuplicateKeyFault(markers: seq<Property>, t: int, j: int, key: string)
    requires 0 <= t < j < |markers|
    requires MarkerKey(markers[t].description) == Some(key) && MarkerKey(markers[j].description) == Some(key)
    ensures !WellKeyed(markers) && KeyingFault(markers, DuplicateCheckId(key))
  {
  }

  /** An id not yet recorded keeps the first `j + 1` ids distinct. */
  lemma DistinctStep(markers: seq<Property>, j: int, table: map<string, CheckStatus>)
    requires 0 <= j < |markers| && KeyedUpTo(markers, j) && DistinctUpTo(markers, j)
    requires forall t :: 0 <= t < j ==> MarkerKey(markers[t].description).value in table
    requires MarkerKey(markers[j].description).Some? && MarkerKey(markers[j].description).value !in table
    ensures DistinctUpTo(markers, j + 1)
  {
    forall t1, t2 | 0 <= t1 < t2 < j + 1
      ensures MarkerKey(markers[t1].description) != MarkerKey(markers[t2].description)
    {
      if t2 == j {
        assert MarkerKey(markers[t1].description).value in table;
      }
    }
  }

  /** The first loop of `annotate_properties_with_reach_results`: the status of each reachability check, by id. */
  method RecordReachResults(markers: seq<Property>) returns (r: Outcome<map<string, CheckStatus>>)
    ensures r.Ok? <==> WellKeyed(markers)
    ensures r.Panic? ==> KeyingFault(markers, r.error)
    ensures r.Ok? ==> forall j :: 0 <= j < |markers| ==>
      MarkerKey(markers[j].description).value in r.value
      && r.value[MarkerKey(markers[j].description).value] == markers[j].status
    ensures r.Ok? ==> forall k :: k in r.value ==>
      exists j :: 0 <= j < |markers| && MarkerKey(markers[j].description) == Some(k)
  {
    var table: map<string, CheckStatus> := map[];
    var j := 0;
    while j < |markers|
      invariant 0 <= j <= |markers|
      invariant KeyedUpTo(markers, j) && DistinctUpTo(markers, j)
      invariant forall t :: 0 <= t < j ==>
        MarkerKey(markers[t].description).value in table
        && table[MarkerKey(markers[t].description).value] == markers[t].status
      invariant forall k :: k in table ==> exists t :: 0 <= t < j && MarkerKey(markers[t].description) == Some(k)
    {
      var key := MarkerKey(markers[j].description);
      if key.None? {
        MissingKeyFault(markers, j);
        return Panic(MissingCheckId(markers[j].description));
      }
      if key.value in table {
        var t :| 0 <= t < j && MarkerKey(markers[t].description) == Some(key.value);
        DuplicateKeyFault(markers, t, j, key.value);
        return Panic(DuplicateCheckId(key.value));
      }
      DistinctStep(markers, j, table);
      table := table[key.value := markers[j].status];
      j := j + 1;
    }
    r := Ok(table);
  }

  /** A check with the recorded status of its id, if it has one, as its `reach`. */
  function WithReach(p: Property, table: map<string, CheckStatus>): Property {
    var token := CheckToken(p.description);
    p.(reach := if token.Some? && token.value in table then Some(table[token.value]) else p.reach)
  }

  /** The second loop of `annotate_properties_with_reach_results`: the recorded status of each check's id becomes its `reach`. */
  method ApplyReachResults(ps: seq<Property>, table: map<string, CheckStatus>) returns (r: seq<Property>)
    ensures |r| == |ps|
    ensures forall i :: 0 <= i < |ps| ==> r[i] == WithReach(ps[i], table)
  {
    r := ps;
    var i := 0;
    while i < |r|
      invariant 0 <= i <= |r| == |ps|
      invariant forall k :: i <= k < |ps| ==> r[k] == ps[k]
      invariant forall k :: 0 <= k < i ==> r[k] == WithReach(ps[k], table)
    {
      r := r[i := WithReach(r[i], table)];
      i := i + 1;
    }
  }

  /**
   * `annotate_properties_with_reach_results`: each real check whose description
   * holds the id of a reachability check gets that check's status as its
   * `reach`; a reachability check without an id, or two with the same id, are fatal.
   */
  method AnnotatePropertiesWithReachResults(ps: seq<Property>, markers: seq<Property>) returns (r: Outcome<seq<Property>>)
    ensures r.Ok? <==> WellKeyed(markers)
    ensures r.Panic? ==> KeyingFault(markers, r.error)
    ensures r.Ok? ==> |r.value| == |ps|
    ensures r.Ok? ==> forall i :: 0 <= i < |ps| ==> r.value[i] == ps[i].(reach := r.value[i].reach)
    ensures r.Ok? ==> forall i, j ::
      0 <= i < |ps| && 0 <= j < |markers| && CheckToken(ps[i].description).Some?
      && CheckToken(ps[i].description) == MarkerKey(markers[j].description) ==>
        r.value[i].reach == Some(markers[j].status)
    ensures r.Ok? ==> forall i ::
      0 <= i < |ps| && (forall j :: 0 <= j < |markers| ==> CheckToken(ps[i].description) != MarkerKey(markers[j].description)) ==>
        r.value[i].reach == ps[i].reach
    ensures r.Ok? ==> forall i :: 0 <= i < |ps| ==> ReachAnnotated(ps[i], markers, r.value[i].reach)
  {
    var table :- RecordReachResults(markers);
    var annotated := ApplyReachResults(ps, table);
    r := Ok(annotated);
  }

  /**
   * `reach` is what `annotate_properties_with_reach_results` gives the check `p`:
   * the status of a reachability check whose id is `p`'s token, and `p`'s own
   * reachability when no reachability check has that id.
   */
  ghost predicate ReachAnnotated(p: Property, markers: seq<Property>, reach: Option<CheckStatus>) {
    && (forall j :: 0 <= j < |markers| && CheckToken(p.description).Some? && CheckToken(p.description) == MarkerKey(markers[j].description) ==>
          reach == Some(markers[j].status))
    && ((forall j :: 0 <= j < |markers| ==> CheckToken(p.description) != MarkerKey(markers[j].description)) ==> reach == p.reach)
  }

  /** `remove_check_ids_from_description`: the first id token of each description is cut out. */
  method RemoveCheckIdsFromDescription(ps: seq<Property>) returns (r: seq<Property>)
    ensures |r| == |ps|
    ensures forall i :: 0 <= i < |ps| ==> r[i] == ps[i].(description := StripCheckId(ps[i].description))
  {
    r := ps;
    var i := 0;
    while i < |r|
      invariant 0 <= i <= |r| == |ps|
      invariant forall k :: 0 <= k < i ==> r[k] == ps[k].(description := StripCheckId(ps[k].description))
      invariant forall k :: i <= k < |ps| ==> r[k] == ps[k]
    {
      r := r[i := r[i].(description := StripCheckId(r[i].description))];
      i := i + 1;
    }
  }

  /** The driver's consistency requirement: a check found unreachable must have been proved. */
  predicate ViolatesReach(p: Property, hasFundamentalFailures: bool) {
    !hasFundamentalFailures && p.reach == Some(Success) && p.status != Success
  }

  /**
   * The status `final_changes` shows for a check: with a fundamental failure
   * nothing counts as proved; otherwise a check whose reachability check
   * succeeded is unreachable.
   */
  function FinalStatus(p: Property, hasFundamentalFailures: bool): (s: CheckStatus)
    ensures !ViolatesReach(p, hasFundamentalFailures) ==> (s == Failure <==> p.status == Failure)
    ensures s == Failure ==> p.status == Failure
    ensures s == Success <==> !hasFundamentalFailures && p.status == Success && p.reach != Some(Success)
    ensures hasFundamentalFailures ==> (s == Undetermined <==> p.status in {Success, Undetermined})
    ensures !hasFundamentalFailures ==> (s == Unreachable <==> p.status == Unreachable || p.reach == Some(Success))
  {
    if hasFundamentalFailures then
      if p.status == Success then Undetermined else p.status
    else if p.reach == Some(Success) then Unreachable
    else p.status
  }

  /** The description a check with a class is shown with. */
  function ShownDescription(p: Property): string
    requires WellFormedId(p.property)
  {
    GetReadableDescription(p).value
  }

  /** `final_changes` can handle the check without panicking. */
  predicate Finalisable(p: Property, hasFundamentalFailures: bool) {
    WellFormedId(p.property) && !ViolatesReach(p, hasFundamentalFailures)
  }

  /** The check as `final_changes` leaves it. */
  function Finalised(p: Property, hasFundamentalFailures: bool): Property
    requires WellFormedId(p.property)
  {
    p.(description := ShownDescription(p), status := FinalStatus(p, hasFundamentalFailures))
  }

  /** The panic `final_changes` raises for the check `p`. */
  ghost predicate FinalFault(p: Property, hasFundamentalFailures: bool, e: FatalError) {
    (!WellFormedId(p.property) && e == MalformedPropertyId(p.property))
    || (WellFormedId(p.property) && ViolatesReach(p, hasFundamentalFailures)
        && e == UnreachableNotSuccess(ShownDescription(p)))
  }

  /** The body of the loop in `final_changes`, for one check. */
  method FinaliseProperty(prop: Property, hasFundamentalFailures: bool) returns (r: Outcome<Property>)
    ensures r.Ok? <==> Finalisable(prop, hasFundamentalFailures)
    ensures r.Panic? ==> FinalFault(prop, hasFundamentalFailures, r.error)
    ensures r.Ok? ==> r.value == Finalised(prop, hasFundamentalFailures)
  {
    var description :- GetReadableDescription(prop);
    var p := prop.(description := description);
    if hasFundamentalFailures {
      if p.status == Success {
        p := p.(status := Undetermined);
      }
    } else if p.reach.Some? && p.reach.value == Success {
      if p.status != Success {
        return Panic(UnreachableNotSuccess(p.description));
      }
      p := p.(status := Unreachable);
    }
    r := Ok(p);
  }

  /** `b` lists checks with the ids and statuses of those of `a`, in the same order. */
  ghost predicate SameStatuses(a: seq<Property>, b: seq<Property>) {
    |a| == |b| && forall i :: 0 <= i < |a| ==> b[i].property == a[i].property && b[i].status == a[i].status
  }

  /**
   * `b` lists the checks of `a`, in the same order, each with the first id token
   * cut from its description and possibly another reachability; nothing else changes.
   */
  ghost predicate Relabelled(a: seq<Property>, b: seq<Property>) {
    |a| == |b|
    && forall i :: 0 <= i < |a| ==> b[i] == a[i].(description := StripCheckId(a[i].description), reach := b[i].reach)
  }

  /** Each check of `b` has the reachability the reachability checks `markers` give the check of `a` at its place. */
  ghost predicate ReachesAnnotated(a: seq<Property>, b: seq<Property>, markers: seq<Property>) {
    |a| == |b| && forall i :: 0 <= i < |a| ==> ReachAnnotated(a[i], markers, b[i].reach)
  }

  /** What the optional pointer filter does with `ps`: nothing when extra pointer checks are asked for. */
  ghost predicate PointerFiltered(ps: seq<Property>, r: seq<Property>, extraPtrChecks: bool) {
    if extraPtrChecks then r == ps else FilterPtrChecks(ps) == Ok(r)
  }

  /** `final_changes` kept the ids and the reachability of the checks and settled their statuses. */
  ghost predicate StatusesSettled(ps: seq<Property>, r: seq<Property>, hasFundamentalFailures: bool) {
    |r| == |ps|
    && forall i :: 0 <= i < |ps| ==>
         !ViolatesReach(ps[i], hasFundamentalFailures) && r[i].property == ps[i].property
         && r[i].reach == ps[i].reach && r[i].status == FinalStatus(ps[i], hasFundamentalFailures)
  }

  /** `final_changes` returned every check of `ps`, in order, as it leaves it. */
  ghost predicate AllFinalised(ps: seq<Property>, r: seq<Property>, hasFundamentalFailures: bool) {
    |r| == |ps|
    && forall i :: 0 <= i < |ps| ==> Finalisable(ps[i], hasFundamentalFailures) && r[i] == Finalised(ps[i], hasFundamentalFailures)
  }

  /** The first `n` checks of `props` are those of `ps` as `final_changes` leaves them. */
  ghost predicate FinalisedUpTo(ps: seq<Property>, props: seq<Property>, n: int, hasFundamentalFailures: bool)
    requires 0 <= n <= |ps| == |props|
  {
    forall k :: 0 <= k < n ==> Finalisable(ps[k], hasFundamentalFailures) && props[k] == Finalised(ps[k], hasFundamentalFailures)
  }

  lemma FinalisedOneMore(ps: seq<Property>, props: seq<Property>, n: nat, prop: Property, hasFundamentalFailures: bool)
    requires n < |ps| == |props| && FinalisedUpTo(ps, props, n, hasFundamentalFailures)
    requires Finalisable(ps[n], hasFundamentalFailures) && prop == Finalised(ps[n], hasFundamentalFailures)
    ensures FinalisedUpTo(ps, props[n := prop], n + 1, hasFundamentalFailures)
  {
  }

  /**
   * `final_changes`: readable descriptions and final statuses; a check marked
   * unreachable that was not proved is fatal.
   */
  method FinalChanges(ps: seq<Property>, hasFundamentalFailures: bool) returns (r: Outcome<seq<Property>>)
    ensures r.Ok? <==> forall i :: 0 <= i < |ps| ==> Finalisable(ps[i], hasFundamentalFailures)
    ensures r.Panic? ==> exists i :: 0 <= i < |ps| && FinalFault(ps[i], hasFundamentalFailures, r.error)
    ensures r.Ok? ==> |r.value| == |ps|
    ensures r.Ok? ==> forall i :: 0 <= i < |ps| ==> r.value[i] == Finalised(ps[i], hasFundamentalFailures)
    ensures r.Ok? ==> StatusesSettled(ps, r.value, hasFundamentalFailures)
  {
    var props := ps;
    var i := 0;
    while i < |props|
      invariant 0 <= i <= |props| == |ps|
      invariant FinalisedUpTo(ps, props, i, hasFundamentalFailures)
      invariant forall k :: i <= k < |ps| ==> props[k] == ps[k]
    {
      var next := FinaliseProperty(props[i], hasFundamentalFailures);
      if next.Panic? {
        assert FinalFault(ps[i], hasFundamentalFailures, next.error);
        return Panic(next.error);
      }
      FinalisedOneMore(ps, props, i, next.value, hasFundamentalFailures);
      props := props[i := next.value];
      i := i + 1;
    }
    assert StatusesSettled(ps, props, hasFundamentalFailures) by {
      assert forall k :: 0 <= k < |ps| ==> props[k] == Finalised(ps[k], hasFundamentalFailures);
    }
    r := Ok(props);
  }

  /** `determine_result`: verification succeeds exactly when no shown check failed. */
  function DetermineResult(ps: seq<Property>): (r: bool)
    ensures r <==> forall i :: 0 <= i < |ps| ==> ps[i].status != Failure
  {
    CountStatusZero(ps, Failure);
    CountStatus(ps, Failure) == 0
  }

  /** The ids of a list of checks, in order. */
  function Ids(ps: seq<Property>): (r: seq<string>)
    ensures |r| == |ps|
    decreases |ps|
  {
    if ps == [] then [] else [ps[0].property] + Ids(ps[1..])
  }

  lemma {:induction false} IdsPointwise(a: seq<Property>, b: seq<Property>)
    requires |a| == |b| && forall i :: 0 <= i < |a| ==> a[i].property == b[i].property
    ensures Ids(a) == Ids(b)
    decreases |a|
  {
    if a != [] {
      IdsPointwise(a[1..], b[1..]);
    }
  }

  lemma {:induction false} SubsequenceIds(a: seq<Property>, b: seq<Property>)
    requires IsSubsequence(a, b)
    ensures IsSubsequence(Ids(a), Ids(b))
    decreases |b|
  {
    if a != [] {
      if a[0] == b[0] && IsSubsequence(a[1..], b[1..]) {
        SubsequenceIds(a[1..], b[1..]);
      } else {
        SubsequenceIds(a, b[1..]);
      }
    }
  }

  /** The reachability checks of a result, after the undefined-function rewrite. */
  function ReachMarkers(ps: seq<Property>): seq<Property> {
    SelectWith(RewriteAllUndefined(ps), REACH_CHECK_DESC)
  }

  /** The real checks of a result, after the undefined-function rewrite. */
  function RealChecks(ps: seq<Property>): seq<Property> {
    SelectWithout(RewriteAllUndefined(ps), REACH_CHECK_DESC)
  }

  /** A failure that makes every proof in the result untrustworthy. */
  predicate HasFundamentalFailures(ps: seq<Property>) {
    HasCheckFailures(ps, UNSUPPORTED_CONSTRUCT_DESC)
    || HasCheckFailures(ps, UNWINDING_ASSERT_DESC)
    || exists i :: 0 <= i < |ps| && IsUndefinedFunctionCheck(ps[i]) && ps[i].status == Failure
  }

  /**
   * What the stages of `postprocess_result` leave behind for the checks `ps`
   * CBMC reported: the real checks without proved sanity checks (`sane`), the
   * same checks annotated and without their ids (`relabelled`), those the
   * pointer filter keeps (`kept`) and the checks `final_changes` returns
   * (`shown`).
   */
  ghost predicate Staged(ps: seq<Property>, extraPtrChecks: bool, hasFundamentalFailures: bool, sane: seq<Property>,
                         relabelled: seq<Property>, kept: seq<Property>, shown: seq<Property>) {
    && hasFundamentalFailures == HasFundamentalFailures(ps)
    && Interleaves(RewriteAllUndefined(ps), RealChecks(ps), ReachMarkers(ps))
    && WellKeyed(ReachMarkers(ps))
    && FilterSanityChecks(RealChecks(ps)) == Ok(sane)
    && SameStatuses(sane, relabelled)
    && PointerFiltered(relabelled, kept, extraPtrChecks)
    && StatusesSettled(kept, shown, hasFundamentalFailures)
  }

  /**
   * What `Staged` leaves out about the fields other than id and status: the
   * relabelling of each real check, the reachability it is given, and the checks
   * `final_changes` returns.
   */
  ghost predicate StagedFields(ps: seq<Property>, hasFundamentalFailures: bool, sane: seq<Property>,
                               relabelled: seq<Property>, kept: seq<Property>, shown: seq<Property>) {
    && Relabelled(sane, relabelled)
    && ReachesAnnotated(sane, relabelled, ReachMarkers(ps))
    && AllFinalised(kept, shown, hasFundamentalFailures)
  }

  /** A real check that `postprocess_result` shows: not a proved sanity check, nor a pointer check unless those are asked for. */
  predicate Displayed(p: Property, extraPtrChecks: bool) {
    !IsSuccessfulSanityCheck(p) && (extraPtrChecks || !IsPointerCheck(p))
  }

  /** The checks of `ps` that are displayed, in order. */
  function DisplayedChecks(ps: seq<Property>, extraPtrChecks: bool): (r: seq<Property>)
    ensures forall p :: p in r <==> p in ps && Displayed(p, extraPtrChecks)
    decreases |ps|
  {
    if ps == [] then []
    else (if Displayed(ps[0], extraPtrChecks) then [ps[0]] else []) + DisplayedChecks(ps[1..], extraPtrChecks)
  }

  /** The sanity filter followed, unless pointer checks are asked for, by the pointer filter keeps exactly the displayed checks. */
  lemma {:induction false} DisplayedChecksAreFiltered(ps: seq<Property>, extraPtrChecks: bool)
    ensures DisplayedChecks(ps, extraPtrChecks) ==
      if extraPtrChecks then WithoutProvedSanityChecks(ps) else WithoutPointerChecks(WithoutProvedSanityChecks(ps))
    decreases |ps|
  {
    if ps != [] {
      DisplayedChecksAreFiltered(ps[1..], extraPtrChecks);
      var rest := WithoutProvedSanityChecks(ps[1..]);
      if IsSuccessfulSanityCheck(ps[0]) {
        assert WithoutProvedSanityChecks(ps) == rest;
      } else {
        var sane := [ps[0]] + rest;
        assert WithoutProvedSanityChecks(ps) == sane;
        if !extraPtrChecks {
          assert sane[0] == ps[0] && sane[1..] == rest;
          assert WithoutPointerChecks(sane) == (if IsPointerCheck(ps[0]) then [] else [ps[0]]) + WithoutPointerChecks(rest);
        }
      }
    }
  }

  /**
   * The pointer filter reads only ids: applied to two lists with the same ids, it
   * keeps the same places of both, so a relation between the checks at each place
   * still holds afterwards.
   */
  lemma {:induction false} WithoutPointerChecksKeepsPlaces(a: seq<Property>, b: seq<Property>, related: (Property, Property) -> bool)
    requires |a| == |b|
    requires forall i :: 0 <= i < |a| ==> a[i].property == b[i].property && related(a[i], b[i])
    ensures |WithoutPointerChecks(a)| == |WithoutPointerChecks(b)|
    ensures forall k :: 0 <= k < |WithoutPointerChecks(a)| ==> related(WithoutPointerChecks(a)[k], WithoutPointerChecks(b)[k])
    decreases |a|
  {
    if a != [] {
      assert forall i :: 0 <= i < |a| - 1 ==> a[1..][i] == a[i + 1] && b[1..][i] == b[i + 1];
      WithoutPointerChecksKeepsPlaces(a[1..], b[1..], related);
      assert IsPointerCheck(a[0]) == IsPointerCheck(b[0]);
      var ra, rb := WithoutPointerChecks(a[1..]), WithoutPointerChecks(b[1..]);
      if IsPointerCheck(a[0]) {
        assert WithoutPointerChecks(a) == ra && WithoutPointerChecks(b) == rb;
      } else {
        assert WithoutPointerChecks(a) == [a[0]] + ra && WithoutPointerChecks(b) == [b[0]] + rb;
        assert forall k :: 0 < k <= |ra| ==> ([a[0]] + ra)[k] == ra[k - 1] && ([b[0]] + rb)[k] == rb[k - 1];
      }
    }
  }

  /** The checks shown carry, one for one and in order, the ids and final statuses of the displayed real checks. */
  lemma {:induction false} ShownAreDisplayed(ps: seq<Property>, extraPtrChecks: bool, hasFundamentalFailures: bool,
                                             sane: seq<Property>, relabelled: seq<Property>, kept: seq<Property>, shown: seq<Property>)
    requires Staged(ps, extraPtrChecks, hasFundamentalFailures, sane, relabelled, kept, shown)
    ensures |shown| == |DisplayedChecks(RealChecks(ps), extraPtrChecks)|
    ensures forall k :: 0 <= k < |shown| ==>
      shown[k].property == DisplayedChecks(RealChecks(ps), extraPtrChecks)[k].property
      && shown[k].status == FinalStatus(DisplayedChecks(RealChecks(ps), extraPtrChecks)[k].(reach := shown[k].reach), hasFundamentalFailures)
  {
    var selected := DisplayedChecks(RealChecks(ps), extraPtrChecks);
    assert SameStatuses(selected, kept) by {
      FilterSanityChecksSelects(RealChecks(ps));
      DisplayedChecksAreFiltered(RealChecks(ps), extraPtrChecks);
      var related := (x: Property, y: Property) => y.property == x.property && y.status == x.status;
      if !extraPtrChecks {
        FilterPtrChecksSelects(relabelled);
        WithoutPointerChecksKeepsPlaces(sane, relabelled, related);
      }
      assert forall k :: 0 <= k < |kept| ==> related(selected[k], kept[k]);
    }
    forall k | 0 <= k < |shown|
      ensures shown[k].status == FinalStatus(selected[k].(reach := shown[k].reach), hasFundamentalFailures)
    {
      assert kept[k].status == selected[k].status && kept[k].reach == shown[k].reach;
    }
  }

  /**
   * Each check shown is its displayed real check with the reachability its
   * reachability check gives it and its first id token cut out, as
   * `final_changes` leaves it: location and trace are those CBMC reported.
   */
  lemma {:induction false} ShownRecordsAreDisplayed(ps: seq<Property>, extraPtrChecks: bool, hasFundamentalFailures: bool,
                                                    sane: seq<Property>, relabelled: seq<Property>, kept: seq<Property>, shown: seq<Property>)
    requires Staged(ps, extraPtrChecks, hasFundamentalFailures, sane, relabelled, kept, shown)
    requires StagedFields(ps, hasFundamentalFailures, sane, relabelled, kept, shown)
    ensures |shown| == |DisplayedChecks(RealChecks(ps), extraPtrChecks)|
    ensures forall k :: 0 <= k < |shown| ==>
      var d := DisplayedChecks(RealChecks(ps), extraPtrChecks)[k];
      WellFormedId(d.property)
      && shown[k] == Finalised(d.(description := StripCheckId(d.description), reach := shown[k].reach), hasFundamentalFailures)
      && ReachAnnotated(d, ReachMarkers(ps), shown[k].reach)
  {
    var selected := DisplayedChecks(RealChecks(ps), extraPtrChecks);
    FilterSanityChecksSelects(RealChecks(ps));
    DisplayedChecksAreFiltered(RealChecks(ps), extraPtrChecks);
    var related := (x: Property, y: Property) =>
      y == x.(description := StripCheckId(x.description), reach := y.reach) && ReachAnnotated(x, ReachMarkers(ps), y.reach);
    if !extraPtrChecks {
      FilterPtrChecksSelects(relabelled);
      WithoutPointerChecksKeepsPlaces(sane, relabelled, related);
    }
    assert forall k :: 0 <= k < |kept| ==> related(selected[k], kept[k]);
    forall k | 0 <= k < |shown|
      ensures WellFormedId(selected[k].property)
      ensures shown[k] == Finalised(selected[k].(description := StripCheckId(selected[k].description), reach := shown[k].reach),
                                    hasFundamentalFailures)
      ensures ReachAnnotated(selected[k], ReachMarkers(ps), shown[k].reach)
    {
      assert kept[k] == selected[k].(description := StripCheckId(selected[k].description), reach := shown[k].reach);
    }
  }

  /** The verdict is success exactly when every failed real check is a pointer check nobody asked for. */
  lemma {:induction false} VerdictTellsFailures(ps: seq<Property>, extraPtrChecks: bool, hasFundamentalFailures: bool,
                                                sane: seq<Property>, relabelled: seq<Property>, kept: seq<Property>,
                                                shown: seq<Property>, verdict: bool)
    requires Staged(ps, extraPtrChecks, hasFundamentalFailures, sane, relabelled, kept, shown)
    requires verdict <==> forall i :: 0 <= i < |shown| ==> shown[i].status != Failure
    ensures verdict <==> forall p :: p in RealChecks(ps) && p.status == Failure ==> !extraPtrChecks && IsPointerCheck(p)
  {
    FailedChecksShown(ps, extraPtrChecks, hasFundamentalFailures, sane, relabelled, kept, shown);
    ShownAreDisplayed(ps, extraPtrChecks, hasFundamentalFailures, sane, relabelled, kept, shown);
    var selected := DisplayedChecks(RealChecks(ps), extraPtrChecks);
    if forall p :: p in RealChecks(ps) && p.status == Failure ==> !extraPtrChecks && IsPointerCheck(p) {
      forall i | 0 <= i < |shown| ensures shown[i].status != Failure {
        assert selected[i] in selected;
      }
    }
  }

  /** The checks shown keep the order of the ids of the checks CBMC reported. */
  lemma {:induction false} ShownChecksKeepOrder(ps: seq<Property>, extraPtrChecks: bool, hasFundamentalFailures: bool,
                                                sane: seq<Property>, relabelled: seq<Property>, kept: seq<Property>, shown: seq<Property>)
    requires Staged(ps, extraPtrChecks, hasFundamentalFailures, sane, relabelled, kept, shown)
    ensures IsSubsequence(Ids(shown), Ids(ps)) && |shown| <= |ps|
  {
    var rewritten := RewriteAllUndefined(ps);
    var realChecks := RealChecks(ps);
    InterleavesSubsequences(rewritten, realChecks, ReachMarkers(ps));
    IdsPointwise(ps, rewritten);
    SubsequenceIds(realChecks, rewritten);
    SubsequenceIds(sane, realChecks);
    IdsPointwise(sane, relabelled);
    if extraPtrChecks {
      SubsequenceReflexive(relabelled);
    }
    SubsequenceIds(kept, relabelled);
    IdsPointwise(kept, shown);
    SubsequenceTransitive(Ids(kept), Ids(relabelled), Ids(realChecks));
    SubsequenceTransitive(Ids(kept), Ids(realChecks), Ids(ps));
    SubsequenceLength(Ids(shown), Ids(ps));
  }

  /** Every real check had a class, since the sanity filter reads it without panicking. */
  lemma RealChecksWellFormed(ps: seq<Property>, extraPtrChecks: bool, hasFundamentalFailures: bool,
                             sane: seq<Property>, relabelled: seq<Property>, kept: seq<Property>, shown: seq<Property>)
    requires Staged(ps, extraPtrChecks, hasFundamentalFailures, sane, relabelled, kept, shown)
    ensures forall p :: p in RealChecks(ps) ==> WellFormedId(p.property)
  {
  }

  /** No successful sanity check is shown, nor, without extra pointer checks, any pointer check. */
  lemma {:induction false} ShownChecksFiltered(ps: seq<Property>, extraPtrChecks: bool, hasFundamentalFailures: bool,
                                               sane: seq<Property>, relabelled: seq<Property>, kept: seq<Property>, shown: seq<Property>)
    requires Staged(ps, extraPtrChecks, hasFundamentalFailures, sane, relabelled, kept, shown)
    ensures forall k :: 0 <= k < |shown| ==> !IsSuccessfulSanityCheck(shown[k])
    ensures !extraPtrChecks ==> forall k :: 0 <= k < |shown| ==> !IsPointerCheck(shown[k])
  {
    forall k | 0 <= k < |shown|
      ensures !IsSuccessfulSanityCheck(shown[k])
      ensures !extraPtrChecks ==> !IsPointerCheck(shown[k])
    {
      assert kept[k] in relabelled;
      var j :| 0 <= j < |relabelled| && relabelled[j] == kept[k];
      assert sane[j] in sane;
    }
  }

  /** After a fundamental failure nothing is shown as proved; otherwise a check in unreachable code is shown as unreachable. */
  lemma ShownStatuses(ps: seq<Property>, extraPtrChecks: bool, hasFundamentalFailures: bool,
                      sane: seq<Property>, relabelled: seq<Property>, kept: seq<Property>, shown: seq<Property>)
    requires Staged(ps, extraPtrChecks, hasFundamentalFailures, sane, relabelled, kept, shown)
    ensures HasFundamentalFailures(ps) ==> forall k :: 0 <= k < |shown| ==> shown[k].status != Success
    ensures !HasFundamentalFailures(ps) ==>
      forall k :: 0 <= k < |shown| && shown[k].reach == Some(Success) ==> shown[k].status == Unreachable
  {
  }

  /** A failed real check that no filter drops is shown, still failed. */
  lemma {:induction false} FailedChecksShown(ps: seq<Property>, extraPtrChecks: bool, hasFundamentalFailures: bool,
                                             sane: seq<Property>, relabelled: seq<Property>, kept: seq<Property>, shown: seq<Property>)
    requires Staged(ps, extraPtrChecks, hasFundamentalFailures, sane, relabelled, kept, shown)
    ensures forall p :: p in RealChecks(ps) && p.status == Failure && (extraPtrChecks || !IsPointerCheck(p)) ==>
      exists k :: 0 <= k < |shown| && shown[k].property == p.property && shown[k].status == Failure
  {
    forall p | p in RealChecks(ps) && p.status == Failure && (extraPtrChecks || !IsPointerCheck(p))
      ensures exists k :: 0 <= k < |shown| && shown[k].property == p.property && shown[k].status == Failure
    {
      assert p in sane;
      var j :| 0 <= j < |sane| && sane[j] == p;
      var q := relabelled[j];
      var k: int;
      if extraPtrChecks {
        k := j;
      } else {
        assert q in relabelled;
        k :| 0 <= k < |kept| && kept[k] == q;
      }
      assert shown[k].property == p.property && shown[k].status == Failure;
    }
  }

  /**
   * What `postprocess_result` promises about the checks it shows and its
   * verdict, for the checks CBMC reported in `ps`: which checks are shown, what
   * each of them holds, and what the verdict tells.
   */
  ghost predicate ShownFaithfully(ps: seq<Property>, extraPtrChecks: bool, shown: seq<Property>, verdict: bool) {
    ShownSelection(ps, extraPtrChecks, shown) && ShownFields(ps, extraPtrChecks, shown) && VerdictFaithful(ps, extraPtrChecks, shown, verdict)
  }

  /** Which of the reported checks are shown, in which order, and with which statuses. */
  ghost predicate ShownSelection(ps: seq<Property>, extraPtrChecks: bool, shown: seq<Property>) {
    // The shown checks are some of the reported ones, in the reported order.
    && IsSubsequence(Ids(shown), Ids(ps)) && |shown| <= |ps|
    // Every reachability check carried an id of its own, and every real check had a class.
    && WellKeyed(ReachMarkers(ps))
    && (forall p :: p in RealChecks(ps) ==> WellFormedId(p.property))
    // Proved sanity checks, and pointer checks unless asked for, are not shown.
    && (forall k :: 0 <= k < |shown| ==> !IsSuccessfulSanityCheck(shown[k]))
    && (!extraPtrChecks ==> forall k :: 0 <= k < |shown| ==> !IsPointerCheck(shown[k]))
    // After a fundamental failure nothing is shown as proved; otherwise a check in unreachable code is shown as unreachable.
    && (HasFundamentalFailures(ps) ==> forall k :: 0 <= k < |shown| ==> shown[k].status != Success)
    && (!HasFundamentalFailures(ps) ==>
          forall k :: 0 <= k < |shown| && shown[k].reach == Some(Success) ==> shown[k].status == Unreachable)
    // Exactly the displayed real checks are shown, one for one and in order, each with its final status.
    && |shown| == |DisplayedChecks(RealChecks(ps), extraPtrChecks)|
    && (forall k :: 0 <= k < |shown| ==>
          shown[k].property == DisplayedChecks(RealChecks(ps), extraPtrChecks)[k].property
          && shown[k].status == FinalStatus(DisplayedChecks(RealChecks(ps), extraPtrChecks)[k].(reach := shown[k].reach),
                                            HasFundamentalFailures(ps)))
  }

  /**
   * Each shown check is its displayed real check with the reachability its
   * reachability check gives it and the first id token cut from its description,
   * as `final_changes` leaves it: readable description and final status, with
   * location and trace unchanged.
   */
  ghost predicate ShownFields(ps: seq<Property>, extraPtrChecks: bool, shown: seq<Property>) {
    && |shown| == |DisplayedChecks(RealChecks(ps), extraPtrChecks)|
    && (forall k :: 0 <= k < |shown| ==>
          var d := DisplayedChecks(RealChecks(ps), extraPtrChecks)[k];
          WellFormedId(d.property)
          && shown[k] == Finalised(d.(description := StripCheckId(d.description), reach := shown[k].reach), HasFundamentalFailures(ps))
          && ReachAnnotated(d, ReachMarkers(ps), shown[k].reach))
  }

  /** The verdict tells whether a check that may be shown failed. */
  ghost predicate VerdictFaithful(ps: seq<Property>, extraPtrChecks: bool, shown: seq<Property>, verdict: bool) {
    // The verdict is success exactly when no shown check failed.
    && (verdict <==> forall k :: 0 <= k < |shown| ==> shown[k].status != Failure)
    // A failed real check is shown as failed unless it is a pointer check nobody asked for; so the
    // verdict is success exactly when no real check failed, except such pointer checks.
    && (forall p :: p in RealChecks(ps) && p.status == Failure && (extraPtrChecks || !IsPointerCheck(p)) ==>
          exists k :: 0 <= k < |shown| && shown[k].property == p.property && shown[k].status == Failure)
    && (verdict <==> forall p :: p in RealChecks(ps) && p.status == Failure ==> !extraPtrChecks && IsPointerCheck(p))
  }

  /** What the stages of `postprocess_result` guarantee about what is finally shown. */
  lemma {:induction false} PostprocessGuarantees(ps: seq<Property>, extraPtrChecks: bool, hasFundamentalFailures: bool,
                                                 sane: seq<Property>, relabelled: seq<Property>, kept: seq<Property>,
                                                 shown: seq<Property>, verdict: bool)
    requires Staged(ps, extraPtrChecks, hasFundamentalFailures, sane, relabelled, kept, shown)
    requires StagedFields(ps, hasFundamentalFailures, sane, relabelled, kept, shown)
    requires verdict <==> forall i :: 0 <= i < |shown| ==> shown[i].status != Failure
    ensures ShownFaithfully(ps, extraPtrChecks, shown, verdict)
  {
    assert ShownSelection(ps, extraPtrChecks, shown) by {
      ShownChecksKeepOrder(ps, extraPtrChecks, hasFundamentalFailures, sane, relabelled, kept, shown);
      RealChecksWellFormed(ps, extraPtrChecks, hasFundamentalFailures, sane, relabelled, kept, shown);
      ShownChecksFiltered(ps, extraPtrChecks, hasFundamentalFailures, sane, relabelled, kept, shown);
      ShownStatuses(ps, extraPtrChecks, hasFundamentalFailures, sane, relabelled, kept, shown);
      ShownAreDisplayed(ps, extraPtrChecks, hasFundamentalFailures, sane, relabelled, kept, shown);
    }
    assert ShownFields(ps, extraPtrChecks, shown) by {
      ShownRecordsAreDisplayed(ps, extraPtrChecks, hasFundamentalFailures, sane, relabelled, kept, shown);
    }
    assert VerdictFaithful(ps, extraPtrChecks, shown, verdict) by {
      FailedChecksShown(ps, extraPtrChecks, hasFundamentalFailures, sane, relabelled, kept, shown);
      VerdictTellsFailures(ps, extraPtrChecks, hasFundamentalFailures, sane, relabelled, kept, shown, verdict);
    }
  }

  /** The results of the stages of `postprocess_result`, one after the other, are `Staged`. */
  lemma StagesCompose(
    ps: seq<Property>, extraPtrChecks: bool, hasFundamentalFailures: bool, hasReachableUndefinedFunctions: bool,
    withUndefined: seq<Property>, withoutReachs: seq<Property>, reachChecks: seq<Property>,
    withoutSanityChecks: seq<Property>, annotated: seq<Property>, withoutIds: seq<Property>,
    newProperties: seq<Property>, shown: seq<Property>)
    requires hasFundamentalFailures == (HasCheckFailures(ps, UNSUPPORTED_CONSTRUCT_DESC)
                                        || HasCheckFailures(ps, UNWINDING_ASSERT_DESC) || hasReachableUndefinedFunctions)
    requires hasReachableUndefinedFunctions <==>
      exists i :: 0 <= i < |ps| && IsUndefinedFunctionCheck(ps[i]) && ps[i].status == Failure
    requires withUndefined == RewriteAllUndefined(ps)
    requires Interleaves(withUndefined, withoutReachs, reachChecks)
    requires withoutReachs == SelectWithout(withUndefined, REACH_CHECK_DESC)
    requires reachChecks == SelectWith(withUndefined, REACH_CHECK_DESC)
    requires FilterSanityChecks(withoutReachs) == Ok(withoutSanityChecks)
    requires WellKeyed(reachChecks)
    requires |annotated| == |withoutSanityChecks|
    requires forall i :: 0 <= i < |withoutSanityChecks| ==> annotated[i] == withoutSanityChecks[i].(reach := annotated[i].reach)
    requires forall i :: 0 <= i < |withoutSanityChecks| ==> ReachAnnotated(withoutSanityChecks[i], reachChecks, annotated[i].reach)
    requires |withoutIds| == |annotated|
    requires forall i :: 0 <= i < |annotated| ==> withoutIds[i] == annotated[i].(description := StripCheckId(annotated[i].description))
    requires if extraPtrChecks then newProperties == withoutIds else FilterPtrChecks(withoutIds) == Ok(newProperties)
    requires StatusesSettled(newProperties, shown, hasFundamentalFailures)
    requires AllFinalised(newProperties, shown, hasFundamentalFailures)
    ensures Staged(ps, extraPtrChecks, hasFundamentalFailures, withoutSanityChecks, withoutIds, newProperties, shown)
    ensures StagedFields(ps, hasFundamentalFailures, withoutSanityChecks, withoutIds, newProperties, shown)
  {
    forall i | 0 <= i < |withoutIds|
      ensures withoutIds[i] == withoutSanityChecks[i].(description := StripCheckId(withoutSanityChecks[i].description),
                                                       reach := withoutIds[i].reach)
      ensures ReachAnnotated(withoutSanityChecks[i], ReachMarkers(ps), withoutIds[i].reach)
    {
      assert annotated[i].description == withoutSanityChecks[i].description;
    }
  }

  /** The results of the stages of `postprocess_result` are shown faithfully, with the verdict of `determine_result`. */
  lemma StagesShownFaithfully(
    ps: seq<Property>, extraPtrChecks: bool, hasFundamentalFailures: bool, hasReachableUndefinedFunctions: bool,
    withUndefined: seq<Property>, withoutReachs: seq<Property>, reachChecks: seq<Property>,
    withoutSanityChecks: seq<Property>, annotated: seq<Property>, withoutIds: seq<Property>,
    newProperties: seq<Property>, shown: seq<Property>, verdict: bool)
    requires hasFundamentalFailures == (HasCheckFailures(ps, UNSUPPORTED_CONSTRUCT_DESC)
                                        || HasCheckFailures(ps, UNWINDING_ASSERT_DESC) || hasReachableUndefinedFunctions)
    requires hasReachableUndefinedFunctions <==>
      exists i :: 0 <= i < |ps| && IsUndefinedFunctionCheck(ps[i]) && ps[i].status == Failure
    requires withUndefined == RewriteAllUndefined(ps)
    requires Interleaves(withUndefined, withoutReachs, reachChecks)
    requires withoutReachs == SelectWithout(withUndefined, REACH_CHECK_DESC)
    requires reachChecks == SelectWith(withUndefined, REACH_CHECK_DESC)
    requires FilterSanityChecks(withoutReachs) == Ok(withoutSanityChecks)
    requires WellKeyed(reachChecks)
    requires |annotated| == |withoutSanityChecks|
    requires forall i :: 0 <= i < |withoutSanityChecks| ==> annotated[i] == withoutSanityChecks[i].(reach := annotated[i].reach)
    requires forall i :: 0 <= i < |withoutSanityChecks| ==> ReachAnnotated(withoutSanityChecks[i], reachChecks, annotated[i].reach)
    requires |withoutIds| == |annotated|
    requires forall i :: 0 <= i < |annotated| ==> withoutIds[i] == annotated[i].(description := StripCheckId(annotated[i].description))
    requires if extraPtrChecks then newProperties == withoutIds else FilterPtrChecks(withoutIds) == Ok(newProperties)
    requires StatusesSettled(newProperties, shown, hasFundamentalFailures)
    requires AllFinalised(newProperties, shown, hasFundamentalFailures)
    requires verdict == DetermineResult(shown)
    ensures ShownFaithfully(ps, extraPtrChecks, shown, verdict)
  {
    StagesCompose(ps, extraPtrChecks, hasFundamentalFailures, hasReachableUndefinedFunctions,
                  withUndefined, withoutReachs, reachChecks, withoutSanityChecks, annotated, withoutIds,
                  newProperties, shown);
    PostprocessGuarantees(ps, extraPtrChecks, hasFundamentalFailures, withoutSanityChecks, withoutIds, newProperties,
                          shown, verdict);
  }

  /**
   * `postprocess_result`: the checks to show and the overall verdict.
   */
  method PostprocessResult(ps: seq<Property>, extraPtrChecks: bool) returns (r: Outcome<(seq<Property>, bool)>)
    ensures r.Ok? ==> ShownFaithfully(ps, extraPtrChecks, r.value.0, r.value.1)
  {
    var hasReachableUnsupportedConstructs := HasCheckFailures(ps, UNSUPPORTED_CONSTRUCT_DESC);
    var hasFailedUnwindingAsserts := HasCheckFailures(ps, UNWINDING_ASSERT_DESC);
    var withUndefined, hasReachableUndefinedFunctions :- ModifyUndefinedFunctionChecks(ps);
    var withoutReachs, reachChecks := FilterReachChecks(withUndefined);
    var withoutSanityChecks :- FilterSanityChecks(withoutReachs);
    var annotated :- AnnotatePropertiesWithReachResults(withoutSanityChecks, reachChecks);
    var withoutIds := RemoveCheckIdsFromDescription(annotated);
    var newProperties;
    if !extraPtrChecks {
      newProperties :- FilterPtrChecks(withoutIds);
    } else {
      newProperties := withoutIds;
    }
    var hasFundamentalFailures := hasReachableUnsupportedConstructs || hasFailedUnwindingAsserts || hasReachableUndefinedFunctions;
    var finalProperties :- FinalChanges(newProperties, hasFundamentalFailures);
    var overallResult := DetermineResult(finalProperties);
    StagesShownFaithfully(ps, extraPtrChecks, hasFundamentalFailures, hasReachableUndefinedFunctions,
                          withUndefined, withoutReachs, reachChecks, withoutSanityChecks, annotated, withoutIds,
                          newProperties, finalProperties, overallResult);
    r := Ok((finalProperties, overallResult));
  }
}
