/**
 * The records of CBMC's JSON output as the driver deserialises them
 * (`ParserItem`, `Property`, `SourceLocation`, `TraceItem`, `CheckStatus`),
 * their `Display` forms, the class of a property id, and the driver's fatal
 * conditions, which the Rust code raises by panicking.
 */
module CbmcTypes {
  import opened Wrappers
  import opened Strings

  datatype CheckStatus = Failure | Success | Undetermined | Unreachable

  /** `impl Display for CheckStatus`. */
  function StatusText(s: CheckStatus): string {
    match s
    case Success => "SUCCESS"
    case Failure => "FAILURE"
    case Unreachable => "UNREACHABLE"
    case Undetermined => "UNDETERMINED"
  }

  /** The decoding serde derives for `CheckStatus` (`rename_all = "UPPERCASE"`). */
  function ParseStatus(t: string): (r: Option<CheckStatus>)
    ensures r.Some? ==> StatusText(r.value) == t
  {
    if t == "FAILURE" then Some(Failure)
    else if t == "SUCCESS" then Some(Success)
    else if t == "UNDETERMINED" then Some(Undetermined)
    else if t == "UNREACHABLE" then Some(Unreachable)
    else None
  }

  /** What the report prints for a status is what CBMC writes for it. */
  lemma StatusTextRoundTrip(s: CheckStatus)
    ensures ParseStatus(StatusText(s)) == Some(s)
  {
  }

  /** `SourceLocation`; every part is optional in CBMC's output. */
  datatype SourceLocation = SourceLocation(
    column: Option<string>,
    file: Option<string>,
    functionName: Option<string>,
    line: Option<string>)
  {
    /** `SourceLocation::is_missing`: neither a file nor a function is known. */
    predicate IsMissing() {
      file.None? && functionName.None?
    }
  }

  /**
   * `impl Display for SourceLocation`. `relPath` is `filepath`, which makes the
   * file relative to the current directory of the process.
   */
  function LocationText(loc: SourceLocation, relPath: string -> string): (r: string)
    ensures loc.file.None? ==> StartsWith(r, "Unknown File")
    ensures loc.file.Some? && loc.line.None? ==> StartsWith(r, relPath(loc.file.value))
    ensures loc.file.Some? && loc.line.Some? ==> StartsWith(r, relPath(loc.file.value) + ":" + loc.line.value)
    ensures loc.functionName.Some? ==> EndsWith(r, " in function " + loc.functionName.value)
    ensures loc.functionName.None? && loc.file.Some? && loc.line.Some? && loc.column.Some? ==>
      EndsWith(r, ":" + loc.column.value)
    // Without a file neither line nor column is printed; without a line no column is.
    ensures loc.file.None? && loc.functionName.None? ==> r == "Unknown File"
    ensures loc.file.Some? && loc.line.None? && loc.functionName.None? ==> r == relPath(loc.file.value)
    ensures loc.file.Some? && loc.line.Some? && loc.column.None? && loc.functionName.None? ==>
      r == relPath(loc.file.value) + ":" + loc.line.value
    ensures loc.file.Some? && loc.line.Some? && loc.column.Some? && loc.functionName.None? ==>
      r == relPath(loc.file.value) + ":" + loc.line.value + ":" + loc.column.value
  {
    var place :=
      if loc.file.Some? then
        relPath(loc.file.value)
        + (if loc.line.Some? then
             ":" + loc.line.value + (if loc.column.Some? then ":" + loc.column.value else "")
           else "")
      else "Unknown File";
    place + (if loc.functionName.Some? then " in function " + loc.functionName.value else "")
  }

  /** The function clause is appended to the text of the place, whatever the place is. */
  lemma LocationFunctionClause(loc: SourceLocation, relPath: string -> string, name: string)
    ensures LocationText(loc.(functionName := Some(name)), relPath)
         == LocationText(loc.(functionName := None), relPath) + " in function " + name
  {
  }

  type u32 = x: int | 0 <= x < 0x1_0000_0000

  /** `TraceItem`: one step of a counterexample trace. */
  datatype TraceItem = TraceItem(thread: u32, stepType: string, hidden: bool, sourceLocation: Option<SourceLocation>)

  /**
   * `Property`: one check. `property` is its dot-separated id; `reach` is never
   * in CBMC's output and is filled in by the reachability correlation.
   */
  datatype Property = Property(
    description: string,
    property: string,
    sourceLocation: SourceLocation,
    status: CheckStatus,
    reach: Option<CheckStatus>,
    trace: Option<seq<TraceItem>>)

  /** `ParserItem`: the four shapes of object in CBMC's JSON array (serde `untagged`). */
  datatype ParserItem =
    | Program(program: string)
    | Message(messageText: string, messageType: string)
    | Result(result: seq<Property>)
    | ProverStatus(cProverStatus: string)

  /** The conditions under which the driver panics. */
  datatype FatalError =
    | UnparsableItem(text: string)              // `assert!(block.is_ok())` in `parse_item`
    | MalformedPropertyId(id: string)           // `extract_property_class(..).unwrap()`
    | MissingCheckId(description: string)       // `re.captures(..).unwrap()` on a reachability check
    | DuplicateCheckId(key: string)             // `assert!(res_ins.is_none())`
    | UnreachableNotSuccess(description: string) // the status `assert!` in `final_changes`
    | EmptyTrace(description: string)            // the last-step index into an empty trace in `build_failure_message`

  /** A value, or the panic that stopped the computation. */
  datatype Outcome<+T> = Ok(value: T) | Panic(error: FatalError) {

    predicate IsFailure() {
      Panic?
    }

    function PropagateFailure<U>(): Outcome<U>
      requires Panic?
    {
      Panic(error)
    }

    function Extract(): T
      requires Ok?
    {
      value
    }
  }

  /** The index of the last `c` in `s[..n]`. */
  function LastIndexBefore(s: string, c: char, n: nat): (r: Option<nat>)
    requires n <= |s|
    ensures r.Some? ==> r.value < n && s[r.value] == c
    ensures r.Some? ==> forall j :: r.value < j < n ==> s[j] != c
    ensures r.None? ==> forall j :: 0 <= j < n ==> s[j] != c
    decreases n
  {
    if n == 0 then None
    else if s[n - 1] == c then Some(n - 1)
    else LastIndexBefore(s, c, n - 1)
  }

  /**
   * `extract_property_class`: `rsplitn(3, ".")` and its second piece, that is the
   * text between the last two dots (or before the only dot).
   */
  function PropertyClass(id: string): Option<string> {
    match LastIndexBefore(id, '.', |id|)
    case None => None
    case Some(i) =>
      match LastIndexBefore(id, '.', i)
      case None => Some(id[..i])
      case Some(j) => Some(id[j + 1..i])
  }

  /** The dot-separated segments of `s`, as `s.split('.')` yields them. */
  function Segments(s: string): (parts: seq<string>)
    ensures |parts| >= 1
    decreases |s|
  {
    if s == [] then [""]
    else
      var rest := Segments(s[1..]);
      if s[0] == '.' then [""] + rest else [[s[0]] + rest[0]] + rest[1..]
  }

  lemma {:induction false} SegmentsWithoutDot(s: string)
    requires '.' !in s
    ensures Segments(s) == [s]
    decreases |s|
  {
    if s != [] {
      SegmentsWithoutDot(s[1..]);
      assert [s[0]] + s[1..] == s;
    }
  }

  lemma {:induction false} SegmentsLastDot(a: string, b: string)
    requires '.' !in b
    ensures Segments(a + "." + b) == Segments(a) + [b]
    decreases |a|
  {
    if a == [] {
      assert a + "." + b == "." + b;
      assert ("." + b)[1..] == b;
      SegmentsWithoutDot(b);
    } else {
      var s := a + "." + b;
      assert s[1..] == a[1..] + "." + b;
      SegmentsLastDot(a[1..], b);
    }
  }

  lemma {:induction false} SplitAtLastDot(s: string, i: nat)
    requires i < |s| && s[i] == '.' && forall j :: i < j < |s| ==> s[j] != '.'
    ensures Segments(s) == Segments(s[..i]) + [s[i + 1..]]
  {
    assert s == s[..i] + "." + s[i + 1..];
    var tail := s[i + 1..];
    assert '.' !in tail by {
      forall k | 0 <= k < |tail| ensures tail[k] != '.' {
        assert tail[k] == s[i + 1 + k];
      }
    }
    SegmentsLastDot(s[..i], s[i + 1..]);
  }

  /**
   * The class of a property id is its second-to-last dot-separated segment, and
   * an id with fewer than two segments has none.
   */
  lemma {:induction false} PropertyClassIsSecondToLastSegment(id: string)
    ensures var parts := Segments(id);
      PropertyClass(id) == if |parts| >= 2 then Some(parts[|parts| - 2]) else None
  {
    match LastIndexBefore(id, '.', |id|)
    case None =>
      SegmentsWithoutDot(id);
    case Some(i) =>
      var head := id[..i];
      SplitAtLastDot(id, i);
      match LastIndexBefore(id, '.', i)
      case None =>
        assert forall k :: 0 <= k < |head| ==> head[k] != '.';
        SegmentsWithoutDot(head);
      case Some(j) =>
        SplitAtLastDot(head, j);
        assert head[j + 1..] == id[j + 1..i];
  }

  /** A property id the category-dependent stages can use: it has a class. */
  predicate WellFormedId(id: string) {
    PropertyClass(id).Some?
  }

  lemma WellFormedIdIffDot(id: string)
    ensures WellFormedId(id) <==> '.' in id
  {
  }

  /** The number of checks with status `st`. */
  function CountStatus(ps: seq<Property>, st: CheckStatus): nat
    decreases |ps|
  {
    if ps == [] then 0
    else CountStatus(ps[..|ps| - 1], st) + (if ps[|ps| - 1].status == st then 1 else 0)
  }

  /** No check is counted exactly when no check has the status. */
  lemma {:induction false} CountStatusZero(ps: seq<Property>, st: CheckStatus)
    ensures CountStatus(ps, st) == 0 <==> forall i :: 0 <= i < |ps| ==> ps[i].status != st
    decreases |ps|
  {
    if ps != [] {
      CountStatusZero(ps[..|ps| - 1], st);
      assert forall i :: 0 <= i < |ps| - 1 ==> ps[..|ps| - 1][i] == ps[i];
    }
  }

  /** Every check has one of the four statuses, so the four counts add up to the length. */
  lemma {:induction false} CountStatusPartition(ps: seq<Property>)
    ensures CountStatus(ps, Failure) + CountStatus(ps, Success)
          + CountStatus(ps, Undetermined) + CountStatus(ps, Unreachable) == |ps|
    decreases |ps|
  {
    if ps != [] {
      CountStatusPartition(ps[..|ps| - 1]);
    }
  }
}
