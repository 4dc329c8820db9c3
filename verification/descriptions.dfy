/**
 * The table of human-readable descriptions (`DescriptionAliases`, the
 * driver's `CBMC_DESCRIPTIONS`) and
 * `get_readable_description`, which replaces a check's CBMC description by the
 * first alias of its class that the description contains.
 */
module Descriptions {
  import opened Wrappers
  import opened Strings
  import opened CbmcTypes

  /** Text to look for in a description, and the text to show instead (None: show the text found). */
  type Alias = (string, Option<string>)

  /**
   * `CBMC_DESCRIPTIONS.get(cls)`: the aliases of a property class, in the order
   * they are tried, for the classes the table has an entry for.
   */
  function DescriptionAliases(cls: string): Option<seq<Alias>> {
    match cls
    case "error_label" => Some([])
    case "division-by-zero" => Some([("division by zero", None)])
    case "enum-range-check" => Some([("enum range check", None)])
    case "undefined-shift" => Some([
        ("shift distance is negative", None),
        ("shift distance too large", None),
        ("shift operand is negative", None),
        ("shift of non-integer type", None)])
    case "overflow" => Some([
        ("result of signed mod is not representable", None),
        ("arithmetic overflow on signed type conversion", None),
        ("arithmetic overflow on signed division", None),
        ("arithmetic overflow on signed unary minus", None),
        ("arithmetic overflow on signed shl", None),
        ("arithmetic overflow on unsigned unary minus", None),
        ("arithmetic overflow on signed +", Some("arithmetic overflow on signed addition")),
        ("arithmetic overflow on signed -", Some("arithmetic overflow on signed subtraction")),
        ("arithmetic overflow on signed *", Some("arithmetic overflow on signed multiplication")),
        ("arithmetic overflow on unsigned +", Some("arithmetic overflow on unsigned addition")),
        ("arithmetic overflow on unsigned -", Some("arithmetic overflow on unsigned subtraction")),
        ("arithmetic overflow on unsigned *", Some("arithmetic overflow on unsigned multiplication")),
        ("arithmetic overflow on floating-point typecast", None),
        ("arithmetic overflow on floating-point division", None),
        ("arithmetic overflow on floating-point addition", None),
        ("arithmetic overflow on floating-point subtraction", None),
        ("arithmetic overflow on floating-point multiplication", None),
        ("arithmetic overflow on unsigned to signed type conversion", None),
        ("arithmetic overflow on float to signed integer type conversion", None),
        ("arithmetic overflow on signed to unsigned type conversion", None),
        ("arithmetic overflow on unsigned to unsigned type conversion", None),
        ("arithmetic overflow on float to unsigned integer type conversion", None)])
    case "NaN" => Some([
        ("NaN on +", Some("NaN on addition")),
        ("NaN on -", Some("NaN on subtraction")),
        ("NaN on /", Some("NaN on division")),
        ("NaN on *", Some("NaN on multiplication"))])
    case "pointer" => Some([("same object violation", None)])
    case "pointer_arithmetic" => Some([
        ("pointer relation: deallocated dynamic object", None),
        ("pointer relation: dead object", None),
        ("pointer relation: pointer NULL", None),
        ("pointer relation: pointer invalid", None),
        ("pointer relation: pointer outside dynamic object bounds", None),
        ("pointer relation: pointer outside object bounds", None),
        ("pointer relation: invalid integer address", None),
        ("pointer arithmetic: deallocated dynamic object", None),
        ("pointer arithmetic: dead object", None),
        ("pointer arithmetic: pointer NULL", None),
        ("pointer arithmetic: pointer invalid", None),
        ("pointer arithmetic: pointer outside dynamic object bounds", None),
        ("pointer arithmetic: pointer outside object bounds", None),
        ("pointer arithmetic: invalid integer address", None)])
    case "pointer_dereference" => Some([
        ("dereferenced function pointer must be", Some("dereference failure: invalid function pointer")),
        ("dereference failure: pointer NULL", None),
        ("dereference failure: pointer invalid", None),
        ("dereference failure: deallocated dynamic object", None),
        ("dereference failure: dead object", None),
        ("dereference failure: pointer outside dynamic object bounds", None),
        ("dereference failure: pointer outside object bounds", None),
        ("dereference failure: invalid integer address", None)])
    case "pointer_primitives" => Some([
        ("pointer invalid", None),
        ("deallocated dynamic object", Some("pointer to deallocated dynamic object")),
        ("dead object", Some("pointer to dead object")),
        ("pointer outside dynamic object bounds", None),
        ("pointer outside object bounds", None),
        ("invalid integer address", None)])
    case "array_bounds" => Some([
        ("lower bound", Some("index out of bounds")),
        ("upper bound", Some("index out of bounds: the length is less than or equal to the given index"))])
    case "bit_count" => Some([
        ("count trailing zeros is undefined for value zero", None),
        ("count leading zeros is undefined for value zero", None)])
    case "memory-leak" => Some([("dynamically allocated memory never freed", None)])
    case _ => None
  }

  /** Alias `i` is the first whose text `desc` contains. */
  ghost predicate FirstMatchAt(desc: string, aliases: seq<Alias>, i: int) {
    0 <= i < |aliases| && Contains(desc, aliases[i].0)
    && forall j :: 0 <= j < i ==> !Contains(desc, aliases[j].0)
  }

  /**
   * The first alias whose text `desc` contains, shown as its replacement if it
   * has one and as the text found otherwise.
   */
  function FirstAlias(desc: string, aliases: seq<Alias>): (r: Option<string>)
    ensures r.None? <==> forall i :: 0 <= i < |aliases| ==> !Contains(desc, aliases[i].0)
    ensures r.Some? ==>
      exists i :: FirstMatchAt(desc, aliases, i) && r.value == aliases[i].1.GetOr(aliases[i].0)
    decreases |aliases|
  {
    if aliases == [] then None
    else if Contains(desc, aliases[0].0) then Some(aliases[0].1.GetOr(aliases[0].0))
    else
      var r := FirstAlias(desc, aliases[1..]);
      assert r.Some? ==>
        exists i :: FirstMatchAt(desc, aliases, i) && r.value == aliases[i].1.GetOr(aliases[i].0) by {
        if r.Some? {
          var k :| FirstMatchAt(desc, aliases[1..], k) && r.value == aliases[1..][k].1.GetOr(aliases[1..][k].0);
          assert forall j :: 1 <= j < k + 1 ==> aliases[j] == aliases[1..][j - 1];
          assert FirstMatchAt(desc, aliases, k + 1);
        }
      }
      r
  }

  /** The description shown for a check of class `cls`: the first alias of the class that `desc` contains, or `desc` itself. */
  function Readable(cls: string, desc: string): string {
    match DescriptionAliases(cls)
    case None => desc
    case Some(aliases) => FirstAlias(desc, aliases).GetOr(desc)
  }

  /** The first alias whose text `desc` contains wins: its replacement, or the matched text, is shown. */
  lemma FirstMatchWins(desc: string, aliases: seq<Alias>, k: int)
    requires FirstMatchAt(desc, aliases, k)
    ensures FirstAlias(desc, aliases) == Some(aliases[k].1.GetOr(aliases[k].0))
  {
    var r := FirstAlias(desc, aliases);
    var i :| FirstMatchAt(desc, aliases, i) && r.value == aliases[i].1.GetOr(aliases[i].0);
    assert !(i < k) && !(k < i);
  }

  /**
   * `get_readable_description`: panics on an id without a class, and otherwise
   * shows the check's description through the table.
   */
  function GetReadableDescription(p: Property): (r: Outcome<string>)
    ensures r.Panic? <==> !WellFormedId(p.property)
    ensures r.Panic? ==> r.error == MalformedPropertyId(p.property)
    ensures r.Ok? ==> r.value == Readable(PropertyClass(p.property).value, p.description)
  {
    match PropertyClass(p.property)
    case None => Panic(MalformedPropertyId(p.property))
    case Some(cls) => Ok(Readable(cls, p.description))
  }
}
