/**
 * The three regular expressions the driver uses on check ids, written out as
 * scanners with the leftmost-first, greedy semantics of Rust's `regex` crate
 * (`.` does not match a newline; `[^\]]` does):
 *
 *  - `KANI_CHECK_ID_.*_([0-9])*` finds the id in a reachability check's description;
 *  - `\[KANI_CHECK_ID_([^\]]*)\]` finds the id token in a real check's description;
 *  - `\[KANI_CHECK_ID_.*_([0-9])*\] ` is the token that `replace` removes (first match only).
 */
module CheckIds {
  import opened Wrappers
  import opened Strings

  const CHECK_ID_PREFIX := "KANI_CHECK_ID_"
  const CHECK_ID_OPEN := "[KANI_CHECK_ID_"

  /** The index of the first newline at or after `p` (or the end): how far `.*` can reach from `p`. */
  function LineEnd(s: string, p: nat): (e: nat)
    requires p <= |s|
    ensures p <= e <= |s|
    ensures e < |s| ==> s[e] == '\n'
    ensures forall i :: p <= i < e ==> s[i] != '\n'
    decreases |s| - p
  {
    if p == |s| || s[p] == '\n' then p else LineEnd(s, p + 1)
  }

  /** The end of the longest run of ASCII digits starting at `p`: where a greedy `[0-9]*` stops. */
  function DigitsEnd(s: string, p: nat): (e: nat)
    requires p <= |s|
    ensures p <= e <= |s|
    ensures forall i :: p <= i < e ==> IsDigit(s[i])
    ensures e < |s| ==> !IsDigit(s[e])
    decreases |s| - p
  {
    if p == |s| || !IsDigit(s[p]) then p else DigitsEnd(s, p + 1)
  }

  /** The last `_` in `s[lo..hi]`: where a greedy `.*_` puts its `_`. */
  function LastUnderscore(s: string, lo: nat, hi: nat): (r: Option<nat>)
    requires lo <= hi <= |s|
    ensures r.Some? ==> lo <= r.value < hi && s[r.value] == '_'
    ensures r.Some? ==> forall i :: r.value < i < hi ==> s[i] != '_'
    ensures r.None? ==> forall i :: lo <= i < hi ==> s[i] != '_'
    decreases hi - lo
  {
    if hi == lo then None
    else if s[hi - 1] == '_' then Some(hi - 1)
    else LastUnderscore(s, lo, hi - 1)
  }

  /** The first match of `KANI_CHECK_ID_.*_([0-9])*` in `d` starting at or after `k`, as (start, end). */
  function MarkerMatchFrom(d: string, k: nat): (r: Option<(nat, nat)>)
    requires k <= |d|
    ensures r.Some? ==> k <= r.value.0 && r.value.0 + |CHECK_ID_PREFIX| < r.value.1 <= |d|
    ensures r.Some? ==> OccursAt(d, CHECK_ID_PREFIX, r.value.0)
    decreases |d| - k
  {
    match IndexOfFrom(d, CHECK_ID_PREFIX, k)
    case None => None
    case Some(s) =>
      match MarkerEnd(d, s)
      case Some(e) => Some((s, e))
      case None => MarkerMatchFrom(d, s + 1)
  }

  /**
   * Where a match that starts at `s` ends, if one does: `.*` stops at the last
   * `_` of the line, and the digits after it are taken.
   */
  function MarkerEnd(d: string, s: nat): (r: Option<nat>)
    requires s + |CHECK_ID_PREFIX| <= |d|
    ensures r.Some? ==> s + |CHECK_ID_PREFIX| < r.value <= |d|
  {
    var p := s + |CHECK_ID_PREFIX|;
    match LastUnderscore(d, p, LineEnd(d, p))
    case Some(q) => Some(DigitsEnd(d, q + 1))
    case None => None
  }

  /** `re.captures(description)` on a reachability check: the id it carries, if any. */
  function MarkerCheckId(d: string): (r: Option<string>)
    ensures r.Some? ==> StartsWith(r.value, CHECK_ID_PREFIX) && Contains(d, r.value)
    ensures !Contains(d, CHECK_ID_PREFIX) ==> r.None?
  {
    match MarkerMatchFrom(d, 0)
    case None => None
    case Some((s, e)) =>
      assert OccursAt(d, d[s..e], s);
      assert d[s..e][..|CHECK_ID_PREFIX|] == d[s..s + |CHECK_ID_PREFIX|];
      Some(d[s..e])
  }

  /**
   * The match of `\[KANI_CHECK_ID_([^\]]*)\]` in `d`: from the first
   * `[KANI_CHECK_ID_` to the next `]`.
   */
  function CheckToken(d: string): Option<string> {
    match IndexOfFrom(d, CHECK_ID_OPEN, 0)
    case None => None
    case Some(s) =>
      match IndexOfFrom(d, "]", s + |CHECK_ID_OPEN|)
      case None => None
      case Some(j) =>
        Some(d[s..j + 1])
  }

  /**
   * The token found is a piece of `d` that opens with `[KANI_CHECK_ID_`, closes
   * with the first `]` after it, and has no `]` in between.
   */
  lemma CheckTokenShape(d: string)
    requires CheckToken(d).Some?
    ensures var t := CheckToken(d).value;
      StartsWith(t, CHECK_ID_OPEN) && EndsWith(t, "]") && Contains(d, t)
      && forall i :: |CHECK_ID_OPEN| <= i < |t| - 1 ==> t[i] != ']'
  {
    var s := IndexOfFrom(d, CHECK_ID_OPEN, 0).value;
    var j := IndexOfFrom(d, "]", s + |CHECK_ID_OPEN|).value;
    CheckTokenAt(d, s, j);
    TokenShape(d, s, j, d[s..j + 1]);
  }

  /** A description has a token only if it holds `[KANI_CHECK_ID_`. */
  lemma TokenNeedsOpening(d: string)
    ensures CheckToken(d).Some? ==> Contains(d, CHECK_ID_OPEN)
  {
    var open := IndexOfFrom(d, CHECK_ID_OPEN, 0);
    if open.Some? {
      assert OccursAt(d, CHECK_ID_OPEN, open.value);
    }
  }

  /** The text `t` from an opening `[KANI_CHECK_ID_` to the first `]` after it is a token. */
  lemma TokenShape(d: string, s: nat, j: nat, t: string)
    requires OccursAt(d, CHECK_ID_OPEN, s) && s + |CHECK_ID_OPEN| <= j && OccursAt(d, "]", j)
    requires forall i :: s + |CHECK_ID_OPEN| <= i < j ==> !OccursAt(d, "]", i)
    requires t == d[s..j + 1]
    ensures StartsWith(t, CHECK_ID_OPEN) && EndsWith(t, "]") && Contains(d, t)
    ensures forall i :: |CHECK_ID_OPEN| <= i < |t| - 1 ==> t[i] != ']'
  {
    assert OccursAt(d, t, s);
    forall i | |CHECK_ID_OPEN| <= i < |t| - 1 ensures t[i] != ']' {
      assert !OccursAt(d, "]", s + i);
    }
  }

  /**
   * The end of `_([0-9])*\] ` for the last `_` in `d[lo..hi]` after whose digits
   * `] ` follows: where the greedy `.*` of the stripping pattern stops.
   */
  function StripEnd(d: string, lo: nat, hi: nat): (r: Option<nat>)
    requires lo <= hi <= |d|
    ensures r.Some? ==> lo + 3 <= r.value && ClosedAt(d, r.value)
    decreases hi - lo
  {
    if hi == lo then None
    else if StripCloses(d, hi - 1) then Some(DigitsEnd(d, hi) + 2)
    else StripEnd(d, lo, hi - 1)
  }

  /** The two characters before `e` are the `] ` that closes a token. */
  predicate ClosedAt(d: string, e: int) {
    2 <= e <= |d| && d[e - 2..e] == "] "
  }

  /** The first match of `\[KANI_CHECK_ID_.*_([0-9])*\] ` starting at or after `k`, as (start, end). */
  function StripMatchFrom(d: string, k: nat): (r: Option<(nat, nat)>)
    requires k <= |d|
    ensures r.Some? ==> k <= r.value.0 && r.value.0 + |CHECK_ID_OPEN| + 3 <= r.value.1 <= |d|
    ensures r.Some? ==> OccursAt(d, CHECK_ID_OPEN, r.value.0) && ClosedAt(d, r.value.1)
    decreases |d| - k
  {
    match IndexOfFrom(d, CHECK_ID_OPEN, k)
    case None => None
    case Some(s) =>
      match StripAt(d, s)
      case Some(e) => Some((s, e))
      case None => StripMatchFrom(d, s + 1)
  }

  /** Where a stripping match that opens at `s` ends, if one does. */
  function StripAt(d: string, s: nat): (r: Option<nat>)
    requires s + |CHECK_ID_OPEN| <= |d|
    ensures r.Some? ==> s + |CHECK_ID_OPEN| + 3 <= r.value && ClosedAt(d, r.value)
  {
    var p := s + |CHECK_ID_OPEN|;
    StripEnd(d, p, LineEnd(d, p))
  }

  /** `d` with the token `d[s..e]` cut out, where the token opens with `[KANI_CHECK_ID_` and closes with `] `. */
  ghost predicate CutsToken(d: string, r: string, s: int, e: int) {
    0 <= s && s + |CHECK_ID_OPEN| + 3 <= e <= |d| && StartsWith(d[s..], CHECK_ID_OPEN) && ClosedAt(d, e) && r == d[..s] + d[e..]
  }

  /**
   * `re.replace(description, "")` in `remove_check_ids_from_description`: only
   * the first match is removed.
   */
  function StripCheckId(d: string): (r: string)
    ensures !Contains(d, CHECK_ID_OPEN) ==> r == d
    ensures r == d || exists s, e :: CutsToken(d, r, s, e)
  {
    match StripMatchFrom(d, 0)
    case None => d
    case Some((s, e)) =>
      assert d[s..][..|CHECK_ID_OPEN|] == d[s..s + |CHECK_ID_OPEN|];
      assert CutsToken(d, d[..s] + d[e..], s, e);
      d[..s] + d[e..]
  }

  /** The key under which a reachability check's status is recorded: its id in brackets. */
  function MarkerKey(d: string): (r: Option<string>)
    ensures r.Some? ==> StartsWith(r.value, CHECK_ID_OPEN) && EndsWith(r.value, "]")
    ensures r.None? <==> MarkerCheckId(d).None?
  {
    match MarkerCheckId(d)
    case None => None
    case Some(id) =>
      Bracketed(id);
      Some("[" + id + "]")
  }

  /** An id with the prefix, put in brackets, opens with `[KANI_CHECK_ID_` and closes with `]`. */
  lemma Bracketed(id: string)
    requires StartsWith(id, CHECK_ID_PREFIX)
    ensures StartsWith("[" + id + "]", CHECK_ID_OPEN) && EndsWith("[" + id + "]", "]")
  {
    assert ("[" + id + "]")[1..|CHECK_ID_OPEN|] == id[..|CHECK_ID_PREFIX|];
  }

  /** A check id as the compiler writes it: the prefix, a name, `_` and a counter. */
  predicate IsKaniId(id: string, name: string, n: string) {
    id == CHECK_ID_PREFIX + name + "_" + n
    && (forall i :: 0 <= i < |name| ==> name[i] != '\n' && name[i] != ']')
    && (forall i :: 0 <= i < |n| ==> IsDigit(n[i]))
  }

  lemma {:induction false} FirstOccurrence(s: string, t: string, k: nat, i: nat)
    requires k <= i && OccursAt(s, t, i) && forall j :: k <= j < i ==> !OccursAt(s, t, j)
    ensures IndexOfFrom(s, t, k) == Some(i)
  {
  }

  lemma {:induction false} LineEndAtEnd(s: string, p: nat)
    requires p <= |s| && forall i :: p <= i < |s| ==> s[i] != '\n'
    ensures LineEnd(s, p) == |s|
  {
  }

  lemma {:induction false} LastUnderscoreIs(s: string, lo: nat, hi: nat, u: nat)
    requires lo <= u < hi <= |s| && s[u] == '_' && forall i :: u < i < hi ==> s[i] != '_'
    ensures LastUnderscore(s, lo, hi) == Some(u)
  {
  }

  lemma {:induction false} DigitsEndIs(s: string, p: nat, e: nat)
    requires p <= e <= |s| && (forall i :: p <= i < e ==> IsDigit(s[i])) && (e < |s| ==> !IsDigit(s[e]))
    ensures DigitsEnd(s, p) == e
  {
  }

  /** Where the name, the `_` and the counter of a Kani id sit. */
  lemma {:induction false} KaniIdLayout(id: string, name: string, n: string)
    requires IsKaniId(id, name, n)
    ensures |id| == |CHECK_ID_PREFIX| + |name| + 1 + |n|
    ensures id[..|CHECK_ID_PREFIX|] == CHECK_ID_PREFIX
    ensures forall j :: |CHECK_ID_PREFIX| <= j < |CHECK_ID_PREFIX| + |name| ==> id[j] != '\n' && id[j] != ']'
    ensures id[|CHECK_ID_PREFIX| + |name|] == '_'
    ensures forall j :: |CHECK_ID_PREFIX| + |name| < j < |id| ==> IsDigit(id[j])
  {
    var o := |CHECK_ID_PREFIX|;
    forall j | o <= j < o + |name| ensures id[j] != '\n' && id[j] != ']' {
      assert id[j] == name[j - o];
    }
    forall j | o + |name| < j < |id| ensures IsDigit(id[j]) {
      assert id[j] == n[j - o - |name| - 1];
    }
  }

  /**
   * A reachability check whose description ends with a Kani id is keyed by the
   * id in brackets: the greedy `.*_` stops at the `_` before the counter.
   */
  lemma {:induction false} MarkerKeyOfKaniId(head: string, id: string, name: string, n: string)
    requires IsKaniId(id, name, n)
    requires forall i :: 0 <= i < |head| ==> !OccursAt(head + id, CHECK_ID_PREFIX, i)
    ensures MarkerKey(head + id) == Some("[" + id + "]")
  {
    KaniIdMatched(head, id, name, n);
    ConcatSuffix(head, id);
    assert MarkerCheckId(head + id) == Some(id);
  }

  /** The scanners find a Kani id that follows text without the prefix from its start to the end. */
  lemma KaniIdMatched(head: string, id: string, name: string, n: string)
    requires IsKaniId(id, name, n)
    requires forall i :: 0 <= i < |head| ==> !OccursAt(head + id, CHECK_ID_PREFIX, i)
    ensures MarkerMatchFrom(head + id, 0) == Some((|head|, |head + id|))
  {
    KaniIdLayout(id, name, n);
    var d := head + id;
    var h := |head|;
    assert forall i :: h <= i < |d| ==> d[i] == id[i - h];
    assert OccursAt(d, CHECK_ID_PREFIX, h) by {
      assert d[h..h + |CHECK_ID_PREFIX|] == id[..|CHECK_ID_PREFIX|];
    }
    FirstOccurrence(d, CHECK_ID_PREFIX, 0, h);
    KaniIdEnds(d, h, id, name, n);
    MarkerMatchFromAt(d, 0, h, |d|);
  }

  /** A Kani id that runs to the end of `d` is matched up to that end. */
  lemma KaniIdEnds(d: string, h: nat, id: string, name: string, n: string)
    requires IsKaniId(id, name, n) && h + |id| == |d|
    requires forall i :: h <= i < |d| ==> d[i] == id[i - h]
    ensures MarkerEnd(d, h) == Some(|d|)
  {
    KaniIdLayout(id, name, n);
    var p := h + |CHECK_ID_PREFIX|;
    var u := p + |name|;
    LineEndAtEnd(d, p);
    LastUnderscoreIs(d, p, |d|, u);
    DigitsEndIs(d, u + 1, |d|);
  }

  /** The part of `a + b` after `a` is `b`. */
  lemma ConcatSuffix(a: string, b: string)
    ensures (a + b)[|a|..|a + b|] == b
  {
  }

  /** Where the scanners stop determines the id `KANI_CHECK_ID_.*_([0-9])*` matches. */
  lemma MarkerMatchFromAt(d: string, k: nat, s: nat, e: nat)
    requires k <= s && s + |CHECK_ID_PREFIX| <= |d|
    requires IndexOfFrom(d, CHECK_ID_PREFIX, k) == Some(s)
    requires MarkerEnd(d, s) == Some(e)
    ensures MarkerMatchFrom(d, k) == Some((s, e))
  {
  }

  /** Where the parts of `[<id>] <rest>` sit, for a Kani id. */
  lemma {:induction false} TokenLayout(id: string, name: string, n: string, rest: string)
    requires IsKaniId(id, name, n)
    ensures var d := "[" + id + "] " + rest;
      var o := |CHECK_ID_OPEN|;
      var u := o + |name|;
      var b := u + 1 + |n|;
      |d| == b + 2 + |rest|
      && d[..o] == CHECK_ID_OPEN
      && (forall i :: o <= i < u ==> d[i] != '\n' && d[i] != ']')
      && d[u] == '_'
      && (forall i :: u < i < b ==> IsDigit(d[i]))
      && d[b] == ']' && d[b + 1] == ' '
      && d[..b + 1] == "[" + id + "]"
      && d[b + 2..] == rest
  {
    KaniIdLayout(id, name, n);
    var d := "[" + id + "] " + rest;
    var b := |CHECK_ID_OPEN| + |name| + 1 + |n|;
    assert forall i :: 1 <= i < 1 + |id| ==> d[i] == id[i - 1];
    assert d[1..|CHECK_ID_OPEN|] == id[..|CHECK_ID_PREFIX|];
    assert d[..b + 1] == "[" + id + "]";
    assert d[b + 2..] == rest;
  }

  /**
   * The check a reachability check guards starts with `[<id>] `: the correlation
   * reads the same key from it, and stripping removes exactly that token.
   */
  lemma {:induction false} CheckTokenOfKaniId(id: string, name: string, n: string, rest: string)
    requires IsKaniId(id, name, n)
    requires forall i :: 0 <= i < |rest| ==> rest[i] != ']'
    ensures CheckToken("[" + id + "] " + rest) == Some("[" + id + "]")
    ensures StripCheckId("[" + id + "] " + rest) == rest
  {
    TokenLayout(id, name, n, rest);
    var d := "[" + id + "] " + rest;
    var b := |CHECK_ID_OPEN| + |name| + 1 + |n|;
    assert forall i :: b + 2 <= i < |d| ==> d[i] != ']' by {
      forall i | b + 2 <= i < |d| ensures d[i] != ']' {
        assert d[i] == d[b + 2..][i - b - 2];
      }
    }
    TokenRunsToBracket(d, |CHECK_ID_OPEN| + |name|, b);
    StripRemovesToken(d, |CHECK_ID_OPEN| + |name|, b);
  }

  /** In `[KANI_CHECK_ID_<text>_<digits>] ...` the token runs to the first `]`. */
  lemma {:induction false} TokenRunsToBracket(d: string, u: nat, b: nat)
    requires |CHECK_ID_OPEN| <= u < b && b + 2 <= |d| && d[..|CHECK_ID_OPEN|] == CHECK_ID_OPEN
    requires forall i :: |CHECK_ID_OPEN| <= i < b ==> d[i] != ']'
    requires d[b] == ']'
    ensures CheckToken(d) == Some(d[..b + 1])
  {
    var o := |CHECK_ID_OPEN|;
    assert OccursAt(d, CHECK_ID_OPEN, 0);
    FirstOccurrence(d, CHECK_ID_OPEN, 0, 0);
    assert forall i :: o <= i < b ==> !OccursAt(d, "]", i) by {
      forall i | o <= i < b ensures !OccursAt(d, "]", i) {
        assert d[i..i + 1] == [d[i]];
      }
    }
    assert OccursAt(d, "]", b) by {
      assert d[b..b + 1] == [d[b]];
    }
    FirstOccurrence(d, "]", o, b);
    CheckTokenAt(d, 0, b);
  }

  /** Where the two searches stop determines the token `\[KANI_CHECK_ID_([^\]]*)\]` matches. */
  lemma CheckTokenAt(d: string, s: nat, j: nat)
    requires s + |CHECK_ID_OPEN| <= j < |d|
    requires IndexOfFrom(d, CHECK_ID_OPEN, 0) == Some(s) && IndexOfFrom(d, "]", s + |CHECK_ID_OPEN|) == Some(j)
    ensures CheckToken(d) == Some(d[s..j + 1])
  {
  }

  /**
   * In `[KANI_CHECK_ID_<text>_<digits>] <rest>`, with no newline before the `_`
   * and no `]` in `rest`, the greedy match ends right after `] `.
   */
  lemma {:induction false} StripRemovesToken(d: string, u: nat, b: nat)
    requires |CHECK_ID_OPEN| <= u < b && b + 2 <= |d| && d[..|CHECK_ID_OPEN|] == CHECK_ID_OPEN
    requires forall i :: |CHECK_ID_OPEN| <= i < u ==> d[i] != '\n'
    requires d[u] == '_' && forall i :: u < i < b ==> IsDigit(d[i])
    requires d[b] == ']' && d[b + 1] == ' '
    requires forall i :: b + 2 <= i < |d| ==> d[i] != ']'
    ensures StripCheckId(d) == d[b + 2..]
  {
    StripMatchOfToken(d, u, b);
    StripCheckIdCuts(d, 0, b + 2);
    assert d[..0] + d[b + 2..] == d[b + 2..];
  }

  /** The match that stripping removes from `[KANI_CHECK_ID_<text>_<digits>] <rest>`. */
  lemma {:induction false} StripMatchOfToken(d: string, u: nat, b: nat)
    requires |CHECK_ID_OPEN| <= u < b && b + 2 <= |d| && d[..|CHECK_ID_OPEN|] == CHECK_ID_OPEN
    requires forall i :: |CHECK_ID_OPEN| <= i < u ==> d[i] != '\n'
    requires d[u] == '_' && forall i :: u < i < b ==> IsDigit(d[i])
    requires d[b] == ']' && d[b + 1] == ' '
    requires forall i :: b + 2 <= i < |d| ==> d[i] != ']'
    ensures StripMatchFrom(d, 0) == Some((0, b + 2))
  {
    assert OccursAt(d, CHECK_ID_OPEN, 0);
    FirstOccurrence(d, CHECK_ID_OPEN, 0, 0);
    StripEndOfToken(d, |CHECK_ID_OPEN|, u, b);
    StripMatchFromAt(d, 0, 0, b + 2);
  }

  /** In such a description the greedy `.*` after the opening stops right after `] `. */
  lemma StripEndOfToken(d: string, o: nat, u: nat, b: nat)
    requires o <= u < b && b + 2 <= |d|
    requires forall i :: o <= i < u ==> d[i] != '\n'
    requires d[u] == '_' && forall i :: u < i < b ==> IsDigit(d[i])
    requires d[b] == ']' && d[b + 1] == ' '
    requires forall i :: b + 2 <= i < |d| ==> d[i] != ']'
    ensures StripEnd(d, o, LineEnd(d, o)) == Some(b + 2)
  {
    var l := LineEnd(d, o);
    assert forall i :: o <= i < b + 2 ==> d[i] != '\n';
    assert l >= b + 2;
    StripEndSkips(d, o, l, u, b);
    DigitsEndIs(d, u + 1, b);
    ClosingAt(d, b);
    StripEndAt(d, o, u, b);
  }

  /** The two characters `] ` at `b`. */
  lemma ClosingAt(d: string, b: nat)
    requires b + 2 <= |d| && d[b] == ']' && d[b + 1] == ' '
    ensures StartsWith(d[b..], "] ")
  {
    assert d[b..][..2] == [d[b], d[b + 1]];
  }

  /** The greedy `.*` of the stripping pattern stopping at the `_` at `u`. */
  lemma StripEndAt(d: string, lo: nat, u: nat, e: nat)
    requires lo <= u < e <= |d| && d[u] == '_' && DigitsEnd(d, u + 1) == e && StartsWith(d[e..], "] ")
    ensures StripEnd(d, lo, u + 1) == Some(e + 2)
  {
  }

  /** The first stripping match starts at the first `[KANI_CHECK_ID_` from which its `.*` can stop. */
  lemma StripMatchFromAt(d: string, k: nat, s: nat, e: nat)
    requires k <= s <= |d| - |CHECK_ID_OPEN| && IndexOfFrom(d, CHECK_ID_OPEN, k) == Some(s)
    requires StripAt(d, s) == Some(e)
    ensures StripMatchFrom(d, k) == Some((s, e))
  {
  }

  /** Stripping cuts out exactly the first match. */
  lemma StripCheckIdCuts(d: string, s: nat, e: nat)
    requires s <= e <= |d| && StripMatchFrom(d, 0) == Some((s, e))
    ensures StripCheckId(d) == d[..s] + d[e..]
  {
  }

  /** Past the `_` at `u`, whose digits end at the `] ` at `b`, no later `_` starts a match. */
  lemma {:induction false} StripEndSkips(d: string, lo: nat, hi: nat, u: nat, b: nat)
    requires lo <= u < b && u < hi <= |d| && b + 2 <= |d|
    requires forall i :: u < i < b ==> IsDigit(d[i])
    requires d[b] == ']' && d[b + 1] == ' '
    requires forall i :: b + 2 <= i < |d| ==> d[i] != ']'
    ensures StripEnd(d, lo, hi) == StripEnd(d, lo, u + 1)
    decreases hi
  {
    if hi > u + 1 {
      var q := hi - 1;
      if d[q] == '_' {
        NoClosingAfter(d, u, b, q);
      }
      StripEndSkips(d, lo, hi - 1, u, b);
    }
  }

  /** An `_` after the one at `u` is not followed by digits and `] `. */
  lemma NoClosingAfter(d: string, u: nat, b: nat, q: nat)
    requires u < b && b + 2 <= |d| && u < q < |d| && d[q] == '_'
    requires forall i :: u < i < b ==> IsDigit(d[i])
    requires d[b] == ']' && d[b + 1] == ' '
    requires forall i :: b + 2 <= i < |d| ==> d[i] != ']'
    ensures !StartsWith(d[DigitsEnd(d, q + 1)..], "] ")
  {
    var e := DigitsEnd(d, q + 1);
    assert q >= b + 2;
    if e < |d| {
      assert d[e..][0] == d[e] != ']';
    }
  }

  // What each pattern can match, and the proof that the scanners report the match
  // the `regex` crate reports: the leftmost start and, from there, the greedy choice.

  /** `.*_` from `p` has an `_` to stop at: one before the end of the line. */
  predicate UnderscoreOnLine(d: string, p: nat)
    requires p <= |d|
  {
    exists q :: p <= q < LineEnd(d, p) && d[q] == '_'
  }

  /**
   * `.*_([0-9])*` matched greedily after the prefix that starts at `s`: `q` is
   * the last `_` before the end of the line, and the digits after it run up to `e`.
   */
  predicate GreedyIdTail(d: string, s: nat, q: nat, e: nat)
    requires s + |CHECK_ID_PREFIX| <= |d|
  {
    var p := s + |CHECK_ID_PREFIX|;
    p <= q < LineEnd(d, p) && d[q] == '_' && (forall i :: q < i < LineEnd(d, p) ==> d[i] != '_')
    && q < e <= |d| && (forall i :: q < i < e ==> IsDigit(d[i])) && (e < |d| ==> !IsDigit(d[e]))
  }

  /** A match of the id pattern can start at `s` exactly when an `_` follows the prefix on its line. */
  lemma MarkerEndFound(d: string, s: nat)
    requires s + |CHECK_ID_PREFIX| <= |d|
    ensures MarkerEnd(d, s).Some? <==> UnderscoreOnLine(d, s + |CHECK_ID_PREFIX|)
  {
    var p := s + |CHECK_ID_PREFIX|;
    var u := LastUnderscore(d, p, LineEnd(d, p));
    if u.Some? {
      assert d[u.value] == '_';
    }
  }

  /** The match that starts at `s` ends at `e` exactly when `e` is where the greedy `.*_([0-9])*` after the prefix stops. */
  lemma MarkerEndIsGreedy(d: string, s: nat, e: nat)
    requires s + |CHECK_ID_PREFIX| <= |d|
    ensures MarkerEnd(d, s) == Some(e) <==> exists q :: GreedyIdTail(d, s, q, e)
  {
    var p := s + |CHECK_ID_PREFIX|;
    match LastUnderscore(d, p, LineEnd(d, p))
    case None =>
    case Some(q) =>
      if MarkerEnd(d, s) == Some(e) {
        assert GreedyIdTail(d, s, q, e);
      }
      if exists q' :: GreedyIdTail(d, s, q', e) {
        var q' :| GreedyIdTail(d, s, q', e);
        assert q' == q;
        DigitsEndIs(d, q + 1, e);
      }
  }

  /** A match of `KANI_CHECK_ID_.*_([0-9])*` can start at `s`. */
  predicate MarkerStartsAt(d: string, s: int) {
    OccursAt(d, CHECK_ID_PREFIX, s) && UnderscoreOnLine(d, s + |CHECK_ID_PREFIX|)
  }

  /** `s` is the leftmost position at or after `k` where a match of the id pattern can start. */
  predicate FirstMarkerStart(d: string, k: int, s: int) {
    k <= s && MarkerStartsAt(d, s) && forall j :: k <= j < s ==> !MarkerStartsAt(d, j)
  }

  /** Nothing at or after `k` and before the first occurrence `s0` of the opening can start a match. */
  lemma NoMarkerStartBefore(d: string, k: nat, s0: nat)
    requires k <= |d| && IndexOfFrom(d, CHECK_ID_PREFIX, k) == Some(s0)
    ensures forall j :: k <= j < s0 ==> !MarkerStartsAt(d, j)
  {
    forall j | k <= j < s0
      ensures !MarkerStartsAt(d, j)
    {
      assert !OccursAt(d, CHECK_ID_PREFIX, j);
    }
  }

  /** No match can start at or after `k`. */
  ghost predicate NoMarkerStartFrom(d: string, k: int) {
    forall j :: k <= j ==> !MarkerStartsAt(d, j)
  }

  /** A start `s0` with no start before it from `k` is the first one; no other position is. */
  lemma FirstMarkerStartIs(d: string, k: nat, s0: nat, s: nat)
    requires k <= s0 && MarkerStartsAt(d, s0) && forall j :: k <= j < s0 ==> !MarkerStartsAt(d, j)
    ensures FirstMarkerStart(d, k, s) <==> s == s0
  {
    if s > s0 {
      assert !FirstMarkerStart(d, k, s);
    }
  }

  /** Without a further opening, the scan reports nothing and no start is the first one. */
  lemma {:induction false} FirstMarkerStartAbsent(d: string, k: nat, s: nat)
    requires k <= |d|
    ensures IndexOfFrom(d, CHECK_ID_PREFIX, k).None? ==> MarkerMatchFrom(d, k).None? && !FirstMarkerStart(d, k, s)
  {
    if IndexOfFrom(d, CHECK_ID_PREFIX, k).None? && k <= s {
      assert !OccursAt(d, CHECK_ID_PREFIX, s);
    }
  }

  /** When the first opening `s0` cannot start a match, the scan and the first start from `k` are those from `s0 + 1`. */
  lemma {:induction false} FirstMarkerStartSkip(d: string, k: nat, s: nat)
    requires k <= |d|
    ensures IndexOfFrom(d, CHECK_ID_PREFIX, k).Some? && MarkerEnd(d, IndexOfFrom(d, CHECK_ID_PREFIX, k).value).None? ==>
      MarkerMatchFrom(d, k) == MarkerMatchFrom(d, IndexOfFrom(d, CHECK_ID_PREFIX, k).value + 1) && (FirstMarkerStart(d, k, s) <==> FirstMarkerStart(d, IndexOfFrom(d, CHECK_ID_PREFIX, k).value + 1, s))
  {
    var o := IndexOfFrom(d, CHECK_ID_PREFIX, k);
    if o.Some? && MarkerEnd(d, o.value).None? {
      var s0 := o.value;
      MarkerEndFound(d, s0);
      NoMarkerStartBefore(d, k, s0);
      assert !MarkerStartsAt(d, s0);
    }
  }

  /** When a match can start at the first opening `s0`, the scan reports it and it is the first start. */
  lemma {:induction false} FirstMarkerStartHit(d: string, k: nat, s: nat)
    requires k <= |d|
    ensures IndexOfFrom(d, CHECK_ID_PREFIX, k).Some? && MarkerEnd(d, IndexOfFrom(d, CHECK_ID_PREFIX, k).value).Some? ==>
      MarkerMatchFrom(d, k) == Some((IndexOfFrom(d, CHECK_ID_PREFIX, k).value, MarkerEnd(d, IndexOfFrom(d, CHECK_ID_PREFIX, k).value).value))
      && (FirstMarkerStart(d, k, s) <==> s == IndexOfFrom(d, CHECK_ID_PREFIX, k).value)
  {
    var o := IndexOfFrom(d, CHECK_ID_PREFIX, k);
    if o.Some? && MarkerEnd(d, o.value).Some? {
      var s0 := o.value;
      MarkerEndFound(d, s0);
      NoMarkerStartBefore(d, k, s0);
      FirstMarkerStartIs(d, k, s0, s);
    }
  }

  /** A scan that finds something finds the leftmost start at or after `k`, and the end of the match there. */
  lemma {:induction false} MarkerMatchFromIsLeftmost(d: string, k: nat, s: nat, e: nat)
    requires k <= |d|
    ensures MarkerMatchFrom(d, k) == Some((s, e)) <==> FirstMarkerStart(d, k, s) && MarkerEnd(d, s) == Some(e)
    decreases |d| - k
  {
    var o := IndexOfFrom(d, CHECK_ID_PREFIX, k);
    if o.None? {
      FirstMarkerStartAbsent(d, k, s);
    } else if MarkerEnd(d, o.value).None? {
      MarkerMatchFromIsLeftmost(d, o.value + 1, s, e);
      FirstMarkerStartSkip(d, k, s);
    } else {
      FirstMarkerStartHit(d, k, s);
    }
  }

  /** A position where a match can start, at or after `k`, has a first such position at or before it. */
  lemma {:induction false} FirstMarkerStartExists(d: string, k: nat, j: nat) returns (s: nat)
    requires k <= j && MarkerStartsAt(d, j)
    ensures s <= j && FirstMarkerStart(d, k, s)
    decreases j
  {
    if exists i :: k <= i < j && MarkerStartsAt(d, i) {
      var i :| k <= i < j && MarkerStartsAt(d, i);
      s := FirstMarkerStartExists(d, k, i);
    } else {
      s := j;
    }
  }

  /** The scan from `k` finds nothing exactly when no match starts at or after `k`. */
  lemma MarkerMatchFromNone(d: string, k: nat)
    requires k <= |d|
    ensures MarkerMatchFrom(d, k).None? <==> NoMarkerStartFrom(d, k)
  {
    if MarkerMatchFrom(d, k).Some? {
      var (s, e) := MarkerMatchFrom(d, k).value;
      MarkerMatchFromIsLeftmost(d, k, s, e);
      assert MarkerStartsAt(d, s);
    }
    if !NoMarkerStartFrom(d, k) {
      var j :| k <= j && MarkerStartsAt(d, j);
      var s := FirstMarkerStartExists(d, k, j);
      MarkerEndFound(d, s);
      MarkerMatchFromIsLeftmost(d, k, s, MarkerEnd(d, s).value);
    }
  }

  /**
   * A reachability check's description has an id exactly when a match exists;
   * the id is the leftmost match and the key is that id in brackets.
   */
  lemma MarkerCheckIdIsFirstMatch(d: string, s: nat, e: nat)
    ensures MarkerCheckId(d).None? <==> forall j :: 0 <= j ==> !MarkerStartsAt(d, j)
    ensures FirstMarkerStart(d, 0, s) && MarkerEnd(d, s) == Some(e) ==>
      s <= e <= |d| && MarkerCheckId(d) == Some(d[s..e]) && MarkerKey(d) == Some("[" + d[s..e] + "]")
  {
    MarkerMatchFromNone(d, 0);
    MarkerMatchFromIsLeftmost(d, 0, s, e);
  }

  /** The first `[KANI_CHECK_ID_` of `d` opens at `s`, and the first `]` after it is at `j`. */
  predicate FirstTokenAt(d: string, s: int, j: int) {
    OccursAt(d, CHECK_ID_OPEN, s) && (forall i :: 0 <= i < s ==> !OccursAt(d, CHECK_ID_OPEN, i))
    && s + |CHECK_ID_OPEN| <= j < |d| && d[j] == ']' && (forall i :: s + |CHECK_ID_OPEN| <= i < j ==> d[i] != ']')
  }

  /** `]` occurs at `i` exactly when the character there is `]`. */
  lemma BracketAt(d: string, i: nat)
    requires i < |d|
    ensures OccursAt(d, "]", i) <==> d[i] == ']'
  {
    assert d[i..i + 1] == [d[i]];
  }

  /**
   * `\[KANI_CHECK_ID_([^\]]*)\]` matches exactly when some `[KANI_CHECK_ID_` is
   * followed, anywhere later, by `]`; the token is then the text from the first
   * opening to the first `]` after it.
   */
  lemma CheckTokenIsFirstMatch(d: string, s: nat, j: nat)
    ensures OccursAt(d, CHECK_ID_OPEN, s) && s + |CHECK_ID_OPEN| <= j < |d| && d[j] == ']' ==> CheckToken(d).Some?
    ensures CheckToken(d).Some? ==> exists s0, j0 :: FirstTokenAt(d, s0, j0)
    ensures FirstTokenAt(d, s, j) ==> CheckToken(d) == Some(d[s..j + 1])
  {
    match IndexOfFrom(d, CHECK_ID_OPEN, 0)
    case None =>
    case Some(s0) =>
      var o := s0 + |CHECK_ID_OPEN|;
      match IndexOfFrom(d, "]", o)
      case None =>
        if OccursAt(d, CHECK_ID_OPEN, s) && s + |CHECK_ID_OPEN| <= j < |d| && d[j] == ']' {
          BracketAt(d, j);
        }
      case Some(j0) =>
        forall i | o <= i < j0
          ensures d[i] != ']'
        {
          BracketAt(d, i);
        }
        BracketAt(d, j0);
        assert FirstTokenAt(d, s0, j0);
        if FirstTokenAt(d, s, j) {
          assert s == s0;
          BracketAt(d, j);
          assert j == j0;
        }
  }

  /** An `_` at `q` from which `_([0-9])*\] ` matches: its digits are followed by `] ` (fewer digits would leave a digit where `]` is needed). */
  predicate StripCloses(d: string, q: nat)
    requires q < |d|
  {
    d[q] == '_' && StartsWith(d[DigitsEnd(d, q + 1)..], "] ")
  }

  /** Scanning `d[lo..hi]` for the stripping pattern's `_` succeeds exactly when one of its `_` closes. */
  lemma {:induction false} StripEndFinds(d: string, lo: nat, hi: nat)
    requires lo <= hi <= |d|
    ensures StripEnd(d, lo, hi).Some? <==> exists q :: lo <= q < hi && StripCloses(d, q)
    decreases hi - lo
  {
    if hi > lo {
      if StripCloses(d, hi - 1) {
        assert StripEnd(d, lo, hi).Some?;
      } else {
        assert StripEnd(d, lo, hi) == StripEnd(d, lo, hi - 1);
        StripEndFinds(d, lo, hi - 1);
      }
    }
  }

  /** The greedy `.*` stops at the last `_` that closes: the match ends after that `_`'s digits and `] `. */
  lemma {:induction false} StripEndIsLastClosing(d: string, lo: nat, hi: nat, q: nat)
    requires lo <= q < hi <= |d| && StripCloses(d, q)
    requires forall i :: q < i < hi ==> !StripCloses(d, i)
    ensures StripEnd(d, lo, hi) == Some(DigitsEnd(d, q + 1) + 2)
    decreases hi - lo
  {
    if q < hi - 1 {
      assert !StripCloses(d, hi - 1);
      StripEndIsLastClosing(d, lo, hi - 1, q);
    }
  }

  /** A match of `\[KANI_CHECK_ID_.*_([0-9])*\] ` can start at `s`: an `_` on the opening's line closes. */
  predicate StripStartsAt(d: string, s: int) {
    OccursAt(d, CHECK_ID_OPEN, s)
    && exists q :: s + |CHECK_ID_OPEN| <= q < LineEnd(d, s + |CHECK_ID_OPEN|) && StripCloses(d, q)
  }

  /** `s` is the leftmost position at or after `k` where a stripping match can start. */
  predicate FirstStripStart(d: string, k: int, s: int) {
    k <= s && StripStartsAt(d, s) && forall j :: k <= j < s ==> !StripStartsAt(d, j)
  }

  /** A stripping match can start at `s` exactly when the scan of its line finds one. */
  lemma StripAtFound(d: string, s: nat)
    requires s + |CHECK_ID_OPEN| <= |d| && OccursAt(d, CHECK_ID_OPEN, s)
    ensures StripStartsAt(d, s) <==> StripAt(d, s).Some?
  {
    var p := s + |CHECK_ID_OPEN|;
    StripEndFinds(d, p, LineEnd(d, p));
  }

  /** Nothing at or after `k` and before the first occurrence `s0` of the opening can start a match. */
  lemma NoStripStartBefore(d: string, k: nat, s0: nat)
    requires k <= |d| && IndexOfFrom(d, CHECK_ID_OPEN, k) == Some(s0)
    ensures forall j :: k <= j < s0 ==> !StripStartsAt(d, j)
  {
    forall j | k <= j < s0
      ensures !StripStartsAt(d, j)
    {
      assert !OccursAt(d, CHECK_ID_OPEN, j);
    }
  }

  /** No match can start at or after `k`. */
  ghost predicate NoStripStartFrom(d: string, k: int) {
    forall j :: k <= j ==> !StripStartsAt(d, j)
  }

  /** A start `s0` with no start before it from `k` is the first one; no other position is. */
  lemma FirstStripStartIs(d: string, k: nat, s0: nat, s: nat)
    requires k <= s0 && StripStartsAt(d, s0) && forall j :: k <= j < s0 ==> !StripStartsAt(d, j)
    ensures FirstStripStart(d, k, s) <==> s == s0
  {
    if s > s0 {
      assert !FirstStripStart(d, k, s);
    }
  }

  /** Without a further opening, the scan reports nothing and no start is the first one. */
  lemma {:induction false} FirstStripStartAbsent(d: string, k: nat, s: nat)
    requires k <= |d|
    ensures IndexOfFrom(d, CHECK_ID_OPEN, k).None? ==> StripMatchFrom(d, k).None? && !FirstStripStart(d, k, s)
  {
    if IndexOfFrom(d, CHECK_ID_OPEN, k).None? && k <= s {
      assert !OccursAt(d, CHECK_ID_OPEN, s);
    }
  }

  /** When the first opening `s0` cannot start a match, the scan and the first start from `k` are those from `s0 + 1`. */
  lemma {:induction false} FirstStripStartSkip(d: string, k: nat, s: nat)
    requires k <= |d|
    ensures IndexOfFrom(d, CHECK_ID_OPEN, k).Some? && StripAt(d, IndexOfFrom(d, CHECK_ID_OPEN, k).value).None? ==>
      StripMatchFrom(d, k) == StripMatchFrom(d, IndexOfFrom(d, CHECK_ID_OPEN, k).value + 1) && (FirstStripStart(d, k, s) <==> FirstStripStart(d, IndexOfFrom(d, CHECK_ID_OPEN, k).value + 1, s))
  {
    var o := IndexOfFrom(d, CHECK_ID_OPEN, k);
    if o.Some? && StripAt(d, o.value).None? {
      var s0 := o.value;
      StripAtFound(d, s0);
      NoStripStartBefore(d, k, s0);
      assert !StripStartsAt(d, s0);
    }
  }

  /** When a match can start at the first opening `s0`, the scan reports it and it is the first start. */
  lemma {:induction false} FirstStripStartHit(d: string, k: nat, s: nat)
    requires k <= |d|
    ensures IndexOfFrom(d, CHECK_ID_OPEN, k).Some? && StripAt(d, IndexOfFrom(d, CHECK_ID_OPEN, k).value).Some? ==>
      StripMatchFrom(d, k) == Some((IndexOfFrom(d, CHECK_ID_OPEN, k).value, StripAt(d, IndexOfFrom(d, CHECK_ID_OPEN, k).value).value))
      && (FirstStripStart(d, k, s) <==> s == IndexOfFrom(d, CHECK_ID_OPEN, k).value)
  {
    var o := IndexOfFrom(d, CHECK_ID_OPEN, k);
    if o.Some? && StripAt(d, o.value).Some? {
      var s0 := o.value;
      StripAtFound(d, s0);
      NoStripStartBefore(d, k, s0);
      FirstStripStartIs(d, k, s0, s);
    }
  }

  /** A scan that finds something finds the leftmost start at or after `k`, and the end of the match there. */
  lemma {:induction false} StripMatchFromIsLeftmost(d: string, k: nat, s: nat, e: nat)
    requires k <= |d|
    ensures StripMatchFrom(d, k) == Some((s, e)) <==> FirstStripStart(d, k, s) && StripAt(d, s) == Some(e)
    decreases |d| - k
  {
    var o := IndexOfFrom(d, CHECK_ID_OPEN, k);
    if o.None? {
      FirstStripStartAbsent(d, k, s);
    } else if StripAt(d, o.value).None? {
      StripMatchFromIsLeftmost(d, o.value + 1, s, e);
      FirstStripStartSkip(d, k, s);
    } else {
      FirstStripStartHit(d, k, s);
    }
  }

  /** A position where a match can start, at or after `k`, has a first such position at or before it. */
  lemma {:induction false} FirstStripStartExists(d: string, k: nat, j: nat) returns (s: nat)
    requires k <= j && StripStartsAt(d, j)
    ensures s <= j && FirstStripStart(d, k, s)
    decreases j
  {
    if exists i :: k <= i < j && StripStartsAt(d, i) {
      var i :| k <= i < j && StripStartsAt(d, i);
      s := FirstStripStartExists(d, k, i);
    } else {
      s := j;
    }
  }

  /** The scan from `k` finds nothing exactly when no match starts at or after `k`. */
  lemma StripMatchFromNone(d: string, k: nat)
    requires k <= |d|
    ensures StripMatchFrom(d, k).None? <==> NoStripStartFrom(d, k)
  {
    if StripMatchFrom(d, k).Some? {
      var (s, e) := StripMatchFrom(d, k).value;
      StripMatchFromIsLeftmost(d, k, s, e);
      assert StripStartsAt(d, s);
    }
    if !NoStripStartFrom(d, k) {
      var j :| k <= j && StripStartsAt(d, j);
      var s := FirstStripStartExists(d, k, j);
      StripAtFound(d, s);
      StripMatchFromIsLeftmost(d, k, s, StripAt(d, s).value);
    }
  }

  /**
   * `replace` leaves a description without a match unchanged, and otherwise
   * cuts out exactly the leftmost match.
   */
  lemma StripCheckIdRemovesFirstMatch(d: string, s: nat, e: nat)
    ensures (forall j :: 0 <= j ==> !StripStartsAt(d, j)) ==> StripCheckId(d) == d
    ensures FirstStripStart(d, 0, s) && StripAt(d, s) == Some(e) ==> s <= e <= |d| && StripCheckId(d) == d[..s] + d[e..]
  {
    StripMatchFromNone(d, 0);
    StripMatchFromIsLeftmost(d, 0, s, e);
  }
}
