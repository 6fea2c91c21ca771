/**
 * The two regular expressions of `get_bv` have the shape `XY[class]+`:
 * two single characters, then a non-empty greedy run. `re.search` finds
 * the leftmost start, and the greedy run extends as far as it can.
 */
module Patterns {
  import opened Wrappers

  /** A pattern `XY[class]+`: two letters matched case-insensitively, then a non-empty run. */
  datatype Pattern = Pattern(first: char -> bool, second: char -> bool, run: char -> bool)

  /** A match of `pat` starts at position `p` of `s`. */
  predicate MatchesAt(s: string, pat: Pattern, p: nat)
  {
    p + 2 < |s| && pat.first(s[p]) && pat.second(s[p + 1]) && pat.run(s[p + 2])
  }

  /** The end of the longest run of `run` characters starting at `k` (the greedy `+`). */
  function RunEnd(s: string, k: nat, run: char -> bool): (e: nat)
    requires k <= |s|
    ensures k <= e <= |s|
    ensures forall j :: k <= j < e ==> run(s[j])
    ensures e == |s| || !run(s[e])
    decreases |s| - k
  {
    if k == |s| || !run(s[k]) then k else RunEnd(s, k + 1, run)
  }

  /** The leftmost position at or after `k` where a match of `pat` starts (`re.search`). */
  function SearchFrom(s: string, pat: Pattern, k: nat): (r: Option<nat>)
    requires k <= |s|
    ensures r.Some? ==> k <= r.value && MatchesAt(s, pat, r.value)
    ensures r.Some? ==> forall q :: k <= q < r.value ==> !MatchesAt(s, pat, q)
    ensures r.None? ==> forall q :: k <= q ==> !MatchesAt(s, pat, q)
    decreases |s| - k
  {
    if k == |s| then None
    else if MatchesAt(s, pat, k) then Some(k)
    else SearchFrom(s, pat, k + 1)
  }

  /** `match.group(0)` of a match starting at `p`. */
  function MatchText(s: string, pat: Pattern, p: nat): (m: string)
    requires MatchesAt(s, pat, p)
    ensures |m| >= 3 && m == s[p..RunEnd(s, p + 2, pat.run)]
  {
    s[p..RunEnd(s, p + 2, pat.run)]
  }

  /** A run that covers the whole suffix ends at the end of the string. */
  lemma RunEndAll(s: string, k: nat, run: char -> bool)
    requires k <= |s|
    requires forall j :: k <= j < |s| ==> run(s[j])
    ensures RunEnd(s, k, run) == |s|
  {
  }
}
