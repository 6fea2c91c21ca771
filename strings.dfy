/**
 * The handful of Python `str` operations the pipeline relies on:
 * `find`/`in`, `split`, `join`, `int(...)` and `str(...)` of an integer.
 */
module Strings {
  import opened Wrappers

  /** `pat` occurs in `s` starting at index `i`. */
  predicate OccursAt(s: string, pat: string, i: nat)
  {
    i + |pat| <= |s| && s[i..i + |pat|] == pat
  }

  /** `s.find(pat, k)`: the leftmost occurrence of `pat` at or after `k`, if any. */
  function IndexFrom(s: string, pat: string, k: nat): (r: Option<nat>)
    requires k <= |s|
    ensures r.Some? ==> k <= r.value && OccursAt(s, pat, r.value)
    decreases |s| - k
  {
    if k + |pat| > |s| then None
    else if s[k..k + |pat|] == pat then Some(k)
    else IndexFrom(s, pat, k + 1)
  }

  /** The occurrence found is the leftmost one at or after `k`; `None` means there is none. */
  lemma {:induction false} IndexFromLeftmost(s: string, pat: string, k: nat)
    requires k <= |s|
    ensures IndexFrom(s, pat, k).Some? ==> forall j :: k <= j < IndexFrom(s, pat, k).value ==> !OccursAt(s, pat, j)
    ensures IndexFrom(s, pat, k).None? ==> forall j :: k <= j ==> !OccursAt(s, pat, j)
    decreases |s| - k
  {
    if k + |pat| <= |s| && s[k..k + |pat|] != pat {
      IndexFromLeftmost(s, pat, k + 1);
    }
  }

  /** `pat in s`. */
  predicate Contains(s: string, pat: string)
  {
    IndexFrom(s, pat, 0).Some?
  }

  lemma ContainsIff(s: string, pat: string)
    ensures Contains(s, pat) <==> exists i :: OccursAt(s, pat, i)
  {
    IndexFromLeftmost(s, pat, 0);
    if Contains(s, pat) {
      assert OccursAt(s, pat, IndexFrom(s, pat, 0).value);
    }
  }

  /** `s.find(c)` for one character: its first position in `s`, if any. */
  function CharIndex(s: string, c: char): (r: Option<nat>)
    ensures r.Some? ==> r.value < |s| && s[r.value] == c
    ensures r.Some? ==> forall j :: 0 <= j < r.value ==> s[j] != c
    ensures r.None? ==> c !in s
  {
    CharIndexFrom(s, c, 0)
  }

  function CharIndexFrom(s: string, c: char, k: nat): (r: Option<nat>)
    requires k <= |s|
    ensures r.Some? ==> k <= r.value < |s| && s[r.value] == c
    ensures r.Some? ==> forall j :: k <= j < r.value ==> s[j] != c
    ensures r.None? ==> forall j :: k <= j < |s| ==> s[j] != c
    decreases |s| - k
  {
    if k == |s| then None else if s[k] == c then Some(k) else CharIndexFrom(s, c, k + 1)
  }

  /** Index of the first occurrence of `sep` at or after `k`, or `|s|` when there is none. */
  function EndOfPiece(s: string, sep: string, k: nat): (e: nat)
    requires k <= |s|
    ensures k <= e <= |s|
  {
    match IndexFrom(s, sep, k)
    case None => |s|
    case Some(i) => i
  }

  /**
   * `s[k..].split(sep)`: the pieces between the successive leftmost,
   * non-overlapping occurrences of `sep`.
   */
  function SplitFrom(s: string, sep: string, k: nat): (parts: seq<string>)
    requires |sep| > 0 && k <= |s|
    ensures |parts| >= 1
    ensures parts[0] == s[k..EndOfPiece(s, sep, k)]
    decreases |s| - k
  {
    match IndexFrom(s, sep, k)
    case None => [s[k..]]
    case Some(i) => [s[k..i]] + SplitFrom(s, sep, i + |sep|)
  }

  /** `s.split(sep)` for a non-empty separator (Python rejects an empty one). */
  function Split(s: string, sep: string): (parts: seq<string>)
    requires |sep| > 0
  {
    SplitFrom(s, sep, 0)
  }

  /** `sep.join(parts)`. */
  function Join(parts: seq<string>, sep: string): (r: string)
    ensures |parts| == 1 ==> r == parts[0]
  {
    if |parts| == 0 then ""
    else if |parts| == 1 then parts[0]
    else parts[0] + sep + Join(parts[1..], sep)
  }

  /** Joining the pieces of a split with the same separator gives back the string. */
  lemma {:induction false} JoinSplitFrom(s: string, sep: string, k: nat)
    requires |sep| > 0 && k <= |s|
    ensures Join(SplitFrom(s, sep, k), sep) == s[k..]
    decreases |s| - k
  {
    match IndexFrom(s, sep, k)
    case None =>
    case Some(i) =>
      JoinSplitFrom(s, sep, i + |sep|);
      JoinSplitStep(s, sep, k, i);
  }

  /** One piece and one separator in front of the rest. */
  lemma JoinSplitStep(s: string, sep: string, k: nat, i: nat)
    requires |sep| > 0 && k <= |s| && IndexFrom(s, sep, k) == Some(i)
    requires Join(SplitFrom(s, sep, i + |sep|), sep) == s[i + |sep|..]
    ensures Join(SplitFrom(s, sep, k), sep) == s[k..]
  {
    var j := i + |sep|;
    var rest := SplitFrom(s, sep, j);
    assert SplitFrom(s, sep, k) == [s[k..i]] + rest;
    JoinCons(s[k..i], rest, sep);
    assert sep == s[i..j];
    SliceConcat(s, k, i, j);
  }

  /** Joining a piece in front of at least one more. */
  lemma JoinCons(p: string, rest: seq<string>, sep: string)
    requires |rest| > 0
    ensures Join([p] + rest, sep) == p + sep + Join(rest, sep)
  {
    assert ([p] + rest)[1..] == rest;
  }

  lemma SliceConcat(s: string, a: nat, b: nat, c: nat)
    requires a <= b <= c <= |s|
    ensures s[a..b] + s[b..c] + s[c..] == s[a..]
  {
  }

  lemma JoinSplit(s: string, sep: string)
    requires |sep| > 0
    ensures Join(Split(s, sep), sep) == s
  {
    JoinSplitFrom(s, sep, 0);
  }

  /** A split yields more than one piece exactly when the separator occurs. */
  lemma SplitHasSecondPiece(s: string, sep: string)
    requires |sep| > 0
    ensures |Split(s, sep)| > 1 <==> Contains(s, sep)
  {
  }

  /**
   * The second piece of a split: the text after the first occurrence of `sep`
   * up to its next occurrence (or the end).
   */
  lemma SplitSecondPiece(s: string, sep: string, i: nat)
    requires |sep| > 0
    requires IndexFrom(s, sep, 0) == Some(i)
    ensures |Split(s, sep)| > 1
    ensures Split(s, sep)[1] == s[i + |sep|..EndOfPiece(s, sep, i + |sep|)]
  {
    assert Split(s, sep) == [s[..i]] + SplitFrom(s, sep, i + |sep|);
  }

  /** Searching for a one-character pattern is searching for the character. */
  lemma {:induction false} IndexFromChar(s: string, c: char, k: nat)
    requires k <= |s|
    ensures IndexFrom(s, [c], k) == CharIndexFrom(s, c, k)
    decreases |s| - k
  {
    if k < |s| {
      assert s[k..k + 1] == [s[k]];
      IndexFromChar(s, c, k + 1);
    }
  }

  /**
   * `s.split(sep)[1].split(c)[0]`: the text right after the first `sep`, up
   * to the first `c`, the next `sep` or the end, whichever comes first:
   * neither a `c` nor the start of a `sep` lies inside it.
   */
  lemma FieldAfter(s: string, sep: string, c: char, i: nat) returns (e: nat)
    requires |sep| > 0 && IndexFrom(s, sep, 0) == Some(i)
    ensures |Split(s, sep)| > 1
    ensures i + |sep| <= e <= |s| && Split(Split(s, sep)[1], [c])[0] == s[i + |sep|..e]
    ensures forall k :: i + |sep| <= k < e ==> s[k] != c
    ensures forall k :: i + |sep| <= k < e ==> !OccursAt(s, sep, k)
    ensures e == |s| || s[e] == c || OccursAt(s, sep, e)
  {
    var j := i + |sep|;
    SplitSecondPiece(s, sep, i);
    var stop := EndOfPiece(s, sep, j);
    var piece := Split(s, sep)[1];
    assert piece == s[j..stop];
    var q := FirstPieceAtChar(piece, c);
    e := j + q;
    PrefixOfSlice(s, j, stop, q, c);
    StopAtMarkOrEnd(s, sep, j, e, c);
    IndexFromLeftmost(s, sep, j);
  }

  /** Where the field ends: at the character, or where the piece ends (the next `sep`, or the end). */
  lemma StopAtMarkOrEnd(s: string, sep: string, j: nat, e: nat, c: char)
    requires j <= |s| && j <= e <= EndOfPiece(s, sep, j) <= |s|
    requires e == EndOfPiece(s, sep, j) || s[e] == c
    ensures e == |s| || s[e] == c || OccursAt(s, sep, e)
  {
    EndOfPieceAt(s, sep, j);
  }

  /** Transfers facts about a prefix of the slice `s[a..b]` to `s` itself. */
  lemma PrefixOfSlice(s: string, a: nat, b: nat, q: nat, c: char)
    requires a + q <= b <= |s|
    requires forall k :: 0 <= k < q ==> s[a..b][k] != c
    requires q == b - a || s[a..b][q] == c
    ensures s[a..b][..q] == s[a..a + q]
    ensures forall k :: a <= k < a + q ==> s[k] != c
    ensures a + q == b || s[a + q] == c
  {
    forall k | a <= k < a + q ensures s[k] != c {
      assert s[a..b][k - a] == s[k];
    }
  }

  lemma EndOfPieceAt(s: string, sep: string, k: nat)
    requires k <= |s|
    ensures EndOfPiece(s, sep, k) == |s| || OccursAt(s, sep, EndOfPiece(s, sep, k))
  {
  }

  /** The first piece of a split at a character does not hold that character. */
  lemma FirstPieceHasNoChar(s: string, c: char)
    ensures c !in Split(s, [c])[0]
  {
    var q := FirstPieceAtChar(s, c);
  }

  /** The first piece of a split at a character: everything before its first occurrence. */
  lemma FirstPieceAtChar(s: string, c: char) returns (q: nat)
    ensures q <= |s| && Split(s, [c])[0] == s[..q]
    ensures forall k :: 0 <= k < q ==> s[k] != c
    ensures q == |s| || s[q] == c
  {
    IndexFromChar(s, c, 0);
    q := if CharIndex(s, c).Some? then CharIndex(s, c).value else |s|;
  }

  // ---------------------------------------------------------------------------
  // Decimal integers: Python's int(text) and str(n)

  predicate IsDigit(c: char)
  {
    '0' <= c <= '9'
  }

  predicate AllDigits(s: string)
  {
    forall i :: 0 <= i < |s| ==> IsDigit(s[i])
  }

  function DigitValue(c: char): (d: nat)
    requires IsDigit(c)
    ensures d < 10
  {
    (c as int) - ('0' as int)
  }

  function DigitChar(d: nat): (c: char)
    requires d < 10
    ensures IsDigit(c) && DigitValue(c) == d
  {
    ('0' as int + d) as char
  }

  /** The value of a string of decimal digits, most significant first. */
  function DigitsValue(s: string): nat
    requires AllDigits(s)
  {
    if |s| == 0 then 0 else 10 * DigitsValue(s[..|s| - 1]) + DigitValue(s[|s| - 1])
  }

  /** The text is an optional sign followed by one or more decimal digits. */
  predicate IsDecimal(s: string)
  {
    if |s| > 0 && (s[0] == '-' || s[0] == '+') then |s| > 1 && AllDigits(s[1..])
    else |s| > 0 && AllDigits(s)
  }

  /**
   * `int(s)`, with the `ValueError` of a malformed text as `None`.
   * Python also strips surrounding whitespace, allows single underscores
   * between digits and accepts non-ASCII decimal digits; that leniency is
   * not modelled.
   */
  function ParseInt(s: string): (r: Option<int>)
    ensures r.Some? <==> IsDecimal(s)
    ensures r.Some? && s[0] == '-' ==> r.value == -(DigitsValue(s[1..]) as int)
    ensures r.Some? && s[0] == '+' ==> r.value == DigitsValue(s[1..])
    ensures r.Some? && IsDigit(s[0]) ==> r.value == DigitsValue(s)
  {
    if |s| > 0 && (s[0] == '-' || s[0] == '+') then
      if |s| > 1 && AllDigits(s[1..]) then
        Some(if s[0] == '-' then -(DigitsValue(s[1..]) as int) else DigitsValue(s[1..]))
      else None
    else if |s| > 0 && AllDigits(s) then Some(DigitsValue(s))
    else None
  }

  /** `str(n)` for a natural number: its decimal digits without leading zeros. */
  function NatToString(n: nat): (r: string)
    ensures |r| > 0 && AllDigits(r)
    ensures DigitsValue(r) == n
    ensures r[0] == '0' ==> n == 0
  {
    if n < 10 then [DigitChar(n)]
    else
      var r := NatToString(n / 10) + [DigitChar(n % 10)];
      assert r[..|r| - 1] == NatToString(n / 10);
      r
  }

  /** `str(n)` for an integer. */
  function IntToString(n: int): (r: string)
    ensures |r| > 0
    ensures n < 0 <==> r[0] == '-'
  {
    if n < 0 then "-" + NatToString(-n) else NatToString(n)
  }

  /** `int(str(n)) == n`. */
  lemma ParseIntToString(n: int)
    ensures ParseInt(IntToString(n)) == Some(n)
  {
    var r := IntToString(n);
    if n < 0 {
      assert r[1..] == NatToString(-n);
    }
  }

  /** Every character of `str(n)` is a digit, except a leading minus sign. */
  lemma IntToStringAlphabet(n: int, i: nat)
    requires i < |IntToString(n)|
    ensures IsDigit(IntToString(n)[i]) || (i == 0 && IntToString(n)[i] == '-')
  {
    if n < 0 && i > 0 {
      assert IntToString(n)[i] == NatToString(-n)[i - 1];
    }
  }
}
