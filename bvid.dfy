/**
 * Conversion between Bilibili's legacy numeric video ids ("av" ids) and
 * its canonical "BV" ids (utils/bvid.py), and the normaliser that extracts
 * the id a Bilibili lookup needs from free-form text.
 */
module Bvid {
  import opened Wrappers
  import opened Strings
  import opened Patterns
  import opened Arith

  /**
   * The 58-character alphabet `table`. It is written as six literal pieces
   * only so that the verifier can index it; the value is the one string.
   */
  const Table: string := "fZodR9XQDS" + "Um21yCkr6z" + "BqiveYah8b" + "t4xsWpHnJE" + "7jL5VG3guM" + "TKNPAwcF"

  /** `s`: the template positions of the six base-58 digits, least significant first. */
  const Positions: seq<nat> := [11, 10, 3, 8, 4, 6]

  const XorMask: nat := 177451812
  const Offset: nat := 8728348608

  /** The twelve-character frame that `av_to_bv` fills in. */
  const Template: string := "BV1  4 1 7  "

  // ---------------------------------------------------------------------------
  // The alphabet and its inverse `tr`

  /** The position of `c` in the alphabet, written out case by case; a proof device only. */
  ghost function Rank(c: char): nat
  {
    if c == 'f' then 0 else if c == 'Z' then 1 else if c == 'o' then 2 else if c == 'd' then 3
    else if c == 'R' then 4 else if c == '9' then 5 else if c == 'X' then 6 else if c == 'Q' then 7
    else if c == 'D' then 8 else if c == 'S' then 9 else if c == 'U' then 10 else if c == 'm' then 11
    else if c == '2' then 12 else if c == '1' then 13 else if c == 'y' then 14 else if c == 'C' then 15
    else if c == 'k' then 16 else if c == 'r' then 17 else if c == '6' then 18 else if c == 'z' then 19
    else if c == 'B' then 20 else if c == 'q' then 21 else if c == 'i' then 22 else if c == 'v' then 23
    else if c == 'e' then 24 else if c == 'Y' then 25 else if c == 'a' then 26 else if c == 'h' then 27
    else if c == '8' then 28 else if c == 'b' then 29 else if c == 't' then 30 else if c == '4' then 31
    else if c == 'x' then 32 else if c == 's' then 33 else if c == 'W' then 34 else if c == 'p' then 35
    else if c == 'H' then 36 else if c == 'n' then 37 else if c == 'J' then 38 else if c == 'E' then 39
    else if c == '7' then 40 else if c == 'j' then 41 else if c == 'L' then 42 else if c == '5' then 43
    else if c == 'V' then 44 else if c == 'G' then 45 else if c == '3' then 46 else if c == 'g' then 47
    else if c == 'u' then 48 else if c == 'M' then 49 else if c == 'T' then 50 else if c == 'K' then 51
    else if c == 'N' then 52 else if c == 'P' then 53 else if c == 'A' then 54 else if c == 'w' then 55
    else if c == 'c' then 56 else if c == 'F' then 57
    else 58
  }

  lemma RankBlock0() ensures forall i :: 0 <= i < 10 ==> Rank(Table[i]) == i {}
  lemma RankBlock1() ensures forall i :: 10 <= i < 20 ==> Rank(Table[i]) == i {}
  lemma RankBlock2() ensures forall i :: 20 <= i < 30 ==> Rank(Table[i]) == i {}
  lemma RankBlock3() ensures forall i :: 30 <= i < 40 ==> Rank(Table[i]) == i {}
  lemma RankBlock4() ensures forall i :: 40 <= i < 50 ==> Rank(Table[i]) == i {}
  lemma RankBlock5() ensures forall i :: 50 <= i < 58 ==> Rank(Table[i]) == i {}

  /** The alphabet has 58 pairwise distinct characters. */
  lemma TableDistinct()
    ensures |Table| == 58
    ensures forall i, j :: 0 <= i < j < |Table| ==> Table[i] != Table[j]
  {
    RankBlock0(); RankBlock1(); RankBlock2(); RankBlock3(); RankBlock4(); RankBlock5();
    forall i, j | 0 <= i < j < |Table| ensures Table[i] != Table[j] {
      assert Rank(Table[i]) == i && Rank(Table[j]) == j;
    }
  }

  /** Every alphabet character is an ASCII letter or digit. */
  lemma TableAlnum()
    ensures forall i :: 0 <= i < |Table| ==> IsAsciiAlnum(Table[i])
  {
  }

  predicate IsAsciiAlnum(c: char)
  {
    '0' <= c <= '9' || 'a' <= c <= 'z' || 'A' <= c <= 'Z'
  }

  /** `tr.get(c)`: the index of `c` in the alphabet, if it is there. */
  function TableIndex(c: char): (r: Option<nat>)
    ensures r.Some? ==> r.value < |Table| && Table[r.value] == c
    ensures r.None? ==> c !in Table
  {
    CharIndex(Table, c)
  }

  /** `tr[table[i]] == i`: the lookup inverts the alphabet. */
  lemma TableIndexAt(i: nat)
    requires i < |Table|
    ensures TableIndex(Table[i]) == Some(i)
  {
    TableDistinct();
    var r := CharIndex(Table, Table[i]);
    assert r.Some? by {
      assert Table[i] in Table;
    }
    assert r.value <= i;
  }

  /** The dictionary `tr` as the module builds it: exactly the alphabet, each character mapped to its index. */
  predicate IsTr(tr: map<char, nat>)
  {
    forall c :: (c in tr <==> TableIndex(c).Some?) && (c in tr ==> tr[c] == TableIndex(c).value)
  }

  /** The module-level loop `for index in range(58): tr[table[index]] = index`. */
  method BuildTr() returns (tr: map<char, nat>)
    ensures forall c :: c in tr <==> c in Table
    ensures forall i :: 0 <= i < |Table| ==> Table[i] in tr && tr[Table[i]] == i
    ensures IsTr(tr)
  {
    TableDistinct();
    tr := map[];
    for index := 0 to 58
      invariant forall c :: c in tr <==> c in Table[..index]
      invariant forall i :: 0 <= i < index ==> Table[i] in tr && tr[Table[i]] == i
    {
      tr := tr[Table[index] := index];
    }
    assert Table[..58] == Table;
    forall c | c in tr ensures TableIndex(c) == Some(tr[c]) {
      var i :| 0 <= i < |Table| && Table[i] == c;
      TableIndexAt(i);
    }
  }

  // ---------------------------------------------------------------------------
  // Python's XOR on integers

  /** Bitwise exclusive or of two naturals. */
  function XorNat(a: nat, b: nat): nat
    decreases a + b
  {
    if a == 0 && b == 0 then 0 else 2 * XorNat(a / 2, b / 2) + (a % 2 + b % 2) % 2
  }

  lemma XorNatUnfold(a: nat, b: nat)
    ensures XorNat(a, b) == 2 * XorNat(a / 2, b / 2) + (a % 2 + b % 2) % 2
  {
  }

  lemma {:induction false} XorNatInvolution(a: nat, b: nat)
    ensures XorNat(XorNat(a, b), b) == a
    decreases a + b
  {
    if a == 0 && b == 0 {
    } else {
      var h, bit := XorNat(a / 2, b / 2), (a % 2 + b % 2) % 2;
      var c := XorNat(a, b);
      XorNatUnfold(a, b);
      assert c == 2 * h + bit;
      Halve(h, bit);
      XorNatUnfold(c, b);
      XorNatInvolution(a / 2, b / 2);
      assert XorNat(c, b) == 2 * XorNat(h, b / 2) + (bit + b % 2) % 2;
      assert (bit + b % 2) % 2 == a % 2;
    }
  }

  lemma Halve(h: nat, bit: nat)
    requires bit < 2
    ensures (2 * h + bit) / 2 == h && (2 * h + bit) % 2 == bit
  {
  }

  /** `a ^ b` on Python integers (two's complement of unbounded width) for a non-negative `b`. */
  function XorInt(a: int, b: nat): (r: int)
    ensures r < 0 <==> a < 0
  {
    if a >= 0 then XorNat(a, b) else -(XorNat(-a - 1, b) as int) - 1
  }

  lemma XorIntInvolution(a: int, b: nat)
    ensures XorInt(XorInt(a, b), b) == a
  {
    if a >= 0 {
      XorNatInvolution(a, b);
    } else {
      XorNatInvolution(-a - 1, b);
    }
  }

  // ---------------------------------------------------------------------------
  // av -> BV

  /** `58 ** i`. */
  function Pow58(i: nat): (p: nat)
    ensures p >= 1
  {
    if i == 0 then 1 else 58 * Pow58(i - 1)
  }

  /** `x // 58 ** i % 58`: the i-th base-58 digit (Python's floor division agrees with Dafny's here). */
  function Digit(x: int, i: nat): (d: nat)
    ensures d < 58
  {
    (x / Pow58(i)) % 58
  }

  /** The value `av_to_bv` spreads over the template: `(n ^ xor) + add`. */
  function Transform(n: int): int
  {
    XorInt(n, XorMask) + Offset
  }

  /** The list `r` of `av_to_bv` after the first `k` rounds of its loop. */
  function Placed(x: int, k: nat): (r: string)
    requires k <= 6
    ensures |r| == 12
  {
    if k == 0 then Template else Placed(x, k - 1)[Positions[k - 1] := Table[Digit(x, k - 1)]]
  }

  /** The BV id whose digits encode the transformed value `x`. */
  function BvOf(x: int): string
  {
    Placed(x, 6)
  }

  /** `av[2:]`. */
  function AvDigits(av: string): string
  {
    if |av| >= 2 then av[2..] else ""
  }

  /** `av_to_bv(av)`; `None` where `int(av[2:])` raises. */
  function Encode(av: string): (r: Option<string>)
    ensures r.Some? <==> IsDecimal(AvDigits(av))
  {
    match ParseInt(AvDigits(av))
    case None => None
    case Some(n) => Some(BvOf(Transform(n)))
  }

  /** `av_to_bv` as written: fill a copy of the template position by position. */
  method AvToBv(av: string) returns (bv: Option<string>)
    ensures bv == Encode(av)
  {
    var parsed := ParseInt(AvDigits(av));
    if parsed.None? {
      return None;
    }
    var x := XorInt(parsed.value, XorMask) + Offset;
    var r := new char[12](i requires 0 <= i < 12 => Template[i]);
    assert r[..] == Template;
    for i := 0 to 6
      invariant r[..] == Placed(x, i)
    {
      r[Positions[i]] := Table[Digit(x, i)];
    }
    return Some(r[..]);
  }

  /** Where the first `k` placements have written, and what is left of the template. */
  lemma {:induction false} PlacedAt(x: int, k: nat)
    requires k <= 6
    ensures forall i :: 0 <= i < k ==> Placed(x, k)[Positions[i]] == Table[Digit(x, i)]
    ensures forall p :: 0 <= p < 12 && p !in Positions[..k] ==> Placed(x, k)[p] == Template[p]
  {
    if k > 0 {
      PlacedAt(x, k - 1);
      assert Positions[..k] == Positions[..k - 1] + [Positions[k - 1]];
    }
  }

  /**
   * The shape of every BV id `av_to_bv` produces: twelve characters,
   * "BV1" in front, '4', '1', '7' at positions 5, 7, 9, and digit i of the
   * transformed value at position `s[i]`.
   */
  lemma BvOfShape(x: int)
    ensures |BvOf(x)| == 12 && BvOf(x)[..3] == "BV1"
    ensures BvOf(x)[5] == '4' && BvOf(x)[7] == '1' && BvOf(x)[9] == '7'
    ensures forall i :: 0 <= i < 6 ==> BvOf(x)[Positions[i]] == Table[Digit(x, i)]
  {
    var b := BvOf(x);
    PlacedAt(x, 6);
    assert Positions[..6] == Positions;
    assert b[0] == 'B' && b[1] == 'V' && b[2] == '1' by {
      assert 0 !in Positions && 1 !in Positions && 2 !in Positions;
    }
    assert b[5] == '4' && b[7] == '1' && b[9] == '7' by {
      assert 5 !in Positions && 7 !in Positions && 9 !in Positions;
    }
    assert b[..3] == [b[0], b[1], b[2]];
  }

  // ---------------------------------------------------------------------------
  // BV -> av

  /**
   * `r` of `bv_to_av` after `k` rounds, reading digits through `digit`:
   * the sum of `digit(bv[s[i]]) * 58 ** i` for i < k, or `None` once a
   * position is missing or holds a character without a digit.
   */
  function Rounds(digit: char -> Option<nat>, bv: string, k: nat): Option<int>
    requires k <= 6
  {
    if k == 0 then Some(0)
    else
      match Rounds(digit, bv, k - 1)
      case None => None
      case Some(r) =>
        if Positions[k - 1] < |bv| && digit(bv[Positions[k - 1]]).Some?
        then Some(r + digit(bv[Positions[k - 1]]).value * Pow58(k - 1))
        else None
  }

  /** The digit of a character, looked up in a dictionary. */
  function Lookup(tr: map<char, nat>): char -> Option<nat>
  {
    c => if c in tr then Some(tr[c]) else None
  }

  /** The six digit positions exist and hold alphabet characters (otherwise `bv_to_av` raises). */
  predicate Decodable(bv: string)
  {
    Rounds(TableIndex, bv, 6).Some?
  }

  /** The end of `bv_to_av`: the accumulated sum, back through the transform, as an av id. */
  function AvOfSum(sum: Option<int>): (r: Option<string>)
    ensures r.Some? <==> sum.Some?
    ensures r.Some? ==> |r.value| >= 2 && r.value[..2] == "av"
  {
    match sum
    case None => None
    case Some(x) => Some("av" + IntToString(XorInt(x - Offset, XorMask)))
  }

  /** `bv_to_av(bv)` reading digits through `digit`; `None` where it raises. */
  function DecodeWith(digit: char -> Option<nat>, bv: string): (r: Option<string>)
  {
    AvOfSum(Rounds(digit, bv, 6))
  }

  /** `bv_to_av(bv)` with the module's `tr`; `None` where it raises. */
  function Decode(bv: string): (r: Option<string>)
    ensures r.Some? <==> Decodable(bv)
    ensures r.Some? ==> |r.value| >= 2 && r.value[..2] == "av"
  {
    DecodeWith(TableIndex, bv)
  }

  /** Reading through the dictionary `tr` built from the alphabet is reading through `TableIndex`. */
  lemma RoundsOfTr(tr: map<char, nat>, bv: string, k: nat)
    requires IsTr(tr) && k <= 6
    ensures Rounds(Lookup(tr), bv, k) == Rounds(TableIndex, bv, k)
  {
    forall c ensures Lookup(tr)(c) == TableIndex(c) {
    }
    RoundsAgree(Lookup(tr), TableIndex, bv, k);
  }

  /** Two digit readings that agree on every character give the same rounds. */
  lemma {:induction false} RoundsAgree(d: char -> Option<nat>, d': char -> Option<nat>, bv: string, k: nat)
    requires k <= 6 && forall c :: d(c) == d'(c)
    ensures Rounds(d, bv, k) == Rounds(d', bv, k)
  {
    if k > 0 {
      RoundsAgree(d, d', bv, k - 1);
    }
  }

  /** Once a round fails, every later one does. */
  lemma {:induction false} RoundsStayNone(digit: char -> Option<nat>, bv: string, i: nat, k: nat)
    requires i <= k <= 6 && Rounds(digit, bv, i).None?
    ensures Rounds(digit, bv, k).None?
    decreases k - i
  {
    if i < k {
      RoundsStayNone(digit, bv, i + 1, k);
    }
  }

  /** A BV id decodes exactly when it has twelve characters and alphabet characters at the six digit positions. */
  lemma DecodableIff(bv: string)
    ensures Decodable(bv) <==> |bv| >= 12 && forall i :: 0 <= i < 6 ==> bv[Positions[i]] in Table
  {
    if |bv| >= 12 {
      RoundsAllSome(TableIndex, bv, 6);
      forall i | 0 <= i < 6
        ensures TableIndex(bv[Positions[i]]).Some? <==> bv[Positions[i]] in Table
      {
      }
    } else {
      assert Rounds(TableIndex, bv, 1).None?;
      RoundsStayNone(TableIndex, bv, 1, 6);
    }
  }

  /** All rounds succeed exactly when every digit position holds a character with a digit. */
  lemma {:induction false} RoundsAllSome(digit: char -> Option<nat>, bv: string, k: nat)
    requires |bv| >= 12 && k <= 6
    ensures Rounds(digit, bv, k).Some? <==> forall i :: 0 <= i < k ==> digit(bv[Positions[i]]).Some?
  {
    if k > 0 {
      RoundsAllSome(digit, bv, k - 1);
      if Rounds(digit, bv, k - 1).None? {
        RoundsStayNone(digit, bv, k - 1, k);
      }
    }
  }

  /** `bv_to_av` as written: accumulate the digits, reading `tr`. */
  method BvToAv(tr: map<char, nat>, bv: string) returns (av: Option<string>)
    ensures av == DecodeWith(Lookup(tr), bv)
  {
    var r := 0;
    for i := 0 to 6
      invariant Rounds(Lookup(tr), bv, i) == Some(r)
    {
      if Positions[i] >= |bv| || bv[Positions[i]] !in tr {
        RoundsStayNone(Lookup(tr), bv, i + 1, 6);
        return None;
      }
      r := r + tr[bv[Positions[i]]] * Pow58(i);
    }
    return Some("av" + IntToString(XorInt(r - Offset, XorMask)));
  }

  /** With the `tr` the module builds, `bv_to_av` decodes as `Decode` says. */
  lemma BvToAvWithTr(tr: map<char, nat>, bv: string)
    requires IsTr(tr)
    ensures DecodeWith(Lookup(tr), bv) == Decode(bv)
  {
    RoundsOfTr(tr, bv, 6);
  }

  // ---------------------------------------------------------------------------
  // Round trip

  /** `x % (a * b) == x % a + (x / a % b) * a` for positive `a`, `b`. */
  lemma ModSplit(x: int, a: nat, b: nat)
    requires a > 0 && b > 0
    ensures x % (a * b) == x % a + ((x / a) % b) * a
  {
    var q, r := x / a, x % a;
    var q1, q0 := q / b, q % b;
    assert x == q * a + r;
    assert q == q1 * b + q0;
    MulRegroup(q1, b, q0, a);
    MulBelow(q0, b, a);
    DivModUnique(x, a * b, q1, q0 * a + r);
  }

  /** The digits that `av_to_bv` places add back up to `x mod 58 ** k`. */
  lemma {:induction false} RoundsOfBvOf(x: int, k: nat)
    requires k <= 6
    ensures forall i :: 0 <= i < 6 ==> TableIndex(BvOf(x)[Positions[i]]) == Some(Digit(x, i))
    ensures Rounds(TableIndex, BvOf(x), k) == Some(x % Pow58(k))
  {
    BvOfShape(x);
    forall i | 0 <= i < 6 ensures TableIndex(BvOf(x)[Positions[i]]) == Some(Digit(x, i)) {
      TableIndexAt(Digit(x, i));
    }
    if k > 0 {
      RoundsOfBvOf(x, k - 1);
      ModSplit(x, Pow58(k - 1), 58);
      assert Pow58(k) == Pow58(k - 1) * 58;
    }
  }

  /**
   * `bv_to_av(av_to_bv("av" + str(n))) == "av" + str(n)` whenever the
   * transformed value fits in six base-58 digits.
   */
  lemma RoundTrip(n: int)
    requires 0 <= Transform(n) < Pow58(6)
    ensures Encode("av" + IntToString(n)) == Some(BvOf(Transform(n)))
    ensures Decode(BvOf(Transform(n))) == Some("av" + IntToString(n))
  {
    EncodeOfRendering(n);
    var x := Transform(n);
    XorIntInvolution(n, XorMask);
    assert XorInt(x - Offset, XorMask) == n;
    DecodeOfBvOf(x);
  }

  lemma EncodeOfRendering(n: int)
    ensures Encode("av" + IntToString(n)) == Some(BvOf(Transform(n)))
  {
    assert AvDigits("av" + IntToString(n)) == IntToString(n);
    ParseIntToString(n);
  }

  lemma DecodeOfBvOf(x: int)
    requires 0 <= x < Pow58(6)
    ensures Decode(BvOf(x)) == Some("av" + IntToString(XorInt(x - Offset, XorMask)))
  {
    var m := Pow58(6);
    RoundsOfBvOf(x, 6);
    DivModUnique(x, m, 0, x);
    var sum := Rounds(TableIndex, BvOf(x), 6);
    assert sum == Some(x);
    AvOfSumSome(x);
  }

  lemma AvOfSumSome(x: int)
    ensures AvOfSum(Some(x)) == Some("av" + IntToString(XorInt(x - Offset, XorMask)))
  {
  }

  // ---------------------------------------------------------------------------
  // The other direction: BV -> av -> BV

  /** After k rounds the accumulated sum is a k-digit base-58 number. */
  lemma {:induction false} RoundsRange(digit: char -> Option<nat>, bv: string, k: nat)
    requires k <= 6 && Rounds(digit, bv, k).Some?
    requires forall c :: digit(c).Some? ==> digit(c).value < 58
    ensures 0 <= Rounds(digit, bv, k).value < Pow58(k)
  {
    if k > 0 {
      RoundsRange(digit, bv, k - 1);
      var d := digit(bv[Positions[k - 1]]).value;
      assert d * Pow58(k - 1) <= 57 * Pow58(k - 1);
    }
  }

  /** Base-58 digits are unique: two ids with the same sum hold the same digits. */
  lemma {:induction false} RoundsInjective(digit: char -> Option<nat>, a: string, b: string, k: nat)
    requires k <= 6 && |a| >= 12 && |b| >= 12
    requires Rounds(digit, a, k).Some? && Rounds(digit, b, k) == Rounds(digit, a, k)
    requires forall c :: digit(c).Some? ==> digit(c).value < 58
    ensures forall i :: 0 <= i < k ==> digit(a[Positions[i]]) == digit(b[Positions[i]])
  {
    if k > 0 {
      var m := Pow58(k - 1);
      var ra, rb := Rounds(digit, a, k - 1).value, Rounds(digit, b, k - 1).value;
      var da, db := digit(a[Positions[k - 1]]).value, digit(b[Positions[k - 1]]).value;
      RoundsRange(digit, a, k - 1);
      RoundsRange(digit, b, k - 1);
      var x := Rounds(digit, a, k).value;
      assert x == da * m + ra by {
        assert x == ra + da * Pow58(k - 1);
      }
      DivModUnique(x, m, da, ra);
      DivModUnique(x, m, db, rb);
      MulCancel(da, db, m);
      RoundsInjective(digit, a, b, k - 1);
    }
  }

  /** The fixed characters of the template: twelve long, "BV1" in front, '4', '1', '7' at 5, 7, 9. */
  predicate Framed(bv: string)
  {
    |bv| == 12 && bv[..3] == "BV1" && bv[5] == '4' && bv[7] == '1' && bv[9] == '7'
  }

  /** The ids `av_to_bv` can produce: the template with alphabet characters at the six digit positions. */
  predicate OnTemplate(bv: string)
  {
    Framed(bv) && forall i :: 0 <= i < 6 ==> bv[Positions[i]] in Table
  }

  /** Two framed ids that agree at the six digit positions are equal. */
  lemma FramedEqual(a: string, b: string)
    requires Framed(a) && Framed(b)
    requires forall i :: 0 <= i < 6 ==> a[Positions[i]] == b[Positions[i]]
    ensures a == b
  {
    forall p | 0 <= p < 12 ensures a[p] == b[p] {
      if p < 3 {
        assert a[p] == a[..3][p] && b[p] == b[..3][p];
      } else if p !in [5, 7, 9] {
        assert p in Positions;
      }
    }
  }

  /** A decodable id re-encodes to the id of its digit sum. */
  lemma DecodeThenEncodeSum(bv: string)
    requires Decodable(bv)
    ensures Rounds(TableIndex, bv, 6).Some?
    ensures Encode(Decode(bv).value) == Some(BvOf(Rounds(TableIndex, bv, 6).value))
  {
    ReencodeWith(TableIndex, bv);
  }

  /** The same, for any reading of the digits. */
  lemma ReencodeWith(digit: char -> Option<nat>, bv: string)
    requires Rounds(digit, bv, 6).Some?
    ensures DecodeWith(digit, bv).Some?
    ensures Encode(DecodeWith(digit, bv).value) == Some(BvOf(Rounds(digit, bv, 6).value))
  {
    var sum := Rounds(digit, bv, 6).value;
    var n := XorInt(sum - Offset, XorMask);
    AvOfSumSome(sum);
    EncodeOfRendering(n);
    TransformUndoes(sum);
  }

  /** The transform of `av_to_bv` undoes the final step of `bv_to_av`. */
  lemma TransformUndoes(x: int)
    ensures Transform(XorInt(x - Offset, XorMask)) == x
  {
    XorIntInvolution(x - Offset, XorMask);
  }

  /** Distinct characters have distinct alphabet indices, and every index is below 58. */
  lemma TableIndexFacts()
    ensures forall c :: TableIndex(c).Some? ==> TableIndex(c).value < 58
    ensures forall c, c' :: TableIndex(c).Some? && TableIndex(c) == TableIndex(c') ==> c == c'
  {
    assert |Table| == 58;
  }

  /** Two ids whose six digits sum alike hold the same characters at the digit positions. */
  lemma SameSumSameChars(digit: char -> Option<nat>, a: string, b: string)
    requires |a| >= 12 && |b| >= 12
    requires Rounds(digit, a, 6).Some? && Rounds(digit, b, 6) == Rounds(digit, a, 6)
    requires forall c :: digit(c).Some? ==> digit(c).value < 58
    requires forall c, c' :: digit(c).Some? && digit(c) == digit(c') ==> c == c'
    ensures forall i :: 0 <= i < 6 ==> a[Positions[i]] == b[Positions[i]]
  {
    RoundsInjective(digit, a, b, 6);
    RoundsAllSome(digit, a, 6);
  }

  /** The id of a decodable id's digit sum holds the same characters at the digit positions. */
  lemma BvOfSumDigits(bv: string)
    requires Decodable(bv) && |bv| >= 12
    ensures Rounds(TableIndex, bv, 6).Some?
    ensures forall i :: 0 <= i < 6 ==> BvOf(Rounds(TableIndex, bv, 6).value)[Positions[i]] == bv[Positions[i]]
  {
    var sum := Rounds(TableIndex, bv, 6).value;
    RoundsRange(TableIndex, bv, 6);
    RoundsOfBvOf(sum, 6);
    DivModUnique(sum, Pow58(6), 0, sum);
    TableIndexFacts();
    SameSumSameChars(TableIndex, bv, BvOf(sum));
  }

  /** `av_to_bv(bv_to_av(bv)) == bv` for every id on the template: the conversion is a bijection there. */
  lemma DecodeThenEncode(bv: string)
    requires OnTemplate(bv)
    ensures Decode(bv).Some? && Encode(Decode(bv).value) == Some(bv)
  {
    DecodableIff(bv);
    DecodeThenEncodeSum(bv);
    BvOfSumDigits(bv);
    var sum := Rounds(TableIndex, bv, 6).value;
    BvOfShape(sum);
    FramedEqual(BvOf(sum), bv);
  }

  /**
   * An id off the template that still decodes (say a third character other
   * than '1', or a thirteenth character) re-encodes to a different id.
   */
  lemma DecodeThenEncodeOffTemplate(bv: string)
    requires Decodable(bv) && !OnTemplate(bv)
    ensures Decode(bv).Some? && Encode(Decode(bv).value) != Some(bv)
  {
    DecodeThenEncodeSum(bv);
    BvOfOnTemplate(Rounds(TableIndex, bv, 6).value);
  }

  /** Every id `av_to_bv` produces is on the template. */
  lemma BvOfOnTemplate(x: int)
    ensures OnTemplate(BvOf(x))
  {
    BvOfShape(x);
    forall i | 0 <= i < 6 ensures BvOf(x)[Positions[i]] in Table {
      assert BvOf(x)[Positions[i]] == Table[Digit(x, i)];
    }
  }

  // ---------------------------------------------------------------------------
  // get_bv: the regular-expression searches, as leftmost-longest matchers

  /**
   * `[0-9a-zA-Z]` under `re.IGNORECASE`: Python's case-insensitive letter
   * ranges also match U+0130, U+0131, U+017F and U+212A besides ASCII.
   */
  predicate IsIdChar(c: char)
  {
    IsAsciiAlnum(c) || c == '\U{0130}' || c == '\U{0131}' || c == '\U{017F}' || c == '\U{212A}'
  }

  /** `BV[0-9a-zA-Z]+` with `re.IGNORECASE`. */
  const BvPattern: Pattern := Pattern(c => c == 'B' || c == 'b', c => c == 'V' || c == 'v', IsIdChar)

  /** `av[0-9]+` with `re.IGNORECASE`. */
  const AvPattern: Pattern := Pattern(c => c == 'a' || c == 'A', c => c == 'v' || c == 'V', IsDigit)

  /**
   * `get_bv(vid)`: the leftmost BV id in the text, unchanged; otherwise the
   * leftmost av id, converted; otherwise the text itself.
   */
  function GetBv(vid: string): (r: string)
    ensures r == vid || (|r| >= 3 && (r[0] == 'B' || r[0] == 'b') && (r[1] == 'V' || r[1] == 'v'))
  {
    match SearchFrom(vid, BvPattern, 0)
    case Some(p) => MatchText(vid, BvPattern, p)
    case None =>
      match SearchFrom(vid, AvPattern, 0)
      case Some(p) =>
        var m := MatchText(vid, AvPattern, p);
        EncodeAvMatch(m);
        BvOfShape(Transform(DigitsValue(m[2..])));
        Encode(m).value
      case None => vid
  }

  /** An `av[0-9]+` match always converts: `int` of its digits cannot fail. */
  lemma EncodeAvMatch(m: string)
    requires |m| >= 3 && AllDigits(m[2..])
    ensures Encode(m) == Some(BvOf(Transform(DigitsValue(m[2..]))))
  {
    assert AvDigits(m) == m[2..] && IsDigit(m[2..][0]);
  }

  /** When the text holds a BV id, `get_bv` returns the leftmost one, with its whole greedy tail. */
  lemma GetBvFindsBv(vid: string, p: nat)
    requires MatchesAt(vid, BvPattern, p)
    requires forall q :: 0 <= q < p ==> !MatchesAt(vid, BvPattern, q)
    ensures GetBv(vid) == MatchText(vid, BvPattern, p)
  {
    assert SearchFrom(vid, BvPattern, 0) == Some(p);
  }

  /** Otherwise, when it holds an av id, `get_bv` converts the leftmost one. */
  lemma GetBvFindsAv(vid: string, p: nat)
    requires forall q :: !MatchesAt(vid, BvPattern, q)
    requires MatchesAt(vid, AvPattern, p)
    requires forall q :: 0 <= q < p ==> !MatchesAt(vid, AvPattern, q)
    ensures GetBv(vid) == BvOf(Transform(DigitsValue(MatchText(vid, AvPattern, p)[2..])))
  {
    assert SearchFrom(vid, BvPattern, 0) == None;
    assert SearchFrom(vid, AvPattern, 0) == Some(p);
    EncodeAvMatch(MatchText(vid, AvPattern, p));
  }

  /** Text with neither kind of id is passed through unchanged. */
  lemma GetBvFallback(vid: string)
    requires forall q :: !MatchesAt(vid, BvPattern, q)
    requires forall q :: !MatchesAt(vid, AvPattern, q)
    ensures GetBv(vid) == vid
  {
    assert SearchFrom(vid, BvPattern, 0) == None;
    assert SearchFrom(vid, AvPattern, 0) == None;
  }

  /** A text that is itself a BV match, from its first character to its last, normalises to itself. */
  lemma GetBvOfWholeMatch(m: string)
    requires MatchesAt(m, BvPattern, 0)
    requires forall j :: 2 <= j < |m| ==> IsIdChar(m[j])
    ensures GetBv(m) == m
  {
    RunEndAll(m, 2, IsIdChar);
  }

  /** `get_bv` is idempotent: what it returns is already normal. */
  lemma GetBvIdempotent(vid: string)
    ensures GetBv(GetBv(vid)) == GetBv(vid)
  {
    match SearchFrom(vid, BvPattern, 0)
    case Some(p) =>
      var m := MatchText(vid, BvPattern, p);
      var e := RunEnd(vid, p + 2, IsIdChar);
      assert forall j :: 2 <= j < |m| ==> m[j] == vid[p + j];
      GetBvOfWholeMatch(m);
    case None =>
      match SearchFrom(vid, AvPattern, 0)
      case Some(p) =>
        var m := MatchText(vid, AvPattern, p);
        var b := BvOf(Transform(DigitsValue(m[2..])));
        EncodeAvMatch(m);
        assert GetBv(vid) == b;
        BvOfAllIdChars(Transform(DigitsValue(m[2..])));
        GetBvOfWholeMatch(b);
      case None =>
  }

  /** Every character of an `av_to_bv` result is an id character, and it starts with "BV1". */
  lemma BvOfAllIdChars(x: int)
    ensures MatchesAt(BvOf(x), BvPattern, 0)
    ensures forall j :: 2 <= j < |BvOf(x)| ==> IsIdChar(BvOf(x)[j])
  {
    var b := BvOf(x);
    BvOfShape(x);
    TableAlnum();
    PlacedAt(x, 6);
    forall j | 2 <= j < 12 ensures IsIdChar(b[j]) {
      if j in Positions {
        var i :| 0 <= i < 6 && Positions[i] == j;
        assert b[j] == Table[Digit(x, i)];
      } else {
        assert Positions[..6] == Positions;
        assert b[j] == Template[j];
      }
    }
  }

  /** An av id `"av" + str(n)` normalises to the BV id that `av_to_bv` computes for it. */
  lemma GetBvOfAvId(n: nat)
    ensures GetBv("av" + IntToString(n)) == BvOf(Transform(n))
  {
    var vid := "av" + IntToString(n);
    var digits := IntToString(n);
    assert vid[2..] == digits;
    forall j | 2 <= j < |vid| ensures IsDigit(vid[j]) {
      assert vid[j] == digits[j - 2];
      IntToStringAlphabet(n, j - 2);
    }
    forall q: nat ensures !MatchesAt(vid, BvPattern, q) {
      if q + 2 < |vid| && q >= 2 {
        assert IsDigit(vid[q]);
      }
    }
    assert MatchesAt(vid, AvPattern, 0);
    RunEndAll(vid, 2, IsDigit);
    GetBvFindsAv(vid, 0);
    assert MatchText(vid, AvPattern, 0)[2..] == digits;
  }
}
