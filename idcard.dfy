/**
 * Chinese resident identity numbers (idcard.go): the weighted mod-11 check
 * character of ISO 7064 MOD 11-2 as used by GB 11643-1999, the upgrade of a
 * 15-character number to 18 characters, the check-character test and the
 * shape test that the source writes as a regular expression.
 *
 * Go indexes strings by byte; the model indexes by character, which is the
 * same for the ASCII numbers these functions are meant for.
 */
module IdCard {

  import opened Text

  /** Weights of the first 17 characters. */
  const Weights: seq<int> := [7, 9, 10, 5, 8, 4, 2, 1, 6, 3, 7, 9, 10, 5, 8, 4, 2]

  /** The check character for each value of the weighted sum modulo 11. */
  const CheckChars: string := "10X98765432"

  predicate IsDigit(c: char) { '0' <= c <= '9' }

  /**
   * strconv.Atoi of a one-character string: the digit's value, and 0 for any
   * other character, because the source ignores Atoi's error.
   */
  function DigitValue(c: char): (v: int)
    ensures 0 <= v <= 9
    ensures IsDigit(c) ==> v == c as int - '0' as int
    ensures !IsDigit(c) ==> v == 0
  {
    if IsDigit(c) then c as int - '0' as int else 0
  }

  /** The weighted sum of the first n characters. */
  function WeightedSum(id: string, n: nat): int
    requires n <= 17 && n <= |id|
  {
    if n == 0 then 0 else WeightedSum(id, n - 1) + DigitValue(id[n - 1]) * Weights[n - 1]
  }

  /** The check character sumY computes: CheckChars[(sum of digit * weight) % 11]. */
  function CheckChar(id: string): (c: char)
    requires |id| >= 17
    ensures c in CheckChars
  {
    CheckChars[WeightedSum(id, 17) % 11]
  }

  /**
   * sumY: fill ai with the digit values of the first 17 characters, then
   * accumulate the weighted sum, and look the remainder up in the table.
   */
  method SumY(id: string) returns (y: string)
    requires |id| >= 17
    ensures y == [CheckChar(id)]
    ensures |y| == 1 && y[0] in CheckChars
  {
    var ai := new int[17];
    var res := 0;
    for i := 0 to 17
      invariant forall k :: 0 <= k < i ==> ai[k] == DigitValue(id[k])
    {
      ai[i] := DigitValue(id[i]);
    }
    for i := 0 to 17
      invariant res == WeightedSum(id, i)
    {
      res := res + ai[i] * Weights[i];
    }
    y := [CheckChars[res % 11]];
  }

  lemma {:induction false} WeightedSumPrefix(a: string, b: string, n: nat)
    requires n <= 17 && n <= |a| && n <= |b| && a[..n] == b[..n]
    ensures WeightedSum(a, n) == WeightedSum(b, n)
  {
    if n > 0 {
      assert a[n - 1] == a[..n][n - 1] == b[..n][n - 1] == b[n - 1];
      assert a[..n - 1] == a[..n][..n - 1];
      assert b[..n - 1] == b[..n][..n - 1];
      WeightedSumPrefix(a, b, n - 1);
    }
  }

  /** The check character depends on the first 17 characters only. */
  lemma CheckCharFirst17(a: string, b: string)
    requires |a| >= 17 && |b| >= 17 && a[..17] == b[..17]
    ensures CheckChar(a) == CheckChar(b)
  {
    WeightedSumPrefix(a, b, 17);
  }

  lemma {:induction false} WeightedSumUpper(id: string, n: nat)
    requires n <= 17 && n <= |id|
    ensures WeightedSum(ToUpper(id), n) == WeightedSum(id, n)
  {
    if n > 0 {
      WeightedSumUpper(id, n - 1);
    }
  }

  /** Upper-casing does not change the check character: letters weigh 0 either way. */
  lemma CheckCharUpper(id: string)
    requires |id| >= 17
    ensures CheckChar(ToUpper(id)) == CheckChar(id)
  {
    WeightedSumUpper(id, 17);
  }

  /**
   * ID15to18: insert the century "19" after the six-character region code
   * and append the check character of the result.
   */
  function ID15to18(id: string): (r: string)
    requires |id| >= 15
    ensures |r| == |id| + 3
    ensures r[..6] == id[..6] && r[6..8] == "19" && r[8..|id| + 2] == id[6..]
    ensures r[|id| + 2] == CheckChar(r[..|id| + 2])
  {
    var newid := id[..6] + "19" + id[6..];
    assert newid == (newid + [CheckChar(newid)])[..|id| + 2];
    newid + [CheckChar(newid)]
  }

  /**
   * IDisValid: after upper-casing, character 18 must equal the check
   * character of the first 17, so a lower-case 'x' is accepted.
   */
  function IDisValid(id: string): (ok: bool)
    requires |id| >= 18
    ensures ok <==> UpperChar(id[17]) == CheckChar(id)
  {
    CheckCharUpper(id);
    var up := ToUpper(id);
    CheckChar(up) == up[17]
  }

  /** Every upgraded 15-character number passes the check. */
  lemma UpgradeIsValid(id: string)
    requires |id| == 15
    ensures IDisValid(ID15to18(id))
  {
    var r := ID15to18(id);
    CheckCharFirst17(r, r[..17]);
  }

  /** The check character of the source's example number. */
  lemma ExampleCheckChar()
    ensures CheckChar("21021219831019104") == '4'
  {
    var m := "21021219831019104";
    assert WeightedSum(m, 1) == 14;
    assert WeightedSum(m, 2) == 23;
    assert WeightedSum(m, 3) == 23;
    assert WeightedSum(m, 4) == 33;
    assert WeightedSum(m, 5) == 41;
    assert WeightedSum(m, 6) == 49;
    assert WeightedSum(m, 7) == 51;
    assert WeightedSum(m, 8) == 60;
    assert WeightedSum(m, 9) == 108;
    assert WeightedSum(m, 10) == 117;
    assert WeightedSum(m, 11) == 124;
    assert WeightedSum(m, 12) == 124;
    assert WeightedSum(m, 13) == 134;
    assert WeightedSum(m, 14) == 179;
    assert WeightedSum(m, 15) == 187;
    assert WeightedSum(m, 16) == 187;
    assert WeightedSum(m, 17) == 195;
  }

  /** The source's example: upgrading 210212831019104. */
  lemma ExampleUpgrade()
    ensures ID15to18("210212831019104") == "210212198310191044"
    ensures IDisValid("210212198310191044")
  {
    var id := "210212831019104";
    assert id[..6] + "19" + id[6..] == "21021219831019104";
    ExampleCheckChar();
    UpgradeIsValid(id);
  }

  predicate IsNonZeroDigit(c: char) { '1' <= c <= '9' }

  /** Month field: "0" then a digit, or "10" to "12". */
  predicate IsMonth(a: char, b: char)
  {
    (a == '0' && IsDigit(b)) || (a == '1' && '0' <= b <= '2')
  }

  /**
   * Day field: one of the class [0|1|2] then a digit, or "30"/"31". The
   * class lists '|' as a member, so "|5" is a day.
   */
  predicate IsDay(a: char, b: char)
  {
    (a in "0|12" && IsDigit(b)) || (a == '3' && '0' <= b <= '1')
  }

  /**
   * IDisPattern: the second-generation number regular expression
   * ^[1-9]\d{5}[1-9]\d{3}((0\d)|(1[0-2]))(([0|1|2]\d)|3[0-1])\d{3}([\d|x|X]{1})$
   * written out character by character. The last class also lists '|'.
   */
  predicate IDisPattern(id: string)
  {
    && |id| == 18
    && IsNonZeroDigit(id[0])
    && (forall i :: 1 <= i < 6 ==> IsDigit(id[i]))
    && IsNonZeroDigit(id[6])
    && (forall i :: 7 <= i < 10 ==> IsDigit(id[i]))
    && IsMonth(id[10], id[11])
    && IsDay(id[12], id[13])
    && (forall i :: 14 <= i < 17 ==> IsDigit(id[i]))
    && (IsDigit(id[17]) || id[17] in "xX|")
  }

  /**
   * What a matching number looks like: 18 characters, all digits but the
   * day's first (a digit or '|') and the last (a digit, 'x', 'X' or '|').
   */
  lemma PatternShape(id: string)
    requires IDisPattern(id)
    ensures |id| == 18 && (IsDigit(id[17]) || id[17] in "xX|")
    ensures forall i :: 0 <= i < 17 && i != 12 ==> IsDigit(id[i])
    ensures IsDigit(id[12]) || id[12] == '|'
  {
  }

  /** The 15-character layout dddddd yymmdd xxp, with the same field rules. */
  predicate IsPattern15(id: string)
  {
    && |id| == 15
    && IsNonZeroDigit(id[0])
    && (forall i :: 1 <= i < 8 ==> IsDigit(id[i]))
    && IsMonth(id[8], id[9])
    && IsDay(id[10], id[11])
    && (forall i :: 12 <= i < 15 ==> IsDigit(id[i]))
  }

  /** An upgraded number has the 18-character shape exactly when the old one had the 15-character shape. */
  lemma UpgradePattern(id: string)
    requires |id| == 15
    ensures IDisPattern(ID15to18(id)) <==> IsPattern15(id)
  {
    var r := ID15to18(id);
    assert forall i :: 8 <= i < 17 ==> r[i] == id[i - 2];
    assert r[..6] == id[..6];
    assert forall i :: 0 <= i < 6 ==> r[i] == id[i];
    assert r[6] == '1' && r[7] == '9';
    assert r[17] in CheckChars;
  }

  /** A valid number matches; a shorter one, month 13, day 32 or a leading zero does not. */
  lemma PatternExamples()
    ensures IDisPattern("210212198310191044")
    ensures !IDisPattern("21021219831019104")
    ensures !IDisPattern("210212198313191044")
    ensures !IDisPattern("210212198310321044")
    ensures !IDisPattern("010212198310191044")
  {
    assert "210212198310321044"[12] == '3' && "210212198310321044"[13] == '2';
    assert "210212198313191044"[10] == '1' && "210212198313191044"[11] == '3';
    assert "010212198310191044"[0] == '0';
  }

  /** The shape test lets '|' through as the last character. */
  lemma PatternAcceptsBar()
    ensures IDisPattern("11010119900101123|")
  {
  }
}
