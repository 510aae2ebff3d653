/** Day 1, part 1: the calibration value of a line is ten times its first digit plus its
    last digit; the answer is the sum over all lines. The two source files that solve this
    part share these three functions character for character. */
module Day01Calibration {

  predicate IsDigit(c: char)
  {
    '0' <= c <= '9'
  }

  function DigitValue(c: char): int
    requires IsDigit(c)
  {
    c as int - '0' as int
  }

  /** The value of the leftmost digit, or -1 when the line has no digit. */
  function FirstDigit(s: string): (r: int)
    ensures r == -1 <==> forall i :: 0 <= i < |s| ==> !IsDigit(s[i])
    ensures r != -1 ==> exists i :: 0 <= i < |s| && IsDigit(s[i]) && r == DigitValue(s[i])
                                      && forall j :: 0 <= j < i ==> !IsDigit(s[j])
  {
    if s == [] then -1
    else if IsDigit(s[0]) then DigitValue(s[0])
    else
      var r := FirstDigit(s[1..]);
      assert r != -1 ==> exists i :: 0 < i < |s| && IsDigit(s[i]) && r == DigitValue(s[i])
                                      && forall j :: 0 <= j < i ==> !IsDigit(s[j]) by {
        if r != -1 {
          var i :| 0 <= i < |s| - 1 && IsDigit(s[1..][i]) && r == DigitValue(s[1..][i])
                   && forall j :: 0 <= j < i ==> !IsDigit(s[1..][j]);
          assert forall j :: 0 <= j < i + 1 ==> !IsDigit(s[j]) by {
            forall j | 0 <= j < i + 1 ensures !IsDigit(s[j]) {
              if j > 0 {
                assert s[j] == s[1..][j - 1];
              }
            }
          }
        }
      }
      r
  }

  /** The value of the rightmost digit, or -1 when the line has no digit. */
  function LastDigit(s: string): (r: int)
    ensures r == -1 <==> forall i :: 0 <= i < |s| ==> !IsDigit(s[i])
    ensures r != -1 ==> exists i :: 0 <= i < |s| && IsDigit(s[i]) && r == DigitValue(s[i])
                                      && forall j :: i < j < |s| ==> !IsDigit(s[j])
  {
    if s == [] then -1
    else if IsDigit(s[|s| - 1]) then DigitValue(s[|s| - 1])
    else
      var r := LastDigit(s[..|s| - 1]);
      assert forall j :: 0 <= j < |s| - 1 ==> s[..|s| - 1][j] == s[j];
      r
  }

  function Reverse(s: string): (r: string)
    ensures |r| == |s| && forall i :: 0 <= i < |s| ==> r[i] == s[|s| - 1 - i]
  {
    seq(|s|, i requires 0 <= i < |s| => s[|s| - 1 - i])
  }

  /** A line and its reversal hold the same characters. */
  lemma NoDigitReversed(s: string)
    ensures (forall i :: 0 <= i < |s| ==> !IsDigit(s[i])) <==> (forall i :: 0 <= i < |s| ==> !IsDigit(Reverse(s)[i]))
  {
    var r := Reverse(s);
    assert forall i :: 0 <= i < |s| ==> r[|s| - 1 - i] == s[i];
  }

  /** `find_last` scans the reversed line the way `find_first` scans the line. */
  lemma LastIsFirstOfReverse(s: string)
    ensures LastDigit(s) == FirstDigit(Reverse(s))
  {
    var r := Reverse(s);
    var a, b := LastDigit(s), FirstDigit(r);
    NoDigitReversed(s);
    if a != -1 {
      assert b != -1;
      var i :| 0 <= i < |s| && IsDigit(s[i]) && a == DigitValue(s[i]) && forall j :: i < j < |s| ==> !IsDigit(s[j]);
      var k :| 0 <= k < |r| && IsDigit(r[k]) && b == DigitValue(r[k]) && forall j :: 0 <= j < k ==> !IsDigit(r[j]);
      // both pick the same position: the last digit of s is the first digit of r
      assert r[|s| - 1 - i] == s[i] && r[k] == s[|s| - 1 - k];
      assert k == |s| - 1 - i;
    }
  }

  /** `find_first`. */
  method FindFirst(s: string) returns (r: int)
    ensures r == FirstDigit(s)
  {
    var i := 0;
    while i < |s|
      invariant 0 <= i <= |s|
      invariant FirstDigit(s) == FirstDigit(s[i..])
    {
      assert s[i..][1..] == s[i + 1..];
      if IsDigit(s[i]) {
        return DigitValue(s[i]);
      }
      i := i + 1;
    }
    return -1;
  }

  /** `find_last`. */
  method FindLast(s: string) returns (r: int)
    ensures r == LastDigit(s)
  {
    var i := |s|;
    while i > 0
      invariant 0 <= i <= |s|
      invariant LastDigit(s) == LastDigit(s[..i])
    {
      assert s[..i][..i - 1] == s[..i - 1];
      if IsDigit(s[i - 1]) {
        return DigitValue(s[i - 1]);
      }
      i := i - 1;
    }
    return -1;
  }

  function CalibrationValue(line: string): int
  {
    FirstDigit(line) * 10 + LastDigit(line)
  }

  function SumCalibrations(lines: seq<string>): int
  {
    if lines == [] then 0 else SumCalibrations(lines[..|lines| - 1]) + CalibrationValue(lines[|lines| - 1])
  }

  /** A line with a digit contributes a two-digit number made of its first and last digit;
      a line without one contributes -11, since both searches return -1. */
  lemma CalibrationValueRange(line: string)
    ensures (exists i :: 0 <= i < |line| && IsDigit(line[i])) ==>
              CalibrationValue(line) == 10 * FirstDigit(line) + LastDigit(line) && 0 <= CalibrationValue(line) <= 99
    ensures (forall i :: 0 <= i < |line| ==> !IsDigit(line[i])) ==> CalibrationValue(line) == -11
  {
  }

  /** A line holding exactly one digit contributes eleven times it. */
  lemma SingleDigitLine(line: string, i: nat)
    requires i < |line| && IsDigit(line[i])
    requires forall j :: 0 <= j < |line| && j != i ==> !IsDigit(line[j])
    ensures CalibrationValue(line) == 11 * DigitValue(line[i])
  {
    var a, b := FirstDigit(line), LastDigit(line);
    var k :| 0 <= k < |line| && IsDigit(line[k]) && a == DigitValue(line[k]) && forall j :: 0 <= j < k ==> !IsDigit(line[j]);
    var k' :| 0 <= k' < |line| && IsDigit(line[k']) && b == DigitValue(line[k']) && forall j :: k' < j < |line| ==> !IsDigit(line[j]);
    assert k == i && k' == i;
  }

  /** `calculate_sum_calibrations`. */
  method CalculateSumCalibrations(lines: seq<string>) returns (total: int)
    ensures total == SumCalibrations(lines)
  {
    total := 0;
    var k := 0;
    while k < |lines|
      invariant 0 <= k <= |lines|
      invariant total == SumCalibrations(lines[..k])
    {
      assert lines[..k + 1][..k] == lines[..k];
      var first := FindFirst(lines[k]);
      var second := FindLast(lines[k]);
      total := total + first * 10 + second;
      k := k + 1;
    }
    assert lines[..k] == lines;
  }

  lemma CalibrationExample()
    ensures SumCalibrations(["1abc2", "pqr3stu8vwx", "a1b2c3d4e5f", "treb7uchet"]) == 142
  {
    ExampleValues();
    SumOfFour("1abc2", "pqr3stu8vwx", "a1b2c3d4e5f", "treb7uchet");
  }

  lemma SumOfFour(a: string, b: string, c: string, d: string)
    ensures SumCalibrations([a, b, c, d]) == CalibrationValue(a) + CalibrationValue(b) + CalibrationValue(c) + CalibrationValue(d)
  {
    assert [a, b, c, d][..3] == [a, b, c] && [a, b, c][..2] == [a, b] && [a, b][..1] == [a] && [a][..0] == [];
    assert SumCalibrations([a]) == CalibrationValue(a);
    assert SumCalibrations([a, b]) == CalibrationValue(a) + CalibrationValue(b);
    assert SumCalibrations([a, b, c]) == CalibrationValue(a) + CalibrationValue(b) + CalibrationValue(c);
  }

  lemma ExampleValues()
    ensures CalibrationValue("1abc2") == 12 && CalibrationValue("a1b2c3d4e5f") == 15
    ensures CalibrationValue("treb7uchet") == 77
    ensures CalibrationValue("pqr3stu8vwx") == 38
  {
    ExampleFirstLine();
    ExampleSecondLine();
    ExampleThirdLine();
    ExampleFourthLine();
  }

  lemma ExampleFirstLine()
    ensures CalibrationValue("1abc2") == 12
  {
  }

  lemma ExampleThirdLine()
    ensures CalibrationValue("a1b2c3d4e5f") == 15
  {
  }

  lemma ExampleFourthLine()
    ensures CalibrationValue("treb7uchet") == 77
  {
    var s := "treb7uchet";
    assert s[4] == '7';
    assert forall j :: 0 <= j < 4 ==> !IsDigit(s[j]);
    assert forall j :: 4 < j < |s| ==> !IsDigit(s[j]);
    DigitAt(s, 4);
  }

  /** A digit with no digit before it is the first digit, and with none after it the last. */
  lemma DigitAt(s: string, i: nat)
    requires i < |s| && IsDigit(s[i])
    ensures (forall j :: 0 <= j < i ==> !IsDigit(s[j])) ==> FirstDigit(s) == DigitValue(s[i])
    ensures (forall j :: i < j < |s| ==> !IsDigit(s[j])) ==> LastDigit(s) == DigitValue(s[i])
  {
    if forall j :: 0 <= j < i ==> !IsDigit(s[j]) {
      var k :| 0 <= k < |s| && IsDigit(s[k]) && FirstDigit(s) == DigitValue(s[k])
               && forall j :: 0 <= j < k ==> !IsDigit(s[j]);
      assert k == i;
    }
    if forall j :: i < j < |s| ==> !IsDigit(s[j]) {
      var k :| 0 <= k < |s| && IsDigit(s[k]) && LastDigit(s) == DigitValue(s[k])
               && forall j :: k < j < |s| ==> !IsDigit(s[j]);
      assert k == i;
    }
  }

  lemma ExampleSecondLine()
    ensures CalibrationValue("pqr3stu8vwx") == 38
  {
    assert "pqr3stu8v"[..8] == "pqr3stu8";
    assert LastDigit("pqr3stu8v") == 8;
    assert "pqr3stu8vw"[..9] == "pqr3stu8v";
    assert LastDigit("pqr3stu8vw") == 8;
    assert "pqr3stu8vwx"[..10] == "pqr3stu8vw";
  }
}
