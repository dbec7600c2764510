/**
 * `formatNumber`: the decimal rendering of a token amount with a comma
 * before every group of three digits counted from the right
 * (`replace(/\B(?=(\d{3})+(?!\d))/g, ',')`).
 */
module Format {

  predicate IsDigit(c: char) {
    '0' <= c <= '9'
  }

  predicate AllDigits(s: string) {
    forall i :: 0 <= i < |s| ==> IsDigit(s[i])
  }

  /** The decimal value of a digit string, as `parseInt` reads it. */
  function ValueOf(s: string): nat
    requires AllDigits(s)
  {
    if |s| == 0 then 0
    else ValueOf(s[..|s| - 1]) * 10 + (s[|s| - 1] as int - '0' as int)
  }

  /** `n.toString()`: the shortest decimal digit string of `n`. */
  function Decimal(n: nat): (s: string)
    ensures |s| >= 1 && AllDigits(s)
    ensures s[0] == '0' ==> n == 0 && s == "0"
    ensures ValueOf(s) == n
  {
    if n < 10 then [('0' as int + n) as char]
    else
      var s := Decimal(n / 10) + [('0' as int + n % 10) as char];
      assert s[..|s| - 1] == Decimal(n / 10);
      s
  }

  /**
   * The regular expression's effect, scanning left to right: a comma goes
   * between two digits (`\B`) exactly when the digits after that point form a
   * non-empty multiple of three running to the end (`(?=(\d{3})+(?!\d))`).
   */
  function InsertCommas(s: string): (t: string)
    ensures |s| > 0 ==> |t| > 0 && t[0] == s[0]
  {
    if |s| == 0 then ""
    else [s[0]] + (if |s| - 1 > 0 && (|s| - 1) % 3 == 0 then "," else "") + InsertCommas(s[1..])
  }

  /** Grouping from the right: the last three digits, preceded by the grouped rest. */
  function Group(s: string): string
    decreases |s|
  {
    if |s| <= 3 then s
    else Group(s[..|s| - 3]) + "," + s[|s| - 3..]
  }

  /** Deleting every comma. */
  function Strip(t: string): (s: string)
    ensures forall i :: 0 <= i < |s| ==> s[i] != ','
  {
    if |t| == 0 then ""
    else (if t[0] == ',' then "" else [t[0]]) + Strip(t[1..])
  }

  /**
   * `formatNumber(n)`: it begins with the number's leading digit, deleting its
   * commas gives back `n.toString()`, it equals the grouping in threes from
   * the right, and it holds one comma per full group after the first digit.
   */
  function FormatNumber(n: nat): (t: string)
    ensures |t| > 0 && t[0] == Decimal(n)[0]
    ensures Strip(t) == Decimal(n)
    ensures t == Group(Decimal(n))
    ensures |t| == |Decimal(n)| + (|Decimal(n)| - 1) / 3
  {
    var digits := Decimal(n);
    StripInsertCommas(digits);
    CommasGroupFromTheRight(digits);
    CommaCount(digits);
    InsertCommas(digits)
  }

  /** Up to three digits get no comma. */
  lemma {:induction false} ShortHasNoComma(s: string)
    requires |s| <= 3
    ensures InsertCommas(s) == s
    decreases |s|
  {
    if |s| > 0 {
      ShortHasNoComma(s[1..]);
      assert s == [s[0]] + s[1..];
    }
  }

  /** Appending a non-empty multiple of three digits puts a comma at the seam and keeps the commas on the left. */
  lemma {:induction false} InsertAcrossSeam(x: string, y: string)
    requires |x| > 0 && |y| > 0 && |y| % 3 == 0
    ensures InsertCommas(x + y) == InsertCommas(x) + "," + InsertCommas(y)
    decreases |x|
  {
    var xy := x + y;
    assert xy[0] == x[0] && xy[1..] == x[1..] + y;
    if |x| == 1 {
      assert InsertCommas(x) == [x[0]];
      assert InsertCommas(xy) == [x[0]] + "," + InsertCommas(y);
    } else {
      var comma := if (|x| - 1) % 3 == 0 then "," else "";
      assert (|xy| - 1) % 3 == (|x| - 1) % 3;
      assert InsertCommas(xy) == [x[0]] + comma + InsertCommas(x[1..] + y);
      assert InsertCommas(x) == [x[0]] + comma + InsertCommas(x[1..]);
      InsertAcrossSeam(x[1..], y);
    }
  }

  /** The left-to-right regular-expression reading and the right-to-left grouping agree. */
  lemma {:induction false} CommasGroupFromTheRight(s: string)
    ensures InsertCommas(s) == Group(s)
    decreases |s|
  {
    if |s| <= 3 {
      ShortHasNoComma(s);
    } else {
      var left, right := s[..|s| - 3], s[|s| - 3..];
      assert s == left + right;
      InsertAcrossSeam(left, right);
      ShortHasNoComma(right);
      CommasGroupFromTheRight(left);
    }
  }

  /** Deleting the commas of a formatted comma-free string gives it back. */
  lemma {:induction false} StripInsertCommas(s: string)
    requires forall i :: 0 <= i < |s| ==> s[i] != ','
    ensures Strip(InsertCommas(s)) == s
    decreases |s|
  {
    if |s| > 0 {
      StripInsertCommas(s[1..]);
      var rest := InsertCommas(s[1..]);
      if |s| - 1 > 0 && (|s| - 1) % 3 == 0 {
        assert InsertCommas(s) == [s[0]] + ([','] + rest);
        assert ([s[0]] + ([','] + rest))[1..] == [','] + rest;
        assert ([','] + rest)[1..] == rest;
      } else {
        assert InsertCommas(s) == [s[0]] + rest;
        assert ([s[0]] + rest)[1..] == rest;
      }
    }
  }

  /** The number of commas inserted: one per full group of three after the first digit. */
  lemma {:induction false} CommaCount(s: string)
    requires |s| > 0
    ensures |InsertCommas(s)| == |s| + (|s| - 1) / 3
    decreases |s|
  {
    if |s| > 1 {
      CommaCount(s[1..]);
    }
  }
}
