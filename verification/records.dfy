/** The status/value record and the analysis result (models/records.py). */
module Records {
  import opened Wrappers
  import opened NumberText

  /** What a record's `value` can hold: an int or float (both a Num), a string, or null. */
  datatype Value = Num(n: real) | Str(s: string) | Null

  /** Python's `str.lower()` on one character, for the ASCII letters. */
  function LowerChar(c: char): char {
    if 'A' <= c <= 'Z' then (c as int - 'A' as int + 'a' as int) as char else c
  }

  function Lower(s: string): (r: string)
    ensures |r| == |s|
    ensures forall i :: 0 <= i < |s| ==> r[i] == LowerChar(s[i])
  {
    if s == [] then [] else [LowerChar(s[0])] + Lower(s[1..])
  }

  /** The four spellings of a status that normalise to "ok". */
  const OkSpellings: set<string> := {"ok", "Ok", "oK", "OK"}

  datatype Record = Record(status: string, value: Value) {

    /** The status in lower case. */
    function NormalizeStatus(): string {
      Lower(status)
    }

    /** The value as a number: a number as itself, a string when it reads as a
        number, otherwise none. */
    function NumericValue(): Option<real> {
      match value
      case Num(x) => Some(x)
      case Str(s) => ParseNumber(s)
      case Null => None
    }

    /** The OK-mode test: a number at least `threshold` and a status of "ok" in any case. */
    predicate IsValid(threshold: real := 0.0) {
      match NumericValue()
      case None => false
      case Some(v) => NormalizeStatus() == "ok" && v >= threshold
    }
  }

  /** Count, total and average of the values that survived filtering. */
  datatype AnalysisResult = AnalysisResult(count: nat, total: real, average: real) {

    /** "[<timestamp>] ok_count=<count> total_value=<total, 2 decimals> avg=<average, 2 decimals>" */
    function FormatSummary(timestamp: string): string {
      "[" + timestamp + "] ok_count=" + DecimalString(count)
      + " total_value=" + Fixed2(total) + " avg=" + Fixed2(average)
    }
  }

  // ---------------------------------------------------------------------------
  // Status normalisation

  /** Lower-casing leaves no upper-case ASCII letter and is idempotent. */
  lemma LowerIsIdempotent(s: string)
    ensures forall i :: 0 <= i < |s| ==> !('A' <= Lower(s)[i] <= 'Z')
    ensures Lower(Lower(s)) == Lower(s)
  {
  }

  /** A status normalises to "ok" exactly when it is one of the four spellings of "ok". */
  lemma NormalizesToOk(status: string)
    ensures Lower(status) == "ok" <==> status in OkSpellings
  {
    if Lower(status) == "ok" {
      assert |status| == 2;
      assert LowerChar(status[0]) == 'o' && LowerChar(status[1]) == 'k';
      assert status[0] == 'o' || status[0] == 'O';
      assert status[1] == 'k' || status[1] == 'K';
      assert status == [status[0], status[1]];
    }
  }

  lemma NormalizeStatusExamples()
    ensures Record("OK", Num(10.0)).NormalizeStatus() == "ok"
    ensures Record("Bad", Num(5.0)).NormalizeStatus() == "bad"
    ensures Record("ERROR", Num(0.0)).NormalizeStatus() == "error"
  {
  }

  // ---------------------------------------------------------------------------
  // Numeric value

  lemma ParseNumberExamples()
    ensures ParseNumber("123") == Some(123.0)
    ensures ParseNumber("45.67") == Some(45.67)
    ensures ParseNumber("invalid") == None
  {
    ParseInteger123();
    ParseDecimal4567();
    ParseInvalid();
  }

  lemma ParseInvalid()
    ensures ParseNumber("invalid") == None
  {
  }

  lemma ParseInteger123()
    ensures ParseNumber("123") == Some(123.0)
  {
    assert DigitsValue("1") == 1 by { assert "1"[..0] == ""; }
    assert DigitsValue("12") == 12 by { assert "12"[..1] == "1"; }
    assert DigitsValue("123") == 123 by { assert "123"[..2] == "12"; }
    ParseDigits("123");
  }

  lemma ParseDecimal4567()
    ensures ParseNumber("45.67") == Some(45.67)
  {
    assert DigitsValue("4") == 4 by { assert "4"[..0] == ""; }
    assert DigitsValue("45") == 45 by { assert "45"[..1] == "4"; }
    assert DigitsValue("456") == 456 by { assert "456"[..2] == "45"; }
    assert DigitsValue("4567") == 4567 by { assert "4567"[..3] == "456"; }
    SplitAtDot("45", "67");
    assert "45" + ['.'] + "67" == "45.67";
    assert "45" + "67" == "4567";
    assert Shift(4567.0, 2) == 45.67;
  }

  lemma NumericValueExamples()
    ensures Record("ok", Num(42.0)).NumericValue() == Some(42.0)
    ensures Record("ok", Num(3.14)).NumericValue() == Some(3.14)
    ensures Record("ok", Str("123")).NumericValue() == Some(123.0)
    ensures Record("ok", Str("45.67")).NumericValue() == Some(45.67)
    ensures Record("ok", Str("invalid")).NumericValue() == None
    ensures Record("ok", Null).NumericValue() == None
  {
    ParseNumberExamples();
  }

  // ---------------------------------------------------------------------------
  // Validity

  /** The OK-mode test holds exactly when the status is a spelling of "ok" and
      the value reads as a number at least the threshold. */
  lemma IsValidCharacterization(r: Record, threshold: real)
    ensures r.IsValid(threshold)
        <==> r.status in OkSpellings && r.NumericValue().Some? && r.NumericValue().value >= threshold
  {
    NormalizesToOk(r.status);
  }

  /** Whatever the status, a record whose value is not a number is never valid. */
  lemma UndefinedIsInvalid(r: Record, threshold: real)
    requires r.NumericValue() == None
    ensures !r.IsValid(threshold)
  {
  }

  /** A record valid at one threshold is valid at every lower threshold. */
  lemma IsValidMonotone(r: Record, t: real, t': real)
    requires t' <= t && r.IsValid(t)
    ensures r.IsValid(t')
  {
  }

  lemma IsValidExamples()
    ensures Record("ok", Num(10.0)).IsValid(5.0)
    ensures !Record("ok", Num(10.0)).IsValid(15.0)
    ensures !Record("bad", Num(10.0)).IsValid(5.0)
    ensures !Record("ok", Null).IsValid(0.0)
  {
  }

  // ---------------------------------------------------------------------------
  // Summary line

  /** The count, total and average printed in the summary read back as the
      count and the two-decimal roundings of total and average. */
  lemma SummaryFieldsReadBack(r: AnalysisResult)
    ensures ParseNumber(DecimalString(r.count)) == Some(r.count as real)
    ensures ParseNumber(Fixed2(r.total)) == Some(Round2(r.total))
    ensures ParseNumber(Fixed2(r.average)) == Some(Round2(r.average))
  {
    ParseDecimalString(r.count);
    ParseFixed2(r.total);
    ParseFixed2(r.average);
  }

  lemma Fixed2Of100()
    ensures Fixed2(100.0) == "100.00"
  {
    Fixed2Exact(100.0, 10000);
    assert DecimalString(10) == "10";
    assert DecimalString(100) == "100";
  }

  lemma Fixed2Of20()
    ensures Fixed2(20.0) == "20.00"
  {
    Fixed2Exact(20.0, 2000);
  }

  lemma Fixed2Of3333()
    ensures Fixed2(33.33) == "33.33"
  {
    Fixed2Exact(33.33, 3333);
  }

  lemma Fixed2Of1111()
    ensures Fixed2(11.11) == "11.11"
  {
    Fixed2Exact(11.11, 1111);
  }

  lemma FormatSummaryWhole()
    ensures AnalysisResult(5, 100.0, 20.0).FormatSummary("2024/01/01-12:00:00")
         == "[2024/01/01-12:00:00] ok_count=5 total_value=100.00 avg=20.00"
  {
    Fixed2Of100();
    Fixed2Of20();
    assert DecimalString(5) == "5";
    // literal concatenations, one piece at a time
    assert "[" + "2024/01/01-12:00:00" == "[2024/01/01-12:00:00";
    assert "[2024/01/01-12:00:00" + "] ok_count=" == "[2024/01/01-12:00:00] ok_count=";
    assert "[2024/01/01-12:00:00] ok_count=" + "5" == "[2024/01/01-12:00:00] ok_count=5";
    assert "[2024/01/01-12:00:00] ok_count=5" + " total_value=" == "[2024/01/01-12:00:00] ok_count=5 total_value=";
    assert "[2024/01/01-12:00:00] ok_count=5 total_value=" + "100.00"
        == "[2024/01/01-12:00:00] ok_count=5 total_value=100.00";
    assert "[2024/01/01-12:00:00] ok_count=5 total_value=100.00" + " avg="
        == "[2024/01/01-12:00:00] ok_count=5 total_value=100.00 avg=";
    assert "[2024/01/01-12:00:00] ok_count=5 total_value=100.00 avg=" + "20.00"
        == "[2024/01/01-12:00:00] ok_count=5 total_value=100.00 avg=20.00";
  }

  lemma FormatSummaryWithDecimals()
    ensures AnalysisResult(3, 33.33, 11.11).FormatSummary("2024/01/01-12:00:00")
         == "[2024/01/01-12:00:00] ok_count=3 total_value=33.33 avg=11.11"
  {
    Fixed2Of3333();
    Fixed2Of1111();
    assert DecimalString(3) == "3";
    // literal concatenations, one piece at a time
    assert "[" + "2024/01/01-12:00:00" == "[2024/01/01-12:00:00";
    assert "[2024/01/01-12:00:00" + "] ok_count=" == "[2024/01/01-12:00:00] ok_count=";
    assert "[2024/01/01-12:00:00] ok_count=" + "3" == "[2024/01/01-12:00:00] ok_count=3";
    assert "[2024/01/01-12:00:00] ok_count=3" + " total_value=" == "[2024/01/01-12:00:00] ok_count=3 total_value=";
    assert "[2024/01/01-12:00:00] ok_count=3 total_value=" + "33.33"
        == "[2024/01/01-12:00:00] ok_count=3 total_value=33.33";
    assert "[2024/01/01-12:00:00] ok_count=3 total_value=33.33" + " avg="
        == "[2024/01/01-12:00:00] ok_count=3 total_value=33.33 avg=";
    assert "[2024/01/01-12:00:00] ok_count=3 total_value=33.33 avg=" + "11.11"
        == "[2024/01/01-12:00:00] ok_count=3 total_value=33.33 avg=11.11";
  }
}
