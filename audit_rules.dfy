/**
 * Rules that the profile page (src/pages/Profile.js) and the audit chart
 * (src/components/AuditRatioChart.js) both carry, each in its own copy:
 * the ratio of audits done to audits received, the status thresholds,
 * and the byte formatter with its MB/KB/B unit selection.
 */
module AuditRules {
  import opened Wrappers
  import opened Decimal

  /** `received > 0 ? done / received : 0`, exactly. */
  function Ratio(done: nat, received: nat): (r: real)
    ensures r >= 0.0
    ensures received == 0 ==> r == 0.0
    ensures received > 0 ==> r * (received as real) == done as real
  {
    if received > 0 then (done as real) / (received as real) else 0.0
  }

  /** `getRatioStatus`: the thresholds 1.2, 1.0 and 0.8, first match wins. */
  function RatioStatus(ratio: real): (s: string)
    ensures s == "excellent" <==> ratio > 1.2
    ensures s == "perfect" <==> 1.0 <= ratio <= 1.2
    ensures s == "good" <==> 0.8 <= ratio < 1.0
    ensures s == "needs improvement" <==> ratio < 0.8
  {
    if ratio >= 1.0 then (if ratio > 1.2 then "excellent" else "perfect")
    else if ratio >= 0.8 then "good"
    else "needs improvement"
  }

  /** The statuses from worst to best. */
  function StatusRank(s: string): nat
  {
    if s == "excellent" then 3 else if s == "perfect" then 2 else if s == "good" then 1 else 0
  }

  /** A higher ratio never earns a worse status. */
  lemma RatioStatusMonotone(r1: real, r2: real)
    requires r1 <= r2
    ensures StatusRank(RatioStatus(r1)) <= StatusRank(RatioStatus(r2))
  {
  }

  /** The divisor that selects the unit: 10^6 for MB, 10^3 for KB, 1 for B. */
  function UnitDivisor(bytes: nat): (d: nat)
    ensures d == 1000000 <==> bytes >= 1000000
    ensures d == 1000 <==> 1000 <= bytes < 1000000
    ensures d == 1 <==> bytes < 1000
  {
    if bytes >= 1000000 then 1000000 else if bytes >= 1000 then 1000 else 1
  }

  /** The unit written after the number; it always names the divisor `UnitDivisor` chose. */
  function UnitSuffix(bytes: nat): (u: string)
    ensures u == " MB" <==> bytes >= 1000000
    ensures u == " KB" <==> 1000 <= bytes < 1000000
    ensures u == " B" <==> bytes < 1000
    ensures u == " MB" <==> UnitDivisor(bytes) == 1000000
    ensures u == " KB" <==> UnitDivisor(bytes) == 1000
  {
    if bytes >= 1000000 then " MB" else if bytes >= 1000 then " KB" else " B"
  }

  /**
   * `formatBytes`: the count divided by the unit, written with exactly two
   * decimals (`toFixed(2)`), then the unit. The number part reads back as
   * the quotient rounded to the nearest hundredth, halves up.
   */
  function FormatBytes(bytes: nat): (r: string)
    ensures var u := UnitSuffix(bytes);
      |r| > |u| && r[|r| - |u|..] == u &&
      var h := ParseFixed(r[..|r| - |u|], 2);
      h.Some? &&
      (2 * h.value - 1) * UnitDivisor(bytes) <= 200 * bytes < (2 * h.value + 1) * UnitDivisor(bytes)
    ensures var u := UnitSuffix(bytes);
      |r| > |u| && NoLeadingZero(r[..|r| - |u|])
  {
    var d := UnitDivisor(bytes);
    var number := FixedText(RoundHalfUp(100 * bytes, d), 2);
    ParseFixedText(RoundHalfUp(100 * bytes, d), 2);
    var u := UnitSuffix(bytes);
    assert (number + u)[..|number|] == number && (number + u)[|number|..] == u;
    number + u
  }

  /** The boundary cases of the unit selection. */
  lemma FormatBytesBelowKilo()
    ensures FormatBytes(999) == "999.00 B"
  {
    assert UnitDivisor(999) == 1 && UnitSuffix(999) == " B";
    assert RoundHalfUp(99900, 1) == 99900;
    NineNineNine();
  }

  lemma NineNineNine()
    ensures FixedText(99900, 2) == "999.00"
  {
    assert DropDigits(99900, 2) == 999;
    assert NatToString(999) == "999" by {
      assert NatToString(99) == "99";
    }
    assert LowDigits(99900, 2) == "00";
  }

  lemma FormatBytesAtKilo()
    ensures FormatBytes(1000) == "1.00 KB"
  {
    assert UnitDivisor(1000) == 1000 && UnitSuffix(1000) == " KB";
    assert RoundHalfUp(100000, 1000) == 100;
    OneHundredHundredths();
  }

  lemma FormatBytesBelowMega()
    ensures FormatBytes(999999) == "1000.00 KB"
  {
    assert UnitDivisor(999999) == 1000 && UnitSuffix(999999) == " KB";
    assert RoundHalfUp(99999900, 1000) == 100000;
    assert FixedText(100000, 2) == "1000.00" by {
      assert DropDigits(100000, 2) == 1000;
      assert NatToString(1000) == "1000" by {
        assert NatToString(100) == "100";
        assert NatToString(10) == "10";
      }
      assert LowDigits(100000, 2) == "00";
    }
  }

  lemma FormatBytesAtMega()
    ensures FormatBytes(1000000) == "1.00 MB"
  {
    assert UnitDivisor(1000000) == 1000000 && UnitSuffix(1000000) == " MB";
    assert RoundHalfUp(100000000, 1000000) == 100;
    OneHundredHundredths();
  }

  lemma OneHundredHundredths()
    ensures FixedText(100, 2) == "1.00"
  {
    assert DropDigits(100, 2) == 1;
    assert NatToString(1) == "1";
    assert LowDigits(100, 2) == "00";
  }

  /** Two percentages of the same maximum stand in the ratio of their values. */
  lemma ProportionalShares(dp: real, rp: real, done: real, received: real, max: real)
    requires max > 0.0 && dp * max == done * 100.0 && rp * max == received * 100.0
    ensures dp * received == rp * done
  {
    assert (dp * received) * max == (rp * done) * max;
  }

  lemma ShareTimes(value: real, max: real)
    requires max > 0.0
    ensures (value / max * 100.0) * max == value * 100.0
  {
  }

  /** A share of at most the maximum lies in [0, 100], and is 100 for the maximum itself. */
  lemma ShareAtMost(value: real, max: real)
    requires max > 0.0 && 0.0 <= value <= max
    ensures 0.0 <= value / max * 100.0 <= 100.0
    ensures value == max ==> value / max * 100.0 == 100.0
  {
    ShareTimes(value, max);
  }

  /** `Math.min((value / max) * 100, 100)` for a positive maximum. */
  function CappedPercent(value: real, max: real): (p: real)
    requires max > 0.0 && 0.0 <= value
    ensures 0.0 <= p <= 100.0
    ensures value <= max ==> p * max == value * 100.0
    ensures value >= max ==> p == 100.0
  {
    var raw := value / max * 100.0;
    if raw < 100.0 then raw else 100.0
  }
}
