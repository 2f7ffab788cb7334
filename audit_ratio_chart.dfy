/**
 * The audit chart component (src/components/AuditRatioChart.js): its
 * `auditData` state, the accumulation that refreshes it from the audit
 * transactions, the capped percentages, the status and colour taken from
 * the raw ratio, and the one-decimal ratio text.
 */
module AuditRatioChart {
  import opened Wrappers
  import opened Decimal
  import opened Transactions
  import opened AuditRules
  import Profile

  /** The `auditData` state: the two totals and their ratio. */
  class Chart {
    var done: nat
    var received: nat
    var ratio: real

    /** The ratio always belongs to the totals. */
    ghost predicate Valid()
      reads this
    {
      ratio == Ratio(done, received)
    }

    /** `useState({done: 0, received: 0, ratio: 0})`. */
    constructor ()
      ensures Valid()
      ensures done == 0 && received == 0 && ratio == 0.0
    {
      done, received, ratio := 0, 0, 0.0;
    }

    /**
     * The effect run when `data` changes: empty or absent data leaves the
     * state as it was; otherwise the state becomes the totals of the
     * "up" and "down" records and their ratio.
     */
    method ApplyData(data: Option<seq<Transaction>>)
      requires Valid()
      modifies this
      ensures Valid()
      ensures data.None? || data.value == [] ==>
        done == old(done) && received == old(received) && ratio == old(ratio)
      ensures data.Some? && data.value != [] ==>
        done == TypeTotal(data.value, "up") && received == TypeTotal(data.value, "down") &&
        ratio == Ratio(done, received)
    {
      if data.Some? && |data.value| > 0 {
        var auditsDone, auditsReceived := Accumulate(data.value);
        var r := if auditsReceived > 0 then (auditsDone as real) / (auditsReceived as real) else 0.0;
        done, received, ratio := auditsDone, auditsReceived, r;
      }
    }
  }

  /**
   * The `forEach` over the records: "up" amounts go to the done total,
   * "down" amounts to the received total, other types are skipped.
   */
  method Accumulate(data: seq<Transaction>) returns (auditsDone: nat, auditsReceived: nat)
    ensures auditsDone == TypeTotal(data, "up")
    ensures auditsReceived == TypeTotal(data, "down")
  {
    auditsDone, auditsReceived := 0, 0;
    for i := 0 to |data|
      invariant auditsDone == TypeTotal(data[..i], "up")
      invariant auditsReceived == TypeTotal(data[..i], "down")
    {
      var item := data[i];
      assert data[..i + 1] == data[..i] + [item];
      TypeTotalSnoc(data[..i], item, "up");
      TypeTotalSnoc(data[..i], item, "down");
      if item.txType == "up" {
        auditsDone := auditsDone + item.amount;
      } else if item.txType == "down" {
        auditsReceived := auditsReceived + item.amount;
      }
    }
    assert data[..|data|] == data;
  }

  /**
   * `donePercentage`, `receivedPercentage`: each total as a percentage of
   * the larger, capped at 100. Defined only when some total is positive.
   */
  function Percentages(done: nat, received: nat): (p: (real, real))
    requires done + received > 0
    ensures 0.0 <= p.0 <= 100.0 && 0.0 <= p.1 <= 100.0
    ensures done >= received ==> p.0 == 100.0
    ensures received >= done ==> p.1 == 100.0
  {
    var max := if done >= received then done else received;
    (CappedPercent(done as real, max as real), CappedPercent(received as real, max as real))
  }

  /** The cap never bites: the chart shows the same percentages as the page. */
  lemma PercentagesMatchPage(done: nat, received: nat)
    requires done + received > 0
    ensures Percentages(done, received) == Profile.Percentages(done, received)
  {
    var max := if done >= received then done else received;
    var m := max as real;
    var d, r := done as real, received as real;
    assert d <= m && r <= m;
    var pd, pr := CappedPercent(d, m), CappedPercent(r, m);
    assert pd == d / m * 100.0 by {
      assert pd * m == d * 100.0;
      assert (d / m * 100.0) * m == d * 100.0;
      RealCancel(pd, d / m * 100.0, m);
    }
    assert pr == r / m * 100.0 by {
      assert pr * m == r * 100.0;
      assert (r / m * 100.0) * m == r * 100.0;
      RealCancel(pr, r / m * 100.0, m);
    }
  }

  lemma RealCancel(a: real, b: real, m: real)
    requires m > 0.0 && a * m == b * m
    ensures a == b
  {
  }

  /** The colour that goes with each status. */
  function StatusColour(status: string): string
  {
    if status == "excellent" then "#26de81"
    else if status == "perfect" then "#2575fc"
    else if status == "good" then "#fed330"
    else "#fc5c65"
  }

  /** `getRatioStatus` with its colour, on the raw ratio. */
  function StatusAndColour(ratio: real): (sc: (string, string))
    ensures sc.0 == RatioStatus(ratio)
    ensures ratio > 1.2 ==> sc == ("excellent", "#26de81")
    ensures 1.0 <= ratio <= 1.2 ==> sc == ("perfect", "#2575fc")
    ensures 0.8 <= ratio < 1.0 ==> sc == ("good", "#fed330")
    ensures ratio < 0.8 ==> sc == ("needs improvement", "#fc5c65")
  {
    if ratio >= 1.0 then
      (if ratio > 1.2 then "excellent" else "perfect", if ratio > 1.2 then "#26de81" else "#2575fc")
    else if ratio >= 0.8 then ("good", "#fed330")
    else ("needs improvement", "#fc5c65")
  }

  /** The colour is a function of the status alone. */
  lemma ColourFollowsStatus(ratio: real)
    ensures StatusAndColour(ratio).1 == StatusColour(StatusAndColour(ratio).0)
  {
  }

  /** `auditData.ratio.toFixed(1)`. */
  function RatioText(ratio: real): (s: string)
    requires ratio >= 0.0
    ensures ParseFixed(s, 1) == Some(RoundReal(10.0 * ratio)) && NoLeadingZero(s)
  {
    ParseFixedText(RoundReal(10.0 * ratio), 1);
    FixedText(RoundReal(10.0 * ratio), 1)
  }

  /** The chart writes the same one-decimal ratio as the page. */
  lemma RatioTextMatchesPage(done: nat, received: nat)
    ensures RatioText(Ratio(done, received)) == Profile.AuditRatioText(done, received)
  {
    TenthsAgree(done, received);
    if received == 0 {
      ZeroTenthsText();
    }
  }

  /** Rounding the real ratio to tenths gives the page's integer rounding. */
  lemma TenthsAgree(done: nat, received: nat)
    ensures RoundReal(10.0 * Ratio(done, received)) == Profile.RatioTenths(done, received)
  {
    if received > 0 {
      TenTimesRatio(done, received);
      RoundRealOfQuotient(10 * done, received);
    }
  }

  lemma ZeroTenthsText()
    ensures FixedText(0, 1) == "0.0"
  {
    assert LowDigits(0, 1) == "0";
  }

  lemma TenTimesRatio(done: nat, received: nat)
    requires received > 0
    ensures 10.0 * Ratio(done, received) == ((10 * done) as real) / (received as real)
  {
  }

  /**
   * The raw ratio done/received lies within 0.05 of one of the status
   * thresholds 0.8, 1.0 and 1.2 (twentieths: within one of 16, 20, 24).
   */
  predicate NearThreshold(done: nat, received: nat) {
    received > 0 &&
    ((15 * received <= 20 * done <= 17 * received) ||
     (19 * received <= 20 * done <= 21 * received) ||
     (23 * received <= 20 * done <= 25 * received))
  }

  /**
   * The page reads its status from the rounded text, the chart from the
   * raw ratio; the two can disagree only when the ratio is within half a
   * tenth of a threshold.
   */
  lemma PageAndChartStatusAgreeAwayFromThresholds(done: nat, received: nat)
    requires !NearThreshold(done, received)
    ensures Profile.PageStatus(done, received) == RatioStatus(Ratio(done, received))
  {
    Profile.PageStatusFromTenths(done, received);
    if received > 0 {
      var t := Profile.RatioTenths(done, received);
      BandAgrees(done, received, t, 8);
      BandAgrees(done, received, t, 10);
      BandAgrees(done, received, t, 12);
    }
  }

  /**
   * Away from c/10, the rounded tenths t and the raw ratio fall on the
   * same side of c/10.
   */
  lemma BandAgrees(done: nat, received: nat, t: int, c: nat)
    requires received > 0
    requires (2 * t - 1) * received <= 20 * done < (2 * t + 1) * received
    requires 20 * done > (2 * c + 1) * received || 20 * done < (2 * c - 1) * received
    ensures (t >= c <==> Ratio(done, received) >= (c as real) / 10.0)
    ensures (t > c <==> Ratio(done, received) > (c as real) / 10.0)
  {
    SameSideOfThreshold(done, received, t, c);
    QuotientCompare(done, received, c);
  }

  /**
   * With t the rounded tenths of done/received and the ratio not within
   * half a tenth of c/10, t and the ratio lie on the same side of c/10.
   */
  lemma SameSideOfThreshold(done: nat, received: nat, t: int, c: int)
    requires received > 0
    requires (2 * t - 1) * received <= 20 * done < (2 * t + 1) * received
    requires 20 * done > (2 * c + 1) * received || 20 * done < (2 * c - 1) * received
    ensures (t > c && 20 * done > 2 * c * received) || (t < c && 20 * done < 2 * c * received)
  {
    if 20 * done > (2 * c + 1) * received {
      MulCancel(2 * c + 1, 2 * t + 1, received);
    } else {
      MulCancel(2 * t - 1, 2 * c - 1, received);
    }
  }

  lemma MulCancel(a: int, b: int, r: nat)
    requires r > 0 && a * r < b * r
    ensures a < b
  {
    if a >= b {
      MulMonotone(b, a, r);
    }
  }

  /** Comparing done/received with c/10 is comparing 10 * done with c * received. */
  lemma QuotientCompare(done: nat, received: nat, c: nat)
    requires received > 0
    ensures Ratio(done, received) >= (c as real) / 10.0 <==> 10 * done >= c * received
    ensures Ratio(done, received) > (c as real) / 10.0 <==> 10 * done > c * received
  {
    var x := Ratio(done, received);
    var R := received as real;
    assert x * R == done as real;
    assert ((c * received) as real) == (c as real) * R;
    if x >= (c as real) / 10.0 {
      RealMulMonotone((c as real) / 10.0, x, R);
    } else {
      RealMulStrict(x, (c as real) / 10.0, R);
    }
    if x > (c as real) / 10.0 {
      RealMulStrict((c as real) / 10.0, x, R);
    } else {
      RealMulMonotone(x, (c as real) / 10.0, R);
    }
  }
}
