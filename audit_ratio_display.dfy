/**
 * The static audit-ratio card (src/components/AuditRatioDisplay.js): it
 * takes `done` and `received` in megabytes as props (defaults 1.16 and
 * 1.11) and shows them with a fixed " MB" suffix, the capped percentages,
 * the one-decimal ratio and a two-way label.
 */
module AuditRatioDisplay {
  import opened Wrappers
  import opened Decimal
  import opened AuditRules

  const DefaultDone: real := 1.16
  const DefaultReceived: real := 1.11

  /** `done / received`. Received is positive: 0 would give NaN or Infinity. */
  function Ratio(done: real, received: real): (r: real)
    requires received > 0.0 && done >= 0.0
    ensures r >= 0.0 && r * received == done
  {
    done / received
  }

  /**
   * The label: "perfect" when the ratio is at least 1.0, otherwise
   * "needs improvement". The third alternative, "excellent", is written
   * in the component but no real ratio reaches it.
   */
  function Label(ratio: real): (s: string)
    ensures s == "perfect" <==> ratio >= 1.0
    ensures s == "needs improvement" <==> ratio < 1.0
    ensures s != "excellent"
  {
    var isPerfect := ratio >= 1.0;
    if isPerfect then "perfect" else if ratio < 1.0 then "needs improvement" else "excellent"
  }

  /** The label colour: orange when perfect, grey otherwise. */
  function LabelColour(ratio: real): (c: string)
    ensures c == "#FF9800" <==> Label(ratio) == "perfect"
    ensures c == "#999" <==> Label(ratio) == "needs improvement"
  {
    if ratio >= 1.0 then "#FF9800" else "#999"
  }

  /** The card's "perfect" is what the page and chart call "perfect" or "excellent". */
  lemma LabelCoarsensStatus(ratio: real)
    ensures Label(ratio) == "perfect" <==> RatioStatus(ratio) in {"perfect", "excellent"}
  {
  }

  /**
   * The capped percentages of the two progress bars. They divide by the
   * larger value, so only two zero values (0/0) are excluded.
   */
  function Percentages(done: real, received: real): (p: (real, real))
    requires done >= 0.0 && received >= 0.0 && done + received > 0.0
    ensures 0.0 <= p.0 <= 100.0 && 0.0 <= p.1 <= 100.0
    ensures done >= received ==> p.0 == 100.0
    ensures received >= done ==> p.1 == 100.0
    ensures p.0 * received == p.1 * done
  {
    var max := if done >= received then done else received;
    var dp, rp := CappedPercent(done, max), CappedPercent(received, max);
    assert dp * max == done * 100.0;
    assert rp * max == received * 100.0;
    ProportionalShares(dp, rp, done, received, max);
    (dp, rp)
  }

  /** With nothing received, the done bar is full and the received bar empty. */
  lemma NothingReceivedPercentages(done: real)
    requires done > 0.0
    ensures Percentages(done, 0.0) == (100.0, 0.0)
  {
  }

  /** `x.toFixed(2) + " MB"`: the value to the nearest hundredth, with no unit scaling. */
  function MegabytesText(x: real): (s: string)
    requires x >= 0.0
    ensures |s| > 3 && s[|s| - 3..] == " MB"
    ensures var h := ParseFixed(s[..|s| - 3], 2);
      h.Some? && (h.value as real) - 0.5 <= 100.0 * x < (h.value as real) + 0.5
    ensures NoLeadingZero(s[..|s| - 3])
  {
    var number := FixedText(RoundReal(100.0 * x), 2);
    ParseFixedText(RoundReal(100.0 * x), 2);
    assert (number + " MB")[..|number|] == number;
    number + " MB"
  }

  /** `ratio.toFixed(1)`. */
  function RatioText(done: real, received: real): (s: string)
    requires received > 0.0 && done >= 0.0
    ensures var t := ParseFixed(s, 1);
      t.Some? && (t.value as real) - 0.5 <= 10.0 * Ratio(done, received) < (t.value as real) + 0.5
    ensures NoLeadingZero(s)
  {
    ParseFixedText(RoundReal(10.0 * Ratio(done, received)), 1);
    FixedText(RoundReal(10.0 * Ratio(done, received)), 1)
  }

  /** With the default props the card shows 1.0, "perfect", and done at 100%. */
  lemma DefaultProps()
    ensures RatioText(DefaultDone, DefaultReceived) == "1.0"
    ensures Label(Ratio(DefaultDone, DefaultReceived)) == "perfect"
    ensures Percentages(DefaultDone, DefaultReceived).0 == 100.0
  {
    var r := Ratio(DefaultDone, DefaultReceived);
    assert 1.0 <= r < 1.05 by {
      assert r * 1.11 == 1.16;
    }
    assert RoundReal(10.0 * r) == 10;
    assert FixedText(10, 1) == "1.0" by {
      assert DropDigits(10, 1) == 1;
      assert NatToString(1) == "1";
      assert LowDigits(10, 1) == "0";
    }
  }
}
