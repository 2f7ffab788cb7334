/**
 * The derived values of the profile page (src/pages/Profile.js): the audit
 * totals, the one-decimal ratio text and the status read back from that
 * text, the progress-bar percentages, the date fallback and the shortened
 * project path.
 */
module Profile {
  import opened Wrappers
  import opened Strings
  import opened Decimal
  import opened Transactions
  import opened AuditRules

  /** `auditData?.transaction.filter(up).reduce(sum) || 0`. */
  function AuditsDone(auditData: Option<seq<Transaction>>): nat
  {
    match auditData
    case None => 0
    case Some(txs) => TypeTotal(txs, "up")
  }

  /** `auditData?.transaction.filter(down).reduce(sum) || 0`. */
  function AuditsReceived(auditData: Option<seq<Transaction>>): nat
  {
    match auditData
    case None => 0
    case Some(txs) => TypeTotal(txs, "down")
  }

  /**
   * The totals, characterised record by record: absent data and an empty
   * list give 0, and one more record adds its amount to the total of its
   * own direction and nothing to the other.
   */
  lemma AuditTotalsStepwise(txs: seq<Transaction>, t: Transaction)
    ensures AuditsDone(None) == 0 && AuditsReceived(None) == 0
    ensures AuditsDone(Some([])) == 0 && AuditsReceived(Some([])) == 0
    ensures AuditsDone(Some(txs + [t])) == AuditsDone(Some(txs)) + (if t.txType == "up" then t.amount else 0)
    ensures AuditsReceived(Some(txs + [t])) == AuditsReceived(Some(txs)) + (if t.txType == "down" then t.amount else 0)
  {
    TypeTotalSnoc(txs, t, "up");
    TypeTotalSnoc(txs, t, "down");
  }

  /** Audit records of neither direction are ignored, wherever they stand in the list. */
  lemma AuditTotalsIgnoreOtherTypes(a: seq<Transaction>, t: Transaction, b: seq<Transaction>)
    requires t.txType != "up" && t.txType != "down"
    ensures AuditsDone(Some(a + [t] + b)) == AuditsDone(Some(a + b))
    ensures AuditsReceived(Some(a + [t] + b)) == AuditsReceived(Some(a + b))
  {
    TypeTotalIgnoresOthers(a, t, b, "up");
    TypeTotalIgnoresOthers(a, t, b, "down");
  }

  /** The ratio in tenths as `toFixed(1)` rounds it (halves up); 0 when nothing was received. */
  function RatioTenths(done: nat, received: nat): (t: nat)
    ensures received == 0 ==> t == 0
    ensures received > 0 ==> (2 * t - 1) * received <= 20 * done < (2 * t + 1) * received
  {
    if received > 0 then RoundHalfUp(10 * done, received) else 0
  }

  /**
   * `auditRatio`: `"0.0"` when nothing was received, otherwise done/received
   * written with one decimal. Reading the text back gives the ratio rounded
   * to the nearest tenth.
   */
  function AuditRatioText(done: nat, received: nat): (s: string)
    ensures received == 0 ==> s == "0.0"
    ensures ParseFixed(s, 1) == Some(RatioTenths(done, received)) && NoLeadingZero(s)
  {
    var s := if received > 0 then FixedText(RoundHalfUp(10 * done, received), 1) else "0.0";
    ParseFixedText(RatioTenths(done, received), 1);
    assert received == 0 ==> s == FixedText(0, 1) by {
      assert LowDigits(0, 1) == "0";
    }
    s
  }

  /**
   * `getRatioStatus(auditRatio)`: `parseFloat` of the text, then the status
   * rule. `parseFloat` is modelled on the text `toFixed(1)` writes, digits,
   * a point and one digit, the only text the page passes; any other text
   * is treated as NaN, for which every comparison is false, so the rule
   * falls through to its last branch.
   */
  function StatusOfText(text: string): (s: string)
    ensures ParseFixed(text, 1).None? ==> s == "needs improvement"
    ensures ParseFixed(text, 1).Some? ==> s == RatioStatus((ParseFixed(text, 1).value as real) / 10.0)
  {
    match ParseFixed(text, 1)
    case Some(tenths) => RatioStatus((tenths as real) / 10.0)
    case None => "needs improvement"
  }

  /** `ratioStatus` as the page computes it: from the displayed text, not the raw ratio. */
  function PageStatus(done: nat, received: nat): string
  {
    StatusOfText(AuditRatioText(done, received))
  }

  /**
   * The page status is the status of the ratio rounded to one decimal:
   * with t tenths, above 12 is "excellent", 10 to 12 "perfect", 8 to 9
   * "good", below 8 "needs improvement"; nothing received means
   * "needs improvement".
   */
  lemma PageStatusFromTenths(done: nat, received: nat)
    ensures var t := RatioTenths(done, received);
      && (PageStatus(done, received) == "excellent" <==> t > 12)
      && (PageStatus(done, received) == "perfect" <==> 10 <= t <= 12)
      && (PageStatus(done, received) == "good" <==> 8 <= t < 10)
      && (PageStatus(done, received) == "needs improvement" <==> t < 8)
    ensures received == 0 ==> PageStatus(done, received) == "needs improvement"
  {
    var t := RatioTenths(done, received);
    var x := (t as real) / 10.0;
    assert x > 1.2 <==> t > 12;
    assert x >= 1.0 <==> t >= 10;
    assert x >= 0.8 <==> t >= 8;
  }

  /** A raw ratio of 1.24 is displayed as "1.2" and so is "perfect" on the page. */
  lemma PageStatusOfOnePointTwoFour()
    ensures AuditRatioText(124, 100) == "1.2"
    ensures PageStatus(124, 100) == "perfect"
    ensures RatioStatus(Ratio(124, 100)) == "excellent"
  {
    assert RatioTenths(124, 100) == 12;
    assert FixedText(12, 1) == "1.2" by {
      assert DropDigits(12, 1) == 1;
      assert NatToString(1) == "1";
      assert LowDigits(12, 1) == "2";
    }
    PageStatusFromTenths(124, 100);
  }

  /**
   * `donePercentage`, `receivedPercentage`: each total as a percentage of
   * the larger one, both 0 when both totals are 0.
   */
  function Percentages(done: nat, received: nat): (p: (real, real))
    ensures done == 0 && received == 0 ==> p == (0.0, 0.0)
    ensures 0.0 <= p.0 <= 100.0 && 0.0 <= p.1 <= 100.0
    ensures done + received > 0 && done >= received ==> p.0 == 100.0
    ensures done + received > 0 && received >= done ==> p.1 == 100.0
    ensures p.0 * (received as real) == p.1 * (done as real)
  {
    var max := if done >= received then done else received;
    if max > 0 then
      var m := max as real;
      var dp := (done as real) / m * 100.0;
      var rp := (received as real) / m * 100.0;
      ShareTimes(done as real, m);
      ShareTimes(received as real, m);
      ProportionalShares(dp, rp, done as real, received as real, m);
      ShareAtMost(done as real, m);
      ShareAtMost(received as real, m);
      (dp, rp)
    else (0.0, 0.0)
  }

  /**
   * `formatDate`: a missing or empty date gives "". Otherwise the locale
   * rendering (an input here) loses its first comma.
   */
  function FormatDate(dateString: Option<string>, localeText: string -> string): (r: string)
    ensures dateString.None? || dateString == Some("") ==> r == ""
    ensures dateString.Some? && dateString.value != "" ==>
      var l := localeText(dateString.value);
      (Contains(l, ",") ==> |r| + 1 == |l|) && (!Contains(l, ",") ==> r == l)
  {
    match dateString
    case None => ""
    case Some(s) => if s == "" then "" else ReplaceFirst(localeText(s), ",", "")
  }

  /** A path of the form `bahrain/...` or `bahrain\...`. */
  predicate IsBahrainPath(p: string) {
    StartsWith(p, "bahrain\\") || StartsWith(p, "bahrain/")
  }

  /**
   * `formatProjectPath`: "" for a missing or empty path; the last segment
   * of a `bahrain/` or `bahrain\` path; otherwise the path with its first
   * "/bahrain/bh-module/" taken out.
   */
  function FormatProjectPath(path: Option<string>): (r: string)
    ensures path.None? || path == Some("") ==> r == ""
    ensures path.Some? && IsBahrainPath(path.value) ==>
      var p := path.value;
      |r| < |p| && r == p[|p| - |r|..] && IsSeparator(p[|p| - |r| - 1]) &&
      forall k :: 0 <= k < |r| ==> !IsSeparator(r[k])
    ensures path.Some? && path.value != "" && !IsBahrainPath(path.value) ==>
      r == ReplaceFirst(path.value, "/bahrain/bh-module/", "")
  {
    match path
    case None => ""
    case Some(p) =>
      if p == "" then ""
      else
        var formatted := ReplaceFirst(p, "/bahrain/bh-module/", "");
        if IsBahrainPath(p) then
          assert IsSeparator(p[7]);
          LastSegment(p)
        else formatted
  }

  /** Shortening a `bahrain/` path a second time changes nothing. */
  lemma FormatProjectPathSettles(p: string)
    requires IsBahrainPath(p)
    ensures FormatProjectPath(Some(FormatProjectPath(Some(p)))) == FormatProjectPath(Some(p))
  {
    var r := FormatProjectPath(Some(p));
    if r != "" {
      if |r| >= 8 {
        assert r[..8][7] == r[7] && !IsSeparator(r[7]);
      }
      SeparatorFreeHasNoModulePrefix(r);
    }
  }

  lemma SeparatorFreeHasNoModulePrefix(r: string)
    requires forall k :: 0 <= k < |r| ==> !IsSeparator(r[k])
    ensures !Contains(r, "/bahrain/bh-module/")
  {
    var pat := "/bahrain/bh-module/";
    forall k: nat ensures !OccursAt(r, pat, k) {
      if k + |pat| <= |r| {
        assert r[k..k + |pat|][0] == r[k];
      }
    }
    ContainsIff(r, pat);
  }
}
