/** How often one deadline is rewritten: reconciles may come at any times, but a deadline with more than
    120 s left stays, and each rewrite stores whole seconds. Every rewrite is taken to succeed. */
module Renewals {
  import opened Api
  import opened Lease

  predicate Nondecreasing(times: seq<int>) {
    forall i, j :: 0 <= i <= j < |times| ==> times[i] <= times[j]
  }

  /** The stored deadline after reconciles at these times, with an interval that does not change. */
  function DeadlineAfter(times: seq<int>, interval: int, first: Option<int>): Option<int> {
    if times == [] then first
    else
      var before, now := DeadlineAfter(times[..|times| - 1], interval, first), times[|times| - 1];
      if DeadlineChanged(Some(interval), before, now) then RenewedDeadline(Some(interval), before, now) else before
  }

  /** Those of them that rewrite the deadline. */
  function RewriteTimes(times: seq<int>, interval: int, first: Option<int>): seq<int> {
    if times == [] then []
    else
      var rest, now := times[..|times| - 1], times[|times| - 1];
      RewriteTimes(rest, interval, first)
      + if DeadlineChanged(Some(interval), DeadlineAfter(rest, interval, first), now) then [now] else []
  }

  function Floor(t: int): int {
    t - t % SECOND
  }

  function Max(a: int, b: int): int {
    if a < b then b else a
  }

  /** When a deadline written at `last` is due again. */
  function Due(last: int, interval: int): int {
    Floor(last + interval) - RENEW_BELOW
  }

  lemma RewriteDueIff(last: int, interval: int, now: int)
    requires interval != 0
    ensures DeadlineChanged(Some(interval), Rounded(Some(last + interval)), now) <==> now >= Due(last, interval)
  {
  }

  // ---- which sequences of rewrites occur ----

  predicate IsRewriteRun(rs: seq<int>, interval: int) {
    Nondecreasing(rs) && forall i :: 0 < i < |rs| ==> rs[i] >= Due(rs[i - 1], interval)
  }

  lemma RunExtends(rs: seq<int>, now: int, interval: int)
    requires IsRewriteRun(rs, interval) && (rs != [] ==> now >= rs[|rs| - 1] && now >= Due(rs[|rs| - 1], interval))
    ensures IsRewriteRun(rs + [now], interval)
  {
  }

  lemma RewriteStores(before: Option<int>, interval: int, now: int)
    requires interval != 0 && DeadlineChanged(Some(interval), before, now)
    ensures RenewedDeadline(Some(interval), before, now) == Rounded(Some(now + interval))
  {
  }

  lemma {:induction false} DeadlineFollows(times: seq<int>, interval: int, first: Option<int>)
    requires interval != 0
    ensures var rs := RewriteTimes(times, interval, first);
            DeadlineAfter(times, interval, first) == if rs == [] then first else Rounded(Some(rs[|rs| - 1] + interval))
  {
    if times != [] {
      var rest, now := times[..|times| - 1], times[|times| - 1];
      DeadlineFollows(rest, interval, first);
      if DeadlineChanged(Some(interval), DeadlineAfter(rest, interval, first), now) {
        RewriteStores(DeadlineAfter(rest, interval, first), interval, now);
      }
    }
  }

  lemma {:induction false} RewritesFormRun(times: seq<int>, interval: int, first: Option<int>)
    requires interval != 0 && Nondecreasing(times)
    ensures var rs := RewriteTimes(times, interval, first);
            IsRewriteRun(rs, interval) && (rs != [] ==> times != [] && rs[|rs| - 1] <= times[|times| - 1])
  {
    if times != [] {
      var rest, now := times[..|times| - 1], times[|times| - 1];
      RewritesFormRun(rest, interval, first);
      DeadlineFollows(rest, interval, first);
      var rs := RewriteTimes(rest, interval, first);
      if rs != [] {
        assert rs[|rs| - 1] <= rest[|rest| - 1] <= now;
        RewriteDueIff(rs[|rs| - 1], interval, now);
      }
      if DeadlineChanged(Some(interval), DeadlineAfter(rest, interval, first), now) {
        RunExtends(rs, now, interval);
      }
    }
  }

  lemma RunPrefix(rs: seq<int>, interval: int)
    requires rs != [] && IsRewriteRun(rs, interval)
    ensures IsRewriteRun(rs[..|rs| - 1], interval)
    ensures |rs| > 1 ==> rs[|rs| - 1] >= Due(rs[..|rs| - 1][|rs| - 2], interval)
  {
  }

  lemma {:induction false} RunsOccur(rs: seq<int>, interval: int)
    requires interval != 0 && IsRewriteRun(rs, interval)
    ensures RewriteTimes(rs, interval, None) == rs
  {
    if rs != [] {
      var rest, now := rs[..|rs| - 1], rs[|rs| - 1];
      RunPrefix(rs, interval);
      RunsOccur(rest, interval);
      DeadlineFollows(rest, interval, None);
      if rest != [] {
        RewriteDueIff(rest[|rest| - 1], interval, now);
      }
      assert rs == rest + [now];
    }
  }

  // ---- the exact spacing ----

  /** The earliest possible time of the k-th rewrite after the one at `r`. */
  function EarliestRewrite(r: int, interval: int, k: nat): int {
    if k == 0 then r
    else Max(EarliestRewrite(r, interval, k - 1), Due(EarliestRewrite(r, interval, k - 1), interval))
  }

  /** Rounding costs the fraction of a second of the first deadline once, and at each later rewrite that of the
      interval. */
  lemma {:induction false} EarliestClosedForm(r: int, interval: int, k: nat)
    ensures EarliestRewrite(r, interval, k)
            == if k == 0 then r else Max(r, Due(r, interval)) + (k - 1) * Max(0, Floor(interval) - RENEW_BELOW)
  {
    if k > 1 {
      EarliestClosedForm(r, interval, k - 1);
      var e := EarliestRewrite(r, interval, k - 1);
      var step := Max(0, Floor(interval) - RENEW_BELOW);
      assert (k - 1) * step == (k - 2) * step + step;
      if step == 0 {
        assert e == Max(r, Due(r, interval));
      } else {
        assert Due(r, interval) >= r;
        WholeSecondSteps(r, interval, k - 2);
      }
    }
  }

  lemma WholeSecondSteps(r: int, interval: int, n: nat)
    ensures var e := Due(r, interval) + n * (Floor(interval) - RENEW_BELOW);
            e % SECOND == 0 && Due(e, interval) == e + Floor(interval) - RENEW_BELOW
  {
    var m, w := (r + interval) / SECOND, interval / SECOND;
    var e := Due(r, interval) + n * (Floor(interval) - RENEW_BELOW);
    assert Floor(r + interval) == m * SECOND && Floor(interval) == w * SECOND;
    assert n * (w * SECOND - 120 * SECOND) == n * (w - 120) * SECOND;
    assert e == (m - 120 + n * (w - 120)) * SECOND;
  }

  lemma DueGrows(a: int, b: int, interval: int)
    requires a <= b
    ensures Due(a, interval) <= Due(b, interval)
  {
    var x, y := a + interval, b + interval;
    assert x / SECOND <= y / SECOND;
    assert Floor(x) == x / SECOND * SECOND && Floor(y) == y / SECOND * SECOND;
  }

  /** No history of reconciles rewrites a deadline earlier. */
  lemma {:induction false} RewritesSpaced(times: seq<int>, interval: int, first: Option<int>, k: nat)
    requires interval != 0 && Nondecreasing(times) && k < |RewriteTimes(times, interval, first)|
    ensures var rs := RewriteTimes(times, interval, first); rs[k] >= EarliestRewrite(rs[0], interval, k)
  {
    if k > 0 {
      RewritesSpaced(times, interval, first, k - 1);
      RewritesFormRun(times, interval, first);
      var rs := RewriteTimes(times, interval, first);
      DueGrows(EarliestRewrite(rs[0], interval, k - 1), rs[k - 1], interval);
    }
  }

  /** And one history attains all these times together, for every number of rewrites. */
  lemma SpacingAttained(r: int, interval: int, n: nat)
    requires interval != 0
    ensures var times := seq(n, k requires 0 <= k < n => EarliestRewrite(r, interval, k));
            Nondecreasing(times) && RewriteTimes(times, interval, None) == times
  {
    var times := seq(n, k requires 0 <= k < n => EarliestRewrite(r, interval, k));
    forall i, j | 0 <= i <= j < n ensures times[i] <= times[j] {
      EarliestGrows(r, interval, i, j);
    }
    assert IsRewriteRun(times, interval);
    RunsOccur(times, interval);
  }

  lemma {:induction false} EarliestGrows(r: int, interval: int, i: nat, j: nat)
    requires i <= j
    ensures EarliestRewrite(r, interval, i) <= EarliestRewrite(r, interval, j)
  {
    if i < j {
      EarliestGrows(r, interval, i, j - 1);
    }
  }

  // ---- the spacing by the interval less 120 s ----

  /** In every history whose first rewrite is at `r`, any n rewrites span n - 1 times the interval less 120 s. */
  ghost predicate FullySpaced(r: int, interval: int) {
    forall times: seq<int>, first: Option<int> ::
      var rs := RewriteTimes(times, interval, first);
      Nondecreasing(times) && rs != [] && rs[0] == r ==>
        (|rs| - 1) * (interval - RENEW_BELOW) <= rs[|rs| - 1] - r
  }

  lemma FullSpacingIff(r: int, interval: int)
    requires interval != 0
    ensures FullySpaced(r, interval) <==>
            interval <= RENEW_BELOW || (interval % SECOND == 0 && r % SECOND == 0)
  {
    if interval <= RENEW_BELOW || (interval % SECOND == 0 && r % SECOND == 0) {
      forall times: seq<int>, first: Option<int> |
        var rs := RewriteTimes(times, interval, first); Nondecreasing(times) && rs != [] && rs[0] == r
        ensures var rs := RewriteTimes(times, interval, first);
                (|rs| - 1) * (interval - RENEW_BELOW) <= rs[|rs| - 1] - r
      {
        var k := |RewriteTimes(times, interval, first)| - 1;
        RewritesSpaced(times, interval, first, k);
        SpannedInFull(r, interval, k);
      }
    } else if FullySpaced(r, interval) {
      SpacedAt(r, interval, 1);
      SpacedAt(r, interval, 2);
      EarliestClosedForm(r, interval, 1);
      EarliestClosedForm(r, interval, 2);
      assert false;
    }
  }

  lemma AddWholeSeconds(t: int, w: int)
    ensures (t + w * SECOND) % SECOND == t % SECOND
  {
  }

  lemma DueInWholeSeconds(last: int, interval: int)
    requires interval % SECOND == 0
    ensures Due(last, interval) == last - last % SECOND + interval - RENEW_BELOW
    ensures Due(last, interval) % SECOND == 0
  {
    var w := interval / SECOND;
    AddWholeSeconds(last, w);
    AddWholeSeconds(0, last / SECOND + w - 120);
    assert Due(last, interval) == 0 + (last / SECOND + w - 120) * SECOND;
  }

  lemma OneTimesMore(k: int, d: int)
    ensures k * d == (k - 1) * d + d
  {
  }

  lemma {:induction false} SpannedInFull(r: int, interval: int, k: nat)
    requires interval <= RENEW_BELOW || (interval % SECOND == 0 && r % SECOND == 0)
    ensures k * (interval - RENEW_BELOW) <= EarliestRewrite(r, interval, k) - r
    ensures interval > RENEW_BELOW ==> EarliestRewrite(r, interval, k) % SECOND == 0
  {
    if k > 0 {
      SpannedInFull(r, interval, k - 1);
      OneTimesMore(k, interval - RENEW_BELOW);
      if interval > RENEW_BELOW {
        DueInWholeSeconds(EarliestRewrite(r, interval, k - 1), interval);
      }
    }
  }

  lemma SpacedAt(r: int, interval: int, k: nat)
    requires interval != 0 && FullySpaced(r, interval)
    ensures k * (interval - RENEW_BELOW) <= EarliestRewrite(r, interval, k) - r
  {
    SpacingAttained(r, interval, k + 1);
    var times := seq(k + 1, i requires 0 <= i < k + 1 => EarliestRewrite(r, interval, i));
    assert RewriteTimes(times, interval, None) == times;
    assert times[0] == r;
  }

  lemma {:induction false} LossOnce(r: int, interval: int, k: nat)
    requires interval > RENEW_BELOW && interval % SECOND == 0
    ensures k * (interval - RENEW_BELOW) - r % SECOND <= EarliestRewrite(r, interval, k) - r
    ensures k > 0 ==> EarliestRewrite(r, interval, k) % SECOND == 0
  {
    if k > 0 {
      LossOnce(r, interval, k - 1);
      OneTimesMore(k, interval - RENEW_BELOW);
      DueInWholeSeconds(EarliestRewrite(r, interval, k - 1), interval);
    }
  }

  /** An interval in whole seconds above 120 s loses less than one second over any number of rewrites. */
  lemma WholeSecondLoss(times: seq<int>, interval: int, first: Option<int>)
    requires interval > RENEW_BELOW && interval % SECOND == 0 && Nondecreasing(times)
    requires RewriteTimes(times, interval, first) != []
    ensures var rs := RewriteTimes(times, interval, first);
            (|rs| - 1) * (interval - RENEW_BELOW) - rs[0] % SECOND <= rs[|rs| - 1] - rs[0]
  {
    var rs := RewriteTimes(times, interval, first);
    RewritesSpaced(times, interval, first, |rs| - 1);
    LossOnce(rs[0], interval, |rs| - 1);
  }
}
