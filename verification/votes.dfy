/** The three per-strategy voting rules and the rule that merges their votes.
    A vote is -1 (sell), 0 (hold) or +1 (buy). */
module Votes {
  import opened Options
  import opened Series

  predicate IsVote(v: int) {
    v == -1 || v == 0 || v == 1
  }

  /** An upward cross between two consecutive bars: all four values exist,
      the fast line was at or below the slow line and is now strictly above. */
  predicate CrossesUp(prevFast: Option<real>, prevSlow: Option<real>, fast: Option<real>, slow: Option<real>) {
    && prevFast.Some? && prevSlow.Some? && fast.Some? && slow.Some?
    && prevFast.value <= prevSlow.value
    && fast.value > slow.value
  }

  /** A downward cross: the fast line was at or above the slow line and is now
      strictly below. */
  predicate CrossesDown(prevFast: Option<real>, prevSlow: Option<real>, fast: Option<real>, slow: Option<real>) {
    && prevFast.Some? && prevSlow.Some? && fast.Some? && slow.Some?
    && prevFast.value >= prevSlow.value
    && fast.value < slow.value
  }

  /** The two crossing directions exclude each other, so the sell rule, which
      is applied after the buy rule, never overwrites a buy. */
  lemma CrossDirectionsExclusive(prevFast: Option<real>, prevSlow: Option<real>, fast: Option<real>, slow: Option<real>)
    ensures !(CrossesUp(prevFast, prevSlow, fast, slow) && CrossesDown(prevFast, prevSlow, fast, slow))
  {
  }

  /** `v` is the crossover vote column of `fast` against `slow`: +1 exactly
      on an upward cross into bar t, -1 exactly on a downward cross, else 0.
      The first bar has no predecessor and never crosses. */
  ghost predicate CrossSpec(v: seq<int>, fast: seq<Option<real>>, slow: seq<Option<real>>)
    requires |fast| == |slow|
  {
    && |v| == |fast|
    && forall t :: 0 <= t < |v| ==>
         && IsVote(v[t])
         && (v[t] == 1 <==> t > 0 && CrossesUp(fast[t - 1], slow[t - 1], fast[t], slow[t]))
         && (v[t] == -1 <==> t > 0 && CrossesDown(fast[t - 1], slow[t - 1], fast[t], slow[t]))
  }

  /** The crossover rule (used for SMA20/SMA50 and for MACD/signal line):
      a buy column from the upward condition, then the sell condition written
      over it, both comparing the columns with their `shift(1)`. */
  function CrossVotes(fast: seq<Option<real>>, slow: seq<Option<real>>): (r: seq<int>)
    requires |fast| == |slow|
    ensures CrossSpec(r, fast, slow)
  {
    var prevFast := Shift(fast);
    var prevSlow := Shift(slow);
    var buy := seq(|fast|, t requires 0 <= t < |fast| =>
      if Gt(fast[t], slow[t]) && Le(prevFast[t], prevSlow[t]) then 1 else 0);
    seq(|fast|, t requires 0 <= t < |fast| =>
      if Lt(fast[t], slow[t]) && Ge(prevFast[t], prevSlow[t]) then -1 else buy[t])
  }

  /** If the two lines are defined on bars i..j, the fast line is at or
      above the slow one at i and strictly below at j, some bar in i+1..j
      carries a sell vote: a downward crossing is never missed. */
  lemma {:induction false} DownCrossNotMissed(fast: seq<Option<real>>, slow: seq<Option<real>>, i: nat, j: nat)
    requires |fast| == |slow|
    requires i < j < |fast|
    requires forall t :: i <= t <= j ==> fast[t].Some? && slow[t].Some?
    requires fast[i].value >= slow[i].value
    requires fast[j].value < slow[j].value
    ensures exists t :: i < t <= j && CrossVotes(fast, slow)[t] == -1
    decreases j - i
  {
    var v := CrossVotes(fast, slow);
    if fast[j - 1].value >= slow[j - 1].value {
      assert CrossesDown(fast[j - 1], slow[j - 1], fast[j], slow[j]);
      assert v[j] == -1;
    } else {
      DownCrossNotMissed(fast, slow, i, j - 1);
    }
  }

  /** Dually, an upward crossing inside a defined stretch is never missed. */
  lemma {:induction false} UpCrossNotMissed(fast: seq<Option<real>>, slow: seq<Option<real>>, i: nat, j: nat)
    requires |fast| == |slow|
    requires i < j < |fast|
    requires forall t :: i <= t <= j ==> fast[t].Some? && slow[t].Some?
    requires fast[i].value <= slow[i].value
    requires fast[j].value > slow[j].value
    ensures exists t :: i < t <= j && CrossVotes(fast, slow)[t] == 1
    decreases j - i
  {
    var v := CrossVotes(fast, slow);
    if fast[j - 1].value <= slow[j - 1].value {
      assert CrossesUp(fast[j - 1], slow[j - 1], fast[j], slow[j]);
      assert v[j] == 1;
    } else {
      UpCrossNotMissed(fast, slow, i, j - 1);
    }
  }

  /** Equality counts as "not yet crossed" on the previous bar only: a fast
      line that is above the slow line, touches it at bar t and rises again
      at t+1 votes hold at t and buy at t+1, although it never went below. */
  lemma TouchFromAboveThenRiseBuys(fast: seq<Option<real>>, slow: seq<Option<real>>, t: nat)
    requires |fast| == |slow|
    requires 0 < t && t + 1 < |fast|
    requires forall k :: t - 1 <= k <= t + 1 ==> fast[k].Some? && slow[k].Some?
    requires fast[t - 1].value > slow[t - 1].value
    requires fast[t].value == slow[t].value
    requires fast[t + 1].value > slow[t + 1].value
    ensures CrossVotes(fast, slow)[t] == 0
    ensures CrossVotes(fast, slow)[t + 1] == 1
  {
  }

  /** An instance: a buy at bar 1, a touch at bar 2, and a second buy at
      bar 3 with no sell between the two buys. */
  lemma TouchThenRiseGivesSecondBuy()
    ensures CrossVotes([Some(0.0), Some(2.0), Some(1.0), Some(2.0)], [Some(1.0), Some(1.0), Some(1.0), Some(1.0)]) == [0, 1, 0, 1]
  {
  }

  /** `v` is the threshold vote column of `xs`: -1 strictly above
      `overbought`, otherwise +1 strictly below `oversold`, otherwise 0; a
      missing value votes 0. The overbought rule is applied last and wins. */
  ghost predicate ThresholdSpec(v: seq<int>, xs: seq<Option<real>>, oversold: real, overbought: real) {
    && |v| == |xs|
    && forall t :: 0 <= t < |v| ==>
         && IsVote(v[t])
         && (v[t] == -1 <==> xs[t].Some? && xs[t].value > overbought)
         && (v[t] == 1 <==> xs[t].Some? && xs[t].value < oversold && !(xs[t].value > overbought))
  }

  /** The level rule: a buy column from `< oversold`, then `> overbought`
      written over it. */
  function ThresholdVotes(xs: seq<Option<real>>, oversold: real, overbought: real): (r: seq<int>)
    ensures ThresholdSpec(r, xs, oversold, overbought)
  {
    var buy := seq(|xs|, t requires 0 <= t < |xs| => if Lt(xs[t], Some(oversold)) then 1 else 0);
    seq(|xs|, t requires 0 <= t < |xs| => if Gt(xs[t], Some(overbought)) then -1 else buy[t])
  }

  const RsiOversold: real := 30.0
  const RsiOverbought: real := 70.0

  /** The RSI rule with the program's thresholds 30 and 70. Because 30 < 70
      the two triggers cannot both fire, and a missing RSI votes 0. */
  function RsiVotes(rsi: seq<Option<real>>): (r: seq<int>)
    ensures ThresholdSpec(r, rsi, RsiOversold, RsiOverbought)
    ensures forall t :: 0 <= t < |r| ==>
      && (r[t] == 1 <==> rsi[t].Some? && rsi[t].value < 30.0)
      && (r[t] == -1 <==> rsi[t].Some? && rsi[t].value > 70.0)
      && (r[t] == 0 <==> rsi[t].None? || 30.0 <= rsi[t].value <= 70.0)
  {
    ThresholdVotes(rsi, RsiOversold, RsiOverbought)
  }

  /** With thresholds that overlap, a value that is both oversold and
      overbought votes sell: the rule applied second takes precedence. */
  lemma OverboughtTakesPrecedence(xs: seq<Option<real>>, oversold: real, overbought: real, t: nat)
    requires t < |xs| && xs[t].Some?
    requires overbought < xs[t].value < oversold
    ensures ThresholdVotes(xs, oversold, overbought)[t] == -1
  {
  }

  function Max(a: int, b: int): int {
    if a >= b then a else b
  }

  function Min(a: int, b: int): int {
    if a <= b then a else b
  }

  /** `r` is how three votes resolve: one of them; the least when any is
      negative, the greatest otherwise. On proper votes this is "sell
      dominates buy dominates hold". */
  ghost predicate Resolves(r: int, sma: int, rsi: int, macd: int) {
    && (r == sma || r == rsi || r == macd)
    && ((sma < 0 || rsi < 0 || macd < 0) ==> r <= sma && r <= rsi && r <= macd)
    && ((sma >= 0 && rsi >= 0 && macd >= 0) ==> r >= sma && r >= rsi && r >= macd)
    && (IsVote(sma) && IsVote(rsi) && IsVote(macd) ==>
          && IsVote(r)
          && (r == -1 <==> sma == -1 || rsi == -1 || macd == -1)
          && (r == 1 <==> (sma == 1 || rsi == 1 || macd == 1) && sma != -1 && rsi != -1 && macd != -1)
          && (r == 0 <==> sma != 1 && rsi != 1 && macd != 1 && sma != -1 && rsi != -1 && macd != -1))
  }

  /** The combination of one row: the row maximum, replaced by the row
      minimum where the minimum is negative. */
  function Combine(sma: int, rsi: int, macd: int): (r: int)
    ensures Resolves(r, sma, rsi, macd)
  {
    var highest := Max(Max(sma, rsi), macd);
    var lowest := Min(Min(sma, rsi), macd);
    if lowest < 0 then lowest else highest
  }

  /** The conflict scenario: an SMA buy, an RSI hold and a MACD sell
      resolve to sell. */
  lemma SellDominatesBuy()
    ensures Combine(1, 0, -1) == -1
  {
  }
}
