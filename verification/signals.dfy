/** Signal generation: from the price table with its indicator columns to the
    signal table, one row per price row. */
module Signals {
  import opened Options
  import opened Frames
  import opened Votes

  /** Some strategy votes sell at bar t, read directly off the indicators. */
  ghost predicate SellAt(f: Frame, t: nat)
    requires t < f.Rows()
  {
    || (t > 0 && CrossesDown(f.sma20[t - 1], f.sma50[t - 1], f.sma20[t], f.sma50[t]))
    || (f.rsi[t].Some? && f.rsi[t].value > 70.0)
    || (t > 0 && CrossesDown(f.macd[t - 1], f.macdSignal[t - 1], f.macd[t], f.macdSignal[t]))
  }

  /** Some strategy votes buy at bar t. */
  ghost predicate BuyAt(f: Frame, t: nat)
    requires t < f.Rows()
  {
    || (t > 0 && CrossesUp(f.sma20[t - 1], f.sma50[t - 1], f.sma20[t], f.sma50[t]))
    || (f.rsi[t].Some? && f.rsi[t].value < 30.0)
    || (t > 0 && CrossesUp(f.macd[t - 1], f.macdSignal[t - 1], f.macd[t], f.macdSignal[t]))
  }

  /** `s` is the signal table of `f`: one row per price row, the price copied
      from the close, each vote column following its rule and the combined
      signal resolving the three votes of its own row. */
  ghost predicate SignalSpec(f: Frame, s: Signals) {
    && s.price == f.close
    && CrossSpec(s.smaVote, f.sma20, f.sma50)
    && ThresholdSpec(s.rsiVote, f.rsi, RsiOversold, RsiOverbought)
    && CrossSpec(s.macdVote, f.macd, f.macdSignal)
    && |s.signal| == f.Rows()
    && forall t :: 0 <= t < |s.signal| ==> Resolves(s.signal[t], s.smaVote[t], s.rsiVote[t], s.macdVote[t])
  }

  /** Signal generation. Without a table, or with an empty one, there is
      nothing to analyze and no signal table is produced. */
  function GenerateSignals(data: Option<Frame>): (r: Option<Signals>)
    ensures r.None? <==> data.None? || data.value.Rows() == 0
    ensures r.Some? ==> SignalSpec(data.value, r.value)
  {
    if data.None? || data.value.Rows() == 0 then None
    else
      var f := data.value;
      var sma := CrossVotes(f.sma20, f.sma50);
      var rsi := RsiVotes(f.rsi);
      var macd := CrossVotes(f.macd, f.macdSignal);
      var signal := seq(f.Rows(), t requires 0 <= t < f.Rows() => Combine(sma[t], rsi[t], macd[t]));
      Some(Signals(f.close, signal, sma, rsi, macd))
  }

  /** What the combined signal of bar t means in terms of the indicators:
      sell when any strategy sells, otherwise buy when any buys, otherwise
      hold. */
  lemma {:induction false} SignalMeaning(f: Frame, t: nat)
    requires t < f.Rows()
    ensures var s := GenerateSignals(Some(f)).value.signal[t];
      && IsVote(s)
      && (s == -1 <==> SellAt(f, t))
      && (s == 1 <==> !SellAt(f, t) && BuyAt(f, t))
      && (s == 0 <==> !SellAt(f, t) && !BuyAt(f, t))
  {
    var sig := GenerateSignals(Some(f)).value;
    assert SignalSpec(f, sig);
    assert IsVote(sig.smaVote[t]) && IsVote(sig.rsiVote[t]) && IsVote(sig.macdVote[t]);
    assert Resolves(sig.signal[t], sig.smaVote[t], sig.rsiVote[t], sig.macdVote[t]);
  }

  /** The first bar has no predecessor, so neither crossover strategy can
      vote there. */
  lemma FirstBarHasNoCrossVote(f: Frame)
    requires f.Rows() > 0
    ensures GenerateSignals(Some(f)).value.smaVote[0] == 0
    ensures GenerateSignals(Some(f)).value.macdVote[0] == 0
  {
    var sig := GenerateSignals(Some(f)).value;
    assert SignalSpec(f, sig);
  }

  /** A missing value in either line at bar t or t-1 silences that crossover
      vote at t. So when the slow average is missing on every bar, the SMA
      strategy votes 0 everywhere. */
  lemma MissingSilencesCross(f: Frame, t: nat)
    requires t < f.Rows()
    ensures (f.sma20[t].None? || f.sma50[t].None? || (t > 0 && (f.sma20[t - 1].None? || f.sma50[t - 1].None?)))
      ==> GenerateSignals(Some(f)).value.smaVote[t] == 0
    ensures (f.macd[t].None? || f.macdSignal[t].None? || (t > 0 && (f.macd[t - 1].None? || f.macdSignal[t - 1].None?)))
      ==> GenerateSignals(Some(f)).value.macdVote[t] == 0
  {
    var sig := GenerateSignals(Some(f)).value;
    assert SignalSpec(f, sig);
    assert IsVote(sig.smaVote[t]) && IsVote(sig.macdVote[t]);
  }

  /** The combined signal at bar t is decided by the indicator values at t
      and t-1 alone. */
  lemma {:induction false} SignalIsLocal(f: Frame, g: Frame, t: nat)
    requires t < f.Rows() && t < g.Rows()
    requires f.sma20[t] == g.sma20[t] && f.sma50[t] == g.sma50[t] && f.rsi[t] == g.rsi[t]
    requires f.macd[t] == g.macd[t] && f.macdSignal[t] == g.macdSignal[t]
    requires t > 0 ==> f.sma20[t - 1] == g.sma20[t - 1] && f.sma50[t - 1] == g.sma50[t - 1]
    requires t > 0 ==> f.macd[t - 1] == g.macd[t - 1] && f.macdSignal[t - 1] == g.macdSignal[t - 1]
    ensures GenerateSignals(Some(f)).value.signal[t] == GenerateSignals(Some(g)).value.signal[t]
  {
    SignalMeaning(f, t);
    SignalMeaning(g, t);
    assert SellAt(f, t) == SellAt(g, t);
    assert BuyAt(f, t) == BuyAt(g, t);
  }

  /** When SMA20 falls from at-or-above SMA50 at bar i to strictly below it at
      bar j over a stretch where both averages exist, the combined signal
      sells at some bar in i+1..j, whatever the other strategies say. */
  lemma {:induction false} SmaDownCrossSells(f: Frame, i: nat, j: nat)
    requires i < j < f.Rows()
    requires forall t :: i <= t <= j ==> f.sma20[t].Some? && f.sma50[t].Some?
    requires f.sma20[i].value >= f.sma50[i].value
    requires f.sma20[j].value < f.sma50[j].value
    ensures exists t :: i < t <= j && GenerateSignals(Some(f)).value.signal[t] == -1
  {
    var sig := GenerateSignals(Some(f)).value;
    DownCrossNotMissed(f.sma20, f.sma50, i, j);
    var t :| i < t <= j && CrossVotes(f.sma20, f.sma50)[t] == -1;
    assert sig.smaVote[t] == -1;
    assert Resolves(sig.signal[t], sig.smaVote[t], sig.rsiVote[t], sig.macdVote[t]);
  }

  /** The same for the MACD line falling through its signal line. */
  lemma {:induction false} MacdDownCrossSells(f: Frame, i: nat, j: nat)
    requires i < j < f.Rows()
    requires forall t :: i <= t <= j ==> f.macd[t].Some? && f.macdSignal[t].Some?
    requires f.macd[i].value >= f.macdSignal[i].value
    requires f.macd[j].value < f.macdSignal[j].value
    ensures exists t :: i < t <= j && GenerateSignals(Some(f)).value.signal[t] == -1
  {
    var sig := GenerateSignals(Some(f)).value;
    DownCrossNotMissed(f.macd, f.macdSignal, i, j);
    var t :| i < t <= j && CrossVotes(f.macd, f.macdSignal)[t] == -1;
    assert sig.macdVote[t] == -1;
    assert Resolves(sig.signal[t], sig.smaVote[t], sig.rsiVote[t], sig.macdVote[t]);
  }
}
