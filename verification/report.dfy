/** The headline recommendation: the combined signal of the latest bar mapped
    to BUY, SELL or HOLD, together with the latest indicator values. */
module Report {
  import opened Options
  import opened Frames
  import opened Votes
  import opened Signals

  datatype Recommendation = Buy | Sell | Hold

  /** 1 is BUY, -1 is SELL and every other value is HOLD. */
  function Recommend(signal: int): (r: Recommendation)
    ensures r == Buy <==> signal == 1
    ensures r == Sell <==> signal == -1
  {
    if signal == 1 then Buy
    else if signal == -1 then Sell
    else Hold
  }

  /** The vote a recommendation stands for. */
  function VoteOf(r: Recommendation): (v: int)
    ensures IsVote(v)
  {
    match r
    case Buy => 1
    case Sell => -1
    case Hold => 0
  }

  /** On proper votes the mapping loses nothing: it and `VoteOf` are inverse
      to each other. */
  lemma RecommendRoundTrip(v: int, r: Recommendation)
    ensures IsVote(v) ==> VoteOf(Recommend(v)) == v
    ensures Recommend(VoteOf(r)) == r
  {
  }

  /** What the report shows: the latest price, the latest indicator values
      and the recommendation. */
  datatype Summary = Summary(
    price: real,
    sma20: Option<real>,
    sma50: Option<real>,
    rsi: Option<real>,
    macd: Option<real>,
    macdSignal: Option<real>,
    recommendation: Recommendation)

  /** The analysis after the table has been fetched and its indicators
      attached: `fetched` is None when the fetch failed. No summary is
      produced without data; otherwise the summary reads the last row. */
  function Analyze(fetched: Option<Frame>): (r: Option<Summary>)
    ensures r.None? <==> fetched.None? || fetched.value.Rows() == 0
    ensures r.Some? ==>
      var f := fetched.value;
      var last := f.Rows() - 1;
      && r.value.price == f.close[last]
      && r.value.sma20 == f.sma20[last]
      && r.value.sma50 == f.sma50[last]
      && r.value.rsi == f.rsi[last]
      && r.value.macd == f.macd[last]
      && r.value.macdSignal == f.macdSignal[last]
      && (r.value.recommendation == Sell <==> SellAt(f, last))
      && (r.value.recommendation == Buy <==> !SellAt(f, last) && BuyAt(f, last))
      && (r.value.recommendation == Hold <==> !SellAt(f, last) && !BuyAt(f, last))
  {
    match GenerateSignals(fetched)
    case None => None
    case Some(signals) =>
      var f := fetched.value;
      var last := f.Rows() - 1;
      SignalMeaning(f, last);
      Some(Summary(
        signals.price[last],
        f.sma20[last],
        f.sma50[last],
        f.rsi[last],
        f.macd[last],
        f.macdSignal[last],
        Recommend(signals.signal[last])))
  }
}
