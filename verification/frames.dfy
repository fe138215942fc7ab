/** The two tables the signal engine works between: the price table after the
    indicator columns have been attached, and the signal table it produces. */
module Frames {
  import opened Options

  /** The columns of the price table that signal generation reads. Indicator
      columns are produced by an external library and taken as given; a
      `None` cell is a NaN. */
  datatype Indicators = Indicators(
    close: seq<real>,
    sma20: seq<Option<real>>,
    sma50: seq<Option<real>>,
    rsi: seq<Option<real>>,
    macd: seq<Option<real>>,
    macdSignal: seq<Option<real>>)
  {
    /** All columns share the table's index. */
    predicate Aligned() {
      && |sma20| == |close|
      && |sma50| == |close|
      && |rsi| == |close|
      && |macd| == |close|
      && |macdSignal| == |close|
    }

    function Rows(): nat {
      |close|
    }
  }

  /** A table is always rectangular: columns of one table have one length. */
  type Frame = f: Indicators | f.Aligned() witness Indicators([], [], [], [], [], [])

  /** The signal table: `Price`, the combined `Signal` and the three
      per-strategy vote columns. The MACD vote column is the one the program
      stores under the name `MACD_Signal` in the signal table, not the MACD
      signal line of the price table. */
  datatype Signals = Signals(
    price: seq<real>,
    signal: seq<int>,
    smaVote: seq<int>,
    rsiVote: seq<int>,
    macdVote: seq<int>)
}
