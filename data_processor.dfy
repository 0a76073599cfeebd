/** The labelling and candle-pattern part of the backend's `DataProcessor`:
    a frame of daily bars to which columns are appended, the Doji and
    bullish-engulfing flags, the forward-looking target built by
    `prepare_target`, and the NaN filter of `get_processed_data`. */
module Processing {
  import opened Common

  /** One cell of a numeric column; `None` is pandas' missing value (NaN). */
  type Cell = Option<real>

  /** The CDL_DOJI and CDL_ENGULFING columns of one row (each 0 or 1). */
  datatype Candles = Candles(doji: int, engulfing: int)

  /** The Future_Close and Target_Direction columns of one row that survived
      `prepare_target`'s drop of missing future closes. */
  datatype Target = Target(futureClose: real, direction: int)

  /** One row of the frame: the bar's OHLCV cells, the columns the indicator
      library appended, and the candle and target columns once appended
      (`None` there means the column is not in the frame yet). */
  datatype Row = Row(
    open: Cell, high: Cell, low: Cell, close: Cell, volume: Cell,
    indicators: seq<Cell>,
    candles: Option<Candles>,
    target: Option<Target>)

  /** The bar of a row: what `add_indicators` and `prepare_target` never change. */
  function Bar(r: Row): (Cell, Cell, Cell, Cell, Cell)
  {
    (r.open, r.high, r.low, r.close, r.volume)
  }

  /** `a < b` between two cells; any comparison with NaN is false. */
  predicate Less(a: Cell, b: Cell)
  {
    a.Some? && b.Some? && a.value < b.value
  }

  /** pandas' `astype(int)` on a boolean. */
  function Flag(b: bool): int
  {
    if b then 1 else 0
  }

  // ---------------------------------------------------------------------
  // Candle patterns (add_indicators, hand-written part)
  // ---------------------------------------------------------------------

  /** Doji: the body |Close - Open| is at most a tenth of the range High - Low.
      A missing cell makes the comparison false. */
  predicate IsDoji(r: Row)
  {
    r.open.Some? && r.high.Some? && r.low.Some? && r.close.Some? &&
    AbsReal(r.close.value - r.open.value) <= (r.high.value - r.low.value) * 0.1
  }

  /** Bullish engulfing of `cur` over its predecessor `prev`: previous bar red,
      current bar green, current open below the previous close and current
      close above the previous open. */
  predicate IsBullishEngulfing(prev: Row, cur: Row)
  {
    Less(prev.close, prev.open) && Less(cur.open, cur.close) &&
    Less(cur.open, prev.close) && Less(prev.open, cur.close)
  }

  /** The engulfing test at row `i`; the first row's shifted predecessor is NaN,
      so it is never engulfing. */
  predicate EngulfingAt(rows: seq<Row>, i: nat)
    requires i < |rows|
  {
    i > 0 && IsBullishEngulfing(rows[i - 1], rows[i])
  }

  /** The frame `add_indicators` produces: row `i` gets the indicator library's
      columns `library[i]` and the two candle flags; nothing else changes. */
  function WithIndicators(rows: seq<Row>, library: seq<seq<Cell>>): (r: seq<Row>)
    requires |library| == |rows|
    ensures |r| == |rows|
    ensures forall i :: 0 <= i < |r| ==>
      Bar(r[i]) == Bar(rows[i]) && r[i].target == rows[i].target &&
      r[i].indicators == library[i] && r[i].candles.Some?
    ensures forall i :: 0 <= i < |r| ==>
      var c := r[i].candles.value;
      (c.doji == 0 || c.doji == 1) && (c.engulfing == 0 || c.engulfing == 1)
    ensures forall i :: 0 <= i < |r| ==>
      (r[i].candles.value.doji == 1 <==>
         rows[i].open.Some? && rows[i].high.Some? && rows[i].low.Some? && rows[i].close.Some? &&
         AbsReal(rows[i].close.value - rows[i].open.value)
           <= 0.1 * (rows[i].high.value - rows[i].low.value))
    ensures forall i :: 0 < i < |r| ==>
      (r[i].candles.value.engulfing == 1 <==>
         Less(rows[i - 1].close, rows[i - 1].open) && Less(rows[i].open, rows[i].close) &&
         Less(rows[i].open, rows[i - 1].close) && Less(rows[i - 1].open, rows[i].close))
    ensures |r| > 0 ==> r[0].candles.value.engulfing == 0
  {
    seq(|rows|, i requires 0 <= i < |rows| =>
      rows[i].(indicators := library[i],
               candles := Some(Candles(Flag(IsDoji(rows[i])), Flag(EngulfingAt(rows, i))))))
  }

  /** The candle flags are causal: the flags of row `i` depend on rows `i - 1`
      and `i` only, so changing any later bar leaves them as they were. */
  lemma CandlesAreCausal(rows: seq<Row>, rows': seq<Row>, library: seq<seq<Cell>>,
                         library': seq<seq<Cell>>, i: nat)
    requires |library| == |rows| && |library'| == |rows'|
    requires i < |rows| && i < |rows'|
    requires rows[..i + 1] == rows'[..i + 1]
    ensures WithIndicators(rows, library)[i].candles == WithIndicators(rows', library')[i].candles
  {
    assert rows[i] == rows[..i + 1][i] == rows'[..i + 1][i] == rows'[i];
    if i > 0 {
      assert rows[i - 1] == rows[..i + 1][i - 1] == rows'[..i + 1][i - 1] == rows'[i - 1];
    }
  }

  // ---------------------------------------------------------------------
  // Target labelling (prepare_target)
  // ---------------------------------------------------------------------

  /** `df['Close'].shift(-h)` at row `i`: the close `h` rows later, NaN when
      that row lies outside the frame. */
  function FutureClose(rows: seq<Row>, h: int, i: int): (c: Cell)
    ensures 0 <= i + h < |rows| ==> c == rows[i + h].close
    ensures !(0 <= i + h < |rows|) ==> c == None
  {
    if 0 <= i + h < |rows| then rows[i + h].close else None
  }

  /** Row `i` with its Future_Close and Target_Direction columns set;
      the direction is 1 exactly when the future close is strictly greater. */
  function Labelled(rows: seq<Row>, h: int, i: nat): Row
    requires i < |rows| && FutureClose(rows, h, i).Some?
  {
    var future := FutureClose(rows, h, i);
    rows[i].(target := Some(Target(future.value, Flag(Less(rows[i].close, future)))))
  }

  /** Number of rows `j` in `[i, n)` whose row `j + h` also lies in `[0, n)`. */
  function Span(n: nat, h: int, i: nat): nat
  {
    Max(0, Min(n, n - h) - Max(i, -h))
  }

  ghost predicate ClosesPresent(rows: seq<Row>)
  {
    forall i :: 0 <= i < |rows| ==> rows[i].close.Some?
  }

  /** Every row carries a target whose direction is the strict comparison of
      its future close with its own close. */
  ghost predicate WellLabelled(rows: seq<Row>)
  {
    forall k :: 0 <= k < |rows| ==>
      rows[k].target.Some? &&
      var t := rows[k].target.value;
      (t.direction == 0 || t.direction == 1) &&
      (t.direction == 1 <==> rows[k].close.Some? && t.futureClose > rows[k].close.value)
  }

  /** The labelled rows from index `i` on, with the rows whose future close is
      missing dropped (`dropna(subset=['Future_Close'])`). */
  function LabelFrom(rows: seq<Row>, h: int, i: nat): (r: seq<Row>)
    requires i <= |rows|
    decreases |rows| - i
    ensures |r| <= Span(|rows|, h, i)
    ensures WellLabelled(r)
    ensures ClosesPresent(rows) ==>
      |r| == Span(|rows|, h, i) &&
      forall k :: 0 <= k < |r| ==> r[k] == Labelled(rows, h, k + Max(i, -h))
  {
    if i == |rows| then []
    else
      var rest := LabelFrom(rows, h, i + 1);
      if FutureClose(rows, h, i).Some? then [Labelled(rows, h, i)] + rest else rest
  }

  /** `prepare_target(h)` on the frame's rows. */
  function LabelledFrame(rows: seq<Row>, h: int): (r: seq<Row>)
    ensures |r| <= Max(0, |rows| - h) && |r| <= Max(0, |rows| + h)
    ensures WellLabelled(r)
    ensures 0 <= h <= |rows| && ClosesPresent(rows) ==>
      |r| == |rows| - h &&
      forall k :: 0 <= k < |r| ==>
        Bar(r[k]) == Bar(rows[k]) && r[k].indicators == rows[k].indicators &&
        r[k].candles == rows[k].candles &&
        r[k].target == Some(Target(rows[k + h].close.value,
                                   Flag(rows[k + h].close.value > rows[k].close.value)))
  {
    LabelFrom(rows, h, 0)
  }

  /** Every labelled row `k` from index `i` on is some input row `j >= i`
      whose close `h` rows later exists, labelled with that close. */
  lemma {:induction false} LabelFromSource(rows: seq<Row>, h: int, i: nat, k: nat) returns (j: nat)
    requires i <= |rows| && k < |LabelFrom(rows, h, i)|
    decreases |rows| - i
    ensures i <= j < |rows| && FutureClose(rows, h, j).Some?
    ensures LabelFrom(rows, h, i)[k] == Labelled(rows, h, j)
  {
    var rest := LabelFrom(rows, h, i + 1);
    if FutureClose(rows, h, i).Some? {
      if k == 0 {
        j := i;
      } else {
        j := LabelFromSource(rows, h, i + 1, k - 1);
      }
    } else {
      j := LabelFromSource(rows, h, i + 1, k);
    }
  }

  /** The input rows from index `i` on whose close `h` rows later exists, in
      increasing order: exactly the rows `dropna(subset=['Future_Close'])`
      keeps. */
  function KeptRows(rows: seq<Row>, h: int, i: nat): (ks: seq<nat>)
    requires i <= |rows|
    decreases |rows| - i
    ensures forall k :: 0 <= k < |ks| ==> i <= ks[k] < |rows| && FutureClose(rows, h, ks[k]).Some?
    ensures forall k1, k2 :: 0 <= k1 < k2 < |ks| ==> ks[k1] < ks[k2]
  {
    if i == |rows| then []
    else
      var rest := KeptRows(rows, h, i + 1);
      if FutureClose(rows, h, i).Some? then [i] + rest else rest
  }

  /** `KeptRows` misses no row: every index from `i` on whose close `h` rows
      later exists is listed. */
  lemma {:induction false} KeptRowsComplete(rows: seq<Row>, h: int, i: nat, j: nat)
    requires i <= j < |rows| && FutureClose(rows, h, j).Some?
    decreases j - i
    ensures j in KeptRows(rows, h, i)
  {
    if i < j {
      KeptRowsComplete(rows, h, i + 1, j);
    }
  }

  /** `r` is the rows `ks` of `rows`, each labelled, in the order of `ks`. */
  ghost predicate LabelsRows(rows: seq<Row>, h: int, r: seq<Row>, ks: seq<nat>)
  {
    |r| == |ks| &&
    forall k :: 0 <= k < |ks| ==>
      ks[k] < |rows| && FutureClose(rows, h, ks[k]).Some? && r[k] == Labelled(rows, h, ks[k])
  }

  /** The closed form of the labelled suffix on any frame: row `k` of the
      result is input row `KeptRows(..)[k]`, labelled, and nothing else is
      kept. */
  lemma LabelFromExact(rows: seq<Row>, h: int, i: nat)
    requires i <= |rows|
    ensures |LabelFrom(rows, h, i)| == |KeptRows(rows, h, i)|
    ensures forall k :: 0 <= k < |KeptRows(rows, h, i)| ==>
      LabelFrom(rows, h, i)[k] == Labelled(rows, h, KeptRows(rows, h, i)[k])
  {
    LabelFromLabelsKept(rows, h, i);
  }

  lemma {:induction false} LabelFromLabelsKept(rows: seq<Row>, h: int, i: nat)
    requires i <= |rows|
    decreases |rows| - i
    ensures LabelsRows(rows, h, LabelFrom(rows, h, i), KeptRows(rows, h, i))
  {
    if i < |rows| {
      LabelFromLabelsKept(rows, h, i + 1);
      StepUnfold(rows, h, i);
      if FutureClose(rows, h, i).Some? {
        ConsLabelled(rows, h, i, LabelFrom(rows, h, i + 1), KeptRows(rows, h, i + 1));
      }
    }
  }

  /** One step of `LabelFrom` and `KeptRows` together. */
  lemma StepUnfold(rows: seq<Row>, h: int, i: nat)
    requires i < |rows|
    ensures FutureClose(rows, h, i).Some? ==>
      LabelFrom(rows, h, i) == [Labelled(rows, h, i)] + LabelFrom(rows, h, i + 1) &&
      KeptRows(rows, h, i) == [i] + KeptRows(rows, h, i + 1)
    ensures FutureClose(rows, h, i).None? ==>
      LabelFrom(rows, h, i) == LabelFrom(rows, h, i + 1) &&
      KeptRows(rows, h, i) == KeptRows(rows, h, i + 1)
  {
  }

  /** Putting row `i` in front of a labelled list and of its index list keeps
      them matched entry by entry. */
  lemma ConsLabelled(rows: seq<Row>, h: int, i: nat, r: seq<Row>, ks: seq<nat>)
    requires i < |rows| && FutureClose(rows, h, i).Some?
    requires LabelsRows(rows, h, r, ks)
    ensures LabelsRows(rows, h, [Labelled(rows, h, i)] + r, [i] + ks)
  {
    var r2, ks2 := [Labelled(rows, h, i)] + r, [i] + ks;
    forall k | 0 <= k < |ks2|
      ensures ks2[k] < |rows| && FutureClose(rows, h, ks2[k]).Some? && r2[k] == Labelled(rows, h, ks2[k])
    {
      if k > 0 {
        assert r2[k] == r[k - 1] && ks2[k] == ks[k - 1];
      }
    }
  }

  /** `prepare_target(h)` on any frame, missing closes included: its rows are
      the input rows whose close `h` rows later exists, in input order, each
      labelled with that close. */
  lemma PrepareTargetExact(rows: seq<Row>, h: int)
    ensures |LabelledFrame(rows, h)| == |KeptRows(rows, h, 0)|
    ensures forall k :: 0 <= k < |KeptRows(rows, h, 0)| ==>
      LabelledFrame(rows, h)[k] == Labelled(rows, h, KeptRows(rows, h, 0)[k])
  {
    LabelFromExact(rows, h, 0);
  }

  /** Conversely, every row `j >= i` whose close `h` rows later exists is
      kept, labelled with that close. */
  lemma {:induction false} LabelFromComplete(rows: seq<Row>, h: int, i: nat, j: nat)
    requires i <= j < |rows| && FutureClose(rows, h, j).Some?
    decreases j - i
    ensures Labelled(rows, h, j) in LabelFrom(rows, h, i)
  {
    if i < j {
      LabelFromComplete(rows, h, i + 1, j);
    }
  }

  /** Kept rows stay in input order: an earlier labelled row comes from an
      earlier input row. */
  lemma LabelFromOrdered(rows: seq<Row>, h: int, i: nat, k1: nat, k2: nat)
    returns (j1: nat, j2: nat)
    requires i <= |rows| && k1 < k2 < |LabelFrom(rows, h, i)|
    ensures i <= j1 < j2 < |rows|
    ensures FutureClose(rows, h, j1).Some? && FutureClose(rows, h, j2).Some?
    ensures LabelFrom(rows, h, i)[k1] == Labelled(rows, h, j1)
    ensures LabelFrom(rows, h, i)[k2] == Labelled(rows, h, j2)
  {
    LabelFromExact(rows, h, i);
    var ks := KeptRows(rows, h, i);
    j1, j2 := ks[k1], ks[k2];
  }

  /** `prepare_target` drops only rows whose outcome is unknown: every row
      whose close `h` rows later was observed is kept, labelled with it. */
  lemma KeepsEveryRealisedRow(rows: seq<Row>, h: int, j: nat)
    requires j < |rows| && 0 <= j + h < |rows| && rows[j + h].close.Some?
    ensures Labelled(rows, h, j) in LabelledFrame(rows, h)
  {
    LabelFromComplete(rows, h, 0, j);
  }

  /** No look-ahead beyond the data: every row that `prepare_target` keeps is an
      input row whose close `h` rows later was actually observed, and its
      Future_Close is that observed close. Rows whose outcome is not yet
      realised never reach training. */
  lemma OnlyRealisedOutcomes(rows: seq<Row>, h: int, k: nat) returns (j: nat)
    requires k < |LabelledFrame(rows, h)|
    ensures j < |rows| && 0 <= j + h < |rows| && rows[j + h].close.Some?
    ensures Bar(LabelledFrame(rows, h)[k]) == Bar(rows[j])
    ensures LabelledFrame(rows, h)[k].target == Some(Target(rows[j + h].close.value,
              Flag(Less(rows[j].close, rows[j + h].close))))
  {
    j := LabelFromSource(rows, h, 0, k);
  }

  /** Calling `prepare_target` twice drops `h1 + h2` rows: the second call
      labels the already shortened frame, so its targets look `h2` rows ahead
      in the original frame and replace the first call's targets. */
  lemma PrepareTargetTwice(rows: seq<Row>, h1: nat, h2: nat)
    requires h1 + h2 <= |rows| && ClosesPresent(rows)
    ensures var r := LabelledFrame(LabelledFrame(rows, h1), h2);
      |r| == |rows| - h1 - h2 &&
      forall k :: 0 <= k < |r| ==>
        Bar(r[k]) == Bar(rows[k]) &&
        r[k].target.value.futureClose == rows[k + h2].close.value
  {
    var once := LabelledFrame(rows, h1);
    assert ClosesPresent(once) by {
      forall k | 0 <= k < |once| ensures once[k].close.Some? {
        assert Bar(once[k]) == Bar(rows[k]);
      }
    }
    var twice := LabelledFrame(once, h2);
    forall k | 0 <= k < |twice|
      ensures Bar(twice[k]) == Bar(rows[k])
      ensures twice[k].target.value.futureClose == rows[k + h2].close.value
    {
      assert Bar(twice[k]) == Bar(once[k]);
      assert Bar(once[k + h2]) == Bar(rows[k + h2]);
    }
  }

  // ---------------------------------------------------------------------
  // Missing-value filter (get_processed_data)
  // ---------------------------------------------------------------------

  /** A row with no missing value in any column. The candle and target
      columns are never NaN once present. */
  predicate Complete(r: Row)
  {
    r.open.Some? && r.high.Some? && r.low.Some? && r.close.Some? && r.volume.Some? &&
    forall c :: c in r.indicators ==> c.Some?
  }

  /** `dropna()`: the rows without missing values, in their original order. */
  function DropMissing(rows: seq<Row>): (r: seq<Row>)
    ensures |r| <= |rows|
    ensures forall x :: x in r <==> x in rows && Complete(x)
    ensures (forall i :: 0 <= i < |rows| ==> Complete(rows[i])) ==> r == rows
  {
    if rows == [] then []
    else if Complete(rows[0]) then [rows[0]] + DropMissing(rows[1..])
    else DropMissing(rows[1..])
  }

  /** `dropna()` keeps order: filtering a concatenation filters each part. */
  lemma {:induction false} DropMissingAppend(a: seq<Row>, b: seq<Row>)
    ensures DropMissing(a + b) == DropMissing(a) + DropMissing(b)
  {
    if a == [] {
      assert a + b == b;
    } else {
      assert (a + b)[1..] == a[1..] + b;
      DropMissingAppend(a[1..], b);
    }
  }

  // ---------------------------------------------------------------------
  // The processor object
  // ---------------------------------------------------------------------

  /** `DataProcessor`: a ticker and the frame `df` that each step replaces. */
  class DataProcessor {
    var ticker: string
    var df: Option<seq<Row>>

    constructor (ticker: string)
      ensures this.ticker == ticker && df == None
    {
      this.ticker := ticker;
      df := None;
    }

    /** What `fetch_data` leaves behind once the download has returned `downloaded`:
        the frame is stored even when it is empty, and an empty download raises. */
    method FetchData(downloaded: seq<Row>) returns (r: Result<seq<Row>>)
      modifies this`df
      ensures df == Some(downloaded)
      ensures r == if downloaded == [] then Failure(ValueError("No data found for " + ticker))
                   else Success(downloaded)
    {
      df := Some(downloaded);
      if downloaded == [] {
        return Failure(ValueError("No data found for " + ticker));
      }
      return Success(downloaded);
    }

    /** `add_indicators`: fails on a missing or empty frame and leaves it alone;
        otherwise appends the library's columns and the two candle flags and
        makes the result the new frame. */
    method AddIndicators(library: seq<seq<Cell>>) returns (r: Result<seq<Row>>)
      requires df.Some? ==> |library| == |df.value|
      modifies this`df
      ensures old(df).None? || old(df) == Some([]) ==>
        r == Failure(ValueError("Dataframe is empty. Fetch data first.")) && df == old(df)
      ensures old(df).Some? && old(df) != Some([]) ==>
        r == Success(WithIndicators(old(df).value, library)) && df == Some(r.value)
    {
      if df.None? || df == Some([]) {
        return Failure(ValueError("Dataframe is empty. Fetch data first."));
      }
      var rows := WithIndicators(df.value, library);
      df := Some(rows);
      return Success(rows);
    }

    /** `prepare_target(h)`: fails on a missing frame; otherwise labels it and
        makes the labelled frame the new frame. */
    method PrepareTarget(h: int) returns (r: Result<seq<Row>>)
      modifies this`df
      ensures old(df).None? ==> r == Failure(ValueError("No data.")) && df == old(df)
      ensures old(df).Some? ==>
        r == Success(LabelledFrame(old(df).value, h)) && df == Some(r.value)
    {
      if df.None? {
        return Failure(ValueError("No data."));
      }
      var rows := LabelledFrame(df.value, h);
      df := Some(rows);
      return Success(rows);
    }

    /** `get_processed_data`: the complete rows of the frame; the frame itself is
        not changed. On a missing frame the call fails (`None` has no `dropna`). */
    method GetProcessedData() returns (r: Result<seq<Row>>)
      ensures df.None? ==> r.Failure?
      ensures df.Some? ==> r.Success? && r.value == DropMissing(df.value)
    {
      if df.None? {
        return Failure(AttributeError("'NoneType' object has no attribute 'dropna'"));
      }
      return Success(DropMissing(df.value));
    }
  }
}
