/**
 Walk-forward evaluation of `backtesting/backtest_runner.py`:
 `walk_forward_splits`, `assert_no_lookahead`, the counting part of
 `_compute_metrics` and `run_walk_forward_backtest`.
 */
module WalkForward {
  import opened Wrappers

  // ---------------------------------------------------------------- data

  /** `id` is the row's index label; a label time may be missing (label not known yet). */
  datatype Row = Row(id: int, time: int, labelTime: Option<int>, target: int, features: int)

  datatype Config = Config(trainWindow: Option<int>, testWindow: int, step: int, useLabelTime: bool, gap: int) {
    // __post_init__
    predicate Valid() {
      testWindow > 0 && step > 0 && gap >= 0 && (trainWindow.Some? ==> trainWindow.value > 0)
    }
  }

  datatype Split = Split(train: seq<Row>, test: seq<Row>, boundary: int, testEnd: int)

  datatype SplitError = SharedRows | LateTraining | LateLabels | EarlyTest | NoFolds

  // ---------------------------------------------------------------- one fold

  predicate InTrain(c: Config, boundary: int, r: Row) {
    var cutoff := boundary - c.gap;
    && r.time < cutoff
    && (c.trainWindow.Some? ==> r.time >= cutoff - c.trainWindow.value)
    && (c.useLabelTime ==> r.labelTime.Some? && r.labelTime.value < cutoff)
  }

  predicate InTest(c: Config, boundary: int, r: Row) { boundary <= r.time < boundary + c.testWindow }

  function TrainRows(df: seq<Row>, c: Config, boundary: int): seq<Row> {
    if df == [] then []
    else (if InTrain(c, boundary, df[0]) then [df[0]] else []) + TrainRows(df[1..], c, boundary)
  }

  function TestRows(df: seq<Row>, c: Config, boundary: int): seq<Row> {
    if df == [] then []
    else (if InTest(c, boundary, df[0]) then [df[0]] else []) + TestRows(df[1..], c, boundary)
  }

  lemma {:induction false} RowsMembers(df: seq<Row>, c: Config, boundary: int)
    ensures forall r :: r in TrainRows(df, c, boundary) <==> r in df && InTrain(c, boundary, r)
    ensures forall r :: r in TestRows(df, c, boundary) <==> r in df && InTest(c, boundary, r)
  {
    if df != [] {
      RowsMembers(df[1..], c, boundary);
      assert df == [df[0]] + df[1..];
    }
  }

  function MinTime(df: seq<Row>): int
    requires df != []
  {
    if |df| == 1 then df[0].time
    else
      var m := MinTime(df[1..]);
      if df[0].time < m then df[0].time else m
  }

  function MaxTime(df: seq<Row>): int
    requires df != []
  {
    if |df| == 1 then df[0].time
    else
      var m := MaxTime(df[1..]);
      if df[0].time > m then df[0].time else m
  }

  /** The latest known label time; missing ones are skipped. */
  function MaxLabelTime(df: seq<Row>): Option<int> {
    if df == [] then None
    else
      var m := MaxLabelTime(df[1..]);
      if df[0].labelTime.Some? && (m.None? || df[0].labelTime.value > m.value) then df[0].labelTime else m
  }

  /** The extremes are attained, and bound every row. */
  lemma {:induction false} Extremes(df: seq<Row>)
    requires df != []
    ensures forall r :: r in df ==> MinTime(df) <= r.time <= MaxTime(df)
    ensures exists r :: r in df && r.time == MinTime(df)
    ensures exists r :: r in df && r.time == MaxTime(df)
    ensures MaxLabelTime(df).Some? ==> exists r :: r in df && r.labelTime == MaxLabelTime(df)
  {
    assert df == [df[0]] + df[1..] && df[0] in df;
    if |df| > 1 {
      Extremes(df[1..]);
    } else {
      assert MaxLabelTime(df[1..]) == None;
    }
  }

  predicate ShareLabels(train: seq<Row>, test: seq<Row>) {
    exists r, q :: r in train && q in test && r.id == q.id
  }

  /** `assert_no_lookahead`: the error it raises, if any. */
  function Lookahead(train: seq<Row>, test: seq<Row>, c: Config, boundary: int): Option<SplitError>
    requires train != [] && test != []
  {
    var cutoff := boundary - c.gap;
    if ShareLabels(train, test) then Some(SharedRows)
    else if MaxTime(train) >= cutoff then Some(LateTraining)
    else if c.useLabelTime && MaxLabelTime(train).Some? && MaxLabelTime(train).value >= cutoff then Some(LateLabels)
    else if MinTime(test) < boundary then Some(EarlyTest)
    else None
  }

  /** The splitter's own check can only ever trip over duplicate index labels. */
  lemma OnlySharedLabelsRaise(df: seq<Row>, c: Config, boundary: int)
    requires TrainRows(df, c, boundary) != [] && TestRows(df, c, boundary) != []
    ensures var (train, test) := (TrainRows(df, c, boundary), TestRows(df, c, boundary));
            Lookahead(train, test, c, boundary) == if ShareLabels(train, test) then Some(SharedRows) else None
  {
    var (train, test) := (TrainRows(df, c, boundary), TestRows(df, c, boundary));
    RowsMembers(df, c, boundary);
    Extremes(train);
    Extremes(test);
    var r :| r in train && r.time == MaxTime(train);
    var q :| q in test && q.time == MinTime(test);
    if MaxLabelTime(train).Some? {
      var l :| l in train && l.labelTime == MaxLabelTime(train);
    }
  }

  ghost predicate UniqueLabels(df: seq<Row>) {
    forall r, q :: r in df && q in df && r.id == q.id ==> r == q
  }

  lemma UniqueLabelsNeverShare(df: seq<Row>, c: Config, boundary: int)
    requires UniqueLabels(df) && c.Valid()
    ensures !ShareLabels(TrainRows(df, c, boundary), TestRows(df, c, boundary))
  {
    RowsMembers(df, c, boundary);
  }

  // ---------------------------------------------------------------- all folds

  function FirstBoundary(df: seq<Row>, c: Config): int
    requires df != []
  {
    MinTime(df) + (if c.trainWindow.Some? then c.trainWindow.value else c.step)
  }

  /** The fold at one boundary; it is skipped when either side is empty. */
  function FoldAt(df: seq<Row>, c: Config, boundary: int): seq<Split> {
    var (train, test) := (TrainRows(df, c, boundary), TestRows(df, c, boundary));
    if train != [] && test != [] then [Split(train, test, boundary, boundary + c.testWindow)] else []
  }

  function SplitsFrom(df: seq<Row>, c: Config, boundary: int, last: int): seq<Split>
    requires c.Valid()
    decreases last - boundary
  {
    if boundary > last then [] else FoldAt(df, c, boundary) + SplitsFrom(df, c, boundary + c.step, last)
  }

  function Splits(df: seq<Row>, c: Config): seq<Split>
    requires c.Valid()
  {
    if df == [] then [] else SplitsFrom(df, c, FirstBoundary(df, c), MaxTime(df))
  }

  /** No split trains and tests on one index label. */
  ghost predicate Clean(splits: seq<Split>) {
    forall i :: 0 <= i < |splits| ==> !ShareLabels(splits[i].train, splits[i].test)
  }

  /** With unique labels every fold is clean. */
  lemma {:induction false} UniqueLabelsAreClean(df: seq<Row>, c: Config, boundary: int, last: int)
    requires c.Valid() && UniqueLabels(df)
    ensures Clean(SplitsFrom(df, c, boundary, last))
    decreases last - boundary
  {
    hide TrainRows, TestRows, UniqueLabels, ShareLabels;
    if boundary <= last {
      UniqueLabelsNeverShare(df, c, boundary);
      assert Clean(FoldAt(df, c, boundary));
      UniqueLabelsAreClean(df, c, boundary + c.step, last);
      CleanParts(FoldAt(df, c, boundary), SplitsFrom(df, c, boundary + c.step, last));
    }
  }

  /** `walk_forward_splits`: it raises exactly when some fold shares a label, so never with unique labels. */
  method WalkForwardSplits(df: seq<Row>, c: Config) returns (r: Result<seq<Split>, SplitError>)
    requires c.Valid()
    ensures r.Ok? ==> r.value == Splits(df, c)
    ensures r.Err? ==> r.error == SharedRows
    ensures r.Ok? <==> Clean(Splits(df, c))
    ensures UniqueLabels(df) ==> r.Ok?
  {
    if df == [] {
      return Ok([]);
    }
    var boundary, last := FirstBoundary(df, c), MaxTime(df);
    var splits: seq<Split> := [];
    ghost var all := Splits(df, c);
    if UniqueLabels(df) {
      UniqueLabelsAreClean(df, c, boundary, last);
    }
    assert all == SplitsFrom(df, c, boundary, last);
    assert Clean(splits) && splits + all == all;
    hide Splits, SplitsFrom, MaxTime, FirstBoundary, FoldAt, Clean, UniqueLabels;
    while boundary <= last
      invariant splits + SplitsFrom(df, c, boundary, last) == all && Clean(splits)
      decreases last - boundary
    {
      var fold := CheckedFold(df, c, boundary);
      NextFold(df, c, boundary, last, splits);
      if fold.Err? {
        return Err(fold.error);
      }
      splits := splits + fold.value;
      boundary := boundary + c.step;
    }
    NoFoldAfter(df, c, boundary, last);
    return Ok(splits);
  }

  lemma NoFoldAfter(df: seq<Row>, c: Config, boundary: int, last: int)
    requires c.Valid() && boundary > last
    ensures SplitsFrom(df, c, boundary, last) == []
  {
  }

  lemma CleanParts(a: seq<Split>, b: seq<Split>)
    ensures Clean(a + b) <==> Clean(a) && Clean(b)
  {
    assert forall i :: 0 <= i < |a| ==> (a + b)[i] == a[i];
    assert forall i :: 0 <= i < |b| ==> (a + b)[|a| + i] == b[i];
  }

  lemma NextFold(df: seq<Row>, c: Config, boundary: int, last: int, splits: seq<Split>)
    requires c.Valid() && boundary <= last
    ensures var (fold, rest) := (FoldAt(df, c, boundary), SplitsFrom(df, c, boundary + c.step, last));
      && splits + SplitsFrom(df, c, boundary, last) == (splits + fold) + rest
      && (Clean(splits + fold) <==> Clean(splits) && Clean(fold))
      && (Clean((splits + fold) + rest) ==> Clean(fold))
  {
    hide FoldAt, Clean;
    var (fold, rest) := (FoldAt(df, c, boundary), SplitsFrom(df, c, boundary + c.step, last));
    CleanParts(splits + fold, rest);
    CleanParts(splits, fold);
  }

  /** The body of the loop: build the fold at a boundary and check it. */
  method CheckedFold(df: seq<Row>, c: Config, boundary: int) returns (r: Result<seq<Split>, SplitError>)
    requires c.Valid()
    ensures r.Ok? ==> r.value == FoldAt(df, c, boundary)
    ensures r.Err? ==> r.error == SharedRows
    ensures r.Ok? <==> Clean(FoldAt(df, c, boundary))
  {
    var testEnd := boundary + c.testWindow;
    var train, test := TrainRows(df, c, boundary), TestRows(df, c, boundary);
    if train == [] || test == [] {
      return Ok([]);
    }
    OnlySharedLabelsRaise(df, c, boundary);
    var e := Lookahead(train, test, c, boundary);
    assert FoldAt(df, c, boundary)[0] == Split(train, test, boundary, testEnd);
    if e.Some? {
      return Err(e.value);
    }
    return Ok([Split(train, test, boundary, testEnd)]);
  }

  // ---------------------------------------------------------------- no lookahead

  lemma {:induction false} SplitsComeFromBoundaries(df: seq<Row>, c: Config, boundary: int, last: int, s: Split)
    requires c.Valid() && s in SplitsFrom(df, c, boundary, last)
    ensures boundary <= s.boundary <= last
    ensures s == Split(TrainRows(df, c, s.boundary), TestRows(df, c, s.boundary), s.boundary, s.boundary + c.testWindow)
    ensures s.train != [] && s.test != []
    decreases last - boundary
  {
    if s !in FoldAt(df, c, boundary) {
      SplitsComeFromBoundaries(df, c, boundary + c.step, last, s);
    }
  }

  /** Everything a model was trained on was observed, and labelled, more than the gap before any test row. */
  lemma NoLookahead(df: seq<Row>, c: Config, s: Split, r: Row, q: Row)
    requires c.Valid() && s in Splits(df, c) && r in s.train && q in s.test
    ensures r.time + c.gap < q.time
    ensures c.useLabelTime ==> r.labelTime.Some? && r.labelTime.value + c.gap < q.time
    ensures r in df && q in df
  {
    SplitsComeFromBoundaries(df, c, FirstBoundary(df, c), MaxTime(df), s);
    RowsMembers(df, c, s.boundary);
  }

  // ---------------------------------------------------------------- coverage

  /** In how many splits a row is tested. */
  function TimesTested(splits: seq<Split>, r: Row): nat {
    if splits == [] then 0 else (if r in splits[0].test then 1 else 0) + TimesTested(splits[1..], r)
  }

  lemma {:induction false} TimesTestedAppend(a: seq<Split>, b: seq<Split>, r: Row)
    ensures TimesTested(a + b, r) == TimesTested(a, r) + TimesTested(b, r)
  {
    if a == [] {
      assert a + b == b;
    } else {
      assert (a + b)[1..] == a[1..] + b;
      TimesTestedAppend(a[1..], b, r);
    }
  }

  /** The boundary of the window a time falls in, when windows tile the line from `b` on. */
  function TileStart(t: int, b: int, step: int): int
    requires step > 0 && b <= t
    decreases t - b
  {
    if t < b + step then b else TileStart(t, b + step, step)
  }

  lemma {:induction false} TileStartIsTile(t: int, b: int, step: int)
    requires step > 0 && b <= t
    ensures TileStart(t, b, step) <= t < TileStart(t, b, step) + step
    decreases t - b
  {
    if t >= b + step {
      TileStartIsTile(t, b + step, step);
    }
  }

  /** How often a row should be tested: once, if its window's fold has something to train on. */
  function Owed(df: seq<Row>, c: Config, b: int, r: Row): nat
    requires c.Valid()
  {
    if r.time < b || TrainRows(df, c, TileStart(r.time, b, c.step)) == [] then 0 else 1
  }

  lemma OwedStep(df: seq<Row>, c: Config, b: int, r: Row)
    requires c.Valid() && c.step == c.testWindow
    ensures Owed(df, c, b, r) == (if InTest(c, b, r) && TrainRows(df, c, b) != [] then 1 else 0) + Owed(df, c, b + c.step, r)
  {
    hide TrainRows, TileStart;
    TileStep(r.time, b, c.step);
  }

  /**
   When the step equals the test window, every row at or after the first
   boundary is tested exactly once, unless there is nothing to train on at the
   boundary of its window; rows before the first boundary are never tested.
   */
  lemma {:induction false} TestedExactlyOnce(df: seq<Row>, c: Config, b: int, last: int, r: Row)
    requires c.Valid() && c.step == c.testWindow && r in df && r.time <= last
    ensures TimesTested(SplitsFrom(df, c, b, last), r) == Owed(df, c, b, r)
    decreases last - b
  {
    assert b > last ==> SplitsFrom(df, c, b, last) == [] && TimesTested([], r) == 0 == Owed(df, c, b, r);
    hide SplitsFrom, TimesTested, Owed, InTest, TrainRows, FoldAt;
    if b <= last {
      TestedInFold(df, c, b, r);
      UnfoldTested(df, c, b, last, r);
      TestedExactlyOnce(df, c, b + c.step, last, r);
      OwedStep(df, c, b, r);
    }
  }

  lemma TileStep(t: int, b: int, step: int)
    requires step > 0
    ensures b <= t < b + step ==> TileStart(t, b, step) == b
    ensures b + step <= t ==> TileStart(t, b, step) == TileStart(t, b + step, step)
  {
  }

  lemma UnfoldTested(df: seq<Row>, c: Config, b: int, last: int, r: Row)
    requires c.Valid() && b <= last
    ensures TimesTested(SplitsFrom(df, c, b, last), r)
            == TimesTested(FoldAt(df, c, b), r) + TimesTested(SplitsFrom(df, c, b + c.step, last), r)
  {
    TimesTestedAppend(FoldAt(df, c, b), SplitsFrom(df, c, b + c.step, last), r);
  }

  lemma TestedInFold(df: seq<Row>, c: Config, b: int, r: Row)
    requires r in df
    ensures TimesTested(FoldAt(df, c, b), r) == if InTest(c, b, r) && TrainRows(df, c, b) != [] then 1 else 0
  {
    var (train, test) := (TrainRows(df, c, b), TestRows(df, c, b));
    RowsMembers(df, c, b);
    assert InTest(c, b, r) <==> r in test;
    if train != [] && test != [] {
      var s := Split(train, test, b, b + c.testWindow);
      assert FoldAt(df, c, b) == [s] && [s][1..] == [];
    }
  }

  lemma EveryRowTestedOnce(df: seq<Row>, c: Config, r: Row)
    requires c.Valid() && c.step == c.testWindow && r in df
    ensures var b := FirstBoundary(df, c);
            TimesTested(Splits(df, c), r) ==
            if r.time < b then 0
            else if TrainRows(df, c, TileStart(r.time, b, c.step)) == [] then 0 else 1
  {
    Extremes(df);
    TestedExactlyOnce(df, c, FirstBoundary(df, c), MaxTime(df), r);
  }

  /** How many of the windows starting at b, b + step, ... up to `last` a time falls in. */
  function Windows(c: Config, b: int, last: int, t: int): nat
    requires c.Valid()
    decreases last - b
  {
    if b > last then 0 else (if b <= t < b + c.testWindow then 1 else 0) + Windows(c, b + c.step, last, t)
  }

  lemma {:induction false} NoWindowBefore(c: Config, b: int, last: int, t: int)
    requires c.Valid() && t < b
    ensures Windows(c, b, last, t) == 0
    decreases last - b
  {
    if b <= last {
      NoWindowBefore(c, b + c.step, last, t);
    }
  }

  lemma {:induction false} TilesCoverOnce(c: Config, b: int, last: int, t: int)
    requires c.Valid() && c.step == c.testWindow && b <= t <= last
    ensures Windows(c, b, last, t) == 1
    decreases last - b
  {
    if t < b + c.step {
      NoWindowBefore(c, b + c.step, last, t);
    } else {
      TilesCoverOnce(c, b + c.step, last, t);
    }
  }

  /**
   Exact coverage characterises step = test window: with any other step some
   time between the first boundary and the last row falls in no window or in two.
   */
  lemma CoverageIffTiling(c: Config, b: int, last: int)
    requires c.Valid() && b + c.step + c.testWindow <= last
    ensures (forall t :: b <= t <= last ==> Windows(c, b, last, t) == 1) <==> c.step == c.testWindow
  {
    if c.step == c.testWindow {
      forall t | b <= t <= last ensures Windows(c, b, last, t) == 1 {
        TilesCoverOnce(c, b, last, t);
      }
    } else if c.step > c.testWindow {
      NoWindowBefore(c, b + c.step, last, b + c.testWindow);
      assert Windows(c, b, last, b + c.testWindow) == 0;
    } else {
      var t := b + c.step;
      assert Windows(c, t, last, t) >= 1;
      assert Windows(c, b, last, t) >= 2;
    }
  }

  // ---------------------------------------------------------------- metrics

  datatype Counts = Counts(tp: nat, fp: nat, fn: nat, tn: nat)

  function Add(a: Counts, b: Counts): Counts { Counts(a.tp + b.tp, a.fp + b.fp, a.fn + b.fn, a.tn + b.tn) }

  /** Where a row falls in the confusion matrix; a target other than 0 and 1 falls nowhere. */
  datatype Cell = TruePos | FalsePos | FalseNeg | TrueNeg | Nowhere

  function CellOf(y: int, score: real, threshold: int): Cell {
    if score >= threshold as real then (if y == 1 then TruePos else if y == 0 then FalsePos else Nowhere)
    else (if y == 1 then FalseNeg else if y == 0 then TrueNeg else Nowhere)
  }

  function Cells(ys: seq<int>, scores: seq<real>, threshold: int): (r: seq<Cell>)
    requires |ys| == |scores|
    ensures |r| == |ys|
  {
    if ys == [] then [] else [CellOf(ys[0], scores[0], threshold)] + Cells(ys[1..], scores[1..], threshold)
  }

  function Count(cells: seq<Cell>, k: Cell): nat {
    if cells == [] then 0 else (if cells[0] == k then 1 else 0) + Count(cells[1..], k)
  }

  function Tally(cells: seq<Cell>): Counts {
    Counts(Count(cells, TruePos), Count(cells, FalsePos), Count(cells, FalseNeg), Count(cells, TrueNeg))
  }

  /** The confusion counts of `_compute_metrics`. */
  function Confusion(ys: seq<int>, scores: seq<real>, threshold: int): Counts
    requires |ys| == |scores|
  {
    Tally(Cells(ys, scores, threshold))
  }

  lemma {:induction false} CellsAppend(ys: seq<int>, scores: seq<real>, ys': seq<int>, scores': seq<real>, threshold: int)
    requires |ys| == |scores| && |ys'| == |scores'|
    ensures Cells(ys + ys', scores + scores', threshold) == Cells(ys, scores, threshold) + Cells(ys', scores', threshold)
  {
    if ys == [] {
      assert ys + ys' == ys' && scores + scores' == scores';
    } else {
      assert (ys + ys')[1..] == ys[1..] + ys' && (scores + scores')[1..] == scores[1..] + scores';
      CellsAppend(ys[1..], scores[1..], ys', scores', threshold);
    }
  }

  lemma {:induction false} CountAppend(a: seq<Cell>, b: seq<Cell>, k: Cell)
    ensures Count(a + b, k) == Count(a, k) + Count(b, k)
  {
    if a == [] {
      assert a + b == b;
    } else {
      assert (a + b)[1..] == a[1..] + b;
      CountAppend(a[1..], b, k);
    }
  }

  /** Counting over concatenated folds adds up. */
  lemma ConfusionAppend(ys: seq<int>, scores: seq<real>, ys': seq<int>, scores': seq<real>, threshold: int)
    requires |ys| == |scores| && |ys'| == |scores'|
    ensures Confusion(ys + ys', scores + scores', threshold)
            == Add(Confusion(ys, scores, threshold), Confusion(ys', scores', threshold))
  {
    hide Cells, Tally, Add;
    CellsAppend(ys, scores, ys', scores', threshold);
    TallyAppend(Cells(ys, scores, threshold), Cells(ys', scores', threshold));
  }

  lemma TallyAppend(a: seq<Cell>, b: seq<Cell>)
    ensures Tally(a + b) == Add(Tally(a), Tally(b))
  {
    hide Count;
    CountAppend(a, b, TruePos);
    CountAppend(a, b, FalsePos);
    CountAppend(a, b, FalseNeg);
    CountAppend(a, b, TrueNeg);
  }

  /** Every row with a 0/1 target is counted once. */
  lemma {:induction false} ConfusionTotal(ys: seq<int>, scores: seq<real>, threshold: int)
    requires |ys| == |scores| && forall i :: 0 <= i < |ys| ==> ys[i] == 0 || ys[i] == 1
    ensures var k := Confusion(ys, scores, threshold); k.tp + k.fp + k.fn + k.tn == |ys|
  {
    if ys != [] {
      ConfusionTotal(ys[1..], scores[1..], threshold);
      assert Cells(ys, scores, threshold)[1..] == Cells(ys[1..], scores[1..], threshold);
    }
  }

  /** The rows with a given target that score at or above the threshold, or below it. */
  ghost function Rows(ys: seq<int>, scores: seq<real>, threshold: int, flagged: bool, y: int): set<nat>
    requires |ys| == |scores|
  {
    set i: nat | i < |ys| && (scores[i] >= threshold as real <==> flagged) && ys[i] == y
  }

  lemma CellsAt(ys: seq<int>, scores: seq<real>, threshold: int, i: nat)
    requires |ys| == |scores| && i < |ys|
    ensures Cells(ys, scores, threshold)[i] == CellOf(ys[i], scores[i], threshold)
  {
    if i > 0 {
      CellsAt(ys[1..], scores[1..], threshold, i - 1);
    }
  }

  ghost function Positions(cells: seq<Cell>, k: Cell): set<nat> { set i: nat | i < |cells| && cells[i] == k }

  lemma {:induction false} CountIsPositions(cells: seq<Cell>, k: Cell)
    ensures Count(cells, k) == |Positions(cells, k)|
  {
    if cells != [] {
      var last := |cells| - 1;
      CountIsPositions(cells[..last], k);
      assert cells == cells[..last] + [cells[last]];
      CountAppend(cells[..last], [cells[last]], k);
      CountOne(cells[last], k);
      PositionsSnoc(cells[..last], cells[last], k);
      hide Count, Positions;
    }
  }

  lemma CountOne(c: Cell, k: Cell)
    ensures Count([c], k) == if c == k then 1 else 0
  {
    assert [c][1..] == [];
  }

  lemma PositionsSnoc(cells: seq<Cell>, c: Cell, k: Cell)
    ensures |Positions(cells + [c], k)| == |Positions(cells, k)| + (if c == k then 1 else 0)
  {
    var before := Positions(cells, k);
    assert Positions(cells + [c], k) == if c == k then before + {|cells|} else before;
  }

  lemma CellIsRows(ys: seq<int>, scores: seq<real>, threshold: int, k: Cell, flagged: bool, y: int)
    requires |ys| == |scores| && (k, flagged, y) in {(TruePos, true, 1), (FalsePos, true, 0), (FalseNeg, false, 1), (TrueNeg, false, 0)}
    ensures Count(Cells(ys, scores, threshold), k) == |Rows(ys, scores, threshold, flagged, y)|
  {
    var cells := Cells(ys, scores, threshold);
    CountIsPositions(cells, k);
    forall i: nat | i < |ys| ensures i in Positions(cells, k) <==> i in Rows(ys, scores, threshold, flagged, y) {
      CellsAt(ys, scores, threshold, i);
    }
    assert Positions(cells, k) == Rows(ys, scores, threshold, flagged, y);
  }

  /** What the four counts count: rows by whether they are flagged and by their target. */
  lemma ConfusionCounts(ys: seq<int>, scores: seq<real>, threshold: int)
    requires |ys| == |scores|
    ensures var k := Confusion(ys, scores, threshold);
      && k.tp == |Rows(ys, scores, threshold, true, 1)|
      && k.fp == |Rows(ys, scores, threshold, true, 0)|
      && k.fn == |Rows(ys, scores, threshold, false, 1)|
      && k.tn == |Rows(ys, scores, threshold, false, 0)|
  {
    hide Cells, Count, Rows;
    CellIsRows(ys, scores, threshold, TruePos, true, 1);
    CellIsRows(ys, scores, threshold, FalsePos, true, 0);
    CellIsRows(ys, scores, threshold, FalseNeg, false, 1);
    CellIsRows(ys, scores, threshold, TrueNeg, false, 0);
  }

  datatype Fold = Fold(fold: nat, trainStart: int, trainEnd: int, testStart: int, testEnd: int,
                       nTrain: nat, nTest: nat, counts: Counts)

  datatype Report = Report(threshold: int, folds: seq<Fold>, aggregate: Counts)

  function FoldSum(folds: seq<Fold>): Counts {
    if folds == [] then Counts(0, 0, 0, 0)
    else Add(FoldSum(folds[..|folds| - 1]), folds[|folds| - 1].counts)
  }

  function TestTotal(folds: seq<Fold>): nat {
    if folds == [] then 0 else TestTotal(folds[..|folds| - 1]) + folds[|folds| - 1].nTest
  }

  lemma FoldSumSnoc(folds: seq<Fold>, f: Fold)
    ensures FoldSum(folds + [f]) == Add(FoldSum(folds), f.counts)
    ensures TestTotal(folds + [f]) == TestTotal(folds) + f.nTest
  {
  }

  function Labels(rows: seq<Row>): (ys: seq<int>)
    ensures |ys| == |rows|
    ensures forall i :: 0 <= i < |rows| ==> ys[i] == rows[i].target
  {
    if rows == [] then [] else [rows[0].target] + Labels(rows[1..])
  }

  ghost predicate BinaryLabels(df: seq<Row>) { forall r :: r in df ==> r.target == 0 || r.target == 1 }

  lemma SplitInFrame(df: seq<Row>, c: Config, s: Split)
    requires c.Valid() && s in Splits(df, c)
    ensures s.train != [] && s.test != [] && forall r :: r in s.test ==> r in df
  {
    SplitsComeFromBoundaries(df, c, FirstBoundary(df, c), MaxTime(df), s);
    RowsMembers(df, c, s.boundary);
  }

  /** The body of the loop: fit on the training rows, score the test rows. */
  method RunFold<M(!new)>(i: nat, s: Split, fit: seq<Row> -> M, predict: (M, seq<Row>) -> seq<real>, threshold: int)
    returns (fold: Fold, yy: seq<int>, ss: seq<real>)
    requires s.train != [] && forall m, rows :: |predict(m, rows)| == |rows|
    ensures FoldOf(fold, i, s, fit, predict, threshold)
    ensures yy == Labels(s.test) && |ss| == |yy| == fold.nTest && fold.counts == Confusion(yy, ss, threshold)
  {
    var model := fit(s.train);
    ss := predict(model, s.test);
    yy := Labels(s.test);
    fold := Fold(i, MinTime(s.train), MaxTime(s.train), s.boundary, s.testEnd, |s.train|, |s.test|,
                 Confusion(yy, ss, threshold));
  }

  /**
   `run_walk_forward_backtest`: one fold per split, in order, and the aggregate
   counts over the concatenated folds are the sums of the folds' counts.
   */
  method RunWalkForward<M(!new)>(df: seq<Row>, c: Config, fit: seq<Row> -> M, predict: (M, seq<Row>) -> seq<real>, threshold: int)
    returns (r: Result<Report, SplitError>)
    requires c.Valid() && forall m, rows :: |predict(m, rows)| == |rows|
    ensures r.Ok? ==>
      && |r.value.folds| == |Splits(df, c)| > 0
      && (forall i :: 0 <= i < |r.value.folds| ==> FoldOf(r.value.folds[i], i, Splits(df, c)[i], fit, predict, threshold))
      && r.value.aggregate == FoldSum(r.value.folds)
    ensures r.Ok? && BinaryLabels(df) ==>
      var k := r.value.aggregate; k.tp + k.fp + k.fn + k.tn == TestTotal(r.value.folds)
    ensures r.Err? <==> Splits(df, c) == [] || !Clean(Splits(df, c))
  {
    var splits := WalkForwardSplits(df, c);
    if splits.Err? {
      return Err(splits.error);
    }
    var folds: seq<Fold> := [];
    var ys: seq<int>, scores: seq<real> := [], [];
    assert Tallied(df, splits.value, folds, ys, scores, fit, predict, threshold);
    hide Tallied, Splits, Clean;
    for i := 0 to |splits.value|
      invariant |folds| == i && Tallied(df, splits.value, folds, ys, scores, fit, predict, threshold)
    {
      SplitInFrame(df, c, splits.value[i]);
      var fold, yy, ss := RunFold(i, splits.value[i], fit, predict, threshold);
      NextTally(df, splits.value, folds, ys, scores, fit, predict, threshold, fold, ss);
      folds, ys, scores := folds + [fold], ys + yy, scores + ss;
    }
    TallyDone(df, splits.value, folds, ys, scores, fit, predict, threshold);
    if folds == [] {
      return Err(NoFolds);
    }
    return Ok(Report(threshold, folds, Confusion(ys, scores, threshold)));
  }

  /** What the loop has gathered after the first |folds| splits. */
  ghost predicate Tallied<M(!new)>(df: seq<Row>, splits: seq<Split>, folds: seq<Fold>, ys: seq<int>, scores: seq<real>,
                                   fit: seq<Row> -> M, predict: (M, seq<Row>) -> seq<real>, threshold: int)
    requires forall m, rows :: |predict(m, rows)| == |rows|
  {
    && |folds| <= |splits| && |ys| == |scores| == TestTotal(folds)
    && (forall k :: 0 <= k < |folds| ==> FoldOf(folds[k], k, splits[k], fit, predict, threshold))
    && Confusion(ys, scores, threshold) == FoldSum(folds)
    && (BinaryLabels(df) ==> forall k :: 0 <= k < |ys| ==> ys[k] == 0 || ys[k] == 1)
  }

  lemma NextTally<M(!new)>(df: seq<Row>, splits: seq<Split>, folds: seq<Fold>, ys: seq<int>, scores: seq<real>,
                           fit: seq<Row> -> M, predict: (M, seq<Row>) -> seq<real>, threshold: int, fold: Fold, ss: seq<real>)
    requires forall m, rows :: |predict(m, rows)| == |rows|
    requires |folds| < |splits| && Tallied(df, splits, folds, ys, scores, fit, predict, threshold)
    requires var s := splits[|folds|];
      && (forall r :: r in s.test ==> r in df) && FoldOf(fold, |folds|, s, fit, predict, threshold)
      && |ss| == |s.test| == fold.nTest && fold.counts == Confusion(Labels(s.test), ss, threshold)
    ensures Tallied(df, splits, folds + [fold], ys + Labels(splits[|folds|].test), scores + ss, fit, predict, threshold)
  {
    hide FoldOf, Confusion, FoldSum, TestTotal;
    ConfusionAppend(ys, scores, Labels(splits[|folds|].test), ss, threshold);
    FoldSumSnoc(folds, fold);
  }

  lemma TallyDone<M(!new)>(df: seq<Row>, splits: seq<Split>, folds: seq<Fold>, ys: seq<int>, scores: seq<real>,
                           fit: seq<Row> -> M, predict: (M, seq<Row>) -> seq<real>, threshold: int)
    requires forall m, rows :: |predict(m, rows)| == |rows|
    requires |folds| == |splits| && Tallied(df, splits, folds, ys, scores, fit, predict, threshold)
    ensures |ys| == |scores| && Confusion(ys, scores, threshold) == FoldSum(folds)
    ensures forall k :: 0 <= k < |folds| ==> FoldOf(folds[k], k, splits[k], fit, predict, threshold)
    ensures BinaryLabels(df) ==> var k := FoldSum(folds); k.tp + k.fp + k.fn + k.tn == TestTotal(folds)
  {
    hide FoldOf, FoldSum, TestTotal;
    if BinaryLabels(df) {
      ConfusionTotal(ys, scores, threshold);
    }
  }

  /** A fold reports its split and the counts of its own model on its own test rows. */
  ghost predicate FoldOf<M(!new)>(f: Fold, i: nat, s: Split, fit: seq<Row> -> M, predict: (M, seq<Row>) -> seq<real>, threshold: int)
    requires forall m, rows :: |predict(m, rows)| == |rows|
  {
    && s.train != []
    && f == Fold(i, MinTime(s.train), MaxTime(s.train), s.boundary, s.testEnd, |s.train|, |s.test|,
                 Confusion(Labels(s.test), predict(fit(s.train), s.test), threshold))
  }
}
