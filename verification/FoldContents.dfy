/**
 What the folds of `backtesting/backtest_runner.py` contain, and what
 `assert_no_lookahead` accepts: both told row by row, for any frame and any
 pair of windows.
 */
module FoldContents {
  import opened Wrappers
  import opened WalkForward

  // ---------------------------------------------------------------- assert_no_lookahead

  /** The latest known label time bounds every known one. */
  lemma {:induction false} LabelsBounded(df: seq<Row>)
    ensures MaxLabelTime(df).None? <==> forall r :: r in df ==> r.labelTime.None?
    ensures forall r :: r in df && r.labelTime.Some? ==> MaxLabelTime(df).Some? && r.labelTime.value <= MaxLabelTime(df).value
    ensures MaxLabelTime(df).Some? ==> exists r :: r in df && r.labelTime == MaxLabelTime(df)
  {
    if df != [] {
      LabelsBounded(df[1..]);
      assert df == [df[0]] + df[1..] && df[0] in df;
    }
  }

  /** Some training row was observed at or after the cutoff. */
  ghost predicate SeesLate(train: seq<Row>, c: Config, boundary: int) {
    exists r :: r in train && r.time + c.gap >= boundary
  }

  /** Some training label became known at or after the cutoff; labels not known yet do not count. */
  ghost predicate KnowsLate(train: seq<Row>, c: Config, boundary: int) {
    c.useLabelTime && exists r :: r in train && r.labelTime.Some? && r.labelTime.value + c.gap >= boundary
  }

  ghost predicate TestsEarly(test: seq<Row>, boundary: int) { exists r :: r in test && r.time < boundary }

  /**
   For any training and test rows, the splitter's or not: which error is raised,
   row by row; none if and only if every training row and known label lies more
   than the gap before the boundary, every test row at or after it, and no index
   label is shared.
   */
  lemma LookaheadIff(train: seq<Row>, test: seq<Row>, c: Config, boundary: int)
    requires train != [] && test != []
    ensures var e := Lookahead(train, test, c, boundary);
      var (share, see, know, early) :=
        (ShareLabels(train, test), SeesLate(train, c, boundary), KnowsLate(train, c, boundary), TestsEarly(test, boundary));
      && (e == Some(SharedRows) <==> share)
      && (e == Some(LateTraining) <==> !share && see)
      && (e == Some(LateLabels) <==> !share && !see && know)
      && (e == Some(EarlyTest) <==> !share && !see && !know && early)
      && (e == None <==> !share && !see && !know && !early)
  {
    Extremes(train);
    Extremes(test);
    LabelsBounded(train);
    hide MaxTime, MinTime, MaxLabelTime, ShareLabels;
    var r :| r in train && r.time == MaxTime(train);
    var q :| q in test && q.time == MinTime(test);
    assert SeesLate(train, c, boundary) <==> MaxTime(train) >= boundary - c.gap;
    assert TestsEarly(test, boundary) <==> MinTime(test) < boundary;
    if MaxLabelTime(train).Some? {
      var l :| l in train && l.labelTime == MaxLabelTime(train);
      assert KnowsLate(train, c, boundary) <==> c.useLabelTime && MaxLabelTime(train).value >= boundary - c.gap;
    }
  }

  // ---------------------------------------------------------------- what a fold contains

  /** How often a row occurs is kept by the masks. */
  lemma {:induction false} MasksKeepRows(df: seq<Row>, c: Config, boundary: int, r: Row)
    ensures multiset(TrainRows(df, c, boundary))[r] == if InTrain(c, boundary, r) then multiset(df)[r] else 0
    ensures multiset(TestRows(df, c, boundary))[r] == if InTest(c, boundary, r) then multiset(df)[r] else 0
  {
    if df != [] {
      MasksKeepRows(df[1..], c, boundary, r);
      assert df == [df[0]] + df[1..];
      hide InTrain, InTest;
    }
  }

  /**
   Row by row, the fold at a boundary trains on everything observed before the
   cutoff, within the training window if there is one and labelled before the
   cutoff if label times are used, and tests on everything from the boundary up
   to the end of the test window; each row as often as the frame has it.
   */
  lemma FoldHolds(df: seq<Row>, c: Config, s: Split, r: Row)
    requires c.Valid() && s in Splits(df, c)
    ensures var cutoff := s.boundary - c.gap;
      multiset(s.train)[r] ==
        if && r.time < cutoff && (c.trainWindow.Some? ==> cutoff <= r.time + c.trainWindow.value)
           && (c.useLabelTime ==> r.labelTime.Some? && r.labelTime.value < cutoff)
        then multiset(df)[r] else 0
    ensures multiset(s.test)[r] == if s.boundary <= r.time < s.testEnd then multiset(df)[r] else 0
    ensures s.testEnd == s.boundary + c.testWindow
  {
    SplitsComeFromBoundaries(df, c, FirstBoundary(df, c), MaxTime(df), s);
    MasksKeepRows(df, c, s.boundary, r);
  }

  // ---------------------------------------------------------------- which folds there are

  /** The first boundary is one training window (or one step) after the earliest row. */
  lemma FirstBoundaryIs(df: seq<Row>, c: Config)
    requires df != []
    ensures var w := if c.trainWindow.Some? then c.trainWindow.value else c.step;
      && (exists r :: r in df && FirstBoundary(df, c) == r.time + w)
      && (forall r :: r in df ==> FirstBoundary(df, c) <= r.time + w)
  {
    Extremes(df);
  }

  /** Boundary `k` steps after `b`. */
  function Nth(c: Config, b: int, k: nat): int { b + k * c.step }

  lemma NthNext(c: Config, b: int, k: nat)
    ensures Nth(c, b, 0) == b && Nth(c, b, k + 1) == Nth(c, b + c.step, k)
  {
    assert (k + 1) * c.step == k * c.step + c.step;
  }

  lemma NthGrows(c: Config, b: int, k: nat)
    requires c.Valid()
    ensures Nth(c, b, k) >= b
  {
  }

  lemma {:induction false} SplitHasBoundary(df: seq<Row>, c: Config, b: int, last: int, s: Split) returns (k: nat)
    requires c.Valid() && s in SplitsFrom(df, c, b, last)
    ensures s.boundary == Nth(c, b, k) <= last && s in FoldAt(df, c, s.boundary)
    decreases last - b
  {
    hide FoldAt, Nth;
    if s in FoldAt(df, c, b) {
      k := 0;
      NthNext(c, b, 0);
      FoldBoundary(df, c, b, s);
    } else {
      var j := SplitHasBoundary(df, c, b + c.step, last, s);
      k := j + 1;
      NthNext(c, b, j);
    }
  }

  lemma FoldBoundary(df: seq<Row>, c: Config, b: int, s: Split)
    requires s in FoldAt(df, c, b)
    ensures s.boundary == b
  {
  }

  lemma {:induction false} BoundaryHasSplit(df: seq<Row>, c: Config, b: int, last: int, s: Split, k: nat)
    requires c.Valid() && Nth(c, b, k) <= last && s in FoldAt(df, c, Nth(c, b, k))
    ensures s in SplitsFrom(df, c, b, last)
    decreases k
  {
    NthGrows(c, b, k);
    hide FoldAt, Nth;
    if k == 0 {
      NthNext(c, b, 0);
    } else {
      NthNext(c, b, k - 1);
      BoundaryHasSplit(df, c, b + c.step, last, s, k - 1);
    }
  }

  /** The splits are exactly the non-empty folds of the boundaries first, first + step, ... up to the last row. */
  lemma SplitIff(df: seq<Row>, c: Config, s: Split)
    requires c.Valid() && df != []
    ensures s in Splits(df, c) <==>
      exists k: nat :: Nth(c, FirstBoundary(df, c), k) <= MaxTime(df) && s in FoldAt(df, c, Nth(c, FirstBoundary(df, c), k))
  {
    var (b, last) := (FirstBoundary(df, c), MaxTime(df));
    hide FoldAt, Nth, SplitsFrom, FirstBoundary;
    if s in SplitsFrom(df, c, b, last) {
      var k := SplitHasBoundary(df, c, b, last, s);
    }
    if k: nat :| Nth(c, b, k) <= last && s in FoldAt(df, c, Nth(c, b, k)) {
      BoundaryHasSplit(df, c, b, last, s, k);
    }
  }
}
