/** Versioned axis scores: one append-only log per opportunity, and the two readers of its latest rows. */
module AxisRows {
  import opened Prelude
  import opened Domain
  import opened Rounding
  import opened Sequences
  import opened Recommendation

  datatype AxisRow = AxisRow(axis: AxisKind, score: real, confidence: real, trend: TrendKind, version: nat)

  // ---------------------------------------------------------------- the writer

  function MaxVersion(log: seq<AxisRow>, axis: AxisKind): nat {
    if log == [] then 0
    else
      var rest, last := MaxVersion(log[..|log| - 1], axis), log[|log| - 1];
      if last.axis == axis && last.version > rest then last.version else rest
  }

  /** `row` is the newest of its axis. */
  predicate IsLatest(log: seq<AxisRow>, axis: AxisKind, row: Option<AxisRow>) {
    match row
    case None => forall r <- log :: r.axis != axis
    case Some(latest) => latest in log && latest.axis == axis && forall r <- log :: r.axis == axis ==> r.version <= latest.version
  }

  /** The row with the highest version of an axis. */
  function Latest(log: seq<AxisRow>, axis: AxisKind): (row: Option<AxisRow>)
    ensures IsLatest(log, axis, row)
    ensures MaxVersion(log, axis) == if row.Some? then row.value.version else 0
  {
    if log == [] then None
    else
      var last, rest := log[|log| - 1], Latest(log[..|log| - 1], axis);
      assert log == log[..|log| - 1] + [last];
      if last.axis == axis && (rest.None? || last.version > rest.value.version) then Some(last) else rest
  }

  function TrendOf(previous: Option<AxisRow>, score: real): TrendKind {
    match previous
    case None => InsufficientData
    case Some(row) =>
      var delta := score - row.score;
      if -3.0 < delta < 3.0 then Stable else if delta > 0.0 then Improving else Declining
  }

  /**
    * Trends are directions: a rise of three points or more improves, an equal fall declines, anything less is
    * stable, and taking the step back reverses the trend.
    */
  lemma TrendMirrors(row: AxisRow, score: real)
    ensures
      var there := TrendOf(Some(row), score);
      var back := TrendOf(Some(row.(score := score)), row.score);
      && there != InsufficientData
      && (there == Improving <==> score >= row.score + 3.0)
      && (back == Declining <==> there == Improving) && (back == Improving <==> there == Declining)
  {
  }

  /** The row written for one axis. */
  function NextRow(log: seq<AxisRow>, axis: AxisKind, value: AxisValue): AxisRow {
    AxisRow(axis, Round2(value.score), Round3(value.confidence), TrendOf(Latest(log, axis), value.score), MaxVersion(log, axis) + 1)
  }

  datatype Scored = Scored(axis: AxisKind, value: AxisValue)

  function Record(log: seq<AxisRow>, values: seq<Scored>): seq<AxisRow> {
    if values == [] then log
    else
      var before := Record(log, values[..|values| - 1]);
      var v := values[|values| - 1];
      before + [NextRow(before, v.axis, v.value)]
  }

  lemma RecordStep(log: seq<AxisRow>, values: seq<Scored>, i: nat)
    requires i < |values|
    ensures
      var before := Record(log, values[..i]);
      Record(log, values[..i + 1]) == before + [NextRow(before, values[i].axis, values[i].value)]
  {
    assert values[..i + 1][..i] == values[..i];
  }

  /** The axis rows of one opportunity. */
  class ScoreBook {
    var rows: seq<AxisRow>

    constructor ()
      ensures rows == []
    {
      rows := [];
    }

    /** One row per scored axis, each under the next version of its axis. */
    method ScoreAxes(values: seq<Scored>) returns (created: seq<AxisRow>)
      modifies this
      ensures rows == Record(old(rows), values)
      ensures rows == old(rows) + created && |created| == |values|
    {
      created := [];
      assert values[..0] == [];
      assert Record(rows, []) == rows;
      hide Latest, MaxVersion, TrendOf, Record, Round2, Round3;
      for i := 0 to |values|
        invariant |created| == i
        invariant rows == Record(old(rows), values[..i])
        invariant rows == old(rows) + created
      {
        RecordStep(old(rows), values, i);
        var latestVersion := MaxVersion(rows, values[i].axis);
        var previous := Latest(rows, values[i].axis);
        var trend := TrendOf(previous, values[i].value.score);
        var row := AxisRow(values[i].axis, Round2(values[i].value.score), Round3(values[i].value.confidence), trend, latestVersion + 1);
        assert (old(rows) + created) + [row] == old(rows) + (created + [row]);
        rows := rows + [row];
        created := created + [row];
      }
      assert values[..|values|] == values;
    }
  }

  // ---------------------------------------------------------------- the readers

  function AxisOrder(axis: AxisKind): nat {
    match axis
    case FounderAxis => 0
    case IdeaVsMarketAxis => 1
    case MarketAxis => 2
  }

  /** `ORDER BY version DESC`; rows of equal version come in any order. */
  predicate ByVersion(rows: seq<AxisRow>) {
    forall i, j :: 0 <= i < j < |rows| ==> rows[i].version >= rows[j].version
  }

  /** `ORDER BY axis, version DESC`. */
  predicate ByAxisAndVersion(rows: seq<AxisRow>) {
    forall i, j :: 0 <= i < j < |rows| ==>
      || AxisOrder(rows[i].axis) < AxisOrder(rows[j].axis)
      || (rows[i].axis == rows[j].axis && rows[i].version >= rows[j].version)
  }

  predicate FirstOf(rows: seq<AxisRow>, axis: AxisKind, row: Option<AxisRow>) {
    match row
    case None => forall r <- rows :: r.axis != axis
    case Some(first) => exists i ::
      0 <= i < |rows| && rows[i] == first && first.axis == axis && forall j :: 0 <= j < i ==> rows[j].axis != axis
  }

  /** The card's reader: a dictionary filled by the first row of each axis. */
  method LatestAxes(rows: seq<AxisRow>) returns (latest: map<AxisKind, Option<AxisRow>>)
    ensures latest.Keys == {FounderAxis, MarketAxis, IdeaVsMarketAxis}
    ensures forall axis <- latest :: FirstOf(rows, axis, latest[axis])
  {
    latest := map[FounderAxis := None, MarketAxis := None, IdeaVsMarketAxis := None];
    for n := 0 to |rows|
      invariant latest.Keys == {FounderAxis, MarketAxis, IdeaVsMarketAxis}
      invariant forall axis <- latest :: FirstOf(rows[..n], axis, latest[axis])
    {
      ghost var before := latest;
      EveryAxis(rows[n].axis);
      if latest[rows[n].axis].None? {
        latest := latest[rows[n].axis := Some(rows[n])];
      }
      forall axis | axis in latest ensures FirstOf(rows[..n + 1], axis, latest[axis]) {
        FirstOfStep(rows, n, axis, before[axis]);
      }
    }
    assert rows[..|rows|] == rows;
  }

  lemma EveryAxis(axis: AxisKind)
    ensures axis in {FounderAxis, MarketAxis, IdeaVsMarketAxis}
  {
    match axis
    case FounderAxis =>
    case MarketAxis =>
    case IdeaVsMarketAxis =>
  }

  lemma FirstOfStep(rows: seq<AxisRow>, n: nat, axis: AxisKind, row: Option<AxisRow>)
    requires n < |rows| && FirstOf(rows[..n], axis, row)
    ensures FirstOf(rows[..n + 1], axis, if row.None? && rows[n].axis == axis then Some(rows[n]) else row)
  {
    assert rows[..n + 1] == rows[..n] + [rows[n]];
    if row.Some? {
      var i :| 0 <= i < n && rows[..n][i] == row.value && forall j :: 0 <= j < i ==> rows[..n][j].axis != axis;
      assert rows[..n + 1][i] == row.value;
    } else if rows[n].axis == axis {
      assert rows[..n + 1][n] == rows[n];
    }
  }

  /** Each axis at most once, by the first of its rows, in the order of the rows. */
  ghost predicate CurrentOf(rows: seq<AxisRow>, current: seq<AxisRow>) {
    && (forall i, j :: 0 <= i < j < |current| ==> current[i].axis != current[j].axis)
    && (forall i :: 0 <= i < |current| ==> FirstOf(rows, current[i].axis, Some(current[i])))
    && (forall r <- rows :: ListsAxis(current, r.axis))
  }

  function Axis(): AxisRow -> AxisKind {
    (row: AxisRow) => row.axis
  }

  /** The score endpoint's reader: a list filtered through a `seen` set. */
  method CurrentAxes(rows: seq<AxisRow>) returns (current: seq<AxisRow>)
    ensures CurrentOf(rows, current)
  {
    current := [];
    var seen: set<AxisKind> := {};
    for n := 0 to |rows|
      invariant current == FirstPer(Axis(), rows[..n])
      invariant seen == Keys(Axis(), rows[..n])
    {
      KeysStep(Axis(), rows, n);
      assert rows[..n + 1][..n] == rows[..n];
      if rows[n].axis !in seen {
        current := current + [rows[n]];
        seen := seen + {rows[n].axis};
      }
    }
    assert rows[..|rows|] == rows;
    FirstPerAxisIsCurrent(rows);
  }

  predicate ListsAxis(current: seq<AxisRow>, axis: AxisKind) {
    exists i :: 0 <= i < |current| && current[i].axis == axis
  }

  lemma ListedIffPresent(rows: seq<AxisRow>, current: seq<AxisRow>, axis: AxisKind)
    requires CurrentOf(rows, current)
    ensures ListsAxis(current, axis) <==> axis in Keys(Axis(), rows)
  {
    if ListsAxis(current, axis) {
      var i :| 0 <= i < |current| && current[i].axis == axis;
      assert FirstOf(rows, current[i].axis, Some(current[i]));
      assert current[i] in rows && Axis()(current[i]) == axis;
    }
    if axis in Keys(Axis(), rows) {
      var row :| row in rows && Axis()(row) == axis;
      assert ListsAxis(current, row.axis);
    }
  }

  lemma {:induction false} FirstPerAxisIsCurrent(rows: seq<AxisRow>)
    ensures CurrentOf(rows, FirstPer(Axis(), rows))
  {
    if rows != [] {
      var n := |rows| - 1;
      FirstPerAxisIsCurrent(rows[..n]);
      var before := FirstPer(Axis(), rows[..n]);
      assert FirstPer(Axis(), rows) == if rows[n].axis in Keys(Axis(), rows[..n]) then before else before + [rows[n]] by {
        assert before + [] == before;
      }
      hide *;
      ListedIffPresent(rows[..n], before, rows[n].axis);
      CurrentStep(rows, n, before);
      assert rows[..n + 1] == rows;
    }
  }

  lemma {:induction false} CurrentStep(rows: seq<AxisRow>, n: nat, current: seq<AxisRow>)
    requires n < |rows| && CurrentOf(rows[..n], current)
    ensures CurrentOf(rows[..n + 1], if ListsAxis(current, rows[n].axis) then current else current + [rows[n]])
  {
    var listed := ListsAxis(current, rows[n].axis);
    var next := if listed then current else current + [rows[n]];
    assert rows[..n + 1] == rows[..n] + [rows[n]];
    forall i | 0 <= i < |current| ensures FirstOf(rows[..n + 1], current[i].axis, Some(current[i])) {
      FirstOfStep(rows, n, current[i].axis, Some(current[i]));
    }
    if !listed {
      ListedIffPresent(rows[..n], current, rows[n].axis);
      assert FirstOf(rows[..n], rows[n].axis, None);
      FirstOfStep(rows, n, rows[n].axis, None);
      assert next[|current|] == rows[n];
    }
    forall r | r in rows[..n + 1] ensures ListsAxis(next, r.axis) {
      if r in rows[..n] {
        assert ListsAxis(current, r.axis);
        var i :| 0 <= i < |current| && current[i].axis == r.axis;
        assert next[i] == current[i];
      }
    }
  }

  // ---------------------------------------------------------------- the log over runs

  /** No two rows of an axis share a version. */
  ghost predicate DistinctVersions(log: seq<AxisRow>) {
    forall i, j :: 0 <= i < j < |log| && log[i].axis == log[j].axis ==> log[i].version < log[j].version
  }

  predicate HasVersion(log: seq<AxisRow>, axis: AxisKind, v: nat) {
    exists row <- log :: row.axis == axis && row.version == v
  }

  /** Every version of an axis from 1 on is taken, up to the highest. */
  ghost predicate NoGaps(log: seq<AxisRow>) {
    forall axis: AxisKind, v: nat :: 1 <= v <= MaxVersion(log, axis) ==> HasVersion(log, axis, v)
  }

  /** Scoring keeps versions strictly increasing and without gaps, and leaves the history in place. */
  lemma {:induction false} RecordKeepsVersions(log: seq<AxisRow>, values: seq<Scored>)
    requires DistinctVersions(log) && NoGaps(log)
    ensures DistinctVersions(Record(log, values)) && NoGaps(Record(log, values))
    ensures log <= Record(log, values)
  {
    if values != [] {
      var before := Record(log, values[..|values| - 1]);
      var v := values[|values| - 1];
      RecordKeepsVersions(log, values[..|values| - 1]);
      AppendKeepsVersions(before, v.axis, v.value);
    }
  }

  lemma {:induction false} AppendKeepsVersions(log: seq<AxisRow>, axis: AxisKind, value: AxisValue)
    requires DistinctVersions(log) && NoGaps(log)
    ensures
      var next := log + [NextRow(log, axis, value)];
      DistinctVersions(next) && NoGaps(next) && Latest(next, axis) == Some(NextRow(log, axis, value))
  {
    var row := NextRow(log, axis, value);
    var next := log + [row];
    assert next[..|log|] == log;
    forall i | 0 <= i < |log| && log[i].axis == axis ensures log[i].version < row.version {
      assert IsLatest(log, axis, Latest(log, axis));
    }
    forall a: AxisKind, v: nat | 1 <= v <= MaxVersion(next, a) ensures HasVersion(next, a, v) {
      if v <= MaxVersion(log, a) {
        assert HasVersion(log, a, v);
        var r :| r in log && r.axis == a && r.version == v;
        assert r in next;
      } else {
        assert row in next;
      }
    }
  }

  /** What is stored for an axis: its score to the hundredth and its confidence to the thousandth, in the order scored. */
  lemma {:induction false} StoredRows(log: seq<AxisRow>, values: seq<Scored>, i: nat)
    requires i < |values|
    ensures |Record(log, values)| == |log| + |values|
    ensures
      var row := Record(log, values)[|log| + i];
      && row.axis == values[i].axis
      && Hundredths(row.score) && -0.005 <= row.score - values[i].value.score <= 0.005
      && Thousandths(row.confidence) && -0.0005 <= row.confidence - values[i].value.confidence <= 0.0005
  {
    var n := |values| - 1;
    hide Hundredths, Thousandths, Round2, Round3, Latest, MaxVersion, TrendOf;
    if i < n {
      StoredRows(log, values[..n], i);
    } else {
      RecordLength(log, values[..n]);
      OnTheGrid(values[n].value);
    }
  }

  lemma {:induction false} RecordLength(log: seq<AxisRow>, values: seq<Scored>)
    ensures |Record(log, values)| == |log| + |values|
  {
    if values != [] { RecordLength(log, values[..|values| - 1]); }
  }

  predicate Hundredths(x: real) {
    x * 100.0 == (x * 100.0).Floor as real
  }

  predicate Thousandths(x: real) {
    x * 1000.0 == (x * 1000.0).Floor as real
  }

  lemma OnTheGrid(value: AxisValue)
    ensures Hundredths(Round2(value.score)) && Thousandths(Round3(value.confidence))
  {
    hide Hundredths, Thousandths, RoundHalfEven;
    HundredthIs(RoundHalfEven(value.score * 100.0));
    ThousandthIs(RoundHalfEven(value.confidence * 1000.0));
  }

  lemma HundredthIs(n: int)
    ensures Hundredths(n as real / 100.0)
  {
    assert n as real / 100.0 * 100.0 == n as real;
  }

  lemma ThousandthIs(n: int)
    ensures Thousandths(n as real / 1000.0)
  {
    assert n as real / 1000.0 * 1000.0 == n as real;
  }

  lemma SameMembers(log: seq<AxisRow>, rows: seq<AxisRow>)
    requires multiset(log) == multiset(rows)
    ensures forall r :: r in log <==> r in rows
  {
    forall r ensures r in log <==> r in rows { assert r in multiset(log) <==> r in multiset(rows); }
  }

  /** With distinct versions, there is one latest row of an axis. */
  lemma LatestIsUnique(log: seq<AxisRow>, axis: AxisKind, row: Option<AxisRow>)
    requires DistinctVersions(log) && IsLatest(log, axis, row)
    ensures row == Latest(log, axis)
  {
  }

  lemma FirstByVersionIsLatest(log: seq<AxisRow>, rows: seq<AxisRow>, axis: AxisKind, row: Option<AxisRow>)
    requires DistinctVersions(log) && multiset(log) == multiset(rows)
    requires ByVersion(rows) || ByAxisAndVersion(rows)
    requires FirstOf(rows, axis, row)
    ensures row == Latest(log, axis)
  {
    SameMembers(log, rows);
    if row.Some? {
      var i :| 0 <= i < |rows| && rows[i] == row.value && forall j :: 0 <= j < i ==> rows[j].axis != axis;
      forall r | r in log && r.axis == axis ensures r.version <= row.value.version {
        var j :| 0 <= j < |rows| && rows[j] == r;
        assert i <= j;
      }
    }
    LatestIsUnique(log, axis, row);
  }

  /**
    * However the database breaks ties, the dictionary and the list read the same rows: for each axis the one
    * of highest version, and the list holds an axis exactly when the dictionary has a row for it.
    */
  lemma ReadersAgree(log: seq<AxisRow>, byVersion: seq<AxisRow>, byAxis: seq<AxisRow>,
                     latest: map<AxisKind, Option<AxisRow>>, current: seq<AxisRow>)
    requires DistinctVersions(log)
    requires multiset(log) == multiset(byVersion) == multiset(byAxis)
    requires ByVersion(byVersion) && ByAxisAndVersion(byAxis)
    requires latest.Keys == {FounderAxis, MarketAxis, IdeaVsMarketAxis}
    requires forall axis <- latest :: FirstOf(byVersion, axis, latest[axis])
    requires CurrentOf(byAxis, current)
    ensures forall axis <- latest :: latest[axis] == Latest(log, axis)
    ensures forall row :: row in current <==> exists axis <- latest :: latest[axis] == Some(row)
  {
    forall axis | axis in latest ensures latest[axis] == Latest(log, axis) {
      FirstByVersionIsLatest(log, byVersion, axis, latest[axis]);
    }
    forall row | row in current ensures latest[row.axis] == Some(row) {
      EveryAxis(row.axis);
      FirstByVersionIsLatest(log, byAxis, row.axis, Some(row));
    }
    SameMembers(log, byAxis);
    forall axis | axis in latest && latest[axis].Some? ensures latest[axis].value in current {
      var row := latest[axis].value;
      assert row in byAxis;
      var i :| 0 <= i < |current| && current[i].axis == row.axis;
      FirstByVersionIsLatest(log, byAxis, row.axis, Some(current[i]));
    }
  }

  /** Scoring the same value again, when it was the last one recorded, is reported as STABLE. */
  lemma RescoringIsStable(log: seq<AxisRow>, axis: AxisKind, value: AxisValue)
    requires DistinctVersions(log) && NoGaps(log)
    ensures NextRow(log + [NextRow(log, axis, value)], axis, value).trend == Stable
    ensures Latest(log, axis).None? <==> NextRow(log, axis, value).trend == InsufficientData
  {
    AppendKeepsVersions(log, axis, value);
  }
}
