/** The chart's cells, built in one pass over the rows, and the drill-down that must agree with them. */
module Dashboard {
  import opened Ordering
  import opened CanonicalJson
  import opened IsoWeek

  datatype Source = Chatwoot | ZaloOa | InternalForm | HrpUi | ChatOnly

  datatype Stage = Created | Updated | Submitted | Review | Outcome

  const STAGES: seq<Stage> := [Created, Updated, Submitted, Review, Outcome]

  datatype Row = Row(
    rowId: Text,
    organizationId: Text,
    actorId: Text,
    source: Source,
    region: Option<Text>,
    day: Text,
    stage: Stage,
    unavailable: bool,
    chatSourceOnly: bool)

  /** What a chart and its drill-downs are about. The bucket of a day is a parameter: any labelling will do. */
  datatype Snapshot = Snapshot(
    organizationId: Text,
    actorId: Option<Text>,
    sources: seq<Source>,
    regions: seq<Text>,
    periodStart: Text,
    periodEnd: Text,
    bucketOf: Text -> Text)

  datatype Cell = Cell(count: nat, sources: set<Source>, unavailable: bool)

  datatype Point = Point(bucket: Text, stage: Stage, value: nat, sources: set<Source>, unavailable: bool)

  /** An absent allowlist is an empty one: neither filters. */
  predicate Keeps(snapshot: Snapshot, r: Row) {
    && r.organizationId == snapshot.organizationId
    && (snapshot.actorId.Some? ==> r.actorId == snapshot.actorId.value)
    && (snapshot.sources != [] ==> r.source in snapshot.sources)
    && (snapshot.regions != [] ==> r.region.Some? && r.region.value != [] && r.region.value in snapshot.regions)
    && !UnitsLess(r.day, snapshot.periodStart) && !UnitsLess(snapshot.periodEnd, r.day)
  }

  function FilterRows(rows: seq<Row>, snapshot: Snapshot): seq<Row> {
    if rows == [] then []
    else
      var last := rows[|rows| - 1];
      FilterRows(rows[..|rows| - 1], snapshot) + if Keeps(snapshot, last) then [last] else []
  }

  // ---------------------------------------------------------------- what a cell should say

  predicate InCell(r: Row, bucketOf: Text -> Text, bucket: Text, stage: Stage) {
    !r.chatSourceOnly && bucketOf(r.day) == bucket && r.stage == stage
  }

  /** The plain count: rows of the bucket and stage that are not chat-only. */
  function CountIn(rows: seq<Row>, bucketOf: Text -> Text, bucket: Text, stage: Stage): nat {
    if rows == [] then 0
    else
      CountIn(rows[..|rows| - 1], bucketOf, bucket, stage)
      + if InCell(rows[|rows| - 1], bucketOf, bucket, stage) then 1 else 0
  }

  function SourcesIn(rows: seq<Row>, bucketOf: Text -> Text, bucket: Text, stage: Stage): set<Source> {
    if rows == [] then {}
    else
      SourcesIn(rows[..|rows| - 1], bucketOf, bucket, stage)
      + if InCell(rows[|rows| - 1], bucketOf, bucket, stage) then {rows[|rows| - 1].source} else {}
  }

  predicate UnavailableIn(rows: seq<Row>, bucketOf: Text -> Text, bucket: Text, stage: Stage) {
    exists i :: 0 <= i < |rows| && InCell(rows[i], bucketOf, bucket, stage) && rows[i].unavailable
  }

  function CellFor(rows: seq<Row>, bucketOf: Text -> Text, bucket: Text, stage: Stage): Cell {
    Cell(CountIn(rows, bucketOf, bucket, stage), SourcesIn(rows, bucketOf, bucket, stage),
         UnavailableIn(rows, bucketOf, bucket, stage))
  }

  function WholeCompanyCount(rows: seq<Row>): nat {
    if rows == [] then 0
    else WholeCompanyCount(rows[..|rows| - 1]) + if rows[|rows| - 1].chatSourceOnly then 0 else 1
  }

  // ---------------------------------------------------------------- the nested maps

  type Cells = map<Text, map<Stage, Cell>>

  function CellAt(cells: Cells, bucket: Text, stage: Stage): Option<Cell> {
    if bucket in cells && stage in cells[bucket] then Some(cells[bucket][stage]) else None
  }

  /** The cells hold what the rows so far say: no entry where there is no row. */
  ghost predicate Tallied(rows: seq<Row>, bucketOf: Text -> Text, cells: Cells) {
    forall b: Text, s: Stage ::
      CellAt(cells, b, s) == if CountIn(rows, bucketOf, b, s) == 0 then None else Some(CellFor(rows, bucketOf, b, s))
  }

  function Bump(cell: Cell, r: Row): Cell {
    Cell(cell.count + 1, cell.sources + {r.source}, cell.unavailable || r.unavailable)
  }

  lemma {:induction false} EmptyCell(rows: seq<Row>, bucketOf: Text -> Text, b: Text, s: Stage)
    requires CountIn(rows, bucketOf, b, s) == 0
    ensures CellFor(rows, bucketOf, b, s) == Cell(0, {}, false)
  {
    if rows != [] {
      EmptyCell(rows[..|rows| - 1], bucketOf, b, s);
      var n := |rows| - 1;
      forall i | 0 <= i < |rows|
        ensures !(InCell(rows[i], bucketOf, b, s) && rows[i].unavailable)
      {
        if i < n {
          assert rows[..n][i] == rows[i];
        }
      }
    }
  }

  lemma RowAdded(rows: seq<Row>, r: Row, bucketOf: Text -> Text, b: Text, s: Stage)
    ensures CellFor(rows + [r], bucketOf, b, s)
         == if InCell(r, bucketOf, b, s) then Bump(CellFor(rows, bucketOf, b, s), r) else CellFor(rows, bucketOf, b, s)
  {
    var all := rows + [r];
    assert all[..|all| - 1] == rows;
    if UnavailableIn(rows, bucketOf, b, s) {
      var i :| 0 <= i < |rows| && InCell(rows[i], bucketOf, b, s) && rows[i].unavailable;
      assert all[i] == rows[i];
    }
    if UnavailableIn(all, bucketOf, b, s) {
      var i :| 0 <= i < |all| && InCell(all[i], bucketOf, b, s) && all[i].unavailable;
      assert i < |rows| ==> rows[i] == all[i];
    }
    assert all[|rows|] == r;
  }

  /** ensureCell and the updates of the cell it returns. */
  function Add(cells: Cells, bucket: Text, stage: Stage, r: Row): Cells {
    var row := if bucket in cells then cells[bucket] else map[];
    var cell := if stage in row then row[stage] else Cell(0, {}, false);
    cells[bucket := row[stage := Bump(cell, r)]]
  }

  lemma AddTallied(rows: seq<Row>, r: Row, bucketOf: Text -> Text, cells: Cells)
    requires Tallied(rows, bucketOf, cells) && !r.chatSourceOnly
    ensures Tallied(rows + [r], bucketOf, Add(cells, bucketOf(r.day), r.stage, r))
  {
    var after := Add(cells, bucketOf(r.day), r.stage, r);
    forall b: Text, s: Stage
      ensures CellAt(after, b, s)
           == if CountIn(rows + [r], bucketOf, b, s) == 0 then None else Some(CellFor(rows + [r], bucketOf, b, s))
    {
      RowAdded(rows, r, bucketOf, b, s);
      assert CellAt(cells, b, s) == if CountIn(rows, bucketOf, b, s) == 0 then None else Some(CellFor(rows, bucketOf, b, s));
      if CountIn(rows, bucketOf, b, s) == 0 {
        EmptyCell(rows, bucketOf, b, s);
      }
      assert CountIn(rows + [r], bucketOf, b, s) == CellFor(rows + [r], bucketOf, b, s).count;
    }
  }

  lemma SkipTallied(rows: seq<Row>, r: Row, bucketOf: Text -> Text, cells: Cells)
    requires Tallied(rows, bucketOf, cells) && r.chatSourceOnly
    ensures Tallied(rows + [r], bucketOf, cells)
  {
    forall b: Text, s: Stage
      ensures CellAt(cells, b, s)
           == if CountIn(rows + [r], bucketOf, b, s) == 0 then None else Some(CellFor(rows + [r], bucketOf, b, s))
    {
      RowAdded(rows, r, bucketOf, b, s);
      assert CellAt(cells, b, s) == if CountIn(rows, bucketOf, b, s) == 0 then None else Some(CellFor(rows, bucketOf, b, s));
      assert CountIn(rows + [r], bucketOf, b, s) == CellFor(rows + [r], bucketOf, b, s).count;
    }
  }

  // ---------------------------------------------------------------- from maps to points

  function StageIndex(s: Stage): (i: nat)
    ensures i < |STAGES| && STAGES[i] == s
  {
    match s
    case Created => 0
    case Updated => 1
    case Submitted => 2
    case Review => 3
    case Outcome => 4
  }

  function PointOf(bucket: Text, stage: Stage, cell: Cell): Point {
    Point(bucket, stage, cell.count, cell.sources, cell.unavailable)
  }

  /** The points of a bucket for its first n stages, in stage order. */
  function BucketPoints(cells: Cells, bucket: Text, n: nat): seq<Point>
    requires n <= |STAGES|
  {
    if n == 0 then []
    else
      var cell := CellAt(cells, bucket, STAGES[n - 1]);
      BucketPoints(cells, bucket, n - 1)
      + if cell.Some? then [PointOf(bucket, STAGES[n - 1], cell.value)] else []
  }

  function AllPoints(cells: Cells, order: seq<Text>): seq<Point> {
    if order == [] then []
    else AllPoints(cells, order[..|order| - 1]) + BucketPoints(cells, order[|order| - 1], |STAGES|)
  }

  /** Within a bucket, stages stand in order. */
  ghost predicate StagesAscend(points: seq<Point>) {
    forall i, j :: 0 <= i < j < |points| && points[i].bucket == points[j].bucket ==>
      StageIndex(points[i].stage) < StageIndex(points[j].stage)
  }

  ghost predicate FromCell(cells: Cells, p: Point) {
    CellAt(cells, p.bucket, p.stage) == Some(Cell(p.value, p.sources, p.unavailable))
  }

  lemma StageAt(i: nat)
    requires i < |STAGES|
    ensures StageIndex(STAGES[i]) == i
  {
  }

  ghost predicate PointsUpto(cells: Cells, bucket: Text, n: nat, ps: seq<Point>) {
    forall i :: 0 <= i < |ps| ==> ps[i].bucket == bucket && StageIndex(ps[i].stage) < n && FromCell(cells, ps[i])
  }

  lemma OnePointMore(cells: Cells, bucket: Text, stage: Stage, ps: seq<Point>)
    requires StagesAscend(ps) && PointsUpto(cells, bucket, StageIndex(stage), ps) && CellAt(cells, bucket, stage).Some?
    ensures var qs := ps + [PointOf(bucket, stage, CellAt(cells, bucket, stage).value)];
      StagesAscend(qs) && PointsUpto(cells, bucket, StageIndex(stage) + 1, qs)
  {
  }

  lemma {:induction false} BucketPointsFacts(cells: Cells, bucket: Text, n: nat)
    requires n <= |STAGES|
    ensures var ps := BucketPoints(cells, bucket, n); StagesAscend(ps) && PointsUpto(cells, bucket, n, ps)
  {
    if n > 0 {
      BucketPointsFacts(cells, bucket, n - 1);
      StageAt(n - 1);
      if CellAt(cells, bucket, STAGES[n - 1]).Some? {
        OnePointMore(cells, bucket, STAGES[n - 1], BucketPoints(cells, bucket, n - 1));
      }
    }
  }

  lemma {:induction false} BucketPointsCover(cells: Cells, bucket: Text, n: nat, s: Stage)
    requires StageIndex(s) < n <= |STAGES| && CellAt(cells, bucket, s).Some?
    ensures PointOf(bucket, s, CellAt(cells, bucket, s).value) in BucketPoints(cells, bucket, n)
  {
    StageAt(n - 1);
    if StageIndex(s) < n - 1 {
      BucketPointsCover(cells, bucket, n - 1, s);
    } else {
      assert STAGES[n - 1] == s;
    }
  }

  lemma {:induction false} AllPointsFacts(cells: Cells, order: seq<Text>)
    requires NoDuplicates(order)
    ensures var ps := AllPoints(cells, order);
      && StagesAscend(ps)
      && (forall p :: p in ps ==> p.bucket in order && FromCell(cells, p))
  {
    if order != [] {
      var before, last := order[..|order| - 1], order[|order| - 1];
      AllPointsFacts(cells, before);
      BucketPointsFacts(cells, last, |STAGES|);
      assert last !in before;
      assert order == before + [last];
    }
  }

  lemma {:induction false} AllPointsCover(cells: Cells, order: seq<Text>, b: Text, s: Stage)
    requires b in order && CellAt(cells, b, s).Some?
    ensures PointOf(b, s, CellAt(cells, b, s).value) in AllPoints(cells, order)
  {
    var before, last := order[..|order| - 1], order[|order| - 1];
    assert order == before + [last];
    if b == last {
      BucketPointsCover(cells, last, |STAGES|, s);
    } else {
      AllPointsCover(cells, before, b, s);
    }
  }

  /** The comparator as coded: by bucket; its stage part looks stages up under bucket names and always ties. */
  predicate BucketLeq(p: Point, q: Point) {
    !UnitsLess(q.bucket, p.bucket)
  }

  predicate PointBefore(p: Point, q: Point) {
    UnitsLess(p.bucket, q.bucket) || (p.bucket == q.bucket && StageIndex(p.stage) < StageIndex(q.stage))
  }

  lemma BucketLeqTotalPreorder()
    ensures TotalPreorder(BucketLeq)
  {
    forall p: Point, q: Point, r: Point
      ensures BucketLeq(p, q) || BucketLeq(q, p)
      ensures BucketLeq(p, q) && BucketLeq(q, r) ==> BucketLeq(p, r)
    {
      UnitsLessTrichotomy(p.bucket, q.bucket);
      UnitsLessTrichotomy(q.bucket, r.bucket);
      UnitsLessTrichotomy(r.bucket, p.bucket);
      if BucketLeq(p, q) && BucketLeq(q, r) && UnitsLess(r.bucket, p.bucket) && p.bucket != q.bucket {
        UnitsLessTransitive(r.bucket, p.bucket, q.bucket);
      }
    }
  }

  lemma {:induction false} InsertKeepsStages(x: Point, s: seq<Point>)
    requires StagesAscend(s) && forall q :: q in s && q.bucket == x.bucket ==> StageIndex(x.stage) < StageIndex(q.stage)
    ensures StagesAscend(Insert(x, s, BucketLeq))
  {
    if s == [] || BucketLeq(x, s[0]) {
    } else {
      assert forall q :: q in s[1..] ==> q in s;
      InsertKeepsStages(x, s[1..]);
      var rest := Insert(x, s[1..], BucketLeq);
      forall j | 0 <= j < |rest| && rest[j].bucket == s[0].bucket
        ensures StageIndex(s[0].stage) < StageIndex(rest[j].stage)
      {
        PassedOver(x, s, rest[j]);
      }
    }
  }

  lemma PassedOver(x: Point, s: seq<Point>, q: Point)
    requires s != [] && !BucketLeq(x, s[0]) && q in Insert(x, s[1..], BucketLeq) && q.bucket == s[0].bucket
    ensures q in s[1..]
  {
    InsertPermutes(x, s[1..], BucketLeq);
    UnitsLessTrichotomy(x.bucket, x.bucket);
    assert q in multiset(Insert(x, s[1..], BucketLeq));
  }

  /** Sorting by bucket is stable, so the stages of a bucket stay in order. */
  lemma {:induction false} SortKeepsStages(s: seq<Point>)
    requires StagesAscend(s)
    ensures StagesAscend(Sort(s, BucketLeq))
  {
    if s != [] {
      SortKeepsStages(s[1..]);
      SortPermutes(s[1..], BucketLeq);
      forall q | q in Sort(s[1..], BucketLeq) && q.bucket == s[0].bucket
        ensures StageIndex(s[0].stage) < StageIndex(q.stage)
      {
        assert q in s[1..];
        var i :| 0 <= i < |s[1..]| && s[1..][i] == q;
        assert s[i + 1] == q;
      }
      InsertKeepsStages(s[0], Sort(s[1..], BucketLeq));
    }
  }

  // ---------------------------------------------------------------- what the chart is

  ghost predicate PointRight(rows: seq<Row>, bucketOf: Text -> Text, p: Point) {
    p == PointOf(p.bucket, p.stage, CellFor(rows, bucketOf, p.bucket, p.stage)) && p.value >= 1
  }

  ghost predicate Shown(points: seq<Point>, b: Text, s: Stage) {
    exists i :: 0 <= i < |points| && points[i].bucket == b && points[i].stage == s
  }

  /** One point for each bucket and stage that has a row, saying what its rows say, by bucket and then by stage. */
  ghost predicate ChartOf(points: seq<Point>, rows: seq<Row>, bucketOf: Text -> Text) {
    && (forall i, j :: 0 <= i < j < |points| ==> PointBefore(points[i], points[j]))
    && (forall i :: 0 <= i < |points| ==> PointRight(rows, bucketOf, points[i]))
    && (forall b: Text, s: Stage :: CountIn(rows, bucketOf, b, s) > 0 ==> Shown(points, b, s))
  }

  lemma ChartSorted(cells: Cells, order: seq<Text>)
    requires NoDuplicates(order)
    ensures var ps := Sort(AllPoints(cells, order), BucketLeq);
      forall i, j :: 0 <= i < j < |ps| ==> PointBefore(ps[i], ps[j])
  {
    var ps := Sort(AllPoints(cells, order), BucketLeq);
    AllPointsFacts(cells, order);
    SortKeepsStages(AllPoints(cells, order));
    BucketLeqTotalPreorder();
    SortSorts(AllPoints(cells, order), BucketLeq);
    forall i, j | 0 <= i < j < |ps|
      ensures PointBefore(ps[i], ps[j])
    {
      assert BucketLeq(ps[i], ps[j]);
      UnitsLessTrichotomy(ps[i].bucket, ps[j].bucket);
    }
  }

  lemma PointFromCell(rows: seq<Row>, bucketOf: Text -> Text, cells: Cells, p: Point)
    requires Tallied(rows, bucketOf, cells) && FromCell(cells, p)
    ensures PointRight(rows, bucketOf, p)
  {
    var b, s := p.bucket, p.stage;
    assert CellAt(cells, b, s)
        == if CountIn(rows, bucketOf, b, s) == 0 then None else Some(CellFor(rows, bucketOf, b, s));
  }

  lemma ChartFromCells(rows: seq<Row>, bucketOf: Text -> Text, cells: Cells, order: seq<Text>)
    requires Tallied(rows, bucketOf, cells) && NoDuplicates(order) && forall b :: b in cells ==> b in order
    ensures ChartOf(Sort(AllPoints(cells, order), BucketLeq), rows, bucketOf)
  {
    var all := AllPoints(cells, order);
    var ps := Sort(all, BucketLeq);
    ChartSorted(cells, order);
    AllPointsFacts(cells, order);
    SortPermutes(all, BucketLeq);
    forall i | 0 <= i < |ps|
      ensures PointRight(rows, bucketOf, ps[i])
    {
      assert ps[i] in all;
      PointFromCell(rows, bucketOf, cells, ps[i]);
    }
    forall b: Text, s: Stage | CountIn(rows, bucketOf, b, s) > 0
      ensures Shown(ps, b, s)
    {
      assert CellAt(cells, b, s)
          == if CountIn(rows, bucketOf, b, s) == 0 then None else Some(CellFor(rows, bucketOf, b, s));
      AllPointsCover(cells, order, b, s);
      assert PointOf(b, s, CellAt(cells, b, s).value) in ps;
    }
  }

  /** Of the plain count, the rows with this availability. */
  function CountWith(rows: seq<Row>, bucketOf: Text -> Text, bucket: Text, stage: Stage, unavailable: bool): nat {
    if rows == [] then 0
    else
      CountWith(rows[..|rows| - 1], bucketOf, bucket, stage, unavailable)
      + if InCell(rows[|rows| - 1], bucketOf, bucket, stage) && rows[|rows| - 1].unavailable == unavailable then 1 else 0
  }

  lemma {:induction false} CountsBoth(rows: seq<Row>, bucketOf: Text -> Text, b: Text, s: Stage)
    ensures CountIn(rows, bucketOf, b, s)
         == CountWith(rows, bucketOf, b, s, true) + CountWith(rows, bucketOf, b, s, false)
    ensures UnavailableIn(rows, bucketOf, b, s) <==> CountWith(rows, bucketOf, b, s, true) > 0
  {
    if rows != [] {
      var before, last := rows[..|rows| - 1], rows[|rows| - 1];
      CountsBoth(before, bucketOf, b, s);
      assert rows == before + [last];
      RowAdded(before, last, bucketOf, b, s);
    }
  }

  /** Unavailable rows count like any others: a point shows the available and the unavailable ones together, so it is
      never 0, and it is marked exactly when there is an unavailable one. */
  lemma UnavailableCounts(points: seq<Point>, rows: seq<Row>, bucketOf: Text -> Text, i: nat)
    requires ChartOf(points, rows, bucketOf) && i < |points|
    ensures var p := points[i];
      && p.value >= 1
      && p.value == CountWith(rows, bucketOf, p.bucket, p.stage, true) + CountWith(rows, bucketOf, p.bucket, p.stage, false)
      && (p.unavailable <==> CountWith(rows, bucketOf, p.bucket, p.stage, true) > 0)
  {
    assert PointRight(rows, bucketOf, points[i]);
    CountsBoth(rows, bucketOf, points[i].bucket, points[i].stage);
  }

  // ---------------------------------------------------------------- the pass over the rows

  method Tally(rows: seq<Row>, bucketOf: Text -> Text) returns (cells: Cells, order: seq<Text>)
    ensures Tallied(rows, bucketOf, cells) && NoDuplicates(order) && forall b :: b in cells <==> b in order
  {
    cells, order := map[], [];
    var i := 0;
    while i < |rows|
      invariant i <= |rows|
      invariant Tallied(rows[..i], bucketOf, cells)
      invariant NoDuplicates(order) && forall b :: b in cells <==> b in order
    {
      var r := rows[i];
      assert rows[..i + 1] == rows[..i] + [r];
      if r.chatSourceOnly {
        SkipTallied(rows[..i], r, bucketOf, cells);
      } else {
        AddTallied(rows[..i], r, bucketOf, cells);
        var bucket := bucketOf(r.day);
        if bucket !in cells {
          order := order + [bucket];
        }
        var row := if bucket in cells then cells[bucket] else map[];
        var cell := if r.stage in row then row[r.stage] else Cell(0, {}, false);
        cells := cells[bucket := row[r.stage := Bump(cell, r)]];
      }
      i := i + 1;
    }
    assert rows[..|rows|] == rows;
  }

  method Emit(cells: Cells, order: seq<Text>) returns (points: seq<Point>)
    ensures points == AllPoints(cells, order)
  {
    points := [];
    var i := 0;
    while i < |order|
      invariant i <= |order| && points == AllPoints(cells, order[..i])
    {
      var bucket := order[i];
      assert order[..i + 1][..i] == order[..i] && order[..i + 1][i] == bucket;
      ghost var before := points;
      var n := 0;
      while n < |STAGES|
        invariant n <= |STAGES| && points == before + BucketPoints(cells, bucket, n)
      {
        var cell := CellAt(cells, bucket, STAGES[n]);
        if cell.Some? {
          points := points + [PointOf(bucket, STAGES[n], cell.value)];
        }
        n := n + 1;
      }
      i := i + 1;
    }
    assert order[..|order|] == order;
  }

  method AggregateChartCells(rows: seq<Row>, bucketOf: Text -> Text) returns (points: seq<Point>)
    ensures ChartOf(points, rows, bucketOf)
  {
    var cells, order := Tally(rows, bucketOf);
    points := Emit(cells, order);
    points := Sort(points, BucketLeq);
    ChartFromCells(rows, bucketOf, cells, order);
  }

  // ---------------------------------------------------------------- totals

  /** The values of the points in wanted buckets, added up. */
  function ValueWhere(points: seq<Point>, wanted: Text -> bool): nat {
    if points == [] then 0
    else
      var last := points[|points| - 1];
      ValueWhere(points[..|points| - 1], wanted) + if wanted(last.bucket) then last.value else 0
  }

  /** The rows in wanted buckets that are not chat-only. */
  function RowsWhere(rows: seq<Row>, bucketOf: Text -> Text, wanted: Text -> bool): nat {
    if rows == [] then 0
    else
      var last := rows[|rows| - 1];
      RowsWhere(rows[..|rows| - 1], bucketOf, wanted)
      + if !last.chatSourceOnly && wanted(bucketOf(last.day)) then 1 else 0
  }

  function CountsWhere(points: seq<Point>, rows: seq<Row>, bucketOf: Text -> Text, wanted: Text -> bool): nat
    decreases |points|
  {
    if points == [] then 0
    else
      var last := points[|points| - 1];
      CountsWhere(points[..|points| - 1], rows, bucketOf, wanted)
      + if wanted(last.bucket) then CountIn(rows, bucketOf, last.bucket, last.stage) else 0
  }

  /** How many wanted points a row falls into. */
  function Hits(points: seq<Point>, r: Row, bucketOf: Text -> Text, wanted: Text -> bool): nat {
    if points == [] then 0
    else
      var last := points[|points| - 1];
      Hits(points[..|points| - 1], r, bucketOf, wanted)
      + if wanted(last.bucket) && InCell(r, bucketOf, last.bucket, last.stage) then 1 else 0
  }

  ghost predicate DistinctPoints(points: seq<Point>) {
    forall i, j :: 0 <= i < j < |points| ==> points[i].bucket != points[j].bucket || points[i].stage != points[j].stage
  }

  lemma {:induction false} CountsStep(points: seq<Point>, rows: seq<Row>, r: Row, bucketOf: Text -> Text, wanted: Text -> bool)
    ensures CountsWhere(points, rows + [r], bucketOf, wanted)
         == CountsWhere(points, rows, bucketOf, wanted) + Hits(points, r, bucketOf, wanted)
    decreases |points|
  {
    if points != [] {
      CountsStep(points[..|points| - 1], rows, r, bucketOf, wanted);
      assert (rows + [r])[..|rows|] == rows;
    }
  }

  lemma {:induction false} NoHits(points: seq<Point>, r: Row, bucketOf: Text -> Text, wanted: Text -> bool)
    requires forall i :: 0 <= i < |points| ==> !InCell(r, bucketOf, points[i].bucket, points[i].stage)
    ensures Hits(points, r, bucketOf, wanted) == 0
  {
    if points != [] {
      NoHits(points[..|points| - 1], r, bucketOf, wanted);
    }
  }

  lemma {:induction false} OneHit(points: seq<Point>, r: Row, bucketOf: Text -> Text, wanted: Text -> bool)
    requires DistinctPoints(points) && !r.chatSourceOnly && Shown(points, bucketOf(r.day), r.stage)
    ensures Hits(points, r, bucketOf, wanted) == if wanted(bucketOf(r.day)) then 1 else 0
  {
    var before, last := points[..|points| - 1], points[|points| - 1];
    if InCell(r, bucketOf, last.bucket, last.stage) {
      NoHits(before, r, bucketOf, wanted);
    } else {
      var i :| 0 <= i < |points| && points[i].bucket == bucketOf(r.day) && points[i].stage == r.stage;
      assert before[i] == points[i];
      OneHit(before, r, bucketOf, wanted);
    }
  }

  lemma {:induction false} CountsAreRows(points: seq<Point>, rows: seq<Row>, bucketOf: Text -> Text, wanted: Text -> bool)
    requires DistinctPoints(points)
    requires forall i :: 0 <= i < |rows| && !rows[i].chatSourceOnly ==> Shown(points, bucketOf(rows[i].day), rows[i].stage)
    ensures CountsWhere(points, rows, bucketOf, wanted) == RowsWhere(rows, bucketOf, wanted)
    decreases |rows|
  {
    if rows == [] {
      CountsOfNothing(points, bucketOf, wanted);
    } else {
      var before, last := rows[..|rows| - 1], rows[|rows| - 1];
      CountsAreRows(points, before, bucketOf, wanted);
      assert rows == before + [last];
      CountsStep(points, before, last, bucketOf, wanted);
      if last.chatSourceOnly {
        NoHits(points, last, bucketOf, wanted);
      } else {
        OneHit(points, last, bucketOf, wanted);
      }
    }
  }

  lemma {:induction false} CountsOfNothing(points: seq<Point>, bucketOf: Text -> Text, wanted: Text -> bool)
    ensures CountsWhere(points, [], bucketOf, wanted) == 0
  {
    if points != [] {
      CountsOfNothing(points[..|points| - 1], bucketOf, wanted);
    }
  }

  lemma {:induction false} ValuesAreCounts(points: seq<Point>, rows: seq<Row>, bucketOf: Text -> Text, wanted: Text -> bool)
    requires forall i :: 0 <= i < |points| ==> PointRight(rows, bucketOf, points[i])
    ensures ValueWhere(points, wanted) == CountsWhere(points, rows, bucketOf, wanted)
  {
    if points != [] {
      ValuesAreCounts(points[..|points| - 1], rows, bucketOf, wanted);
      assert PointRight(rows, bucketOf, points[|points| - 1]);
    }
  }

  lemma {:induction false} CountedInOwnCell(rows: seq<Row>, bucketOf: Text -> Text, i: nat)
    requires i < |rows| && !rows[i].chatSourceOnly
    ensures CountIn(rows, bucketOf, bucketOf(rows[i].day), rows[i].stage) > 0
    decreases |rows|
  {
    if i < |rows| - 1 {
      CountedInOwnCell(rows[..|rows| - 1], bucketOf, i);
    }
  }

  lemma ChartPointsDistinct(points: seq<Point>, rows: seq<Row>, bucketOf: Text -> Text)
    requires ChartOf(points, rows, bucketOf)
    ensures DistinctPoints(points)
  {
    forall i, j | 0 <= i < j < |points|
      ensures points[i].bucket != points[j].bucket || points[i].stage != points[j].stage
    {
      assert PointBefore(points[i], points[j]);
      UnitsLessTrichotomy(points[i].bucket, points[j].bucket);
    }
  }

  /** Over any choice of buckets the chart adds up to the rows that are not chat-only. */
  lemma ChartAddsUp(points: seq<Point>, rows: seq<Row>, bucketOf: Text -> Text, wanted: Text -> bool)
    requires ChartOf(points, rows, bucketOf)
    ensures ValueWhere(points, wanted) == RowsWhere(rows, bucketOf, wanted)
  {
    ChartPointsDistinct(points, rows, bucketOf);
    forall i | 0 <= i < |rows| && !rows[i].chatSourceOnly
      ensures Shown(points, bucketOf(rows[i].day), rows[i].stage)
    {
      CountedInOwnCell(rows, bucketOf, i);
    }
    ValuesAreCounts(points, rows, bucketOf, wanted);
    CountsAreRows(points, rows, bucketOf, wanted);
  }

  // ---------------------------------------------------------------- drill-down

  predicate Drills(snapshot: Snapshot, stage: Option<Stage>, bucket: Option<Text>, r: Row) {
    && Keeps(snapshot, r)
    && (stage.Some? ==> r.stage == stage.value)
    && (bucket.Some? ==> snapshot.bucketOf(r.day) == bucket.value)
  }

  function DrillRows(rows: seq<Row>, snapshot: Snapshot, stage: Option<Stage>, bucket: Option<Text>): seq<Row> {
    if rows == [] then []
    else
      var last := rows[|rows| - 1];
      DrillRows(rows[..|rows| - 1], snapshot, stage, bucket)
      + if Drills(snapshot, stage, bucket, last) then [last] else []
  }

  /** The values of the cells of a bucket whose stage is the one asked for; an absent stage equals none. */
  function ChartValue(points: seq<Point>, bucket: Text, stage: Option<Stage>): nat {
    if points == [] then 0
    else
      var last := points[|points| - 1];
      ChartValue(points[..|points| - 1], bucket, stage)
      + if last.bucket == bucket && stage == Some(last.stage) then last.value else 0
  }

  datatype DrilldownResult = DrilldownResult(
    rows: seq<Row>, total: nat, chartValue: nat, drilldownSum: nat, consistent: bool)

  function Drilldown(rows: seq<Row>, points: seq<Point>, snapshot: Snapshot, stage: Option<Stage>, bucket: Option<Text>)
    : DrilldownResult
  {
    var found := DrillRows(rows, snapshot, stage, bucket);
    match bucket
    case None => DrilldownResult(found, |found|, 0, 0, true)
    case Some(b) =>
      var chart, sum := ChartValue(points, b, stage), WholeCompanyCount(found);
      DrilldownResult(found, |found|, chart, sum, chart == sum)
  }

  lemma WholePlus(rows: seq<Row>, r: Row)
    ensures WholeCompanyCount(rows + [r]) == WholeCompanyCount(rows) + if r.chatSourceOnly then 0 else 1
  {
    assert (rows + [r])[..|rows|] == rows;
  }

  lemma CountPlus(rows: seq<Row>, r: Row, bucketOf: Text -> Text, b: Text, s: Stage)
    ensures CountIn(rows + [r], bucketOf, b, s) == CountIn(rows, bucketOf, b, s) + if InCell(r, bucketOf, b, s) then 1 else 0
  {
    assert (rows + [r])[..|rows|] == rows;
  }

  lemma {:induction false} DrillCounts(rows: seq<Row>, snapshot: Snapshot, stage: Stage, bucket: Text)
    ensures WholeCompanyCount(DrillRows(rows, snapshot, Some(stage), Some(bucket)))
         == CountIn(FilterRows(rows, snapshot), snapshot.bucketOf, bucket, stage)
  {
    if rows != [] {
      var before, last := rows[..|rows| - 1], rows[|rows| - 1];
      DrillCounts(before, snapshot, stage, bucket);
      var drilled, kept := DrillRows(before, snapshot, Some(stage), Some(bucket)), FilterRows(before, snapshot);
      WholePlus(drilled, last);
      CountPlus(kept, last, snapshot.bucketOf, bucket, stage);
      if Keeps(snapshot, last) {
        assert FilterRows(rows, snapshot) == kept + [last];
      } else {
        assert FilterRows(rows, snapshot) == kept;
      }
      if Drills(snapshot, Some(stage), Some(bucket), last) {
        assert DrillRows(rows, snapshot, Some(stage), Some(bucket)) == drilled + [last];
      } else {
        assert DrillRows(rows, snapshot, Some(stage), Some(bucket)) == drilled;
      }
    }
  }

  lemma {:induction false} NoChartValue(points: seq<Point>, bucket: Text, stage: Option<Stage>)
    requires forall i :: 0 <= i < |points| ==> !(points[i].bucket == bucket && stage == Some(points[i].stage))
    ensures ChartValue(points, bucket, stage) == 0
  {
    if points != [] {
      NoChartValue(points[..|points| - 1], bucket, stage);
    }
  }

  lemma {:induction false} OneChartValue(points: seq<Point>, i: nat)
    requires DistinctPoints(points) && i < |points|
    ensures ChartValue(points, points[i].bucket, Some(points[i].stage)) == points[i].value
  {
    var before := points[..|points| - 1];
    if i == |before| {
      NoChartValue(before, points[i].bucket, Some(points[i].stage));
    } else {
      OneChartValue(before, i);
    }
  }

  lemma ChartValueIsCount(points: seq<Point>, rows: seq<Row>, bucketOf: Text -> Text, bucket: Text, stage: Stage)
    requires ChartOf(points, rows, bucketOf)
    ensures ChartValue(points, bucket, Some(stage)) == CountIn(rows, bucketOf, bucket, stage)
  {
    ChartPointsDistinct(points, rows, bucketOf);
    if Shown(points, bucket, stage) {
      var i :| 0 <= i < |points| && points[i].bucket == bucket && points[i].stage == stage;
      assert PointRight(rows, bucketOf, points[i]);
      OneChartValue(points, i);
    } else {
      NoChartValue(points, bucket, Some(stage));
    }
  }

  /** Drill-down over cells built from the same filtered rows reports agreement for every snapshot, stage and bucket;
      left without a stage, which the request type forbids but the code provides for, exactly when the bucket holds no
      row that counts. */
  lemma DrilldownAgrees(
      rows: seq<Row>, points: seq<Point>, snapshot: Snapshot, stage: Option<Stage>, bucket: Option<Text>)
    requires ChartOf(points, FilterRows(rows, snapshot), snapshot.bucketOf)
    ensures var d := Drilldown(rows, points, snapshot, stage, bucket);
      d.consistent <==> bucket.None? || stage.Some? || WholeCompanyCount(d.rows) == 0
    ensures stage.Some? && bucket.Some? ==>
      Drilldown(rows, points, snapshot, stage, bucket).drilldownSum
      == CountIn(FilterRows(rows, snapshot), snapshot.bucketOf, bucket.value, stage.value)
  {
    if bucket.Some? {
      if stage.Some? {
        DrillCounts(rows, snapshot, stage.value, bucket.value);
        ChartValueIsCount(points, FilterRows(rows, snapshot), snapshot.bucketOf, bucket.value, stage.value);
      } else {
        NoChartValue(points, bucket.value, None);
      }
    }
  }

  // ---------------------------------------------------------------- growth

  function Buckets(points: seq<Point>): (bs: seq<Text>)
    ensures NoDuplicates(bs) && forall b :: b in bs <==> exists i :: 0 <= i < |points| && points[i].bucket == b
  {
    if points == [] then []
    else
      var before, last := Buckets(points[..|points| - 1]), points[|points| - 1].bucket;
      assert forall i :: 0 <= i < |points| - 1 ==> points[..|points| - 1][i] == points[i];
      if last in before then before else before + [last]
  }

  datatype Growth = Growth(bucket: Text, priorBucket: Text, value: nat, priorValue: nat)

  /** The last two buckets in string order and their totals; the percentage is left to the caller. */
  function ComputeGrowth(points: seq<Point>): Option<Growth> {
    var buckets := Sort(Buckets(points), TextAtMost);
    if |buckets| < 2 then None
    else
      var last, prior := buckets[|buckets| - 1], buckets[|buckets| - 2];
      Some(Growth(last, prior, ValueWhere(points, b => b == last), ValueWhere(points, b => b == prior)))
  }

  lemma SortedTexts(bs: seq<Text>)
    requires NoDuplicates(bs)
    ensures var s := Sort(bs, TextAtMost);
      (forall b :: b in s <==> b in bs) && forall i, j :: 0 <= i < j < |s| ==> UnitsLess(s[i], s[j])
  {
    var s := Sort(bs, TextAtMost);
    TextTotalPreorder();
    SortSorts(bs, TextAtMost);
    SortPermutes(bs, TextAtMost);
    NoDuplicatesPermutes(bs, s);
    forall i, j | 0 <= i < j < |s|
      ensures UnitsLess(s[i], s[j])
    {
      UnitsLessTrichotomy(s[i], s[j]);
      assert TextAtMost(s[i], s[j]);
    }
  }

  /** The bucket of a point. */
  ghost predicate Has(points: seq<Point>, b: Text) {
    exists i :: 0 <= i < |points| && points[i].bucket == b
  }

  lemma LastTwoBuckets(points: seq<Point>)
    ensures match ComputeGrowth(points)
      case None => forall b: Text, c: Text :: Has(points, b) && Has(points, c) ==> b == c
      case Some(g) =>
        && Has(points, g.bucket) && Has(points, g.priorBucket) && UnitsLess(g.priorBucket, g.bucket)
        && forall b: Text :: Has(points, b) ==> b == g.bucket || b == g.priorBucket || UnitsLess(b, g.priorBucket)
  {
    var bs := Buckets(points);
    var s := Sort(bs, TextAtMost);
    SortedTexts(bs);
    if |s| < 2 {
      forall b: Text, c: Text | Has(points, b) && Has(points, c)
        ensures b == c
      {
        assert b in bs && c in bs;
        assert b in s && c in s;
      }
    } else {
      assert s[|s| - 1] in bs && s[|s| - 2] in bs;
      forall b: Text | Has(points, b)
        ensures b == s[|s| - 1] || b == s[|s| - 2] || UnitsLess(b, s[|s| - 2])
      {
        assert b in s;
        var i :| 0 <= i < |s| && s[i] == b;
      }
    }
  }

  /** Growth compares the greatest bucket present with the greatest of the others, on the rows that count in each. */
  lemma GrowthComparesLastTwo(points: seq<Point>, rows: seq<Row>, bucketOf: Text -> Text)
    requires ChartOf(points, rows, bucketOf)
    ensures match ComputeGrowth(points)
      case None => forall b: Text, c: Text :: Has(points, b) && Has(points, c) ==> b == c
      case Some(g) =>
        && Has(points, g.bucket) && Has(points, g.priorBucket) && UnitsLess(g.priorBucket, g.bucket)
        && (forall b: Text :: Has(points, b) ==> b == g.bucket || b == g.priorBucket || UnitsLess(b, g.priorBucket))
        && g.value == RowsWhere(rows, bucketOf, b => b == g.bucket)
        && g.priorValue == RowsWhere(rows, bucketOf, b => b == g.priorBucket)
  {
    LastTwoBuckets(points);
    if ComputeGrowth(points).Some? {
      GrowthValues(points, rows, bucketOf);
    }
  }

  lemma GrowthValues(points: seq<Point>, rows: seq<Row>, bucketOf: Text -> Text)
    requires ChartOf(points, rows, bucketOf) && ComputeGrowth(points).Some?
    ensures var g := ComputeGrowth(points).value;
      && g.value == RowsWhere(rows, bucketOf, b => b == g.bucket)
      && g.priorValue == RowsWhere(rows, bucketOf, b => b == g.priorBucket)
  {
    var g := ComputeGrowth(points).value;
    ChartAddsUp(points, rows, bucketOf, b => b == g.bucket);
    ChartAddsUp(points, rows, bucketOf, b => b == g.priorBucket);
  }

  /** The buckets of the points are the labels of these dates. */
  ghost predicate Labelled(points: seq<Point>, dates: seq<Date>, p: Period) {
    |dates| == |points| && forall i :: 0 <= i < |points| ==>
      ValidDay(dates[i]) && LabelMeans(dates[i], p) && points[i].bucket == BucketLabel(dates[i], p)
  }

  /** Point i is of the latest period present and point j of the latest one before it. */
  ghost predicate LatestTwo(dates: seq<Date>, p: Period, i: nat, j: nat)
    requires i < |dates| && j < |dates| && forall k :: 0 <= k < |dates| ==> ValidDay(dates[k])
  {
    && PeriodIndex(dates[j], p) < PeriodIndex(dates[i], p)
    && forall k :: 0 <= k < |dates| ==>
         PeriodIndex(dates[k], p) == PeriodIndex(dates[i], p) || PeriodIndex(dates[k], p) <= PeriodIndex(dates[j], p)
  }

  ghost predicate LastTwoPoints(points: seq<Point>, i: nat, j: nat)
    requires i < |points| && j < |points|
  {
    && UnitsLess(points[j].bucket, points[i].bucket)
    && forall k :: 0 <= k < |points| ==> NotAfter(points, i, j, k)
  }

  predicate NotAfter(points: seq<Point>, i: nat, j: nat, k: nat)
    requires i < |points| && j < |points| && k < |points|
  {
    points[k].bucket == points[i].bucket || points[k].bucket == points[j].bucket
    || UnitsLess(points[k].bucket, points[j].bucket)
  }

  lemma LastTwoCompared(points: seq<Point>, i: nat, j: nat)
    requires i < |points| && j < |points|
    ensures LastTwoPoints(points, i, j) <==>
      ComputeGrowth(points).Some? && ComputeGrowth(points).value.bucket == points[i].bucket
      && ComputeGrowth(points).value.priorBucket == points[j].bucket
  {
    LastTwoBuckets(points);
    assert forall k :: 0 <= k < |points| ==> Has(points, points[k].bucket);
    if LastTwoPoints(points, i, j) {
      UnitsLessTrichotomy(points[i].bucket, points[j].bucket);
      OnlyLastTwo(points, i, j);
    }
  }

  lemma OnlyLastTwo(points: seq<Point>, i: nat, j: nat)
    requires i < |points| && j < |points| && LastTwoPoints(points, i, j) && ComputeGrowth(points).Some?
    ensures ComputeGrowth(points).value.bucket == points[i].bucket
    ensures ComputeGrowth(points).value.priorBucket == points[j].bucket
  {
    var g := ComputeGrowth(points).value;
    LastTwoBuckets(points);
    assert Has(points, points[i].bucket) && Has(points, points[j].bucket);
    UnitsLessTrichotomy(g.bucket, points[i].bucket);
    UnitsLessTrichotomy(g.bucket, points[j].bucket);
    UnitsLessTrichotomy(g.priorBucket, points[i].bucket);
    UnitsLessTrichotomy(g.priorBucket, points[j].bucket);
    var a :| 0 <= a < |points| && points[a].bucket == g.bucket;
    var b :| 0 <= b < |points| && points[b].bucket == g.priorBucket;
    assert NotAfter(points, i, j, a) && NotAfter(points, i, j, b);
    NotBetween(g.bucket, g.priorBucket, points[i].bucket, points[j].bucket);
  }

  /** Two pairs of texts, each the last two of the same collection. */
  lemma NotBetween(a: Text, b: Text, x: Text, y: Text)
    requires UnitsLess(b, a) && UnitsLess(y, x)
    requires x == a || x == b || UnitsLess(x, b)
    requires y == a || y == b || UnitsLess(y, b)
    requires a == x || a == y || UnitsLess(a, y)
    requires b == x || b == y || UnitsLess(b, y)
    ensures a == x && b == y
  {
    UnitsLessTrichotomy(a, x);
    UnitsLessTrichotomy(b, y);
    UnitsLessTrichotomy(a, y);
    UnitsLessTrichotomy(x, b);
    UnitsLessTrichotomy(a, b);
    UnitsLessTrichotomy(x, y);
    if a != x {
      if UnitsLess(x, b) {
        UnitsLessTransitive(x, b, a);
        UnitsLessTrichotomy(x, a);
      }
      if UnitsLess(a, y) {
        UnitsLessTransitive(a, y, x);
      }
    }
  }

  /** The second latest period sorts right against a date: what comes after it has the greater label, what comes before it
      the smaller one. */
  lemma PriorSorts(points: seq<Point>, dates: seq<Date>, p: Period, i: nat, j: nat, k: nat)
    requires Labelled(points, dates, p) && i < |points| && j < |points| && k < |points|
    requires LatestTwo(dates, p, i, j)
    ensures UnitsLess(points[j].bucket, points[i].bucket) ==>
      (NotAfter(points, i, j, k) <==> SortsRight(dates[j], dates[k], p))
    ensures k == i ==> (UnitsLess(points[j].bucket, points[i].bucket) <==> SortsRight(dates[j], dates[i], p))
  {
    LabelTellsPeriod(dates[k], dates[i], p);
    LabelTellsPeriod(dates[k], dates[j], p);
    BucketOrderExactly(dates[j], dates[k], p);
    BucketOrderExactly(dates[k], dates[j], p);
    SamePeriodSorts(dates[j], dates[k], p);
    UnitsLessTrichotomy(points[j].bucket, points[k].bucket);
  }

  /** Growth compares the two latest periods present exactly when the second latest sorts right against every period
      present. */
  lemma GrowthComparesLatestPeriods(points: seq<Point>, dates: seq<Date>, p: Period, i: nat, j: nat)
    requires Labelled(points, dates, p) && i < |points| && j < |points| && LatestTwo(dates, p, i, j)
    ensures (ComputeGrowth(points).Some? && ComputeGrowth(points).value.bucket == points[i].bucket
             && ComputeGrowth(points).value.priorBucket == points[j].bucket)
       <==> forall k :: 0 <= k < |dates| ==> SortsRight(dates[j], dates[k], p)
  {
    LastTwoCompared(points, i, j);
    PriorSorts(points, dates, p, i, j, i);
    if UnitsLess(points[j].bucket, points[i].bucket) {
      AllSort(points, dates, p, i, j);
    }
  }

  lemma AllSort(points: seq<Point>, dates: seq<Date>, p: Period, i: nat, j: nat)
    requires Labelled(points, dates, p) && i < |points| && j < |points| && LatestTwo(dates, p, i, j)
    requires UnitsLess(points[j].bucket, points[i].bucket)
    ensures (forall k :: 0 <= k < |points| ==> NotAfter(points, i, j, k))
       <==> forall k :: 0 <= k < |dates| ==> SortsRight(dates[j], dates[k], p)
  {
    if forall k :: 0 <= k < |points| ==> NotAfter(points, i, j, k) {
      forall k | 0 <= k < |dates|
        ensures SortsRight(dates[j], dates[k], p)
      {
        PriorSorts(points, dates, p, i, j, k);
      }
    } else {
      var k :| 0 <= k < |points| && !NotAfter(points, i, j, k);
      PriorSorts(points, dates, p, i, j, k);
    }
  }

  lemma {:induction false} Greatest(xs: seq<int>) returns (i: nat)
    requires xs != []
    ensures i < |xs| && forall k :: 0 <= k < |xs| ==> xs[k] <= xs[i]
  {
    i := 0;
    if |xs| > 1 {
      var last := |xs| - 1;
      var before := xs[..last];
      i := Greatest(before);
      assert forall k :: 0 <= k < last ==> before[k] == xs[k];
      i := if xs[i] < xs[last] then last else i;
    }
  }

  /** The greatest of those below a cap that some are below. */
  lemma {:induction false} GreatestBelow(xs: seq<int>, cap: int, b: nat) returns (j: nat)
    requires b < |xs| && xs[b] < cap
    ensures j < |xs| && xs[j] < cap && forall k :: 0 <= k < |xs| && xs[k] < cap ==> xs[k] <= xs[j]
    decreases cap - xs[b]
  {
    j := b;
    if k :| 0 <= k < |xs| && xs[b] < xs[k] < cap {
      j := GreatestBelow(xs, cap, k);
    }
  }

  function Indexes(dates: seq<Date>, p: Period): (xs: seq<int>)
    requires forall k :: 0 <= k < |dates| ==> ValidDay(dates[k])
    ensures |xs| == |dates| && forall k :: 0 <= k < |dates| ==> xs[k] == PeriodIndex(dates[k], p)
  {
    seq(|dates|, k requires 0 <= k < |dates| => PeriodIndex(dates[k], p))
  }

  lemma TwoLabels(points: seq<Point>) returns (a: nat, b: nat)
    requires ComputeGrowth(points).Some?
    ensures a < |points| && b < |points| && points[a].bucket != points[b].bucket
  {
    var g := ComputeGrowth(points).value;
    LastTwoBuckets(points);
    UnitsLessTrichotomy(g.bucket, g.priorBucket);
    a :| 0 <= a < |points| && points[a].bucket == g.bucket;
    b :| 0 <= b < |points| && points[b].bucket == g.priorBucket;
  }

  lemma TwoPeriods(points: seq<Point>, dates: seq<Date>, p: Period) returns (a: nat, b: nat)
    requires Labelled(points, dates, p) && ComputeGrowth(points).Some?
    ensures a < |dates| && b < |dates| && PeriodIndex(dates[a], p) != PeriodIndex(dates[b], p)
  {
    a, b := TwoLabels(points);
    OtherLabel(dates[a], dates[b], p);
  }

  lemma OtherLabel(a: Date, b: Date, p: Period)
    requires ValidDay(a) && ValidDay(b) && LabelMeans(a, p) && LabelMeans(b, p) && BucketLabel(a, p) != BucketLabel(b, p)
    ensures PeriodIndex(a, p) != PeriodIndex(b, p)
  {
    LabelTellsPeriod(a, b, p);
  }

  lemma LatestTwoOf(dates: seq<Date>, p: Period, xs: seq<int>, i: nat, j: nat)
    requires (forall k :: 0 <= k < |dates| ==> ValidDay(dates[k])) && xs == Indexes(dates, p)
    requires i < |xs| && j < |xs| && xs[j] < xs[i]
    requires forall k :: 0 <= k < |xs| ==> xs[k] == xs[i] || xs[k] <= xs[j]
    ensures LatestTwo(dates, p, i, j)
  {
    forall k | 0 <= k < |dates|
      ensures PeriodIndex(dates[k], p) == PeriodIndex(dates[i], p) || PeriodIndex(dates[k], p) <= PeriodIndex(dates[j], p)
    {
      assert xs[k] == PeriodIndex(dates[k], p);
    }
  }

  /** When growth is computed there are a latest and a second latest period. */
  lemma LatestTwoPresent(points: seq<Point>, dates: seq<Date>, p: Period) returns (i: nat, j: nat)
    requires Labelled(points, dates, p) && ComputeGrowth(points).Some?
    ensures i < |points| && j < |points| && LatestTwo(dates, p, i, j)
  {
    var a, b := TwoPeriods(points, dates, p);
    var xs := Indexes(dates, p);
    i := Greatest(xs);
    assert xs[a] != xs[b];
    j := GreatestBelow(xs, xs[i], if xs[a] < xs[i] then a else b);
    LatestTwoOf(dates, p, xs, i, j);
  }

  /** So it always does where every year fills its label: four digits, or a daily or monthly label. */
  lemma GrowthOnFilledLabels(points: seq<Point>, dates: seq<Date>, p: Period, i: nat, j: nat)
    requires Labelled(points, dates, p) && i < |points| && j < |points| && LatestTwo(dates, p, i, j)
    requires forall k :: 0 <= k < |dates| ==> YearFillsLabel(dates[k], p)
    ensures ComputeGrowth(points).Some? && ComputeGrowth(points).value.bucket == points[i].bucket
    ensures ComputeGrowth(points).value.priorBucket == points[j].bucket
  {
    GrowthComparesLatestPeriods(points, dates, p, i, j);
    forall k | 0 <= k < |dates|
      ensures SortsRight(dates[j], dates[k], p)
    {
      FilledSorts(dates[j], dates[k], p);
    }
  }

  /** The specification leaves no choice: a chart is determined by the rows. */
  lemma ChartUnique(points: seq<Point>, others: seq<Point>, rows: seq<Row>, bucketOf: Text -> Text)
    requires ChartOf(points, rows, bucketOf) && ChartOf(others, rows, bucketOf)
    ensures points == others
  {
    ChartCovered(points, others, rows, bucketOf);
    ChartCovered(others, points, rows, bucketOf);
    ChartNoDuplicates(points, rows, bucketOf);
    ChartNoDuplicates(others, rows, bucketOf);
    SameElements(points, others);
    SameLengthCover(points, others);
    ChartSortedByPoint(points, rows, bucketOf);
    ChartSortedByPoint(others, rows, bucketOf);
    forall p, q | p in points && q in points && PointLeq(p, q) && PointLeq(q, p)
      ensures p == q
    {
      UnitsLessTrichotomy(p.bucket, q.bucket);
    }
    SortedUnique(points, others, PointLeq);
  }

  predicate PointLeq(p: Point, q: Point) {
    p == q || PointBefore(p, q)
  }

  lemma ChartCovered(points: seq<Point>, others: seq<Point>, rows: seq<Row>, bucketOf: Text -> Text)
    requires ChartOf(points, rows, bucketOf) && ChartOf(others, rows, bucketOf)
    ensures forall i :: 0 <= i < |points| ==> points[i] in others
  {
    forall i | 0 <= i < |points|
      ensures points[i] in others
    {
      assert PointRight(rows, bucketOf, points[i]);
      assert CountIn(rows, bucketOf, points[i].bucket, points[i].stage) > 0;
      assert Shown(others, points[i].bucket, points[i].stage);
      var j :| 0 <= j < |others| && others[j].bucket == points[i].bucket && others[j].stage == points[i].stage;
      assert PointRight(rows, bucketOf, others[j]);
    }
  }

  lemma ChartNoDuplicates(points: seq<Point>, rows: seq<Row>, bucketOf: Text -> Text)
    requires ChartOf(points, rows, bucketOf)
    ensures NoDuplicates(points)
  {
    ChartPointsDistinct(points, rows, bucketOf);
  }

  lemma ChartSortedByPoint(points: seq<Point>, rows: seq<Row>, bucketOf: Text -> Text)
    requires ChartOf(points, rows, bucketOf)
    ensures Sorted(points, PointLeq)
  {
  }

  /** Lists without duplicates that cover each other have the same length. */
  lemma SameElements<T>(a: seq<T>, b: seq<T>)
    requires NoDuplicates(a) && NoDuplicates(b)
    requires (forall i :: 0 <= i < |a| ==> a[i] in b) && (forall i :: 0 <= i < |b| ==> b[i] in a)
    ensures |a| == |b|
  {
    forall x
      ensures multiset(a)[x] == multiset(b)[x]
    {
      OnceEach(a, x);
      OnceEach(b, x);
      assert x in a <==> x in multiset(a);
      assert x in b <==> x in multiset(b);
    }
    assert multiset(a) == multiset(b);
    assert |multiset(a)| == |a| && |multiset(b)| == |b|;
  }
}
