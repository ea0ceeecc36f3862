/** Which rows a chart and its drill-downs are about, spelled out and counted. */
module DashboardScope {
  import opened Ordering
  import opened CanonicalJson
  import opened Dashboard

  /** A row of the snapshot's organization, of its actor if it names one, of one of its sources and regions if it lists any,
      and of a day within its period. */
  predicate InScope(snapshot: Snapshot, r: Row) {
    && r.organizationId == snapshot.organizationId
    && (snapshot.actorId == None || snapshot.actorId == Some(r.actorId))
    && (snapshot.sources == [] || r.source in snapshot.sources)
    && (snapshot.regions == [] || exists region :: region in snapshot.regions && region != [] && r.region == Some(region))
    && TextAtMost(snapshot.periodStart, r.day) && TextAtMost(r.day, snapshot.periodEnd)
  }

  predicate Asked(snapshot: Snapshot, stage: Option<Stage>, bucket: Option<Text>, r: Row) {
    && InScope(snapshot, r) && (stage == None || stage == Some(r.stage))
    && (bucket == None || bucket == Some(snapshot.bucketOf(r.day)))
  }

  lemma FilterNext(p: Row -> bool, before: seq<Row>, last: Row)
    ensures Filter(p, before + [last]) == Filter(p, before) + if p(last) then [last] else []
  {
    FilterConcat(p, before, [last]);
    assert [last][1..] == [];
  }

  /** The filter keeps exactly the rows in scope, in their order. */
  lemma {:induction false} FilteredExactly(rows: seq<Row>, snapshot: Snapshot)
    ensures FilterRows(rows, snapshot) == Filter((r: Row) => InScope(snapshot, r), rows)
  {
    if rows != [] {
      var before, last := rows[..|rows| - 1], rows[|rows| - 1];
      FilteredExactly(before, snapshot);
      FilterNext((r: Row) => InScope(snapshot, r), before, last);
      ScopeKept(snapshot, last);
      assert rows == before + [last];
    }
  }

  lemma ScopeKept(snapshot: Snapshot, r: Row)
    ensures Keeps(snapshot, r) <==> InScope(snapshot, r)
  {
  }

  /** Drilling down gives exactly the rows in scope that are of the stage and bucket asked for, in their order. */
  lemma {:induction false} DrilledExactly(rows: seq<Row>, snapshot: Snapshot, stage: Option<Stage>, bucket: Option<Text>)
    ensures DrillRows(rows, snapshot, stage, bucket) == Filter((r: Row) => Asked(snapshot, stage, bucket, r), rows)
  {
    if rows != [] {
      var before, last := rows[..|rows| - 1], rows[|rows| - 1];
      DrilledExactly(before, snapshot, stage, bucket);
      FilterNext((r: Row) => Asked(snapshot, stage, bucket, r), before, last);
      AskedDrills(snapshot, stage, bucket, last);
      assert rows == before + [last];
    }
  }

  lemma AskedDrills(snapshot: Snapshot, stage: Option<Stage>, bucket: Option<Text>, r: Row)
    ensures Drills(snapshot, stage, bucket, r) <==> Asked(snapshot, stage, bucket, r)
  {
    ScopeKept(snapshot, r);
  }

  /** Rows out of scope, those of other organizations among them, never matter: without them every chart and every
      drill-down is the same. */
  lemma OutOfScopeIgnored(rows: seq<Row>, own: seq<Row>, snapshot: Snapshot, stage: Option<Stage>, bucket: Option<Text>)
    requires own == Filter((r: Row) => InScope(snapshot, r), rows)
    ensures FilterRows(own, snapshot) == FilterRows(rows, snapshot)
    ensures DrillRows(own, snapshot, stage, bucket) == DrillRows(rows, snapshot, stage, bucket)
  {
    var scope, asked := (r: Row) => InScope(snapshot, r), (r: Row) => Asked(snapshot, stage, bucket, r);
    FilteredExactly(rows, snapshot);
    FilteredExactly(own, snapshot);
    DrilledExactly(rows, snapshot, stage, bucket);
    DrilledExactly(own, snapshot, stage, bucket);
    FilterTwice(scope, scope, rows);
    FilterTwice(scope, asked, rows);
  }

  lemma {:induction false} FilterTwice(p: Row -> bool, q: Row -> bool, rows: seq<Row>)
    requires forall r :: q(r) ==> p(r)
    ensures Filter(q, Filter(p, rows)) == Filter(q, rows)
  {
    if rows != [] {
      FilterTwice(p, q, rows[1..]);
      if p(rows[0]) {
        assert Filter(p, rows)[1..] == Filter(p, rows[1..]);
      } else {
        assert Filter(p, rows) == Filter(p, rows[1..]) && Filter(q, rows) == Filter(q, rows[1..]);
      }
    }
  }

  // ---------------------------------------------------------------- counted

  /** The places of the rows that count in a cell. */
  function Places(rows: seq<Row>, snapshot: Snapshot, bucket: Text, stage: Stage): set<nat> {
    set i: nat | i < |rows| && Counts(rows[i], snapshot, bucket, stage)
  }

  /** In scope, of the bucket and stage, and not known from chat only. */
  predicate Counts(r: Row, snapshot: Snapshot, bucket: Text, stage: Stage) {
    InScope(snapshot, r) && !r.chatSourceOnly && snapshot.bucketOf(r.day) == bucket && r.stage == stage
  }

  lemma {:induction false} CountIsSize(rows: seq<Row>, snapshot: Snapshot, bucket: Text, stage: Stage)
    ensures CountIn(FilterRows(rows, snapshot), snapshot.bucketOf, bucket, stage) == |Places(rows, snapshot, bucket, stage)|
  {
    if rows != [] {
      var n := |rows| - 1;
      var before, last := rows[..n], rows[n];
      CountIsSize(before, snapshot, bucket, stage);
      KeptExactly(rows, snapshot);
      if InScope(snapshot, last) {
        CountPlus(FilterRows(before, snapshot), last, snapshot.bucketOf, bucket, stage);
      } else {
        assert FilterRows(rows, snapshot) == FilterRows(before, snapshot);
      }
      PlacesNext(before, last, snapshot, bucket, stage);
      assert rows == before + [last];
    } else {
      assert Places(rows, snapshot, bucket, stage) == {};
    }
  }

  lemma PlacesNext(before: seq<Row>, last: Row, snapshot: Snapshot, bucket: Text, stage: Stage)
    ensures |Places(before + [last], snapshot, bucket, stage)|
         == |Places(before, snapshot, bucket, stage)| + if Counts(last, snapshot, bucket, stage) then 1 else 0
  {
    var n, rows := |before|, before + [last];
    var places, more := Places(before, snapshot, bucket, stage), Places(rows, snapshot, bucket, stage);
    forall i: nat
      ensures i in more <==> i in places || (i == n && Counts(last, snapshot, bucket, stage))
    {
      if i < n {
        assert rows[i] == before[i];
      }
    }
    OneMore(places, more, n, Counts(last, snapshot, bucket, stage));
  }

  lemma OneMore(places: set<nat>, more: set<nat>, n: nat, grows: bool)
    requires n !in places && forall i: nat :: i in more <==> i in places || (i == n && grows)
    ensures |more| == |places| + if grows then 1 else 0
  {
    assert more == if grows then places + {n} else places;
  }

  lemma KeptExactly(rows: seq<Row>, snapshot: Snapshot)
    requires rows != []
    ensures FilterRows(rows, snapshot)
         == FilterRows(rows[..|rows| - 1], snapshot) + if InScope(snapshot, rows[|rows| - 1]) then [rows[|rows| - 1]] else []
  {
    FilteredExactly(rows, snapshot);
    FilteredExactly(rows[..|rows| - 1], snapshot);
    assert rows == rows[..|rows| - 1] + [rows[|rows| - 1]];
    FilterNext((r: Row) => InScope(snapshot, r), rows[..|rows| - 1], rows[|rows| - 1]);
  }

  /** A drill-down lists and totals just the rows asked for; without a bucket there is nothing to compare. */
  lemma DrilldownLists(rows: seq<Row>, points: seq<Point>, snapshot: Snapshot, stage: Option<Stage>, bucket: Option<Text>)
    ensures var d := Drilldown(rows, points, snapshot, stage, bucket);
      && d.rows == Filter((r: Row) => Asked(snapshot, stage, bucket, r), rows) && d.total == |d.rows|
      && (d.consistent <==> d.chartValue == d.drilldownSum)
      && (bucket == None ==> d.chartValue == d.drilldownSum == 0)
  {
    DrilledExactly(rows, snapshot, stage, bucket);
  }

  /** A chart shows, for a bucket and a stage, how many rows count there, and drilling down finds the same number. */
  lemma ChartCountsRows(rows: seq<Row>, points: seq<Point>, snapshot: Snapshot, stage: Stage, bucket: Text)
    requires ChartOf(points, FilterRows(rows, snapshot), snapshot.bucketOf)
    ensures var d := Drilldown(rows, points, snapshot, Some(stage), Some(bucket));
      && d.chartValue == d.drilldownSum == |Places(rows, snapshot, bucket, stage)| && d.consistent
    ensures forall i :: 0 <= i < |points| && points[i].bucket == bucket && points[i].stage == stage ==>
      points[i].value == |Places(rows, snapshot, bucket, stage)|
  {
    DrilldownAgrees(rows, points, snapshot, Some(stage), Some(bucket));
    CountIsSize(rows, snapshot, bucket, stage);
  }
}
