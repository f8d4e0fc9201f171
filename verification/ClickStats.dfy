/** GetStats (internal/store/analytics.go): a code's clicks in hourly buckets. */
module ClickStats {
  import opened ClickStore

  const HOUR: int := 3_600_000

  datatype Bucket = Bucket(hour: int, count: nat)

  datatype Stats = Stats(code: string, total: nat, series: seq<Bucket>)

  /** date_trunc('hour', ts). */
  function TruncHour(ts: int): int {
    ts - ts % HOUR
  }

  /** The rows of click_events with the given code, by their primary key. */
  ghost function RowsOf(clicks: map<string, Event>, code: string): set<string> {
    set id | id in clicks && clicks[id].code == code
  }

  /** Of those, the ones in the given hours. */
  ghost function RowsIn(clicks: map<string, Event>, code: string, hours: set<int>): set<string> {
    set id | id in RowsOf(clicks, code) && TruncHour(clicks[id].ts) in hours
  }

  /** The clicks of the code from a up to, not including, z. */
  ghost function ClicksBetween(clicks: map<string, Event>, code: string, a: int, z: int): set<string> {
    set id | id in clicks && clicks[id].code == code && a <= clicks[id].ts < z
  }

  /** The bucket is one hour on the clock, holds all of the code's clicks in it, and is not empty. */
  ghost predicate HourOfClicks(clicks: map<string, Event>, code: string, b: Bucket) {
    b.hour % 3_600_000 == 0 && b.count == |ClicksBetween(clicks, code, b.hour, b.hour + 3_600_000)| > 0
  }

  /** The click falls into one of the buckets. */
  ghost predicate InSeries(rows: seq<Bucket>, ts: int) {
    exists b :: b in rows && b.hour <= ts < b.hour + 3_600_000
  }

  ghost function HoursOf(clicks: map<string, Event>, code: string): set<int> {
    set id | id in RowsOf(clicks, code) :: TruncHour(clicks[id].ts)
  }

  ghost predicate IsLeast(h: int, hours: set<int>) {
    h in hours && forall x :: x in hours ==> h <= x
  }

  lemma {:induction false} LeastExists(hours: set<int>)
    requires hours != {}
    ensures exists h :: IsLeast(h, hours)
    decreases |hours|
  {
    assert (forall x :: x !in hours) ==> hours == {};
    var x :| x in hours;
    var others := hours - {x};
    if others == {} {
      assert hours == {x};
      assert IsLeast(x, hours);
    } else {
      LeastExists(others);
      var h :| IsLeast(h, others);
      var least := if h <= x then h else x;
      forall y | y in hours ensures least <= y {
        assert y == x || y in others;
      }
      assert IsLeast(least, hours);
    }
  }

  ghost function Least(hours: set<int>): int
    requires hours != {}
    ensures IsLeast(Least(hours), hours)
  {
    LeastExists(hours);
    var h :| IsLeast(h, hours);
    h
  }

  /** SELECT hour, count(*) ... GROUP BY hour ORDER BY hour, over the given hours. */
  ghost function QueryOver(clicks: map<string, Event>, code: string, hours: set<int>): seq<Bucket>
    decreases |hours|
  {
    if hours == {} then []
    else
      var h := Least(hours);
      [Bucket(h, |RowsIn(clicks, code, {h})|)] + QueryOver(clicks, code, hours - {h})
  }

  ghost function Query(clicks: map<string, Event>, code: string): seq<Bucket> {
    QueryOver(clicks, code, HoursOf(clicks, code))
  }

  function Counts(rows: seq<Bucket>): nat {
    if rows == [] then 0 else rows[0].count + Counts(rows[1..])
  }

  ghost predicate Ascending(rows: seq<Bucket>) {
    forall i, j :: 0 <= i < j < |rows| ==> rows[i].hour < rows[j].hour
  }

  /** Buckets partition the rows: nothing is counted twice and nothing is missed. */
  lemma {:induction false} BucketsPartition(clicks: map<string, Event>, code: string, hours: set<int>)
    ensures Counts(QueryOver(clicks, code, hours)) == |RowsIn(clicks, code, hours)|
    decreases |hours|
  {
    if hours == {} {
      assert RowsIn(clicks, code, hours) == {};
    } else {
      var h := Least(hours);
      BucketsPartition(clicks, code, hours - {h});
      var here, rest := RowsIn(clicks, code, {h}), RowsIn(clicks, code, hours - {h});
      assert RowsIn(clicks, code, hours) == here + rest && here !! rest;
    }
  }

  lemma {:induction false} BucketsAscend(clicks: map<string, Event>, code: string, hours: set<int>)
    ensures var rows := QueryOver(clicks, code, hours);
            Ascending(rows) && forall i :: 0 <= i < |rows| ==> rows[i].hour in hours
    decreases |hours|
  {
    if hours != {} {
      BucketsAscend(clicks, code, hours - {Least(hours)});
    }
  }

  /** No hour in the answer is empty. */
  lemma {:induction false} BucketsNonEmpty(clicks: map<string, Event>, code: string, hours: set<int>)
    requires hours <= HoursOf(clicks, code)
    ensures forall b :: b in QueryOver(clicks, code, hours) ==> b.count > 0
    decreases |hours|
  {
    if hours != {} {
      var h := Least(hours);
      BucketsNonEmpty(clicks, code, hours - {h});
      var id :| id in RowsOf(clicks, code) && TruncHour(clicks[id].ts) == h;
      assert id in RowsIn(clicks, code, {h});
    }
  }

  /** Where reading the rows can fail: the query, one row's scan, or the cursor itself. */
  datatype Fault = NoFault | QueryFails | ScanFails(at: nat) | CursorFails(at: nat)

  datatype Result = Answer(stats: Stats) | Failure

  /** The row loop. `rows` is what the query answers for `code` on the current table. */
  method GetStats(ghost clicks: map<string, Event>, code: string, rows: seq<Bucket>, f: Fault) returns (r: Result)
    requires rows == Query(clicks, code)
    ensures r.Answer? ==>
      && r.stats.code == code
      && r.stats.total == |RowsOf(clicks, code)|
      && r.stats.total == Counts(r.stats.series)
      && Ascending(r.stats.series)
      && (forall b :: b in r.stats.series ==> HourOfClicks(clicks, code, b))
      && (forall id :: id in RowsOf(clicks, code) ==> InSeries(r.stats.series, clicks[id].ts))
    ensures r.Failure? <==> f.QueryFails? || (f.ScanFails? && f.at < |rows|) || (f.CursorFails? && f.at <= |rows|)
  {
    if f.QueryFails? {
      return Failure;
    }
    var total, series := 0, [];
    var i := 0;
    while i < |rows| && !(f.CursorFails? && f.at == i)
      invariant i <= |rows| && series == rows[..i] && total + Counts(rows[i..]) == Counts(rows)
      invariant (f.ScanFails? || f.CursorFails?) && f.at < |rows| ==> i <= f.at
    {
      if f.ScanFails? && f.at == i {
        return Failure;
      }
      total := total + rows[i].count;
      series := series + [rows[i]];
      i := i + 1;
    }
    if f.CursorFails? && f.at == i {
      return Failure;
    }
    assert series == rows;
    StatsComplete(clicks, code);
    r := Answer(Stats(code, total, series));
  }

  lemma {:induction false} BucketFor(clicks: map<string, Event>, code: string, hours: set<int>, h: int)
    requires h in hours
    ensures Bucket(h, |RowsIn(clicks, code, {h})|) in QueryOver(clicks, code, hours)
    decreases |hours|
  {
    if h != Least(hours) {
      BucketFor(clicks, code, hours - {Least(hours)}, h);
    }
  }

  lemma {:induction false} BucketCounts(clicks: map<string, Event>, code: string, hours: set<int>, b: Bucket)
    requires b in QueryOver(clicks, code, hours)
    ensures b.count == |RowsIn(clicks, code, {b.hour})|
    decreases |hours|
  {
    var h := Least(hours);
    if b != Bucket(h, |RowsIn(clicks, code, {h})|) {
      BucketCounts(clicks, code, hours - {h}, b);
    }
  }

  lemma HourHolds(clicks: map<string, Event>, code: string, h: int)
    requires h in HoursOf(clicks, code)
    ensures h % 3_600_000 == 0 && RowsIn(clicks, code, {h}) == ClicksBetween(clicks, code, h, h + 3_600_000)
  {
    forall id | id in RowsOf(clicks, code)
      ensures TruncHour(clicks[id].ts) == h <==> h <= clicks[id].ts < h + 3_600_000
    {
      SameHour(clicks[id].ts, h);
    }
  }

  lemma SameHour(ts: int, h: int)
    requires h % 3_600_000 == 0
    ensures TruncHour(ts) % 3_600_000 == 0 && TruncHour(ts) <= ts < TruncHour(ts) + 3_600_000
    ensures TruncHour(ts) == h <==> h <= ts < h + 3_600_000
  {
  }

  /**
   * The buckets are whole hours in strictly ascending order, none is empty, each counts the code's
   * clicks in that hour, every click of the code is in one, and together they count each once.
   */
  lemma StatsComplete(clicks: map<string, Event>, code: string)
    ensures var rows := Query(clicks, code);
            && Counts(rows) == |RowsOf(clicks, code)|
            && Ascending(rows)
            && (forall b :: b in rows ==> HourOfClicks(clicks, code, b))
            && (forall id :: id in RowsOf(clicks, code) ==> InSeries(rows, clicks[id].ts))
  {
    var hours, rows := HoursOf(clicks, code), Query(clicks, code);
    BucketsPartition(clicks, code, hours);
    assert RowsIn(clicks, code, hours) == RowsOf(clicks, code);
    BucketsAscend(clicks, code, hours);
    hide TruncHour, HourOfClicks, InSeries;
    forall b | b in rows ensures HourOfClicks(clicks, code, b) {
      BucketIsHour(clicks, code, b);
    }
    forall id | id in RowsOf(clicks, code) ensures InSeries(rows, clicks[id].ts) {
      ClickHasBucket(clicks, code, id);
    }
  }

  lemma BucketIsHour(clicks: map<string, Event>, code: string, b: Bucket)
    requires b in Query(clicks, code)
    ensures HourOfClicks(clicks, code, b)
  {
    hide TruncHour;
    var hours := HoursOf(clicks, code);
    BucketsAscend(clicks, code, hours);
    BucketsNonEmpty(clicks, code, hours);
    BucketCounts(clicks, code, hours, b);
    HourHolds(clicks, code, b.hour);
  }

  lemma ClickHasBucket(clicks: map<string, Event>, code: string, id: string)
    requires id in RowsOf(clicks, code)
    ensures InSeries(Query(clicks, code), clicks[id].ts)
  {
    var h := TruncHour(clicks[id].ts);
    SameHour(clicks[id].ts, 0);
    hide TruncHour;
    BucketFor(clicks, code, HoursOf(clicks, code), h);
  }
}

/** Per-link order: a code's recorded clicks against the order they were published in. */
module ClickOrder {
  import opened ClickStore
  import opened ClickConsumer
  import opened ClickStats

  /** The events of one code, in log order. */
  ghost function OfCode(values: seq<Value>, code: string): seq<Event>
    decreases |values|
  {
    if values == [] then []
    else
      var n := |values| - 1;
      OfCode(values[..n], code) +
      if values[n].Good? && values[n].event.code == code then [values[n].event] else []
  }

  ghost function IdsOf(events: seq<Event>): set<string> {
    set i | 0 <= i < |events| :: events[i].id
  }

  lemma {:induction false} OfCodePrefix(values: seq<Value>, n: nat, code: string)
    requires n <= |values|
    ensures OfCode(values[..n], code) <= OfCode(values, code)
    decreases |values|
  {
    if n < |values| {
      var m := |values| - 1;
      OfCodePrefix(values[..m], n, code);
      assert values[..m][..n] == values[..n];
    } else {
      assert values[..n] == values;
    }
  }

  lemma {:induction false} OfCodeMembers(values: seq<Value>, code: string, e: Event)
    ensures e in OfCode(values, code) <==> Good(e) in values && e.code == code
    decreases |values|
  {
    if values != [] {
      var n := |values| - 1;
      OfCodeMembers(values[..n], code, e);
      assert values == values[..n] + [values[n]];
    }
  }

  ghost predicate DistinctIds(values: seq<Value>) {
    forall i, j :: 0 <= i < j < |values| && values[i].Good? && values[j].Good? ==> values[i].event.id != values[j].event.id
  }

  lemma {:induction false} OfCodeCount(values: seq<Value>, code: string)
    requires DistinctIds(values)
    ensures |IdsOf(OfCode(values, code))| == |OfCode(values, code)|
    decreases |values|
  {
    if values != [] {
      var n := |values| - 1;
      var front, all := OfCode(values[..n], code), OfCode(values, code);
      OfCodeCount(values[..n], code);
      if values[n].Good? && values[n].event.code == code {
        var e := values[n].event;
        assert all == front + [e];
        forall i | 0 <= i < |front| ensures front[i].id != e.id {
          OfCodeMembers(values[..n], code, front[i]);
        }
        assert IdsOf(all) == IdsOf(front) + {e.id} by {
          assert forall i :: 0 <= i < |front| ==> all[i] == front[i];
          assert all[|front|] == e;
        }
      } else {
        assert all == front;
      }
    }
  }

  lemma BelowMark(s: State, code: string, id: string)
    requires Inv(s) && s.route(code) < |s.log| && id in RowsOf(s.db.clicks, code)
    ensures var p := s.route(code); Good(s.db.clicks[id]) in s.log[p][..s.high[p]] && s.db.clicks[id].id == id
  {
    var q: nat, i: nat :| Below(s, q, i) && IdAt(s, q, i, id);
    assert HasRow(s, q, i);
    assert s.log[q][..s.high[q]][i] == s.log[q][i];
  }

  /** The rows of the code are a prefix of its published order, one row each. */
  ghost predicate RecordedPrefix(s: State, code: string)
    requires s.route(code) < |s.log| == |s.high| && s.high[s.route(code)] <= |s.log[s.route(code)]|
  {
    var p := s.route(code);
    var recorded := OfCode(s.log[p][..s.high[p]], code);
    && recorded <= OfCode(s.log[p], code)
    && RowsOf(s.db.clicks, code) == IdsOf(recorded)
    && |RowsOf(s.db.clicks, code)| == |recorded|
    && (forall e :: e in recorded ==> e.id in s.db.clicks && s.db.clicks[e.id] == e)
  }

  lemma RecordedIsPrefixOf(s: State, code: string)
    requires Inv(s) && s.route(code) < |s.log|
    ensures RecordedPrefix(s, code)
  {
    var p := s.route(code);
    var front := s.log[p][..s.high[p]];
    var recorded := OfCode(front, code);
    OfCodePrefix(s.log[p], s.high[p], code);
    forall e | e in recorded ensures e.id in s.db.clicks && s.db.clicks[e.id] == e && e.code == code {
      OfCodeMembers(front, code, e);
      var i :| 0 <= i < |front| && front[i] == Good(e);
      assert Below(s, p, i) && HasRow(s, p, i);
    }
    forall id | id in RowsOf(s.db.clicks, code) ensures id in IdsOf(recorded) {
      BelowMark(s, code, id);
      OfCodeMembers(front, code, s.db.clicks[id]);
    }
    assert DistinctIds(front) by {
      forall i, j | 0 <= i < j < |front| && front[i].Good? && front[j].Good? ensures front[i].event.id != front[j].event.id {
        assert IdAt(s, p, i, front[i].event.id) && IdAt(s, p, j, front[j].event.id);
      }
    }
    OfCodeCount(front, code);
  }

  lemma {:induction false} RouteStays(s: State, steps: seq<Step>)
    requires |s.high| == |s.log| && ValidRun(s, steps)
    ensures Reached(s, steps).route == s.route && |Reached(s, steps).log| == |s.log|
    decreases |steps|
  {
    if steps != [] {
      RouteStays(Apply(s, steps[0]), steps[1..]);
    }
  }

  /**
   * After every run of the pipeline, the recorded clicks of a code are a prefix of that code's
   * published order, one row each, and that is how many GetStats counts.
   */
  lemma RecordedIsPrefix(partitions: nat, route: string -> nat, steps: seq<Step>, code: string)
    requires ValidRun(Init(partitions, route), steps) && NoMixedPolls(steps) && route(code) < partitions
    ensures var s := Reached(Init(partitions, route), steps);
            s.route(code) < |s.log| == |s.high| && s.high[s.route(code)] <= |s.log[s.route(code)]| && RecordedPrefix(s, code)
  {
    ExactlyOnce(partitions, route, steps);
    RouteStays(Init(partitions, route), steps);
    RecordedIsPrefixOf(Reached(Init(partitions, route), steps), code);
  }
}
