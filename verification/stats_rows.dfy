/**
 * Rates and the flattening of the counter map into the response rows.
 * Rates are integer hundredths of a percent: 3333 stands for 33.33%.
 */
module StatsRows {
  import opened BuildDetails
  import opened BuildCounter

  /** One response row: the counts of one (instance, job) pair and its two rates. */
  datatype JobStats = JobStats(
    jenkinsInstanceName: string,
    jobName: string,
    successCount: nat,
    failureCount: nat,
    totalCount: nat,
    successRate: nat,
    failureRate: nat)

  /** The name used in the placeholder row. */
  const NoneName := "无"

  /** The single row emitted when nothing was counted. */
  const Placeholder := JobStats(NoneName, NoneName, 0, 0, 0, 0, 0)

  /**
   * `count / total * 100` rounded to two decimals, half away from zero, in
   * hundredths: the integer nearest to `10000 * count / total`, halves
   * rounding up; 0 without dividing when `total` is 0.
   */
  function Rate(count: nat, total: nat): (r: nat)
    ensures total == 0 ==> r == 0
    ensures total > 0 ==> 2 * total * r <= 20000 * count + total < 2 * total * (r + 1)
    ensures count <= total ==> r <= 10000
  {
    if total == 0 then 0
    else
      RoundedQuotient(count, total, (20000 * count + total) / (2 * total));
      (20000 * count + total) / (2 * total)
  }

  lemma RoundedQuotient(count: nat, total: nat, q: nat)
    requires total > 0 && q == (20000 * count + total) / (2 * total)
    ensures 2 * total * q <= 20000 * count + total < 2 * total * (q + 1)
    ensures count <= total ==> q <= 10000
  {
    var a, b := 20000 * count + total, 2 * total;
    DivBounds(a, b);
    assert b * q <= a < b * (q + 1);
    if count <= total && q > 10000 {
      assert b * 10001 <= b * q by { if q > 10001 { MulStrictlyMonotone(b, 10001, q); } }
    }
  }

  /** Euclidean division brackets the dividend between two consecutive multiples. */
  lemma DivBounds(a: nat, b: nat)
    requires b > 0
    ensures b * (a / b) <= a < b * (a / b + 1)
  {
    assert a == b * (a / b) + a % b;
  }

  lemma MulStrictlyMonotone(b: int, x: int, y: int)
    requires b > 0 && x < y
    ensures b * x < b * y
  {
    assert b * y - b * x == b * (y - x);
  }

  lemma RateExamples()
    ensures Rate(1, 3) == 3333 && Rate(2, 3) == 6667
    ensures Rate(1, 8) == 1250 && Rate(7, 8) == 8750
    ensures Rate(1, 32) == 313 && Rate(31, 32) == 9688
    ensures Rate(0, 5) == 0 && Rate(5, 5) == 10000
  {
  }

  /**
   * When every counted build is a success or a failure the two rates add up
   * to 100.00% or, when both round a half upwards, 100.01%.
   */
  lemma RatesSum(s: nat, f: nat)
    requires s + f > 0
    ensures 10000 <= Rate(s, s + f) + Rate(f, s + f) <= 10001
  {
    var t := s + f;
    BracketsAddUp(2 * t, 20000 * s + t, 20000 * f + t, Rate(s, t), Rate(f, t));
  }

  /** Two quotients by `b` whose dividends add up to `10001 * b` add up to 10000 or 10001. */
  lemma BracketsAddUp(b: int, x: int, y: int, p: int, q: int)
    requires b > 0 && x + y == 10001 * b
    requires b * p <= x < b * (p + 1)
    requires b * q <= y < b * (q + 1)
    ensures 10000 <= p + q <= 10001
  {
    assert b * p + b * q == b * (p + q);
    assert b * (p + 1) + b * (q + 1) == b * (p + q + 2);
    if p + q > 10001 {
      MulStrictlyMonotone(b, 10001, p + q);
    }
    if p + q < 10000 {
      MulStrictlyMonotone(b, p + q + 2, 10001);
    }
  }

  /** One success in 32 builds: 3.13% and 96.88%, which add up to 100.01%. */
  lemma RatesSumCanExceedHundred()
    ensures Rate(1, 32) + Rate(31, 32) == 10001
  {
  }

  /** The row of one counter entry: total is success plus failure, rates from the counts. */
  function RowOf(inst: string, job: string, c: Counter): (row: JobStats)
    ensures row.jenkinsInstanceName == inst && row.jobName == job
    ensures row.successCount == c.successCount && row.failureCount == c.failureCount
    ensures row.totalCount == row.successCount + row.failureCount
    ensures row.totalCount == 0 ==> row.successRate == 0 && row.failureRate == 0
    ensures row.successRate <= 10000 && row.failureRate <= 10000
    ensures row.totalCount > 0 ==> 10000 <= row.successRate + row.failureRate <= 10001
  {
    var total := c.successCount + c.failureCount;
    var row := JobStats(inst, job, c.successCount, c.failureCount, total,
                        Rate(c.successCount, total), Rate(c.failureCount, total));
    if total > 0 then (RatesSum(c.successCount, c.failureCount); row) else row
  }

  /** No pair has a counter entry. */
  predicate NoEntries(rm: ResultMap) {
    forall i :: i in rm ==> rm[i] == map[]
  }

  /** `row` is the row of an entry of `rm`, keyed by its own names. */
  predicate Emitted(rm: ResultMap, row: JobStats) {
    && HasEntry(rm, row.jenkinsInstanceName, row.jobName)
    && row == RowOf(row.jenkinsInstanceName, row.jobName, rm[row.jenkinsInstanceName][row.jobName])
  }

  /** Some row is keyed by (inst, job). */
  predicate Listed(stats: seq<JobStats>, inst: string, job: string) {
    exists k :: 0 <= k < |stats| && stats[k].jenkinsInstanceName == inst && stats[k].jobName == job
  }

  /** No two rows share an (instance, job) key. */
  predicate RowsDistinct(stats: seq<JobStats>) {
    forall a, b :: 0 <= a < b < |stats| ==>
      stats[a].jenkinsInstanceName != stats[b].jenkinsInstanceName || stats[a].jobName != stats[b].jobName
  }

  /** The rows the counter map stands for, as a set: the order-free view of the response. */
  ghost function Snapshot(rm: ResultMap): set<JobStats> {
    set i, j | i in rm && j in rm[i] :: RowOf(i, j, rm[i][j])
  }

  /** The rows of a response, as a set. */
  ghost function RowSet(stats: seq<JobStats>): set<JobStats> {
    set k | 0 <= k < |stats| :: stats[k]
  }

  /**
   * `stats` is a faithful flattening of `rm`: the placeholder row alone when
   * there is no entry; otherwise every row is the row of an entry, every
   * entry has a row, no key has two, and the rows form the snapshot.
   */
  ghost predicate RowsFor(rm: ResultMap, stats: seq<JobStats>) {
    && (NoEntries(rm) ==> stats == [Placeholder])
    && (!NoEntries(rm) ==> forall k :: 0 <= k < |stats| ==> Emitted(rm, stats[k]))
    && (forall i, j :: HasEntry(rm, i, j) ==> Listed(stats, i, j))
    && RowsDistinct(stats)
    && (!NoEntries(rm) ==> RowSet(stats) == Snapshot(rm))
  }

  /** Flattens the counter map, visiting instances and jobs in an unspecified order. */
  method EmitStats(resultMap: ResultMap) returns (stats: seq<JobStats>)
    ensures RowsFor(resultMap, stats)
  {
    stats := [];
    var pending := resultMap.Keys;
    ghost var done: set<string> := {};
    while pending != {}
      invariant pending !! done && pending + done == resultMap.Keys
      invariant forall k :: 0 <= k < |stats| ==> Emitted(resultMap, stats[k]) && stats[k].jenkinsInstanceName in done
      invariant forall i, j :: i in done && HasEntry(resultMap, i, j) ==> Listed(stats, i, j)
      invariant RowsDistinct(stats)
      decreases pending
    {
      var jenkinsInstanceName :| jenkinsInstanceName in pending;
      var jobs := resultMap[jenkinsInstanceName];
      var pendingJobs := jobs.Keys;
      ghost var doneJobs: set<string> := {};
      while pendingJobs != {}
        invariant pendingJobs !! doneJobs && pendingJobs + doneJobs == jobs.Keys
        invariant forall k :: 0 <= k < |stats| ==>
          && Emitted(resultMap, stats[k])
          && (stats[k].jenkinsInstanceName in done
              || (stats[k].jenkinsInstanceName == jenkinsInstanceName && stats[k].jobName in doneJobs))
        invariant forall i, j :: i in done && HasEntry(resultMap, i, j) ==> Listed(stats, i, j)
        invariant forall j :: j in doneJobs ==> Listed(stats, jenkinsInstanceName, j)
        invariant RowsDistinct(stats)
        decreases pendingJobs
      {
        var jobName :| jobName in pendingJobs;
        var data := jobs[jobName];
        var successCount := data.successCount;
        var failureCount := data.failureCount;
        var totalCount := successCount + failureCount;
        var successRate, failureRate := 0, 0;
        if totalCount > 0 {
          successRate := (20000 * successCount + totalCount) / (2 * totalCount);
          failureRate := (20000 * failureCount + totalCount) / (2 * totalCount);
        }
        var row := JobStats(jenkinsInstanceName, jobName, successCount, failureCount, totalCount,
                            successRate, failureRate);
        assert row == RowOf(jenkinsInstanceName, jobName, data);
        ghost var old_stats := stats;
        stats := stats + [row];
        assert forall k :: 0 <= k < |old_stats| ==> stats[k] == old_stats[k];
        assert stats[|old_stats|] == row;
        pendingJobs := pendingJobs - {jobName};
        doneJobs := doneJobs + {jobName};
      }
      pending := pending - {jenkinsInstanceName};
      done := done + {jenkinsInstanceName};
    }
    if |stats| == 0 {
      forall i | i in resultMap ensures resultMap[i] == map[] {
        if resultMap[i] != map[] {
          var j :| j in resultMap[i];
          assert HasEntry(resultMap, i, j);
        }
      }
      stats := [Placeholder];
    } else {
      assert Emitted(resultMap, stats[0]);
      assert stats[0].jobName in resultMap[stats[0].jenkinsInstanceName];
      SnapshotOfRows(resultMap, stats);
    }
  }

  /**
   * Three builds of "build-x" on "ci-a" today, two successes and a failure,
   * give one entry with counts 2 and 1 and rates 66.67% and 33.33%.
   */
  lemma ScenarioTwoSuccessesOneFailure(now: int)
    requires now >= 0
    ensures var b := BuildInfo("ci-a", "build-x", false, "#1", 0, 1, Success, now, "u1", "j");
      var items := [b, b.(number := 2, result := Success), b.(number := 3, result := Failure)];
      var r := CountAll(map[], items, now);
      HasEntry(r, "ci-a", "build-x")
      && RowOf("ci-a", "build-x", r["ci-a"]["build-x"]) == JobStats("ci-a", "build-x", 2, 1, 3, 6667, 3333)
  {
    var b := BuildInfo("ci-a", "build-x", false, "#1", 0, 1, Success, now, "u1", "j");
    var items := [b, b.(number := 2, result := Success), b.(number := 3, result := Failure)];
    assert items[..2][..1] == [b] && [b][..0] == [];
    assert items[..2] == [b, b.(number := 2, result := Success)];
    var r0: ResultMap := map[];
    var r1: ResultMap := CountAll(r0, [b], now);
    assert CountAll(r0, [b][..0], now) == r0;
    assert r1 == Step(r0, b, now);
    assert r1["ci-a"]["build-x"].successCount == 1 && r1["ci-a"]["build-x"].failureCount == 0;
    var r2: ResultMap := CountAll(map[], items[..2], now);
    assert r2 == Step(r1, items[1], now);
    assert r2["ci-a"]["build-x"].successCount == 2 && r2["ci-a"]["build-x"].failureCount == 0;
    var r: ResultMap := CountAll(map[], items, now);
    assert r == Step(r2, items[2], now);
    assert r["ci-a"]["build-x"].successCount == 2 && r["ci-a"]["build-x"].failureCount == 1;
    assert Rate(2, 3) == 6667 && Rate(1, 3) == 3333;
  }

  /** Rows that are exactly the entries' rows, each entry listed, form the snapshot. */
  lemma SnapshotOfRows(rm: ResultMap, stats: seq<JobStats>)
    requires forall k :: 0 <= k < |stats| ==> Emitted(rm, stats[k])
    requires forall i, j :: HasEntry(rm, i, j) ==> Listed(stats, i, j)
    ensures RowSet(stats) == Snapshot(rm)
  {
    forall row | row in Snapshot(rm) ensures row in RowSet(stats) {
      var i, j :| i in rm && j in rm[i] && row == RowOf(i, j, rm[i][j]);
      assert HasEntry(rm, i, j);
      var k :| 0 <= k < |stats| && stats[k].jenkinsInstanceName == i && stats[k].jobName == j;
      assert Emitted(rm, stats[k]);
    }
    forall row | row in RowSet(stats) ensures row in Snapshot(rm) {
      var k :| 0 <= k < |stats| && stats[k] == row;
      assert Emitted(rm, stats[k]);
    }
  }

  /**
   * The rows do not depend on the order in which the builds were visited:
   * two permutations of the same records count to the same snapshot.
   */
  lemma SnapshotPermutation(s: seq<BuildInfo>, t: seq<BuildInfo>, now: int)
    requires now >= 0
    requires multiset(s) == multiset(t)
    ensures Snapshot(CountAll(map[], s, now)) == Snapshot(CountAll(map[], t, now))
  {
    forall row | row in Snapshot(CountAll(map[], s, now)) ensures row in Snapshot(CountAll(map[], t, now)) {
      SnapshotRowTransfers(s, t, now, row);
    }
    forall row | row in Snapshot(CountAll(map[], t, now)) ensures row in Snapshot(CountAll(map[], s, now)) {
      SnapshotRowTransfers(t, s, now, row);
    }
  }

  lemma SnapshotRowTransfers(s: seq<BuildInfo>, t: seq<BuildInfo>, now: int, row: JobStats)
    requires now >= 0
    requires multiset(s) == multiset(t)
    requires row in Snapshot(CountAll(map[], s, now))
    ensures row in Snapshot(CountAll(map[], t, now))
  {
    var rs: ResultMap := CountAll(map[], s, now);
    var rt: ResultMap := CountAll(map[], t, now);
    var i, j :| i in rs && j in rs[i] && row == RowOf(i, j, rs[i][j]);
    CountAllSpec(s, now, i, j);
    CountAllSpec(t, now, i, j);
    TallyPermutation(s, t, i, j, now, AnyResult);
    TallyPermutation(s, t, i, j, now, Only(Success));
    TallyPermutation(s, t, i, j, now, Only(Failure));
    assert rs[i][j].successCount == rt[i][j].successCount;
    assert rs[i][j].failureCount == rt[i][j].failureCount;
    assert RowOf(i, j, rs[i][j]) == RowOf(i, j, rt[i][j]);
  }
}
