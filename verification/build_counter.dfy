/**
 * The "today" window and the two-level success/failure counter of the
 * metrics handler. Times are integer milliseconds since the Unix epoch.
 */
module BuildCounter {
  import opened BuildDetails

  const DayMillis := 86400000
  const Success := "SUCCESS"
  const Failure := "FAILURE"

  /** The start of the current day: `now` truncated to a 24-hour boundary, i.e. UTC midnight. */
  function TodayStart(now: int): (s: int)
    requires now >= 0
    ensures s % DayMillis == 0 && 0 <= s <= now < s + DayMillis
  {
    now - now % DayMillis
  }

  /** A build is inside the window `[TodayStart(now), now]`, both ends included. */
  predicate InToday(timestamp: int, now: int)
    requires now >= 0
  {
    TodayStart(now) <= timestamp <= now
  }

  /** The counter entry of one (instance, job) pair; the handler leaves its other fields at their zero values. */
  datatype Counter = Counter(jenkinsInstanceName: string, jobName: string, jobURL: string,
                             successCount: nat, failureCount: nat)

  /** Counters keyed by instance name and then by job name. */
  type ResultMap = map<string, map<string, Counter>>

  /** The build records of a list of envelopes, in order. */
  function Records(envelopes: seq<JenkinsBuildsResponse>): seq<BuildInfo> {
    if envelopes == [] then []
    else Records(envelopes[..|envelopes| - 1]) + envelopes[|envelopes| - 1].jobs
  }

  /** The build records of every drained worker result, in drain order. */
  function Flatten(data: seq<seq<JenkinsBuildsResponse>>): seq<BuildInfo> {
    if data == [] then []
    else Flatten(data[..|data| - 1]) + Records(data[|data| - 1])
  }

  /** The jobs counted so far for an instance; none when the instance has no entry. */
  function JobsOf(rm: ResultMap, inst: string): map<string, Counter> {
    if inst in rm then rm[inst] else map[]
  }

  /** The entry of a pair, or the zero entry the handler would create for `item`. */
  function EntryFor(rm: ResultMap, item: BuildInfo): Counter {
    var jobs := JobsOf(rm, item.jenkinsInstanceName);
    if item.jobName in jobs then jobs[item.jobName]
    else Counter(item.jenkinsInstanceName, item.jobName, item.jobURL, 0, 0)
  }

  /**
   * Folds one build into the counters: outside the window nothing happens;
   * inside it the pair's entry exists afterwards, SUCCESS and FAILURE bump
   * their own count by one, any other result bumps none, and every other
   * entry stays as it was.
   */
  function Step(rm: ResultMap, item: BuildInfo, now: int): (r: ResultMap)
    requires now >= 0
    ensures !InToday(item.timestamp, now) ==> r == rm
    ensures InToday(item.timestamp, now) ==>
      && r.Keys == rm.Keys + {item.jenkinsInstanceName}
      && (forall i :: i in rm && i != item.jenkinsInstanceName ==> r[i] == rm[i])
      && r[item.jenkinsInstanceName].Keys == JobsOf(rm, item.jenkinsInstanceName).Keys + {item.jobName}
      && (forall j :: j in JobsOf(rm, item.jenkinsInstanceName) && j != item.jobName ==>
            r[item.jenkinsInstanceName][j] == rm[item.jenkinsInstanceName][j])
    ensures InToday(item.timestamp, now) ==>
      var before, after := EntryFor(rm, item), r[item.jenkinsInstanceName][item.jobName];
      && after.jenkinsInstanceName == before.jenkinsInstanceName
      && after.jobName == before.jobName && after.jobURL == before.jobURL
      && after.successCount == before.successCount + (if item.result == Success then 1 else 0)
      && after.failureCount == before.failureCount + (if item.result == Failure then 1 else 0)
  {
    if !InToday(item.timestamp, now) then rm
    else
      var c := EntryFor(rm, item);
      var bumped :=
        if item.result == Success then c.(successCount := c.successCount + 1)
        else if item.result == Failure then c.(failureCount := c.failureCount + 1)
        else c;
      rm[item.jenkinsInstanceName := JobsOf(rm, item.jenkinsInstanceName)[item.jobName := bumped]]
  }

  /** The counters after folding `items` into `rm` from first to last. */
  function CountAll(rm: ResultMap, items: seq<BuildInfo>, now: int): ResultMap
    requires now >= 0
  {
    if items == [] then rm
    else Step(CountAll(rm, items[..|items| - 1], now), items[|items| - 1], now)
  }

  /** Which results a tally counts. */
  datatype ResultFilter = AnyResult | Only(result: string)

  /** `item` is an in-window build of the pair (inst, job) whose result passes `f`. */
  predicate Counts(item: BuildInfo, inst: string, job: string, now: int, f: ResultFilter)
    requires now >= 0
  {
    && InToday(item.timestamp, now)
    && item.jenkinsInstanceName == inst && item.jobName == job
    && (f.Only? ==> item.result == f.result)
  }

  /** How many of `items` are in-window builds of (inst, job) passing `f`: the reference count. */
  function Tally(items: seq<BuildInfo>, inst: string, job: string, now: int, f: ResultFilter): nat
    requires now >= 0
  {
    if items == [] then 0
    else Tally(items[..|items| - 1], inst, job, now, f)
         + (if Counts(items[|items| - 1], inst, job, now, f) then 1 else 0)
  }

  /** Tallies add up over concatenation. */
  lemma {:induction false} TallyAppend(a: seq<BuildInfo>, b: seq<BuildInfo>, inst: string, job: string,
                                       now: int, f: ResultFilter)
    requires now >= 0
    ensures Tally(a + b, inst, job, now, f) == Tally(a, inst, job, now, f) + Tally(b, inst, job, now, f)
    decreases |b|
  {
    if b != [] {
      var b' := b[..|b| - 1];
      assert (a + b)[..|a + b| - 1] == a + b';
      TallyAppend(a, b', inst, job, now, f);
    } else {
      assert a + b == a;
    }
  }

  /** Taking one element out of the middle removes exactly its contribution. */
  lemma TallyRemoveAt(t: seq<BuildInfo>, k: nat, inst: string, job: string, now: int, f: ResultFilter)
    requires now >= 0 && k < |t|
    ensures Tally(t, inst, job, now, f)
            == Tally(t[..k] + t[k + 1..], inst, job, now, f) + (if Counts(t[k], inst, job, now, f) then 1 else 0)
  {
    assert t == (t[..k] + [t[k]]) + t[k + 1..];
    TallyAppend(t[..k] + [t[k]], t[k + 1..], inst, job, now, f);
    TallyAppend(t[..k], [t[k]], inst, job, now, f);
    TallyAppend(t[..k], t[k + 1..], inst, job, now, f);
    assert [t[k]][..0] == [];
  }

  /** Removing the element at `k` removes one occurrence of it. */
  lemma RemoveAtMultiset<T>(t: seq<T>, k: nat)
    requires k < |t|
    ensures multiset(t[..k] + t[k + 1..]) == multiset(t) - multiset{t[k]}
  {
    assert t == t[..k] + [t[k]] + t[k + 1..];
  }

  /** The last element of a non-empty sequence occurs at some index of any permutation of it. */
  lemma LastOccurs<T>(s: seq<T>, t: seq<T>) returns (k: nat)
    requires s != [] && multiset(s) == multiset(t)
    ensures k < |t| && t[k] == s[|s| - 1]
    ensures multiset(s[..|s| - 1]) == multiset(t[..k] + t[k + 1..])
  {
    var x := s[|s| - 1];
    assert s == s[..|s| - 1] + [x];
    assert x in multiset(t);
    k :| 0 <= k < |t| && t[k] == x;
    RemoveAtMultiset(t, k);
  }

  /** A tally does not depend on the order of the builds: permuted inputs tally alike. */
  lemma {:induction false} TallyPermutation(s: seq<BuildInfo>, t: seq<BuildInfo>, inst: string, job: string,
                                            now: int, f: ResultFilter)
    requires now >= 0
    requires multiset(s) == multiset(t)
    ensures Tally(s, inst, job, now, f) == Tally(t, inst, job, now, f)
    decreases |s|
  {
    if s == [] {
      assert |t| == |multiset(t)| == 0;
    } else {
      var k := LastOccurs(s, t);
      TallyPermutation(s[..|s| - 1], t[..k] + t[k + 1..], inst, job, now, f);
      TallyRemoveAt(t, k, inst, job, now, f);
    }
  }

  /** A tally of one kind of result never exceeds the tally of all results. */
  lemma {:induction false} TallyOnlyAtMostAny(items: seq<BuildInfo>, inst: string, job: string, now: int, res: string)
    requires now >= 0
    ensures Tally(items, inst, job, now, Only(res)) <= Tally(items, inst, job, now, AnyResult)
  {
    if items != [] {
      TallyOnlyAtMostAny(items[..|items| - 1], inst, job, now, res);
    }
  }

  /** The pair has an entry in `rm`. */
  predicate HasEntry(rm: ResultMap, inst: string, job: string) {
    inst in rm && job in rm[inst]
  }

  /**
   * What the counter holds after the handler's loop, starting from an empty
   * map: an entry exists exactly for the pairs with an in-window build
   * (whatever its result), an instance never has an empty job map, the entry
   * is named after its keys, and its counts are the numbers of in-window
   * SUCCESS and FAILURE builds of that pair.
   */
  lemma {:induction false} CountAllSpec(items: seq<BuildInfo>, now: int, inst: string, job: string)
    requires now >= 0
    ensures var r := CountAll(map[], items, now);
      && (HasEntry(r, inst, job) <==> Tally(items, inst, job, now, AnyResult) > 0)
      && (inst in r ==> r[inst] != map[])
      && (HasEntry(r, inst, job) ==>
            && r[inst][job].jenkinsInstanceName == inst && r[inst][job].jobName == job
            && r[inst][job].successCount == Tally(items, inst, job, now, Only(Success))
            && r[inst][job].failureCount == Tally(items, inst, job, now, Only(Failure)))
  {
    if items != [] {
      var p, x := items[..|items| - 1], items[|items| - 1];
      CountAllSpec(p, now, inst, job);
      CountAllSpec(p, now, x.jenkinsInstanceName, x.jobName);
      TallyOnlyAtMostAny(p, inst, job, now, Success);
      TallyOnlyAtMostAny(p, inst, job, now, Failure);
      var rp := CountAll(map[], p, now);
      var r := CountAll(map[], items, now);
      assert r == Step(rp, x, now);
      assert Tally(items, inst, job, now, AnyResult)
             == Tally(p, inst, job, now, AnyResult) + (if Counts(x, inst, job, now, AnyResult) then 1 else 0);
      assert Tally(items, inst, job, now, Only(Success))
             == Tally(p, inst, job, now, Only(Success)) + (if Counts(x, inst, job, now, Only(Success)) then 1 else 0);
      assert Tally(items, inst, job, now, Only(Failure))
             == Tally(p, inst, job, now, Only(Failure)) + (if Counts(x, inst, job, now, Only(Failure)) then 1 else 0);
      if InToday(x.timestamp, now) && x.jenkinsInstanceName == inst {
        assert job != x.jobName ==> (job in r[inst] <==> job in JobsOf(rp, inst));
      }
    }
  }

  /** A tally is positive exactly when some build passes it. */
  lemma {:induction false} TallyPositive(items: seq<BuildInfo>, inst: string, job: string, now: int, f: ResultFilter)
    requires now >= 0
    ensures Tally(items, inst, job, now, f) > 0 <==> exists k :: 0 <= k < |items| && Counts(items[k], inst, job, now, f)
  {
    if items != [] {
      var p := items[..|items| - 1];
      TallyPositive(p, inst, job, now, f);
      if exists k :: 0 <= k < |p| && Counts(p[k], inst, job, now, f) {
        var k :| 0 <= k < |p| && Counts(p[k], inst, job, now, f);
        assert items[k] == p[k];
      }
      if exists k :: 0 <= k < |items| && Counts(items[k], inst, job, now, f) {
        var k :| 0 <= k < |items| && Counts(items[k], inst, job, now, f);
        if k < |p| { assert p[k] == items[k]; }
      }
    }
  }

  /**
   * A pair gets an entry exactly when it has a build inside the window, of
   * any result; a pair built only before today, or never, gets none.
   */
  lemma EntryIffBuiltToday(items: seq<BuildInfo>, now: int, inst: string, job: string)
    requires now >= 0
    ensures HasEntry(CountAll(map[], items, now), inst, job) <==>
            exists k :: 0 <= k < |items| && Counts(items[k], inst, job, now, AnyResult)
  {
    CountAllSpec(items, now, inst, job);
    TallyPositive(items, inst, job, now, AnyResult);
  }

  /** A pair whose builds of the day all have other results than SUCCESS and FAILURE still gets an entry, with zero counts. */
  lemma UnknownResultsGiveZeroEntry(items: seq<BuildInfo>, now: int, inst: string, job: string)
    requires now >= 0
    requires exists k :: 0 <= k < |items| && Counts(items[k], inst, job, now, AnyResult)
    requires forall k :: 0 <= k < |items| && Counts(items[k], inst, job, now, AnyResult) ==>
               items[k].result != Success && items[k].result != Failure
    ensures var r := CountAll(map[], items, now);
      HasEntry(r, inst, job) && r[inst][job].successCount == 0 && r[inst][job].failureCount == 0
  {
    EntryIffBuiltToday(items, now, inst, job);
    CountAllSpec(items, now, inst, job);
    TallyPositive(items, inst, job, now, Only(Success));
    TallyPositive(items, inst, job, now, Only(Failure));
  }

  /** A build normalised to "Building" creates its entry when in the window but changes no count. */
  lemma BuildingIsNeitherSuccessNorFailure(rm: ResultMap, item: BuildInfo, now: int)
    requires now >= 0 && item.result == BuildingResult
    ensures forall i, j :: HasEntry(rm, i, j) ==> HasEntry(Step(rm, item, now), i, j)
    ensures HasEntry(Step(rm, item, now), item.jenkinsInstanceName, item.jobName) <==>
            InToday(item.timestamp, now) || HasEntry(rm, item.jenkinsInstanceName, item.jobName)
    ensures var r := Step(rm, item, now);
      forall i, j :: HasEntry(r, i, j) ==>
        r[i][j].successCount == (if HasEntry(rm, i, j) then rm[i][j].successCount else 0)
        && r[i][j].failureCount == (if HasEntry(rm, i, j) then rm[i][j].failureCount else 0)
  {
  }

  /** Folding a concatenation is folding its two halves one after the other. */
  lemma {:induction false} CountAllAppend(rm: ResultMap, a: seq<BuildInfo>, b: seq<BuildInfo>, now: int)
    requires now >= 0
    ensures CountAll(rm, a + b, now) == CountAll(CountAll(rm, a, now), b, now)
    decreases |b|
  {
    if b == [] {
      assert a + b == a;
    } else {
      assert (a + b)[..|a + b| - 1] == a + b[..|b| - 1];
      CountAllAppend(rm, a, b[..|b| - 1], now);
    }
  }

  /** The body of the handler's innermost loop: one record, counted in place. */
  method CountRecord(resultMap: ResultMap, item: BuildInfo, now: int) returns (r: ResultMap)
    requires now >= 0
    ensures r == Step(resultMap, item, now)
  {
    r := resultMap;
    var millis := now;
    var todayMillis := now - now % DayMillis;
    if item.timestamp >= todayMillis && item.timestamp <= millis {
      var inst, job := item.jenkinsInstanceName, item.jobName;
      if inst !in r {
        r := r[inst := map[]];
      }
      if job !in r[inst] {
        r := r[inst := r[inst][job := Counter(inst, job, item.jobURL, 0, 0)]];
      }
      var c := r[inst][job];
      assert c == EntryFor(resultMap, item);
      assert r[inst] == JobsOf(resultMap, inst)[job := c];
      assert r.Keys == resultMap.Keys + {inst};
      assert r == resultMap[inst := JobsOf(resultMap, inst)[job := c]];
      if item.result == Success {
        r := r[inst := r[inst][job := c.(successCount := c.successCount + 1)]];
      } else if item.result == Failure {
        r := r[inst := r[inst][job := c.(failureCount := c.failureCount + 1)]];
      }
      ghost var bumped :=
        if item.result == Success then c.(successCount := c.successCount + 1)
        else if item.result == Failure then c.(failureCount := c.failureCount + 1)
        else c;
      assert r[inst] == JobsOf(resultMap, inst)[job := bumped];
      assert r == resultMap[inst := JobsOf(resultMap, inst)[job := bumped]];
      assert InToday(item.timestamp, now);
    } else {
      assert !InToday(item.timestamp, now);
    }
  }

  /** The loop over the records of one envelope. */
  method CountRecords(resultMap: ResultMap, items: seq<BuildInfo>, now: int) returns (r: ResultMap)
    requires now >= 0
    ensures r == CountAll(resultMap, items, now)
  {
    r := resultMap;
    var k := 0;
    while k < |items|
      invariant 0 <= k <= |items|
      invariant r == CountAll(resultMap, items[..k], now)
    {
      r := CountRecord(r, items[k], now);
      assert items[..k + 1][..k] == items[..k];
      k := k + 1;
    }
    assert items[..k] == items;
  }

  /** The loop over the envelopes of one drained result. */
  method CountEnvelopes(resultMap: ResultMap, build: seq<JenkinsBuildsResponse>, now: int) returns (r: ResultMap)
    requires now >= 0
    ensures r == CountAll(resultMap, Records(build), now)
  {
    r := resultMap;
    var j := 0;
    while j < |build|
      invariant 0 <= j <= |build|
      invariant r == CountAll(resultMap, Records(build[..j]), now)
    {
      r := CountRecords(r, build[j].jobs, now);
      assert build[..j + 1][..j] == build[..j];
      CountAllAppend(resultMap, Records(build[..j]), build[j].jobs, now);
      j := j + 1;
    }
    assert build[..j] == build;
  }

  /**
   * The handler's counting loop: walks every drained result, every envelope
   * and every record, creating entries on demand and bumping the matching
   * count in place.
   */
  method CountBuilds(responseData: seq<seq<JenkinsBuildsResponse>>, now: int) returns (resultMap: ResultMap)
    requires now >= 0
    ensures resultMap == CountAll(map[], Flatten(responseData), now)
  {
    resultMap := map[];
    var i := 0;
    while i < |responseData|
      invariant 0 <= i <= |responseData|
      invariant resultMap == CountAll(map[], Flatten(responseData[..i]), now)
    {
      resultMap := CountEnvelopes(resultMap, responseData[i], now);
      assert responseData[..i + 1][..i] == responseData[..i];
      CountAllAppend(map[], Flatten(responseData[..i]), Records(responseData[i]), now);
      i := i + 1;
    }
    assert responseData[..i] == responseData;
  }
}
