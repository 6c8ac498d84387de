/**
 The two tables a browser-check run lives in, `qa_runs` and `qa_test_executions`,
 and the statements the service issues against them. Every statement is a pure
 function on `Db`; the class `Store` runs the same statements on mutable tables
 and is proved against those functions. `QaRuns` interleaves the same functions.
 */
module QaStore {
  import opened Options
  import opened Sets

  /** `qa_runs.outcome`: the two verdicts about the target, and our own failure. */
  datatype Outcome = Success | Failed | Abandoned

  datatype Run = Run(
    projectId: int,
    regionId: Option<int>,  // None: run by the master itself
    startedAt: int,
    expectedTests: nat,
    outcome: Option<Outcome>,
    alertedAt: Option<int>
  )

  datatype Exec = Exec(
    testId: int,
    projectId: int,
    regionId: Option<int>,
    runId: Option<int>,
    status: string,
    completedAt: Option<int>
  )

  datatype Db = Db(runs: map<int, Run>, execs: map<int, Exec>)

  datatype Progress = Progress(expectedTests: nat, completed: nat, downCount: nat)

  const RUNNING := "running"
  const EXEC_ABANDONED := "abandoned"
  const DOWN := {"FAILED", "FAILURE", "ERROR"}
  const STATUS_WIDTH: nat := 20
  const SWEEP_LIMIT: nat := 100

  function UpperChar(c: char): char {
    if 'a' <= c <= 'z' then ((c as int) - 32) as char else c
  }

  function Upper(s: string): (u: string)
    ensures |u| == |s|
  {
    seq(|s|, i requires 0 <= i < |s| => UpperChar(s[i]))
  }

  predicate IsDown(status: string) {
    Upper(status) in DOWN
  }

  /** The words that count as down, in any case; what an abandoned or a running row carries is none. */
  lemma DownWords(status: string)
    ensures IsDown(status) <==> Upper(status) == "FAILED" || Upper(status) == "FAILURE" || Upper(status) == "ERROR"
    ensures IsDown("failed") && IsDown("error") && !IsDown("passed") && !IsDown(RUNNING) && !IsDown(EXEC_ABANDONED)
  {
    assert Upper("failed") == "FAILED";
    assert Upper("error") == "ERROR";
    assert |Upper("passed")| == 6 && Upper("passed")[0] == 'P';
    assert |Upper("running")| == 7 && Upper("running")[0] == 'R';
    assert |Upper("abandoned")| == 9;
  }

  predicate IsVerdict(o: Option<Outcome>) {
    o == Some(Success) || o == Some(Failed)
  }

  function ExecsOf(db: Db, r: int): set<int> {
    set e | e in db.execs && db.execs[e].runId == Some(r)
  }

  function CompletedOf(db: Db, r: int): set<int> {
    set e | e in db.execs && db.execs[e].runId == Some(r) && db.execs[e].completedAt.Some?
  }

  function DownOf(db: Db, r: int): set<int> {
    set e | e in CompletedOf(db, r) && IsDown(db.execs[e].status)
  }

  /** `runProgress`: one aggregate query over the run's rows. */
  function ProgressOf(db: Db, r: int): Option<Progress> {
    if r in db.runs
    then Some(Progress(db.runs[r].expectedTests, |CompletedOf(db, r)|, |DownOf(db, r)|))
    else None
  }

  function VerdictOf(p: Progress): Outcome {
    if p.downCount > 0 then Failed else Success
  }

  predicate Unclaimed(db: Db, r: int) {
    r in db.runs && db.runs[r].alertedAt.None?
  }

  /** `claimRunAlert`: the one conditional update every finalizer goes through. */
  function Claim(db: Db, r: int, o: Outcome, now: int): Db {
    if Unclaimed(db, r)
    then db.(runs := db.runs[r := db.runs[r].(outcome := Some(o), alertedAt := Some(now))])
    else db
  }

  /** `markRunTestsAbandoned`: close every row of the run still lacking `completedAt`. */
  function MarkAbandoned(db: Db, r: int, now: int): Db {
    db.(execs := map e | e in db.execs ::
      if db.execs[e].runId == Some(r) && db.execs[e].completedAt.None?
      then db.execs[e].(status := EXEC_ABANDONED, completedAt := Some(now))
      else db.execs[e])
  }

  /** `finalizeUnfinishedQaRun`: the claim first, the rows only if it was won. */
  function FinalizeUnfinished(db: Db, r: int, now: int): Db {
    if Unclaimed(db, r) then MarkAbandoned(Claim(db, r, Abandoned, now), r, now) else db
  }

  predicate Matches(db: Db, e: int, region: int) {
    e in db.execs && db.execs[e].regionId == Some(region)
  }

  function WithStatus(db: Db, e: int, status: string, now: int): Db
    requires e in db.execs
  {
    db.(execs := db.execs[e := db.execs[e].(status := status, completedAt := Some(now))])
  }

  /** The varchar column takes any text without NUL that has nothing but spaces past its width; any other makes the UPDATE fail. */
  predicate Fits(status: string) {
    '\0' !in status && forall i :: STATUS_WIDTH <= i < |status| ==> status[i] == ' '
  }

  /** It keeps the text up to its width. */
  function Stored(status: string): string {
    if |status| <= STATUS_WIDTH then status else status[..STATUS_WIDTH]
  }

  lemma StoredWord(status: string, word: string)
    requires |word| < STATUS_WIDTH
    ensures Stored(status) == word <==> status == word
  {
  }

  /** What one result post does when nobody else moves in between. */
  function WriteResult(db: Db, e: int, region: int, status: string, now: int): Db {
    if !Matches(db, e, region) || !Fits(status) then db else
      var db1 := WithStatus(db, e, Stored(status), now);
      match db1.execs[e].runId
      case None => db1
      case Some(r) =>
        match ProgressOf(db1, r)
        case None => db1
        case Some(p) => if p.completed >= p.expectedTests then Claim(db1, r, VerdictOf(p), now) else db1
  }

  /** The runs `findAbandonedRuns` may return. */
  predicate IsStale(db: Db, r: int, cutoff: int) {
    && r in db.runs
    && db.runs[r].outcome.None?
    && db.runs[r].alertedAt.None?
    && db.runs[r].startedAt < cutoff
  }

  /** Ordered by id, limited: the `limit` smallest stale runs. */
  ghost predicate IsStaleBatch(db: Db, cutoff: int, limit: nat, batch: seq<int>) {
    && |batch| <= limit
    && (forall i, j :: 0 <= i < j < |batch| ==> batch[i] < batch[j])
    && (forall i :: 0 <= i < |batch| ==> IsStale(db, batch[i], cutoff))
    && (forall r :: IsStale(db, r, cutoff) && r !in batch ==>
          |batch| == limit && forall i :: 0 <= i < limit ==> batch[i] < r)
  }

  /** Finalizing the runs of a batch one after the other. */
  function FinalizeAll(db: Db, batch: seq<int>, now: int): Db
    decreases |batch|
  {
    if batch == [] then db
    else FinalizeUnfinished(FinalizeAll(db, batch[..|batch| - 1], now), batch[|batch| - 1], now)
  }

  /** The database once every run of `done` is closed out, told row by row. */
  function Closed(db: Db, done: set<int>, now: int): Db {
    Db(map r | r in db.runs :: if r in done then db.runs[r].(outcome := Some(Abandoned), alertedAt := Some(now)) else db.runs[r],
       map e | e in db.execs ::
         if db.execs[e].runId.Some? && db.execs[e].runId.value in done && db.execs[e].completedAt.None?
         then db.execs[e].(status := "abandoned", completedAt := Some(now)) else db.execs[e])
  }

  lemma CloseOneMore(db: Db, done: set<int>, r: int, now: int)
    requires r !in done && Unclaimed(db, r)
    ensures FinalizeUnfinished(Closed(db, done, now), r, now) == Closed(db, done + {r}, now)
  {
  }

  function Members(batch: seq<int>): set<int> {
    set r | r in batch
  }

  lemma {:induction false} FinalizeAllCloses(db: Db, batch: seq<int>, now: int)
    requires forall i, j :: 0 <= i < j < |batch| ==> batch[i] < batch[j]
    requires forall i :: 0 <= i < |batch| ==> Unclaimed(db, batch[i])
    ensures FinalizeAll(db, batch, now) == Closed(db, Members(batch), now)
    decreases |batch|
  {
    if batch == [] {
      assert Closed(db, {}, now) == db;
    } else {
      var init, last := batch[..|batch| - 1], batch[|batch| - 1];
      FinalizeAllCloses(db, init, now);
      assert batch == init + [last];
      assert Members(batch) == Members(init) + {last};
      CloseOneMore(db, Members(init), last, now);
    }
  }

  /** Stale runs with a lower id. */
  ghost function LowerStale(db: Db, r: int, cutoff: int): set<int> {
    set q | q in db.runs && q < r && IsStale(db, q, cutoff)
  }

  /** Of the stale runs a batch takes the hundred with the lowest ids. */
  lemma BatchIsLowest(db: Db, cutoff: int, batch: seq<int>, r: int)
    requires IsStaleBatch(db, cutoff, SWEEP_LIMIT, batch)
    ensures r in batch <==> IsStale(db, r, cutoff) && |LowerStale(db, r, cutoff)| < 100
  {
    var older := LowerStale(db, r, cutoff);
    if r in batch {
      var n :| 0 <= n < |batch| && batch[n] == r;
      var before := set i | 0 <= i < n :: batch[i];
      IndexCount(batch, n);
      forall q | q in older ensures q in before {
        assert IsStale(db, q, cutoff);
        var i :| 0 <= i < |batch| && batch[i] == q;
        assert i < n;
      }
      SubsetSize(older, before);
    } else if IsStale(db, r, cutoff) {
      assert IsStale(db, r, cutoff);
      IndexCount(batch, 100);
      var all := set i | 0 <= i < 100 :: batch[i];
      forall q | q in all ensures q in older { assert IsStale(db, q, cutoff); }
      SubsetSize(all, older);
    }
  }

  lemma {:induction false} IndexCount(batch: seq<int>, n: nat)
    requires n <= |batch| && forall i, j :: 0 <= i < j < |batch| ==> batch[i] < batch[j]
    ensures |set i | 0 <= i < n :: batch[i]| == n
  {
    if n > 0 {
      IndexCount(batch, n - 1);
      assert (set i | 0 <= i < n :: batch[i]) == (set i | 0 <= i < n - 1 :: batch[i]) + {batch[n - 1]};
      assert batch[n - 1] !in set i | 0 <= i < n - 1 :: batch[i];
    }
  }

  /** The runs a sweep closes: the stale ones with fewer than a hundred stale runs of lower id. */
  ghost function SweptRuns(db: Db, cutoff: int): set<int> {
    set r | r in db.runs && IsStale(db, r, cutoff) && |LowerStale(db, r, cutoff)| < 100
  }

  lemma SweepCloses(db: Db, cutoff: int, batch: seq<int>, now: int)
    requires IsStaleBatch(db, cutoff, SWEEP_LIMIT, batch)
    ensures FinalizeAll(db, batch, now) == Closed(db, SweptRuns(db, cutoff), now)
  {
    FinalizeAllCloses(db, batch, now);
    forall r ensures r in batch <==> r in SweptRuns(db, cutoff) { BatchIsLowest(db, cutoff, batch, r); }
    assert Members(batch) == SweptRuns(db, cutoff);
  }

  /** With at most a hundred stale runs, a sweep closes them all. */
  lemma FewAreAllSwept(db: Db, cutoff: int, r: int)
    requires |set q | q in db.runs && IsStale(db, q, cutoff)| <= 100 && IsStale(db, r, cutoff)
    ensures r in SweptRuns(db, cutoff)
  {
    var stale := set q | q in db.runs && IsStale(db, q, cutoff);
    SubsetSize(LowerStale(db, r, cutoff), stale - {r});
  }

  /** Young runs and their rows are left alone, and a few old ones are all closed with every row. */
  lemma SweepMeaning(db: Db, cutoff: int, now: int)
    ensures var after := Closed(db, SweptRuns(db, cutoff), now);
            && (forall r :: r in db.runs && db.runs[r].startedAt >= cutoff ==> after.runs[r] == db.runs[r])
            && (forall e, r :: e in db.execs && db.execs[e].runId == Some(r) && r in db.runs && db.runs[r].startedAt >= cutoff ==>
                  after.execs[e] == db.execs[e])
            && (|set r | r in db.runs && db.runs[r].outcome == None && db.runs[r].alertedAt == None && db.runs[r].startedAt < cutoff| <= 100 ==>
                  forall r :: r in db.runs && db.runs[r].outcome == None && db.runs[r].alertedAt == None && db.runs[r].startedAt < cutoff ==>
                    && after.runs[r] == db.runs[r].(outcome := Some(Abandoned), alertedAt := Some(now))
                    && forall e :: e in after.execs && after.execs[e].runId == Some(r) ==> after.execs[e].completedAt.Some?)
  {
    var stale := set r | r in db.runs && IsStale(db, r, cutoff);
    assert stale == set r | r in db.runs && db.runs[r].outcome == None && db.runs[r].alertedAt == None && db.runs[r].startedAt < cutoff;
    if |stale| <= 100 {
      forall r | r in stale ensures r in SweptRuns(db, cutoff) { FewAreAllSwept(db, cutoff, r); }
    }
  }

  // ------------------------------------------------------------ transition rule

  datatype Event = Outage | Recovery

  predicate SameHistory(a: Run, b: Run) {
    a.projectId == b.projectId && a.regionId == b.regionId
  }

  /** Runs eligible as the predecessor of `r`: verdicts only, same project and region, started earlier. */
  predicate IsCandidate(db: Db, r: int, q: int) {
    && r in db.runs && q in db.runs
    && SameHistory(db.runs[r], db.runs[q])
    && db.runs[q].startedAt < db.runs[r].startedAt
    && IsVerdict(db.runs[q].outcome)
  }

  /** The predecessor query; ties on `startedAt` leave the database free to choose. */
  ghost predicate IsPrevious(db: Db, r: int, prev: Option<int>) {
    match prev
    case None => forall q :: !IsCandidate(db, r, q)
    case Some(p) => IsCandidate(db, r, p) &&
                    forall q :: IsCandidate(db, r, q) ==> db.runs[q].startedAt <= db.runs[p].startedAt
  }

  function Transition(prev: Outcome, cur: Outcome): Option<Event> {
    match (prev, cur)
    case (Success, Failed) => Some(Outage)
    case (Failed, Success) => Some(Recovery)
    case _ => None
  }

  function Decision(db: Db, r: int, prev: Option<int>): Option<Event>
    requires prev.Some? ==> IsCandidate(db, r, prev.value)
  {
    if r !in db.runs || !IsVerdict(db.runs[r].outcome) || prev.None? then None
    else Transition(db.runs[prev.value].outcome.value, db.runs[r].outcome.value)
  }

  // ---------------------------------------------------------------- the tables

  class Store {
    var runs: map<int, Run>
    var execs: map<int, Exec>
    var nextRunId: int
    var nextExecId: int

    ghost predicate Valid() reads this {
      && (forall r :: r in runs ==> r < nextRunId)
      && (forall e :: e in execs ==> e < nextExecId)
    }

    ghost function Contents(): Db reads this {
      Db(runs, execs)
    }

    constructor ()
      ensures Valid() && Contents() == Db(map[], map[])
    {
      runs, execs, nextRunId, nextExecId := map[], map[], 1, 1;
    }

    method CreateRun(projectId: int, regionId: Option<int>, expectedTests: nat, now: int) returns (id: int)
      requires Valid()
      modifies this
      ensures Valid() && id !in old(runs)
      ensures execs == old(execs)
      ensures runs == old(runs)[id := Run(projectId, regionId, now, expectedTests, None, None)]
    {
      id := nextRunId;
      runs := runs[id := Run(projectId, regionId, now, expectedTests, None, None)];
      nextRunId := nextRunId + 1;
    }

    method CreateExecution(testId: int, projectId: int, status: string, regionId: Option<int>, runId: Option<int>)
      returns (id: int)
      requires Valid()
      modifies this
      ensures Valid() && id !in old(execs)
      ensures runs == old(runs)
      ensures execs == old(execs)[id := Exec(testId, projectId, regionId, runId, status, None)]
    {
      id := nextExecId;
      execs := execs[id := Exec(testId, projectId, regionId, runId, status, None)];
      nextExecId := nextExecId + 1;
    }

    /** The agent route: one run sized to the request, then one running row per test. */
    method CreateAgentRun(projectId: int, region: int, testIds: seq<int>, now: int)
      returns (runId: int, executions: seq<(int, int)>)
      requires Valid() && testIds != []
      // a foreign key keeps executions from naming a run that does not exist
      requires forall e :: e in execs && execs[e].runId.Some? ==> execs[e].runId.value in runs
      modifies this
      ensures Valid()
      ensures runId !in old(runs)
      ensures runs == old(runs)[runId := Run(projectId, Some(region), now, |testIds|, None, None)]
      ensures |executions| == |testIds|
      ensures forall i :: 0 <= i < |testIds| ==> executions[i].0 == testIds[i]
      ensures forall i :: 0 <= i < |testIds| ==>
                && executions[i].1 !in old(execs) && executions[i].1 in execs
                && execs[executions[i].1] == Exec(testIds[i], projectId, Some(region), Some(runId), RUNNING, None)
      ensures forall i, j :: 0 <= i < j < |testIds| ==> executions[i].1 != executions[j].1
      ensures forall e :: e in old(execs) ==> e in execs && execs[e] == old(execs[e])
      ensures ExecsOf(Contents(), runId) == set p | p in executions :: p.1
    {
      runId := CreateRun(projectId, Some(region), |testIds|, now);
      executions := [];
      for n := 0 to |testIds|
        invariant Valid()
        invariant runs == old(runs)[runId := Run(projectId, Some(region), now, |testIds|, None, None)]
        invariant |executions| == n
        invariant forall i :: 0 <= i < n ==> executions[i].0 == testIds[i]
        invariant forall i :: 0 <= i < n ==>
                    && executions[i].1 !in old(execs) && executions[i].1 in execs
                    && execs[executions[i].1] == Exec(testIds[i], projectId, Some(region), Some(runId), RUNNING, None)
        invariant forall i, j :: 0 <= i < j < n ==> executions[i].1 != executions[j].1
        invariant forall e :: e in old(execs) ==> e in execs && execs[e] == old(execs[e])
        invariant forall e :: e in execs && e !in old(execs) ==> exists i :: 0 <= i < n && executions[i].1 == e
      {
        ghost var before := executions;
        var id := CreateExecution(testIds[n], projectId, RUNNING, Some(region), Some(runId));
        executions := executions + [(testIds[n], id)];
        assert forall i :: 0 <= i < n ==> executions[i] == before[i];
        assert executions[n].1 == id;
      }
      forall e | e in ExecsOf(Contents(), runId) ensures e in set p | p in executions :: p.1 {
        var i :| 0 <= i < |testIds| && executions[i].1 == e;
        assert executions[i] in executions;
      }
    }

    method RunProgress(runId: int) returns (progress: Option<Progress>)
      ensures progress == ProgressOf(Contents(), runId)
    {
      if runId !in runs { return None; }
      var completed := set e | e in execs && execs[e].runId == Some(runId) && execs[e].completedAt.Some?;
      var down := set e | e in completed && IsDown(execs[e].status);
      assert completed == CompletedOf(Contents(), runId);
      assert down == DownOf(Contents(), runId);
      return Some(Progress(runs[runId].expectedTests, |completed|, |down|));
    }

    method ClaimRunAlert(runId: int, outcome: Outcome, now: int) returns (won: bool)
      requires Valid()
      modifies this`runs
      ensures Valid()
      ensures won == Unclaimed(old(Contents()), runId)
      ensures Contents() == Claim(old(Contents()), runId, outcome, now)
      ensures won ==> runId in old(runs) && old(runs)[runId].alertedAt == None
                      && runs == old(runs)[runId := old(runs)[runId].(outcome := Some(outcome), alertedAt := Some(now))]
      ensures !won ==> runs == old(runs) && (runId in runs ==> runs[runId].alertedAt.Some?)
    {
      won := runId in runs && runs[runId].alertedAt.None?;
      if won {
        runs := runs[runId := runs[runId].(outcome := Some(outcome), alertedAt := Some(now))];
      }
    }

    method FindAbandonedRuns(cutoff: int, limit: nat) returns (batch: seq<int>)
      ensures IsStaleBatch(Contents(), cutoff, limit, batch)
      ensures forall i :: 0 <= i < |batch| ==> batch[i] in runs && runs[batch[i]].startedAt < cutoff
      ensures |batch| < limit ==>
                forall r :: r in runs && runs[r].outcome == None && runs[r].alertedAt == None && runs[r].startedAt < cutoff ==> r in batch
    {
      batch := [];
      var rest := set r | r in runs && IsStale(Db(runs, execs), r, cutoff);
      while rest != {} && |batch| < limit
        invariant |batch| <= limit
        invariant forall i, j :: 0 <= i < j < |batch| ==> batch[i] < batch[j]
        invariant forall i :: 0 <= i < |batch| ==> IsStale(Contents(), batch[i], cutoff)
        invariant forall r :: r in rest ==> IsStale(Contents(), r, cutoff)
        invariant forall r :: IsStale(Contents(), r, cutoff) ==> r in rest || r in batch
        invariant forall i, r :: 0 <= i < |batch| && r in rest ==> batch[i] < r
        decreases rest
      {
        var least := LeastOf(rest);
        ghost var before := batch;
        batch := batch + [least];
        rest := rest - {least};
        assert forall i :: 0 <= i < |before| ==> batch[i] == before[i];
        assert batch[|before|] == least;
      }
    }

    method MarkRunTestsAbandoned(runId: int, now: int) returns (stamped: set<int>)
      requires Valid()
      modifies this`execs
      ensures Valid()
      ensures Contents() == MarkAbandoned(old(Contents()), runId, now)
      ensures execs.Keys == old(execs).Keys
      ensures forall e :: e in stamped ==> e in old(execs) && execs[e] == old(execs)[e].(status := "abandoned", completedAt := Some(now))
      ensures forall e :: e in execs && e !in stamped ==> execs[e] == old(execs)[e]
      ensures stamped == ExecsOf(old(Contents()), runId) - CompletedOf(old(Contents()), runId)
    {
      stamped := set e | e in execs && execs[e].runId == Some(runId) && execs[e].completedAt.None?;
      execs := map e | e in execs ::
        if execs[e].runId == Some(runId) && execs[e].completedAt.None?
        then execs[e].(status := EXEC_ABANDONED, completedAt := Some(now))
        else execs[e];
    }

    method FinalizeUnfinishedQaRun(runId: int, now: int) returns (won: bool)
      requires Valid()
      modifies this`runs, this`execs
      ensures Valid()
      ensures won == Unclaimed(old(Contents()), runId)
      ensures Contents() == FinalizeUnfinished(old(Contents()), runId, now)
      ensures won ==> Contents() == Closed(old(Contents()), {runId}, now)
      ensures !won ==> execs == old(execs) && runs == old(runs)
    {
      won := ClaimRunAlert(runId, Abandoned, now);
      if !won { return; }
      var _ := MarkRunTestsAbandoned(runId, now);
      assert Contents() == Closed(old(Contents()), {runId}, now);
    }

    /**
     One sweep. It closes the hundred lowest-numbered runs that are open and started before
     the cutoff, with their rows, and nothing else: no run that started at or after the
     cutoff, and no row of one.
     */
    method TickAbandonedQaRuns(cutoff: int, now: int) returns (ghost batch: seq<int>)
      requires Valid()
      modifies this`runs, this`execs
      ensures Valid()
      ensures IsStaleBatch(old(Contents()), cutoff, SWEEP_LIMIT, batch)
      ensures Contents() == FinalizeAll(old(Contents()), batch, now)
      ensures Contents() == Closed(old(Contents()), SweptRuns(old(Contents()), cutoff), now)
      ensures |set r | r in old(runs) && old(runs)[r].outcome == None && old(runs)[r].alertedAt == None && old(runs)[r].startedAt < cutoff| <= 100 ==>
                forall r :: r in old(runs) && old(runs)[r].outcome == None && old(runs)[r].alertedAt == None && old(runs)[r].startedAt < cutoff ==>
                  && runs[r] == old(runs)[r].(outcome := Some(Abandoned), alertedAt := Some(now))
                  && forall e :: e in execs && execs[e].runId == Some(r) ==> execs[e].completedAt.Some?
      ensures forall r :: r in old(runs) && old(runs)[r].startedAt >= cutoff ==> runs[r] == old(runs)[r]
      ensures forall e, r :: e in old(execs) && old(execs)[e].runId == Some(r) && r in old(runs) && old(runs)[r].startedAt >= cutoff ==>
                execs[e] == old(execs)[e]
    {
      var found := FindAbandonedRuns(cutoff, SWEEP_LIMIT);
      batch := found;
      for n := 0 to |found|
        invariant Valid()
        invariant Contents() == FinalizeAll(old(Contents()), found[..n], now)
      {
        var _ := FinalizeUnfinishedQaRun(found[n], now);
        assert found[..n + 1][..n] == found[..n];
      }
      assert found[..|found|] == found;
      SweepCloses(old(Contents()), cutoff, found, now);
      SweepMeaning(old(Contents()), cutoff, now);
    }

    /** The result post of a region agent; `alert` is the run to hand to the transition detector. */
    method WriteQaAgentResult(region: int, executionId: int, status: string, now: int)
      returns (updated: bool, alert: Option<int>)
      requires Valid()
      modifies this`runs, this`execs
      ensures Valid()
      ensures updated == (Matches(old(Contents()), executionId, region) && Fits(status))
      ensures Contents() == WriteResult(old(Contents()), executionId, region, status, now)
      ensures updated <==>
                && executionId in old(execs) && old(execs)[executionId].regionId == Some(region)
                && '\0' !in status && forall i :: 20 <= i < |status| ==> status[i] == ' '
      ensures updated ==> execs == old(execs)[executionId := old(execs)[executionId].(
                status := if |status| <= 20 then status else status[..20], completedAt := Some(now))]
      ensures !updated ==> execs == old(execs)
      ensures alert.Some? <==> runs != old(runs)
      ensures alert.Some? ==> updated && execs[executionId].runId == alert
                              && |CompletedOf(Contents(), alert.value)| >= runs[alert.value].expectedTests
      ensures alert.Some? ==> (runs[alert.value].outcome == Some(Failed) <==>
                exists e :: e in execs && execs[e].runId == alert && execs[e].completedAt.Some? && IsDown(execs[e].status))
      ensures alert.Some? ==> Unclaimed(old(Contents()), alert.value) && IsVerdict(runs[alert.value].outcome)
    {
      alert := None;
      updated := executionId in execs && execs[executionId].regionId == Some(region) && Fits(status);
      if !updated { return; }
      execs := execs[executionId := execs[executionId].(status := Stored(status), completedAt := Some(now))];
      var runId := execs[executionId].runId;
      if runId.None? { return; }
      var progress := RunProgress(runId.value);
      if progress.Some? && progress.value.completed >= progress.value.expectedTests {
        ghost var down := DownOf(Contents(), runId.value);
        Inhabited(down);
        assert progress.value.downCount > 0 <==> down != {};
        var won := ClaimRunAlert(runId.value, VerdictOf(progress.value), now);
        if won {
          alert := runId;
          assert runs[runId.value].outcome == Some(Failed) <==> exists e :: e in down;
          assert forall e :: e in down <==> e in execs && execs[e].runId == runId && execs[e].completedAt.Some? && IsDown(execs[e].status);
        }
      }
    }

    /** The transition detector for one finalized run. */
    method MaybeAlertOnQaRunTransition(runId: int) returns (event: Option<Event>)
      ensures exists prev :: IsPrevious(Contents(), runId, prev) && event == Decision(Contents(), runId, prev)
    {
      event := None;
      var db := Db(runs, execs);
      var candidates := set q | q in runs && IsCandidate(db, runId, q);
      var best: Option<int> := None;
      var rest := candidates;
      while rest != {}
        invariant rest <= candidates
        invariant best.None? ==> rest == candidates
        invariant best.Some? ==> best.value in candidates
        invariant best.Some? ==> forall q :: q in candidates - rest ==> runs[q].startedAt <= runs[best.value].startedAt
        decreases rest
      {
        Inhabited(rest);
        var q :| q in rest;
        rest := rest - {q};
        if best.None? || runs[best.value].startedAt < runs[q].startedAt {
          best := Some(q);
        }
      }
      assert best.None? ==> forall q :: IsCandidate(db, runId, q) ==> q in candidates;
      assert best.Some? ==> IsCandidate(db, runId, best.value);
      assert IsPrevious(Contents(), runId, best);
      if runId !in runs || !IsVerdict(runs[runId].outcome) || best.None? { return; }
      event := Transition(runs[best.value].outcome.value, runs[runId].outcome.value);
    }
  }
}
