/** The master's own runs: its fold over test results, its rows, and the sweep that may take the run away. */
module QaMasters {
  import opened Options
  import opened Sets
  import opened QaStore
  import opened QaRuns
  import opened QaRunInvariants
  import opened QaVerdicts

  /** The rows of the job's run are its tests' rows, one each. */
  ghost predicate MasterOwns(db: Db, me: Master) {
    && OneRowEach(db, me)
    && (forall e :: e in ExecsOf(db, me.runId) ==> exists i :: i in me.rows && me.rows[i] == e)
  }

  predicate RowsOfTests(db: Db, me: Master) {
    forall i :: i in me.rows ==> me.rows[i] in db.execs && 0 <= i < |me.tests|
  }

  predicate RowsDiffer(me: Master) {
    forall i, j :: i in me.rows && j in me.rows && i != j ==> me.rows[i] != me.rows[j]
  }

  predicate OneRowEach(db: Db, me: Master) {
    RowsOfTests(db, me) && RowsDiffer(me)
  }

  /** A reported test's row says what the test said; a test without a row can only have failed to get one. */
  ghost predicate MasterReports(db: Db, me: Master) {
    && (forall i :: i in me.rows && i in me.results && me.rows[i] in db.execs ==>
          db.execs[me.rows[i]].completedAt.Some? && db.execs[me.rows[i]].status == me.results[i])
    && ResultsInRange(me)
  }

  predicate MasterVerdict(db: Db, me: Master) {
    && (me.pc.Settling? ==> AllIn(me) && me.pc.verdict == MasterFold(me.results))
    && (me.runId in db.runs && IsVerdict(db.runs[me.runId].outcome) ==>
          AllIn(me) && db.runs[me.runId].outcome == Some(MasterFold(me.results)))
  }

  /** Every master job made its own run. */
  ghost predicate OwnRuns(s: State) {
    && (forall m, n :: m in s.masters && n in s.masters && m != n ==> s.masters[m].runId != s.masters[n].runId)
  }

  ghost predicate MastersSound(s: State) {
    && OwnRuns(s)
    && (forall m :: m in s.masters ==>
          MasterOwns(s.db, s.masters[m]) && MasterReports(s.db, s.masters[m]) && MasterVerdict(s.db, s.masters[m]))
  }

  lemma KeepsOwnRuns(s: State, a: Action)
    requires Linked(s) && OwnRuns(s)
    ensures OwnRuns(Apply(s, a))
  {
    var s1 := Apply(s, a);
    forall m, n | m in s1.masters && n in s1.masters && m != n ensures s1.masters[m].runId != s1.masters[n].runId {
      if m in s.masters { assert LinkedMaster(s.db, s.masters[m]); }
      if n in s.masters { assert LinkedMaster(s.db, s.masters[n]); }
    }
  }

  /** Only the job itself inserts rows for its run. */
  lemma NewRowIsItsOwn(s: State, a: Action, m: int, e: int)
    requires Safe(s) && OwnRuns(s) && m in s.masters && e !in s.db.execs
    requires e in ExecsOf(Apply(s, a).db, s.masters[m].runId)
    ensures a.MasterCreates? && a.m == m && a.i in Apply(s, a).masters[m].rows && Apply(s, a).masters[m].rows[a.i] == e
  {
    assert LinkedMaster(s.db, s.masters[m]);
    if a.MasterCreates? && a.m in s.masters { assert LinkedMaster(s.db, s.masters[a.m]); }
  }

  lemma KeepsRowOwner(s: State, a: Action, m: int, e: int)
    requires Safe(s) && MastersSound(s) && m in s.masters
    requires e in ExecsOf(Apply(s, a).db, s.masters[m].runId)
    ensures m in Apply(s, a).masters
    ensures exists i :: i in Apply(s, a).masters[m].rows && Apply(s, a).masters[m].rows[i] == e
  {
    if e in s.db.execs {
      LegalStatement(s, a);
      StatementGrows(s.db, StatementOf(s, a), s.now);
      assert MasterOwns(s.db, s.masters[m]) && e in ExecsOf(s.db, s.masters[m].runId);
      var i :| i in s.masters[m].rows && s.masters[m].rows[i] == e;
      assert i in Apply(s, a).masters[m].rows;
    } else {
      NewRowIsItsOwn(s, a, m, e);
    }
  }

  lemma KeepsRowsDiffer(s: State, a: Action, m: int)
    requires MastersSound(s) && m in Apply(s, a).masters
    ensures RowsDiffer(Apply(s, a).masters[m])
  {
    if m in s.masters { assert MasterOwns(s.db, s.masters[m]); }
  }

  lemma KeepsRowsOfTests(s: State, a: Action, m: int)
    requires Safe(s) && MastersSound(s) && m in Apply(s, a).masters
    ensures RowsOfTests(Apply(s, a).db, Apply(s, a).masters[m])
  {
    LegalStatement(s, a);
    StatementGrows(s.db, StatementOf(s, a), s.now);
    if m in s.masters { assert MasterOwns(s.db, s.masters[m]); }
  }

  lemma KeepsOneRowEach(s: State, a: Action, m: int)
    requires Safe(s) && MastersSound(s) && m in Apply(s, a).masters
    ensures OneRowEach(Apply(s, a).db, Apply(s, a).masters[m])
  {
    KeepsRowsOfTests(s, a, m);
    KeepsRowsDiffer(s, a, m);
  }

  /** A job that has just begun has no rows yet. */
  lemma NewRunHasNoRows(s: State, a: Action, m: int)
    requires Safe(s) && m !in s.masters && m in Apply(s, a).masters
    ensures ExecsOf(Apply(s, a).db, Apply(s, a).masters[m].runId) == {}
  {
    LegalStatement(s, a);
    var db1, r := Apply(s, a).db, Apply(s, a).masters[m].runId;
    assert db1.execs == s.db.execs && r !in s.db.runs;
    forall e | e in db1.execs ensures db1.execs[e].runId != Some(r) {
      assert s.db.execs[e].runId.Some? ==> s.db.execs[e].runId.value in s.db.runs;
    }
  }

  lemma KeepsMasterOwns(s: State, a: Action, m: int)
    requires Safe(s) && MastersSound(s) && m in Apply(s, a).masters
    ensures MasterOwns(Apply(s, a).db, Apply(s, a).masters[m])
  {
    var s1 := Apply(s, a);
    KeepsOneRowEach(s, a, m);
    if m in s.masters {
      forall e | e in ExecsOf(s1.db, s1.masters[m].runId)
        ensures exists i :: i in s1.masters[m].rows && s1.masters[m].rows[i] == e
      {
        KeepsRowOwner(s, a, m, e);
      }
    } else {
      NewRunHasNoRows(s, a, m);
    }
  }

  /** No statement rewrites the row of a test that has reported. */
  lemma ReportedRowStays(s: State, a: Action, m: int, i: int)
    requires Safe(s) && MastersSound(s) && m in s.masters
    requires i in s.masters[m].rows && i in s.masters[m].results
    ensures s.masters[m].rows[i] in Apply(s, a).db.execs
    ensures Apply(s, a).db.execs[s.masters[m].rows[i]] == s.db.execs[s.masters[m].rows[i]]
  {
    var me := s.masters[m];
    LegalStatement(s, a);
    assert LinkedMaster(s.db, me) && MasterOwns(s.db, me) && MasterReports(s.db, me);
    if a.MasterFinishes? && a.m in s.masters {
      assert LinkedMaster(s.db, s.masters[a.m]);
      assert a.i in s.masters[a.m].rows && s.masters[a.m].rows[a.i] == me.rows[i] ==> a.m == m && a.i == i;
    }
  }

  lemma KeepsReportedRow(s: State, a: Action, m: int, i: int)
    requires Safe(s) && MastersSound(s) && m in s.masters && m in Apply(s, a).masters
    requires i in Apply(s, a).masters[m].rows && i in Apply(s, a).masters[m].results
    requires Apply(s, a).masters[m].rows[i] in Apply(s, a).db.execs
    ensures var exec := Apply(s, a).db.execs[Apply(s, a).masters[m].rows[i]];
            exec.completedAt.Some? && exec.status == Apply(s, a).masters[m].results[i]
  {
    var me := s.masters[m];
    assert MasterOwns(s.db, me) && MasterReports(s.db, me);
    if i in me.rows && i in me.results { ReportedRowStays(s, a, m, i); }
  }

  predicate ResultsInRange(me: Master) {
    && (forall i :: i in me.results ==> 0 <= i < |me.tests| && me.results[i] in TEST_STATUSES)
    && (forall i :: i in me.results && i !in me.rows ==> me.results[i] == "error")
  }

  lemma KeepsResultsInRange(s: State, a: Action, m: int)
    requires MastersSound(s) && m in Apply(s, a).masters
    ensures ResultsInRange(Apply(s, a).masters[m])
  {
    if m in s.masters { assert MasterReports(s.db, s.masters[m]); }
  }

  lemma KeepsMasterReports(s: State, a: Action, m: int)
    requires Safe(s) && MastersSound(s) && m in Apply(s, a).masters
    ensures MasterReports(Apply(s, a).db, Apply(s, a).masters[m])
  {
    var s1 := Apply(s, a);
    KeepsResultsInRange(s, a, m);
    if m in s.masters {
      var me1 := s1.masters[m];
      forall i | i in me1.rows && i in me1.results && me1.rows[i] in s1.db.execs
        ensures s1.db.execs[me1.rows[i]].completedAt.Some? && s1.db.execs[me1.rows[i]].status == me1.results[i]
      {
        KeepsReportedRow(s, a, m, i);
      }
    }
  }

  lemma KeepsSettling(s: State, a: Action, m: int)
    requires Safe(s) && MastersSound(s) && m in s.masters && m in Apply(s, a).masters
    requires Apply(s, a).masters[m].pc.Settling?
    ensures AllIn(Apply(s, a).masters[m]) && Apply(s, a).masters[m].pc.verdict == MasterFold(Apply(s, a).masters[m].results)
  {
    var me := s.masters[m];
    assert MasterOwns(s.db, me) && MasterVerdict(s.db, me);
    if AllIn(me) { ResultsStay(s, a, m); }
  }

  lemma KeepsMasterRun(s: State, a: Action, m: int)
    requires Safe(s) && MastersSound(s) && m in s.masters && m in Apply(s, a).masters
    requires var r := s.masters[m].runId; r in Apply(s, a).db.runs && IsVerdict(Apply(s, a).db.runs[r].outcome)
    ensures AllIn(s.masters[m]) && Apply(s, a).db.runs[s.masters[m].runId].outcome == Some(MasterFold(s.masters[m].results))
  {
    var me, st := s.masters[m], StatementOf(s, a);
    LegalStatement(s, a);
    StatementGrows(s.db, st, s.now);
    assert LinkedMaster(s.db, me) && MasterVerdict(s.db, me);
    if a.PosterMoves? && st.ClaimRun? { assert LinkedPoster(s.db, s.posters[a.p]); }
  }

  lemma KeepsMasterVerdict(s: State, a: Action, m: int)
    requires Safe(s) && MastersSound(s) && m in Apply(s, a).masters
    ensures MasterVerdict(Apply(s, a).db, Apply(s, a).masters[m])
  {
    var s1 := Apply(s, a);
    if m in s.masters {
      var r := s.masters[m].runId;
      assert MasterOwns(s.db, s.masters[m]);
      if s1.masters[m].pc.Settling? { KeepsSettling(s, a, m); }
      if r in s1.db.runs && IsVerdict(s1.db.runs[r].outcome) {
        KeepsMasterRun(s, a, m);
        ResultsStay(s, a, m);
      }
    } else {
      NewRunIsOpen(s, a, m);
    }
  }

  lemma NewRunIsOpen(s: State, a: Action, m: int)
    requires Safe(s) && m !in s.masters && m in Apply(s, a).masters
    ensures MasterVerdict(Apply(s, a).db, Apply(s, a).masters[m])
  {
    LegalStatement(s, a);
  }

  /** Once every test has a result, the results no longer change. */
  lemma ResultsStay(s: State, a: Action, m: int)
    requires m in s.masters && MasterOwns(s.db, s.masters[m]) && AllIn(s.masters[m])
    ensures m in Apply(s, a).masters && Apply(s, a).masters[m].results == s.masters[m].results
    ensures Apply(s, a).masters[m].tests == s.masters[m].tests && Apply(s, a).masters[m].runId == s.masters[m].runId
  {
  }

  lemma {:induction false} AlwaysMastersSound(actions: seq<Action>)
    ensures MastersSound(After(actions))
    decreases |actions|
  {
    if actions != [] {
      var before, a := actions[..|actions| - 1], actions[|actions| - 1];
      AlwaysSafe(before);
      AlwaysMastersSound(before);
      var s, s1 := After(before), After(actions);
      KeepsOwnRuns(s, a);
      forall m | m in s1.masters
        ensures MasterOwns(s1.db, s1.masters[m]) && MasterReports(s1.db, s1.masters[m]) && MasterVerdict(s1.db, s1.masters[m])
      {
        KeepsMasterOwns(s, a, m);
        KeepsMasterReports(s, a, m);
        KeepsMasterVerdict(s, a, m);
      }
    }
  }

  lemma FoldMeaning(results: map<int, string>)
    ensures MasterFold(results) == Failed <==> exists i :: i in results && results[i] in {"error", "failed"}
  {
    var errors := set i | i in results && results[i] == "error";
    var failed := set i | i in results && results[i] == "failed";
    Inhabited(errors);
    Inhabited(failed);
    if i :| i in results && results[i] in {"error", "failed"} {
      assert i in errors || i in failed;
    }
  }

  /** A finished job agrees with its rows, and with the verdict the region path would read from them. */
  ghost predicate MasterAgrees(db: Db, me: Master) {
    && AllIn(me)
    && me.runId in db.runs
    && (db.runs[me.runId].outcome == Some(Failed) <==> exists i :: i in me.results && me.results[i] in {"error", "failed"})
    && (forall i :: i in me.rows ==>
          && i in me.results
          && me.rows[i] in CompletedOf(db, me.runId)
          && db.execs[me.rows[i]].status == me.results[i])
    && ((forall i :: 0 <= i < |me.tests| ==> i in me.rows) ==>
          db.runs[me.runId].outcome == Some(VerdictOf(ProgressOf(db, me.runId).value)))
  }

  lemma RowsAgree(db: Db, me: Master)
    requires LinkedMaster(db, me) && MasterOwns(db, me) && MasterReports(db, me) && AllIn(me)
    requires forall i :: 0 <= i < |me.tests| ==> i in me.rows
    ensures MasterFold(me.results) == VerdictOf(ProgressOf(db, me.runId).value)
  {
    FoldMeaning(me.results);
    DownWords("failed");
    Inhabited(DownOf(db, me.runId));
    if e :| e in DownOf(db, me.runId) {
      assert e in ExecsOf(db, me.runId);
      var i :| i in me.rows && me.rows[i] == e;
      assert me.results[i] in TEST_STATUSES;
    }
    if i :| i in me.results && me.results[i] in {"error", "failed"} {
      assert me.rows[i] in DownOf(db, me.runId);
    }
  }

  /**
   Verdict soundness of master runs: a verdict means every test reported, it is FAILED
   exactly when some test failed or errored, and the rows say the same. When every test
   got its row, the fold over results equals the count-based verdict of the region path.
   */
  lemma MasterVerdictIsSound(actions: seq<Action>, m: int)
    requires m in After(actions).masters
    requires After(actions).masters[m].runId in After(actions).db.runs
    requires IsVerdict(After(actions).db.runs[After(actions).masters[m].runId].outcome)
    ensures MasterAgrees(After(actions).db, After(actions).masters[m])
  {
    AlwaysSafe(actions);
    AlwaysMastersSound(actions);
    var db, me := After(actions).db, After(actions).masters[m];
    assert LinkedMaster(db, me) && MasterOwns(db, me) && MasterReports(db, me) && MasterVerdict(db, me);
    FoldMeaning(me.results);
    if forall i :: 0 <= i < |me.tests| ==> i in me.rows { RowsAgree(db, me); }
  }
}
