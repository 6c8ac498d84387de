/** Main results about finalizing runs, for every sequence of actions. */
module QaVerdicts {
  import opened Options
  import opened Sets
  import opened QaStore
  import opened QaRuns
  import opened QaRunInvariants

  lemma {:induction false} AlwaysSafe(actions: seq<Action>)
    ensures Safe(After(actions))
    decreases |actions|
  {
    if actions != [] {
      AlwaysSafe(actions[..|actions| - 1]);
      KeepsSafe(After(actions[..|actions| - 1]), actions[|actions| - 1]);
    }
  }

  /** The one claim of `r` that returned true. */
  ghost predicate WonOnce(log: seq<Win>, r: int) {
    exists i :: 0 <= i < |log| && log[i].runId == r && forall j :: 0 <= j < |log| && log[j].runId == r ==> j == i
  }

  /**
   No lost completion: when every row of a region run is complete and no poster is
   still on its way, the run is finalized, and exactly one claim ever succeeded.
   */
  lemma NoLostCompletion(actions: seq<Action>, r: int)
    requires r in After(actions).creating
    requires Complete(After(actions).db, r)
    requires forall p :: !WillFinalize(After(actions).posters, p, r)
    ensures After(actions).db.runs[r].outcome.Some? && After(actions).db.runs[r].alertedAt.Some?
    ensures WonOnce(After(actions).log, r)
  {
    AlwaysSafe(actions);
    var s := After(actions);
    var i :| 0 <= i < |s.log| && s.log[i].runId == r;
  }

  lemma {:induction false} AppliedLast(actions: seq<Action>, a: Action)
    ensures After(actions + [a]) == Apply(After(actions), a)
  {
    assert (actions + [a])[..|actions|] == actions;
  }

  /** What is settled about `r`: its row, and the end of its claims. */
  ghost predicate Settled(s: State, t: State, r: int)
    requires r in s.db.runs
  {
    && r in t.db.runs && t.db.runs[r] == s.db.runs[r] && s.log <= t.log
    && forall i :: |s.log| <= i < |t.log| ==> t.log[i].runId != r
  }

  lemma StaysSettled(s: State, t: State, a: Action, r: int)
    requires Safe(t) && r in s.db.runs && s.db.runs[r].outcome.Some? && Settled(s, t, r)
    ensures Settled(s, Apply(t, a), r)
  {
  }

  /** Finality: whatever happens later, a finalized run keeps its row and no second claim of it succeeds. */
  lemma {:induction false} Finality(actions: seq<Action>, more: seq<Action>, r: int)
    requires r in After(actions).db.runs && After(actions).db.runs[r].outcome.Some?
    ensures Settled(After(actions), After(actions + more), r)
    decreases |more|
  {
    if more == [] {
      assert actions + more == actions;
    } else {
      var most, a := more[..|more| - 1], more[|more| - 1];
      Finality(actions, most, r);
      AlwaysSafe(actions + most);
      StaysSettled(After(actions), After(actions + most), a, r);
      AppliedLast(actions + most, a);
      assert actions + more == (actions + most) + [a];
    }
  }

  /** A run and its history agree in every reachable state: finalized exactly when claimed, with the claimed outcome. */
  lemma OutcomeIsTheClaim(actions: seq<Action>, r: int)
    requires r in After(actions).db.runs
    ensures var run := After(actions).db.runs[r];
            && (run.outcome.Some? <==> run.alertedAt.Some?)
            && (run.outcome.Some? <==> WonOnce(After(actions).log, r))
            && forall i :: 0 <= i < |After(actions).log| && After(actions).log[i].runId == r ==>
                 run.outcome == Some(After(actions).log[i].outcome)
  {
    AlwaysSafe(actions);
    var s := After(actions);
    if s.db.runs[r].outcome.Some? {
      var i :| 0 <= i < |s.log| && s.log[i].runId == r;
      assert forall j :: 0 <= j < |s.log| && s.log[j].runId == r ==> j == i;
    }
  }

  // ------------------------------------------------------------ abandoned rows

  /** Every row marked abandoned belongs to an ABANDONED run. */
  ghost predicate MarksSound(db: Db) {
    forall e :: e in db.execs && db.execs[e].status == EXEC_ABANDONED ==> OfAbandonedRun(db, e)
  }

  predicate OfAbandonedRun(db: Db, e: int) {
    e in db.execs && db.execs[e].runId.Some? && IsAbandonedRun(db, db.execs[e].runId.value)
  }

  /** A post that takes effect says "abandoned" of a row whose run is not. */
  predicate Forges(s: State, a: Action) {
    && a.PosterMoves? && a.p in s.posters
    && s.posters[a.p].pc.Updating? && s.posters[a.p].status == EXEC_ABANDONED
    && Matches(s.db, s.posters[a.p].execId, s.posters[a.p].region)
    && !OfAbandonedRun(s.db, s.posters[a.p].execId)
  }

  lemma KeepsMark(s: State, a: Action, e: int)
    requires Safe(s) && MarksSound(s.db) && !Forges(s, a)
    requires e in Apply(s, a).db.execs && Apply(s, a).db.execs[e].status == EXEC_ABANDONED
    ensures OfAbandonedRun(Apply(s, a).db, e)
  {
    LegalStatement(s, a);
    StatementGrows(s.db, StatementOf(s, a), s.now);
    if a.PosterMoves? && a.p in s.posters { StoredWord(s.posters[a.p].status, EXEC_ABANDONED); }
  }

  lemma ForgedMark(s: State, a: Action)
    requires Safe(s) && Forges(s, a)
    ensures !MarksSound(Apply(s, a).db)
  {
    StoredWord(s.posters[a.p].status, EXEC_ABANDONED);
    assert !OfAbandonedRun(Apply(s, a).db, s.posters[a.p].execId);
  }

  lemma PrefixOfPrefix(actions: seq<Action>, n: nat)
    requires n < |actions|
    ensures After(actions[..n + 1]) == Apply(After(actions[..n]), actions[n])
  {
    assert actions[..n + 1][..n] == actions[..n];
  }

  lemma {:induction false} UnforgedMarks(actions: seq<Action>, n: nat)
    requires n <= |actions| && forall i :: 0 <= i < n ==> !Forges(After(actions[..i]), actions[i])
    ensures MarksSound(After(actions[..n]).db)
    decreases n
  {
    if n > 0 {
      UnforgedMarks(actions, n - 1);
      PrefixOfPrefix(actions, n - 1);
      AlwaysSafe(actions[..n - 1]);
      var db := After(actions[..n]).db;
      forall e | e in db.execs && db.execs[e].status == EXEC_ABANDONED ensures OfAbandonedRun(db, e) {
        KeepsMark(After(actions[..n - 1]), actions[n - 1], e);
      }
    }
  }

  /**
   All through a run of the system every row marked abandoned belongs to an ABANDONED run,
   exactly if no post that took effect said so of a row whose run was not.
   */
  lemma AbandonedRowsHaveAbandonedRunsIff(actions: seq<Action>)
    ensures (forall n :: 0 <= n <= |actions| ==> MarksSound(After(actions[..n]).db))
       <==> (forall n :: 0 <= n < |actions| ==> !Forges(After(actions[..n]), actions[n]))
  {
    if n :| 0 <= n < |actions| && Forges(After(actions[..n]), actions[n]) {
      AlwaysSafe(actions[..n]);
      ForgedMark(After(actions[..n]), actions[n]);
      PrefixOfPrefix(actions, n);
      assert !MarksSound(After(actions[..n + 1]).db);
    } else {
      forall n | 0 <= n <= |actions| ensures MarksSound(After(actions[..n]).db) { UnforgedMarks(actions, n); }
    }
  }

  /** A sweep that loses the claim issues no statement, so it changes no row. */
  lemma LosingSweepChangesNothing(s: State, w: int, cutoff: int, batch: seq<int>)
    requires w in s.sweeps && s.sweeps[w].Sweeping? && s.sweeps[w].queue != [] && !Unclaimed(s.db, s.sweeps[w].queue[0])
    ensures Apply(s, SweepMoves(w, cutoff, batch)).db == s.db
    ensures Apply(s, SweepMoves(w, cutoff, batch)).log == s.log
    ensures Apply(s, SweepMoves(w, cutoff, batch)).sweeps[w] == Sweeping(s.sweeps[w].queue[1..])
  {
  }

  // ------------------------------------------------------------ region verdicts

  /** Whether the row reads as down once the report is stored. */
  predicate SaysDown(status: string) {
    IsDown(Stored(status))
  }

  /** Reports that can be written to one row by its region may differ, but not in whether the test is down. */
  ghost predicate Consistent(posters: map<int, Poster>) {
    forall p, q :: p in posters && q in posters && Fits(posters[p].status) && Fits(posters[q].status)
      && posters[p].execId == posters[q].execId && posters[p].region == posters[q].region
      ==> SaysDown(posters[p].status) == SaysDown(posters[q].status)
  }

  /** Poster `p` wrote what row `e` says. */
  predicate HasPosted(s: State, p: int, e: int) {
    && p in s.posters && e in s.db.execs && Fits(s.posters[p].status)
    && s.posters[p].execId == e && !s.posters[p].pc.Updating?
    && s.db.execs[e].regionId == Some(s.posters[p].region)
    && s.db.execs[e].status == Stored(s.posters[p].status)
  }

  predicate IsReported(db: Db, e: int) {
    e in db.execs && db.execs[e].regionId.Some? && db.execs[e].completedAt.Some? && !OfAbandonedRun(db, e)
  }

  /** A completed row of a region, unless its run is abandoned, was written by a poster. */
  ghost predicate Reported(s: State) {
    forall e :: IsReported(s.db, e) ==> exists p :: HasPosted(s, p, e)
  }

  lemma KeepsReported(s: State, a: Action)
    requires Safe(s) && Reported(s)
    ensures Reported(Apply(s, a))
  {
    var s1, st := Apply(s, a), StatementOf(s, a);
    LegalStatement(s, a);
    StatementGrows(s.db, st, s.now);
    forall e | IsReported(s1.db, e) ensures exists p :: HasPosted(s1, p, e) {
      if st.Report? && st.e == e {
        WriterOfRow(s, a);
        assert HasPosted(s1, a.p, e);
      } else {
        OtherReport(s, a, e);
        var p :| HasPosted(s, p, e);
        assert HasPosted(s1, p, e);
      }
    }
  }

  /** A row no report touches now was reported before. */
  lemma OtherReport(s: State, a: Action, e: int)
    requires Safe(s) && IsReported(Apply(s, a).db, e)
    requires !(StatementOf(s, a).Report? && StatementOf(s, a).e == e)
    ensures IsReported(s.db, e) && Apply(s, a).db.execs[e] == s.db.execs[e]
  {
    LegalStatement(s, a);
    StatementGrows(s.db, StatementOf(s, a), s.now);
  }

  /** Rows of a region are written by its posters only. */
  lemma WriterOfRow(s: State, a: Action)
    requires Safe(s) && StatementOf(s, a).Report?
    requires StatementOf(s, a).e in s.db.execs && s.db.execs[StatementOf(s, a).e].regionId.Some?
    ensures a.PosterMoves? && a.p in s.posters && s.posters[a.p].pc.Updating?
    ensures s.posters[a.p].execId == StatementOf(s, a).e
    ensures Stored(s.posters[a.p].status) == StatementOf(s, a).status && Fits(s.posters[a.p].status)
    ensures s.db.execs[StatementOf(s, a).e].regionId == Some(s.posters[a.p].region)
  {
  }

  /** The verdict `v` is what the rows of `r` say, and no row is missing. */
  predicate Sound(db: Db, r: int, v: Outcome) {
    Complete(db, r) && v == if DownOf(db, r) != {} then Failed else Success
  }

  predicate WillClaim(s: State, p: int, r: int, v: Outcome) {
    p in s.posters && s.posters[p].pc == Claiming(r, v) && Unclaimed(s.db, r)
  }

  ghost predicate VerdictsSound(s: State) {
    && (forall r :: r in s.creating && r in s.db.runs && IsVerdict(s.db.runs[r].outcome) ==> Sound(s.db, r, s.db.runs[r].outcome.value))
    && (forall p, r, v :: WillClaim(s, p, r, v) ==> Sound(s.db, r, v))
  }

  lemma ConsistentBefore(s: State, a: Action)
    requires Consistent(Apply(s, a).posters)
    ensures Consistent(s.posters)
  {
    var later := Apply(s, a).posters;
    forall p, q | p in s.posters && q in s.posters && Fits(s.posters[p].status) && Fits(s.posters[q].status)
      && s.posters[p].execId == s.posters[q].execId && s.posters[p].region == s.posters[q].region
      ensures SaysDown(s.posters[p].status) == SaysDown(s.posters[q].status)
    {
      assert later[p].execId == s.posters[p].execId && later[p].region == s.posters[p].region && later[p].status == s.posters[p].status;
      assert later[q].execId == s.posters[q].execId && later[q].region == s.posters[q].region && later[q].status == s.posters[q].status;
    }
  }

  /** Once the rows of an unabandoned region run are complete, no later statement changes what they say. */
  lemma SettledRows(s: State, a: Action, r: int, v: Outcome)
    requires Safe(s) && Reported(s) && Consistent(Apply(s, a).posters)
    requires r in s.creating && Sound(s.db, r, v) && !IsAbandonedRun(s.db, r)
    ensures Sound(Apply(s, a).db, r, v)
  {
    var s1, st := Apply(s, a), StatementOf(s, a);
    LegalStatement(s, a);
    StatementGrows(s.db, st, s.now);
    CompletedWithin(s.db, r);
    if Touched(s.db, st) == Some(r) {
      if st.Report? {
        var e := st.e;
        assert e in ExecsOf(s.db, r);
        assert e in CompletedOf(s.db, r);
        WriterOfRow(s, a);
        assert IsReported(s.db, e);
        var q :| HasPosted(s, q, e);
        ConsistentBefore(s, a);
        assert IsDown(s1.db.execs[e].status) == IsDown(s.db.execs[e].status);
        assert CompletedOf(s1.db, r) == CompletedOf(s.db, r);
        assert DownOf(s1.db, r) == DownOf(s.db, r);
      }
    } else {
      OtherRows(s.db, st, s.now, r);
    }
  }

  lemma ClaimedRunIsSound(s: State, a: Action, r: int)
    requires Safe(s) && VerdictsSound(s) && r in Apply(s, a).creating
    requires StatementOf(s, a).ClaimRun? && StatementOf(s, a).r == r && StatementOf(s, a).o != Abandoned
    ensures Unclaimed(s.db, r) && Sound(s.db, r, StatementOf(s, a).o)
  {
    LegalStatement(s, a);
    assert a.MasterMoves? && a.m in s.masters ==> LinkedMaster(s.db, s.masters[a.m]);
    if a.PosterMoves? { assert WillClaim(s, a.p, r, StatementOf(s, a).o); }
  }

  lemma KeepsSoundRun(s: State, a: Action, r: int)
    requires Safe(s) && Reported(s) && VerdictsSound(s) && Consistent(Apply(s, a).posters)
    requires r in Apply(s, a).creating && r in Apply(s, a).db.runs && IsVerdict(Apply(s, a).db.runs[r].outcome)
    ensures Sound(Apply(s, a).db, r, Apply(s, a).db.runs[r].outcome.value)
  {
    var s1, st := Apply(s, a), StatementOf(s, a);
    LegalStatement(s, a);
    StatementGrows(s.db, st, s.now);
    if st.ClaimRun? && st.r == r { ClaimedRunIsSound(s, a, r); }
    SettledRows(s, a, r, s1.db.runs[r].outcome.value);
  }

  lemma KeepsSoundClaim(s: State, a: Action, p: int, r: int, v: Outcome)
    requires Safe(s) && Reported(s) && VerdictsSound(s) && Consistent(Apply(s, a).posters)
    requires WillClaim(Apply(s, a), p, r, v)
    ensures Sound(Apply(s, a).db, r, v)
  {
    LegalStatement(s, a);
    StatementGrows(s.db, StatementOf(s, a), s.now);
    assert LinkedPoster(s.db, s.posters[p]);
    if s.posters[p].pc.Claiming? {
      assert WillClaim(s, p, r, v);
      SettledRows(s, a, r, v);
    }
  }

  lemma KeepsVerdictsSound(s: State, a: Action)
    requires Safe(s) && Reported(s) && VerdictsSound(s) && Consistent(Apply(s, a).posters)
    ensures VerdictsSound(Apply(s, a))
  {
    var s1 := Apply(s, a);
    forall r | r in s1.creating && r in s1.db.runs && IsVerdict(s1.db.runs[r].outcome)
      ensures Sound(s1.db, r, s1.db.runs[r].outcome.value)
    {
      KeepsSoundRun(s, a, r);
    }
    forall p, r, v | WillClaim(s1, p, r, v) ensures Sound(s1.db, r, v) { KeepsSoundClaim(s, a, p, r, v); }
  }

  lemma {:induction false} AlwaysSound(actions: seq<Action>)
    ensures Reported(After(actions))
    ensures Consistent(After(actions).posters) ==> VerdictsSound(After(actions))
    decreases |actions|
  {
    if actions != [] {
      var before, a := actions[..|actions| - 1], actions[|actions| - 1];
      AlwaysSafe(before);
      AlwaysSound(before);
      KeepsReported(After(before), a);
      if Consistent(After(actions).posters) {
        ConsistentBefore(After(before), a);
        KeepsVerdictsSound(After(before), a);
      }
    }
  }

  /** A verdict on a region run says what its rows say, and its rows are what the reports said. */
  ghost predicate VerdictHolds(s: State, r: int)
    requires r in s.db.runs
  {
    && |ExecsOf(s.db, r)| == s.db.runs[r].expectedTests
    && (forall e :: e in ExecsOf(s.db, r) ==> s.db.execs[e].completedAt.Some? && exists p :: HasPosted(s, p, e))
    && (s.db.runs[r].outcome == Some(Failed) <==> exists e :: e in ExecsOf(s.db, r) && IsDown(s.db.execs[e].status))
  }

  predicate HasVerdict(s: State, r: int) {
    r in s.creating && r in s.db.runs && IsVerdict(s.db.runs[r].outcome)
  }

  /**
   Verdict soundness: if repeated reports agree on being down, a region run that reads SUCCESS
   or FAILED owns exactly the rows it expected, each completed by a report of its region,
   and it reads FAILED exactly when some report is down.
   */
  lemma RegionVerdictIsSound(actions: seq<Action>, r: int)
    requires Consistent(After(actions).posters) && HasVerdict(After(actions), r)
    ensures VerdictHolds(After(actions), r)
  {
    AlwaysSafe(actions);
    AlwaysSound(actions);
    var s := After(actions);
    CompletedWithin(s.db, r);
    assert CompletedOf(s.db, r) == ExecsOf(s.db, r);
    forall e | e in ExecsOf(s.db, r)
      ensures s.db.execs[e].completedAt.Some? && exists p :: HasPosted(s, p, e)
    {
      assert e in CompletedOf(s.db, r);
      assert IsReported(s.db, e);
    }
    assert forall e :: e in DownOf(s.db, r) <==> e in ExecsOf(s.db, r) && IsDown(s.db.execs[e].status);
    Inhabited(DownOf(s.db, r));
  }
}
