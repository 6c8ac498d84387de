/** How old the runs are that a sweep abandons, and what an undisturbed sweep or master does as a whole. */
module QaSweeps {
  import opened Options
  import opened QaStore
  import opened QaRuns
  import opened QaRunInvariants
  import opened QaVerdicts
  import opened QaMasters

  // ------------------------------------------------------------ the age of runs

  /** The i-th action created the run, and read the clock for its start. */
  ghost predicate CreatedAt(actions: seq<Action>, i: nat, r: int, startedAt: int)
    requires i < |actions|
  {
    && r !in After(actions[..i]).db.runs
    && r in After(actions[..i + 1]).db.runs
    && startedAt == After(actions[..i]).now
  }

  ghost predicate WasCreated(actions: seq<Action>, r: int, startedAt: int) {
    exists i :: 0 <= i < |actions| && CreatedAt(actions, i, r, startedAt)
  }

  lemma CreationStays(actions: seq<Action>, r: int, startedAt: int)
    requires actions != [] && WasCreated(actions[..|actions| - 1], r, startedAt)
    ensures WasCreated(actions, r, startedAt)
  {
    var before := actions[..|actions| - 1];
    var i :| 0 <= i < |before| && CreatedAt(before, i, r, startedAt);
    assert before[..i] == actions[..i] && before[..i + 1] == actions[..i + 1];
    assert CreatedAt(actions, i, r, startedAt);
  }

  lemma RunKept(s: State, a: Action, r: int)
    requires Safe(s) && r in s.db.runs
    ensures r in Apply(s, a).db.runs && SameRunIdentity(s.db.runs[r], Apply(s, a).db.runs[r])
    ensures s.now <= Apply(s, a).now
  {
    LegalStatement(s, a);
    StatementGrows(s.db, StatementOf(s, a), s.now);
  }

  lemma RunStays(actions: seq<Action>, r: int)
    requires actions != [] && r in After(actions[..|actions| - 1]).db.runs
    ensures r in After(actions).db.runs
    ensures After(actions).db.runs[r].startedAt == After(actions[..|actions| - 1]).db.runs[r].startedAt
    ensures After(actions[..|actions| - 1]).now <= After(actions).now
  {
    var before := actions[..|actions| - 1];
    AlwaysSafe(before);
    RunKept(After(before), actions[|actions| - 1], r);
  }

  lemma NewRun(s: State, a: Action, r: int)
    requires r !in s.db.runs && r in Apply(s, a).db.runs
    ensures Apply(s, a).db.runs[r].startedAt == s.now == Apply(s, a).now
  {
  }

  /** A run's start is the time it was created, whatever happened since. */
  lemma {:induction false} StartedWhenCreated(actions: seq<Action>, r: int)
    requires r in After(actions).db.runs
    ensures WasCreated(actions, r, After(actions).db.runs[r].startedAt)
    ensures After(actions).db.runs[r].startedAt <= After(actions).now
    decreases |actions|
  {
    var n := |actions| - 1;
    if r in After(actions[..n]).db.runs {
      RunStays(actions, r);
      StartedWhenCreated(actions[..n], r);
      CreationStays(actions, r, After(actions).db.runs[r].startedAt);
    } else {
      NewRun(After(actions[..n]), actions[n], r);
      assert actions[..n + 1] == actions;
      assert CreatedAt(actions, n, r, After(actions).db.runs[r].startedAt);
    }
  }

  /** The i-th action is a query that found the run open, and started before its cutoff. */
  ghost predicate FoundAt(actions: seq<Action>, i: nat, r: int, startedAt: int)
    requires i < |actions|
  {
    && actions[i].SweepMoves? && r in actions[i].batch
    && r in After(actions[..i]).db.runs
    && After(actions[..i]).db.runs[r].outcome == None
    && After(actions[..i]).db.runs[r].startedAt == startedAt < actions[i].cutoff
  }

  ghost predicate WasFound(actions: seq<Action>, r: int, startedAt: int) {
    exists i :: 0 <= i < |actions| && FoundAt(actions, i, r, startedAt)
  }

  lemma FoundStays(actions: seq<Action>, r: int, startedAt: int)
    requires actions != [] && WasFound(actions[..|actions| - 1], r, startedAt)
    ensures WasFound(actions, r, startedAt)
  {
    var before := actions[..|actions| - 1];
    var i :| 0 <= i < |before| && FoundAt(before, i, r, startedAt);
    assert before[..i] == actions[..i];
    assert FoundAt(actions, i, r, startedAt);
  }

  predicate Awaits(s: State, w: int, r: int) {
    w in s.sweeps && !s.sweeps[w].Idle? && r in s.sweeps[w].queue
  }

  lemma {:induction false} QueuedWasFound(actions: seq<Action>, w: int, r: int)
    requires Awaits(After(actions), w, r)
    ensures r in After(actions).db.runs && WasFound(actions, r, After(actions).db.runs[r].startedAt)
    decreases |actions|
  {
    var n := |actions| - 1;
    var before := actions[..n];
    if Awaits(After(before), w, r) {
      QueuedWasFound(before, w, r);
      RunStays(actions, r);
      FoundStays(actions, r, After(actions).db.runs[r].startedAt);
    } else {
      assert IsStale(After(before).db, r, actions[n].cutoff);
      RunStays(actions, r);
      assert FoundAt(actions, n, r, After(actions).db.runs[r].startedAt);
    }
  }

  /** The i-th action is a master closing out its own run. */
  ghost predicate ClosedAt(actions: seq<Action>, i: nat, r: int)
    requires i < |actions|
  {
    var s := After(actions[..i]);
    actions[i].MasterMoves? && actions[i].m in s.masters && s.masters[actions[i].m].pc.Closing? && s.masters[actions[i].m].runId == r
  }

  ghost predicate WasClosed(actions: seq<Action>, r: int) {
    exists i :: 0 <= i < |actions| && ClosedAt(actions, i, r)
  }

  lemma ClosedStays(actions: seq<Action>, r: int)
    requires actions != [] && WasClosed(actions[..|actions| - 1], r)
    ensures WasClosed(actions, r)
  {
    var before := actions[..|actions| - 1];
    var i :| 0 <= i < |before| && ClosedAt(before, i, r);
    assert before[..i] == actions[..i];
    assert ClosedAt(actions, i, r);
  }

  /** A claim that abandons is a sweep's, of the run it has next, or a closing master's, of its own run. */
  lemma Abandons(s: State, a: Action, w: Win)
    requires Linked(s) && MastersSound(s) && w.outcome == Abandoned && w in Apply(s, a).log && w !in s.log
    ensures w.runId in s.db.runs && w.startedAt == s.db.runs[w.runId].startedAt
    ensures (a.SweepMoves? && Awaits(s, a.w, w.runId))
         || (a.MasterMoves? && a.m in s.masters && s.masters[a.m].pc.Closing? && s.masters[a.m].runId == w.runId && w.regionId == None)
  {
    if a.MasterMoves? { assert LinkedMaster(s.db, s.masters[a.m]) && MasterVerdict(s.db, s.masters[a.m]); }
  }

  lemma SweptWasFound(actions: seq<Action>, w: int, r: int)
    requires actions != [] && Awaits(After(actions[..|actions| - 1]), w, r)
    ensures r in After(actions[..|actions| - 1]).db.runs
    ensures WasFound(actions, r, After(actions[..|actions| - 1]).db.runs[r].startedAt)
  {
    QueuedWasFound(actions[..|actions| - 1], w, r);
    FoundStays(actions, r, After(actions[..|actions| - 1]).db.runs[r].startedAt);
  }

  lemma NewlyAbandoned(actions: seq<Action>, w: Win)
    requires actions != [] && w.outcome == Abandoned
    requires w in After(actions).log && w !in After(actions[..|actions| - 1]).log
    ensures WasFound(actions, w.runId, w.startedAt) || (w.regionId == None && WasClosed(actions, w.runId))
  {
    var n := |actions| - 1;
    AlwaysSafe(actions[..n]);
    AlwaysMastersSound(actions[..n]);
    Abandons(After(actions[..n]), actions[n], w);
    if actions[n].SweepMoves? {
      SweptWasFound(actions, actions[n].w, w.runId);
    } else {
      assert ClosedAt(actions, n, w.runId);
    }
  }

  /**
   Only old runs are swept: a run that was abandoned had been found open, and started
   before the cutoff of that query, or is a master's and that master closed it itself.
   */
  lemma {:induction false} AbandonedWasOld(actions: seq<Action>, w: Win)
    requires w in After(actions).log && w.outcome == Abandoned
    ensures WasFound(actions, w.runId, w.startedAt) || (w.regionId == None && WasClosed(actions, w.runId))
    decreases |actions|
  {
    var before := actions[..|actions| - 1];
    if w in After(before).log {
      AbandonedWasOld(before, w);
      if WasFound(before, w.runId, w.startedAt) { FoundStays(actions, w.runId, w.startedAt); } else { ClosedStays(actions, w.runId); }
    } else {
      NewlyAbandoned(actions, w);
    }
  }

  // ------------------------------------------------------------ undisturbed actors

  /** The same action `n` times. */
  ghost function Repeat(s: State, a: Action, n: nat): State {
    if n == 0 then s else Apply(Repeat(s, a, n - 1), a)
  }

  lemma RepeatTwice(s: State, a: Action, n: nat)
    ensures Repeat(s, a, n + 2) == Apply(Apply(Repeat(s, a, n), a), a)
  {
    assert Repeat(s, a, n + 1) == Apply(Repeat(s, a, n), a);
  }

  /** Two moves close the next run of the queue. */
  lemma SweepOne(t: State, a: Action)
    requires a.SweepMoves? && a.w in t.sweeps && t.sweeps[a.w].Sweeping? && t.sweeps[a.w].queue != []
    requires Unclaimed(t.db, t.sweeps[a.w].queue[0])
    ensures Apply(Apply(t, a), a).db == FinalizeUnfinished(t.db, t.sweeps[a.w].queue[0], t.now)
    ensures a.w in Apply(Apply(t, a), a).sweeps && Apply(Apply(t, a), a).sweeps[a.w] == Sweeping(t.sweeps[a.w].queue[1..])
    ensures Apply(Apply(t, a), a).now == t.now
  {
  }

  lemma NextIsUnclaimed(db: Db, queue: seq<int>, n: nat, now: int)
    requires forall i, j :: 0 <= i < j < |queue| ==> queue[i] < queue[j]
    requires n < |queue| && forall i :: 0 <= i < |queue| ==> Unclaimed(db, queue[i])
    ensures Unclaimed(FinalizeAll(db, queue[..n], now), queue[n])
    ensures FinalizeUnfinished(FinalizeAll(db, queue[..n], now), queue[n], now) == FinalizeAll(db, queue[..n + 1], now)
  {
    FinalizeAllCloses(db, queue[..n], now);
    assert queue[n] !in queue[..n];
    assert queue[..n + 1][..n] == queue[..n];
  }

  ghost predicate IsSweptTo(s: State, t: State, w: int, queue: seq<int>, n: nat)
    requires n <= |queue|
  {
    w in t.sweeps && t.sweeps[w] == Sweeping(queue[n..]) && t.now == s.now && t.db == FinalizeAll(s.db, queue[..n], s.now)
  }

  ghost predicate IsQueue(db: Db, queue: seq<int>) {
    && (forall i, j :: 0 <= i < j < |queue| ==> queue[i] < queue[j])
    && (forall i :: 0 <= i < |queue| ==> Unclaimed(db, queue[i]))
  }

  lemma SweepNext(s: State, t: State, a: Action, queue: seq<int>, n: nat)
    requires a.SweepMoves? && n < |queue| && IsQueue(s.db, queue) && IsSweptTo(s, t, a.w, queue, n)
    ensures IsSweptTo(s, Apply(Apply(t, a), a), a.w, queue, n + 1)
  {
    NextIsUnclaimed(s.db, queue, n, s.now);
    assert queue[n..][1..] == queue[n + 1..];
    SweepOne(t, a);
  }

  /** The states an action leads to, two moves at a time. */
  ghost predicate ArePairs(stops: seq<State>, a: Action) {
    forall k {:trigger Apply(stops[k], a)} :: 0 <= k < |stops| - 1 ==> stops[k + 1] == Apply(Apply(stops[k], a), a)
  }

  lemma SweepNextStop(stops: seq<State>, a: Action, queue: seq<int>, n: nat)
    requires a.SweepMoves? && |stops| == |queue| + 1 && ArePairs(stops, a) && IsQueue(stops[0].db, queue)
    requires n < |queue| && IsSweptTo(stops[0], stops[n], a.w, queue, n)
    ensures IsSweptTo(stops[0], stops[n + 1], a.w, queue, n + 1)
  {
    SweepNext(stops[0], stops[n], a, queue, n);
    assert stops[n + 1] == Apply(Apply(stops[n], a), a);
  }

  lemma {:induction false} SweptSoFar(stops: seq<State>, a: Action, queue: seq<int>, n: nat)
    requires a.SweepMoves? && |stops| == |queue| + 1 && ArePairs(stops, a) && IsQueue(stops[0].db, queue)
    requires n <= |queue| && IsSweptTo(stops[0], stops[0], a.w, queue, 0)
    ensures IsSweptTo(stops[0], stops[n], a.w, queue, n)
  {
    if n > 0 {
      SweptSoFar(stops, a, queue, n - 1);
      SweepNextStop(stops, a, queue, n - 1);
    }
  }

  lemma StopsArePairs(s: State, a: Action, n: nat) returns (stops: seq<State>)
    ensures |stops| == n + 1 && stops[0] == s && stops[n] == Repeat(s, a, 2 * n) && ArePairs(stops, a)
  {
    stops := seq(n + 1, k requires 0 <= k => Repeat(s, a, 2 * k));
    forall k | 0 <= k < n ensures stops[k + 1] == Apply(Apply(stops[k], a), a) { RepeatTwice(s, a, 2 * k); }
  }

  /** Left alone, a sweep of the interleaved system does what one call of `TickAbandonedQaRuns` does. */
  lemma SweepIsTick(s: State, w: int, cutoff: int, batch: seq<int>)
    requires w in s.sweeps ==> s.sweeps[w] == Idle
    requires IsStaleBatch(s.db, cutoff, SWEEP_LIMIT, batch)
    ensures var a := SweepMoves(w, cutoff, batch);
            Repeat(Apply(s, a), a, 2 * |batch|).db == Closed(s.db, SweptRuns(s.db, cutoff), s.now)
  {
    var a := SweepMoves(w, cutoff, batch);
    var found := Apply(s, a);
    assert batch[0..] == batch && batch[..|batch|] == batch;
    var stops := StopsArePairs(found, a, |batch|);
    SweptSoFar(stops, a, batch, |batch|);
    SweepCloses(s.db, cutoff, batch, s.now);
  }

  /** A test that is given a row and finishes leaves that row completed with its status, and the status with the job. */
  lemma TestAlone(s: State, m: int, i: int, e: int, status: string)
    requires m in s.masters && MayCreate(s.masters[m], i) && e !in s.db.execs && status in {"passed", "failed", "error"}
    ensures var t := Apply(Apply(s, MasterCreates(m, i, e)), MasterFinishes(m, i, status));
            var me := s.masters[m];
            && t.db == s.db.(execs := s.db.execs[e := Exec(me.tests[i], me.projectId, None, Some(me.runId), status, Some(s.now))])
            && t.masters == s.masters[m := me.(rows := me.rows[i := e], results := me.results[i := status])]
  {
    var created := Apply(s, MasterCreates(m, i, e));
    assert MayFinish(created, m, i, status) && created.now == s.now;
  }

  lemma MasterClaims(s: State, m: int, prev: Option<int>)
    requires m in s.masters && s.masters[m].pc == Testing && AllIn(s.masters[m])
    ensures var t := Apply(Apply(s, MasterMoves(m, prev)), MasterMoves(m, prev));
            var r := s.masters[m].runId;
            && t.db == Claim(s.db, r, MasterFold(s.masters[m].results), s.now) && t.decided == s.decided
            && m in t.masters && t.masters[m] == s.masters[m].(pc := if Unclaimed(s.db, r) then Notifying else Touching)
  {
    var s1 := Apply(s, MasterMoves(m, prev));
    assert s1.db == s.db && s1.now == s.now && s1.masters[m] == s.masters[m].(pc := Settling(MasterFold(s.masters[m].results)));
  }

  lemma MasterAnswered(s: State, m: int, prev: Option<int>)
    requires m in s.masters && (s.masters[m].pc == Notifying || s.masters[m].pc == Touching) && IsPrevious(s.db, s.masters[m].runId, prev)
    ensures var t := Apply(Apply(s, MasterMoves(m, prev)), MasterMoves(m, prev));
            var r := s.masters[m].runId;
            && t.db == s.db && m in t.masters && t.masters[m].pc == Exited
            && t.decided == (if s.masters[m].pc == Notifying then s.decided[r := Decision(s.db, r, prev)] else s.decided)
  {
  }

  /** Left alone, a master whose tests all reported claims their fold and is answered, or steps back from a claimed run. */
  lemma MasterAlone(s: State, m: int, prev: Option<int>)
    requires m in s.masters && s.masters[m].pc == Testing && AllIn(s.masters[m])
    requires IsPrevious(Claim(s.db, s.masters[m].runId, MasterFold(s.masters[m].results), s.now), s.masters[m].runId, prev)
    ensures var t := Repeat(s, MasterMoves(m, prev), 4);
            var r := s.masters[m].runId;
            && t.db == Claim(s.db, r, MasterFold(s.masters[m].results), s.now)
            && t.decided == (if Unclaimed(s.db, r) then s.decided[r := Decision(t.db, r, prev)] else s.decided)
            && m in t.masters && t.masters[m].pc == Exited
  {
    var a := MasterMoves(m, prev);
    MasterClaims(s, m, prev);
    MasterAnswered(Apply(Apply(s, a), a), m, prev);
    RepeatTwice(s, a, 0);
    RepeatTwice(s, a, 2);
  }

  /** A master that aborts closes its run out like a sweep does. */
  lemma AbortAlone(s: State, m: int, prev: Option<int>)
    requires m in s.masters && (s.masters[m].pc.Testing? || s.masters[m].pc.Settling? || s.masters[m].pc.Touching?)
    ensures var t := Repeat(Apply(s, MasterAborts(m)), MasterMoves(m, prev), 2);
            && t.db == FinalizeUnfinished(s.db, s.masters[m].runId, s.now)
            && m in t.masters && t.masters[m].pc == Exited
  {
    var a := MasterMoves(m, prev);
    var s1 := Apply(s, MasterAborts(m));
    var s2 := Apply(s1, a);
    assert Repeat(s1, a, 1) == s2;
    assert s1.db == s.db && s1.now == s.now && s1.masters[m].pc == Closing;
  }

  // ------------------------------------------------------------ no master leaves its run open

  predicate PastClaim(db: Db, me: Master) {
    me.pc.Notifying? || me.pc.Touching? || me.pc.Stamping? || me.pc.Exited? ==> me.runId in db.runs && db.runs[me.runId].alertedAt.Some?
  }

  lemma KeepsPastClaim(s: State, a: Action, m: int)
    requires Safe(s) && m in Apply(s, a).masters && (m in s.masters ==> PastClaim(s.db, s.masters[m]))
    ensures PastClaim(Apply(s, a).db, Apply(s, a).masters[m])
  {
    LegalStatement(s, a);
    StatementGrows(s.db, StatementOf(s, a), s.now);
    if m in s.masters { assert LinkedMaster(s.db, s.masters[m]); }
  }

  /** A master that went through its job, however it went, leaves a finalized run; only one that died or is not done leaves it open. */
  lemma {:induction false} ExitedIsFinalized(actions: seq<Action>, m: int)
    requires m in After(actions).masters
    ensures PastClaim(After(actions).db, After(actions).masters[m])
    decreases |actions|
  {
    var before := actions[..|actions| - 1];
    AlwaysSafe(before);
    if m in After(before).masters { ExitedIsFinalized(before, m); }
    KeepsPastClaim(After(before), actions[|actions| - 1], m);
  }
}
