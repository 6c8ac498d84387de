/** What every action of the run system keeps: the claim gate, finality, and that no completion is lost. */
module QaRunInvariants {
  import opened Options
  import opened Sets
  import opened QaStore
  import opened QaRuns

  // ------------------------------------------------------------ one statement

  predicate IsAbandonedRun(db: Db, r: int) {
    r in db.runs && db.runs[r].outcome == Some(Abandoned)
  }

  /** The situation in which an actor issues a statement. */
  predicate Legal(db: Db, st: Statement) {
    match st
    case Nothing => true
    case InsertRun(r, _, _, _) => r !in db.runs
    case InsertExec(e, _, _, regionId, runId) => e !in db.execs && runId in db.runs && db.runs[runId].regionId == regionId
    case Report(e, _) => e in db.execs
    case ClaimRun(r, _) => Unclaimed(db, r)
    case Stamp(r) => IsAbandonedRun(db, r)
  }

  predicate SameRunIdentity(a: Run, b: Run) {
    && a.projectId == b.projectId && a.regionId == b.regionId
    && a.startedAt == b.startedAt && a.expectedTests == b.expectedTests
  }

  /** Rows are never removed, keep their identity, and a set outcome or completion stays. */
  ghost predicate Grows(a: Db, b: Db) {
    && (forall r :: r in a.runs ==> r in b.runs && SameRunIdentity(a.runs[r], b.runs[r]))
    && (forall r :: r in a.runs && a.runs[r].alertedAt.Some? ==> b.runs[r] == a.runs[r])
    && (forall e :: e in a.execs ==>
          && e in b.execs && b.execs[e].runId == a.execs[e].runId && b.execs[e].regionId == a.execs[e].regionId
          && (a.execs[e].completedAt.Some? ==> b.execs[e].completedAt.Some?))
  }

  lemma StatementGrows(db: Db, st: Statement, now: int)
    requires Legal(db, st)
    ensures Grows(db, Execute(db, st, now))
  {
  }

  /** The run whose rows a statement can change. */
  function Touched(db: Db, st: Statement): Option<int> {
    match st
    case InsertExec(_, _, _, _, r) => Some(r)
    case Report(e, _) => if e in db.execs then db.execs[e].runId else None
    case Stamp(r) => Some(r)
    case _ => None
  }

  lemma OtherRows(db: Db, st: Statement, now: int, r: int)
    requires Legal(db, st) && Touched(db, st) != Some(r)
    ensures ExecsOf(Execute(db, st, now), r) == ExecsOf(db, r)
    ensures CompletedOf(Execute(db, st, now), r) == CompletedOf(db, r)
    ensures DownOf(Execute(db, st, now), r) == DownOf(db, r)
  {
  }

  lemma OwnRows(db: Db, st: Statement, now: int, r: int)
    requires Legal(db, st) && Touched(db, st) == Some(r)
    ensures st.InsertExec? ==> ExecsOf(Execute(db, st, now), r) == ExecsOf(db, r) + {st.e}
    ensures st.InsertExec? ==> CompletedOf(Execute(db, st, now), r) == CompletedOf(db, r)
    ensures !st.InsertExec? ==> ExecsOf(Execute(db, st, now), r) == ExecsOf(db, r)
  {
  }

  lemma CompletedWithin(db: Db, r: int)
    ensures CompletedOf(db, r) <= ExecsOf(db, r)
    ensures |CompletedOf(db, r)| <= |ExecsOf(db, r)|
    ensures |CompletedOf(db, r)| == |ExecsOf(db, r)| ==> CompletedOf(db, r) == ExecsOf(db, r)
  {
    SubsetSize(CompletedOf(db, r), ExecsOf(db, r));
  }

  // ------------------------------------------------------------ invariants

  /** The run a poster has still to read, claim or alert for. */
  function Ahead(pc: PosterPc): Option<int> {
    match pc
    case Reading(r) => Some(r)
    case Claiming(r, _) => Some(r)
    case Alerting(r) => Some(r)
    case _ => None
  }

  /** Rows name runs that exist and carry the same region; only region runs come from the agent route. */
  ghost predicate LinkedRows(db: Db, creating: map<int, seq<int>>) {
    && (forall e :: e in db.execs && db.execs[e].runId.Some? ==>
          && db.execs[e].runId.value in db.runs
          && db.runs[db.execs[e].runId.value].regionId == db.execs[e].regionId)
    && (forall r :: r in creating <==> r in db.runs && db.runs[r].regionId.Some?)
  }

  /** A poster past its update is working on the run of the row it updated. */
  ghost predicate LinkedPoster(db: Db, me: Poster) {
    && (Ahead(me.pc).Some? ==>
          && me.execId in db.execs
          && db.execs[me.execId].runId == Ahead(me.pc)
          && db.execs[me.execId].regionId == Some(me.region))
    && (me.pc.Claiming? ==> me.pc.verdict != Abandoned)
  }

  /** A master job owns a run without a region, and its rows belong to that run. */
  ghost predicate LinkedMaster(db: Db, me: Master) {
    && me.runId in db.runs
    && db.runs[me.runId].regionId == None
    && (forall i :: i in me.rows ==> me.rows[i] in db.execs && db.execs[me.rows[i]].runId == Some(me.runId))
  }

  ghost predicate Linked(s: State) {
    && LinkedRows(s.db, s.creating)
    && (forall p :: p in s.posters ==> LinkedPoster(s.db, s.posters[p]))
    && (forall m :: m in s.masters ==> LinkedMaster(s.db, s.masters[m]))
  }

  /** The history of claims is exactly what the run rows say. */
  ghost predicate Gate(runs: map<int, Run>, log: seq<Win>) {
    && (forall r :: r in runs ==> (runs[r].outcome.Some? <==> runs[r].alertedAt.Some?))
    && (forall i :: 0 <= i < |log| ==>
          && log[i].runId in runs
          && runs[log[i].runId].outcome.Some?
          && log[i] == WinOf(Db(runs, map[]), log[i].runId, runs[log[i].runId].outcome.value))
    && (forall i, j :: 0 <= i < j < |log| ==> log[i].runId != log[j].runId)
    && (forall r :: r in runs && runs[r].outcome.Some? ==> exists i :: 0 <= i < |log| && log[i].runId == r)
  }

  /** Rows are about to be stamped only under an abandoned run. */
  ghost predicate Stamped(s: State) {
    && (forall w :: w in s.sweeps && s.sweeps[w].Marking? ==> IsAbandonedRun(s.db, s.sweeps[w].runId))
    && (forall m :: m in s.masters && s.masters[m].pc.Stamping? ==> IsAbandonedRun(s.db, s.masters[m].runId))
  }

  /** The rows of a run and those still to come add up to what it expects. */
  ghost predicate CountedRun(db: Db, creating: map<int, seq<int>>, r: int)
    requires r in creating && r in db.runs
  {
    db.runs[r].expectedTests >= 1 && |ExecsOf(db, r)| + |creating[r]| == db.runs[r].expectedTests
  }

  /** A region run never owns more rows than it expects. */
  ghost predicate Counted(db: Db, creating: map<int, seq<int>>) {
    forall r :: r in creating && r in db.runs ==> CountedRun(db, creating, r)
  }

  predicate Complete(db: Db, r: int) {
    r in db.runs && |CompletedOf(db, r)| >= db.runs[r].expectedTests
  }

  predicate WillFinalize(posters: map<int, Poster>, p: int, r: int) {
    p in posters && (posters[p].pc == Reading(r) || (posters[p].pc.Claiming? && posters[p].pc.runId == r))
  }

  /** A complete region run nobody claimed yet still has a poster on its way to claim it. */
  ghost predicate NotLost(s: State) {
    forall r :: r in s.creating && Unclaimed(s.db, r) && Complete(s.db, r) ==>
      exists p :: WillFinalize(s.posters, p, r)
  }

  ghost predicate Safe(s: State) {
    Linked(s) && Gate(s.db.runs, s.log) && Stamped(s) && Counted(s.db, s.creating) && NotLost(s)
  }

  // ------------------------------------------------------------ preservation

  lemma LegalStatement(s: State, a: Action)
    requires Linked(s) && Stamped(s)
    ensures Legal(s.db, StatementOf(s, a))
  {
    match a {
      case PosterMoves(p, _) => if p in s.posters { assert LinkedPoster(s.db, s.posters[p]); }
      case MasterCreates(m, i, _) => if m in s.masters { assert LinkedMaster(s.db, s.masters[m]); }
      case _ =>
    }
  }

  lemma KeepsLinkedRows(s: State, a: Action)
    requires Linked(s) && Legal(s.db, StatementOf(s, a))
    ensures LinkedRows(Apply(s, a).db, Apply(s, a).creating)
  {
    StatementGrows(s.db, StatementOf(s, a), s.now);
  }

  lemma KeepsLinkedPosters(s: State, a: Action, p: int)
    requires Linked(s) && Legal(s.db, StatementOf(s, a))
    requires p in Apply(s, a).posters
    ensures LinkedPoster(Apply(s, a).db, Apply(s, a).posters[p])
  {
    StatementGrows(s.db, StatementOf(s, a), s.now);
    if p in s.posters { assert LinkedPoster(s.db, s.posters[p]); }
  }

  lemma KeepsMasterRunOpen(s: State, a: Action, m: int)
    requires Linked(s) && Legal(s.db, StatementOf(s, a))
    requires m in Apply(s, a).masters
    ensures var r := Apply(s, a).masters[m].runId;
            r in Apply(s, a).db.runs && Apply(s, a).db.runs[r].regionId == None
  {
    StatementGrows(s.db, StatementOf(s, a), s.now);
    if m in s.masters { assert LinkedMaster(s.db, s.masters[m]); }
  }

  lemma KeepsLinkedMasters(s: State, a: Action, m: int)
    requires Linked(s) && Legal(s.db, StatementOf(s, a))
    requires m in Apply(s, a).masters
    ensures LinkedMaster(Apply(s, a).db, Apply(s, a).masters[m])
  {
    var s1 := Apply(s, a);
    KeepsMasterRunOpen(s, a, m);
    forall i | i in s1.masters[m].rows
      ensures s1.masters[m].rows[i] in s1.db.execs && s1.db.execs[s1.masters[m].rows[i]].runId == Some(s1.masters[m].runId)
    {
    }
  }

  lemma KeepsGate(db: Db, log: seq<Win>, st: Statement, now: int)
    requires Gate(db.runs, log) && Legal(db, st)
    ensures Gate(Execute(db, st, now).runs, Logged(db, log, st))
  {
    if st.ClaimRun? {
      var runs1, log1 := Execute(db, st, now).runs, Logged(db, log, st);
      assert log1[|log|].runId == st.r;
      forall q | q in runs1 && runs1[q].outcome.Some?
        ensures exists i :: 0 <= i < |log1| && log1[i].runId == q
      {
        if q != st.r {
          var i :| 0 <= i < |log| && log[i].runId == q;
          assert log1[i].runId == q;
        }
      }
    }
  }

  lemma KeepsMarking(s: State, a: Action, w: int)
    requires Linked(s) && Gate(s.db.runs, s.log) && Stamped(s)
    requires w in Apply(s, a).sweeps && Apply(s, a).sweeps[w].Marking?
    ensures IsAbandonedRun(Apply(s, a).db, Apply(s, a).sweeps[w].runId)
  {
    LegalStatement(s, a);
    StatementGrows(s.db, StatementOf(s, a), s.now);
  }

  lemma KeepsStamping(s: State, a: Action, m: int)
    requires Linked(s) && Gate(s.db.runs, s.log) && Stamped(s)
    requires m in Apply(s, a).masters && Apply(s, a).masters[m].pc.Stamping?
    ensures IsAbandonedRun(Apply(s, a).db, Apply(s, a).masters[m].runId)
  {
    LegalStatement(s, a);
    StatementGrows(s.db, StatementOf(s, a), s.now);
  }

  lemma KeepsStamped(s: State, a: Action)
    requires Linked(s) && Gate(s.db.runs, s.log) && Stamped(s)
    ensures Stamped(Apply(s, a))
  {
    var t := Apply(s, a);
    forall w | w in t.sweeps && t.sweeps[w].Marking? ensures IsAbandonedRun(t.db, t.sweeps[w].runId) { KeepsMarking(s, a, w); }
    forall m | m in t.masters && t.masters[m].pc.Stamping? ensures IsAbandonedRun(t.db, t.masters[m].runId) { KeepsStamping(s, a, m); }
  }

  lemma FreshRunIsEmpty(s: State, a: Action, r: int)
    requires LinkedRows(s.db, s.creating)
    requires r !in s.creating && r in Apply(s, a).creating
    ensures ExecsOf(Apply(s, a).db, r) == {}
  {
    assert StatementOf(s, a).InsertRun? && StatementOf(s, a).r == r;
    assert r !in s.db.runs;
    var db1 := Apply(s, a).db;
    assert db1.execs == s.db.execs;
    forall e | e in db1.execs ensures db1.execs[e].runId != Some(r) {
      assert s.db.execs[e].runId.Some? ==> s.db.execs[e].runId.value in s.db.runs;
    }
  }

  lemma TouchedCounted(s: State, a: Action, r: int)
    requires LinkedRows(s.db, s.creating) && Legal(s.db, StatementOf(s, a))
    requires r in s.creating && r in s.db.runs && CountedRun(s.db, s.creating, r)
    requires Touched(s.db, StatementOf(s, a)) == Some(r)
    ensures r in Apply(s, a).creating && r in Apply(s, a).db.runs && CountedRun(Apply(s, a).db, Apply(s, a).creating, r)
  {
    var st := StatementOf(s, a);
    OwnRows(s.db, st, s.now, r);
    assert st.InsertExec? ==> st.e !in ExecsOf(s.db, r);
  }

  lemma UntouchedCounted(s: State, a: Action, r: int)
    requires LinkedRows(s.db, s.creating) && Legal(s.db, StatementOf(s, a))
    requires r in s.creating && r in s.db.runs && CountedRun(s.db, s.creating, r)
    requires Touched(s.db, StatementOf(s, a)) != Some(r)
    ensures r in Apply(s, a).creating && r in Apply(s, a).db.runs && CountedRun(Apply(s, a).db, Apply(s, a).creating, r)
  {
    OtherRows(s.db, StatementOf(s, a), s.now, r);
  }

  lemma FreshCounted(s: State, a: Action, r: int)
    requires LinkedRows(s.db, s.creating) && r !in s.creating && r in Apply(s, a).creating && r in Apply(s, a).db.runs
    ensures CountedRun(Apply(s, a).db, Apply(s, a).creating, r)
  {
    FreshRunIsEmpty(s, a, r);
  }

  lemma KeepsCounted(s: State, a: Action)
    requires LinkedRows(s.db, s.creating) && Counted(s.db, s.creating) && Legal(s.db, StatementOf(s, a))
    ensures Counted(Apply(s, a).db, Apply(s, a).creating)
  {
    var s1 := Apply(s, a);
    forall r | r in s1.creating && r in s1.db.runs ensures CountedRun(s1.db, s1.creating, r) {
      if r !in s.creating {
        FreshCounted(s, a, r);
      } else if Touched(s.db, StatementOf(s, a)) == Some(r) {
        TouchedCounted(s, a, r);
      } else {
        UntouchedCounted(s, a, r);
      }
    }
  }

  /** A poster that was to finalize the run still is, unless the run has been claimed. */
  lemma StillFinalizes(s: State, a: Action, p: int, r: int)
    requires Safe(s) && WillFinalize(s.posters, p, r)
    requires Unclaimed(Apply(s, a).db, r) && Complete(Apply(s, a).db, r)
    requires Complete(s.db, r)
    ensures WillFinalize(Apply(s, a).posters, p, r)
  {
  }

  /** The report that completes a run leaves its poster on the way to finalize it. */
  lemma ReporterFinalizes(s: State, a: Action, r: int)
    requires Safe(s) && Legal(s.db, StatementOf(s, a)) && r in s.creating
    requires StatementOf(s, a).Report? && Touched(s.db, StatementOf(s, a)) == Some(r)
    ensures exists p :: WillFinalize(Apply(s, a).posters, p, r)
  {
    assert a.MasterFinishes? && a.m in s.masters ==> LinkedMaster(s.db, s.masters[a.m]);
    if a.PosterMoves? { assert WillFinalize(Apply(s, a).posters, a.p, r); }
  }

  /** Any other statement completes nothing. */
  lemma WasComplete(s: State, a: Action, r: int)
    requires Safe(s) && Legal(s.db, StatementOf(s, a)) && r in s.creating
    requires !(StatementOf(s, a).Report? && Touched(s.db, StatementOf(s, a)) == Some(r))
    requires Unclaimed(Apply(s, a).db, r) && Complete(Apply(s, a).db, r)
    ensures Unclaimed(s.db, r) && Complete(s.db, r)
  {
    var st := StatementOf(s, a);
    StatementGrows(s.db, st, s.now);
    if Touched(s.db, st) == Some(r) { OwnRows(s.db, st, s.now, r); } else { OtherRows(s.db, st, s.now, r); }
  }

  lemma KeepsNotLost(s: State, a: Action, r: int)
    requires Safe(s) && Legal(s.db, StatementOf(s, a))
    requires r in s.creating && Unclaimed(Apply(s, a).db, r) && Complete(Apply(s, a).db, r)
    ensures exists p :: WillFinalize(Apply(s, a).posters, p, r)
  {
    if StatementOf(s, a).Report? && Touched(s.db, StatementOf(s, a)) == Some(r) {
      ReporterFinalizes(s, a, r);
    } else {
      WasComplete(s, a, r);
      var p :| WillFinalize(s.posters, p, r);
      StillFinalizes(s, a, p, r);
    }
  }

  lemma KeepsSafe(s: State, a: Action)
    requires Safe(s)
    ensures Safe(Apply(s, a))
  {
    var s1 := Apply(s, a);
    LegalStatement(s, a);
    KeepsLinkedRows(s, a);
    forall p | p in s1.posters ensures LinkedPoster(s1.db, s1.posters[p]) { KeepsLinkedPosters(s, a, p); }
    forall m | m in s1.masters ensures LinkedMaster(s1.db, s1.masters[m]) { KeepsLinkedMasters(s, a, m); }
    KeepsGate(s.db, s.log, StatementOf(s, a), s.now);
    KeepsStamped(s, a);
    KeepsCounted(s, a);
    forall r | r in s1.creating && Unclaimed(s1.db, r) && Complete(s1.db, r)
      ensures exists p :: WillFinalize(s1.posters, p, r)
    {
      if r in s.creating {
        KeepsNotLost(s, a, r);
      } else {
        FreshRunIsEmpty(s, a, r);
        CompletedWithin(s1.db, r);
      }
    }
  }
}
