/**
 Run alerting over whole histories. When the runs of one (project, region) are
 finalized in the order they started, what the transition detector answers is exactly
 the edges of the verdict history with abandoned runs deleted.
 */
module QaAlerts {
  import opened Options
  import opened QaStore
  import opened QaRuns
  import opened QaRunInvariants
  import opened QaVerdicts
  import opened QaMasters

  // ------------------------------------------------------------ histories

  /** The finalized runs of one (project, region), in the order they were claimed. */
  function History(log: seq<Win>, projectId: int, regionId: Option<int>): seq<Win>
    decreases |log|
  {
    if log == [] then [] else
      var before, w := History(log[..|log| - 1], projectId, regionId), log[|log| - 1];
      if w.projectId == projectId && w.regionId == regionId then before + [w] else before
  }

  ghost predicate InStartOrder(h: seq<Win>) {
    forall i, j :: 0 <= i < j < |h| ==> h[i].startedAt < h[j].startedAt
  }

  function Verdicts(h: seq<Win>): seq<Outcome>
    decreases |h|
  {
    if h == [] then [] else
      var before, o := Verdicts(h[..|h| - 1]), h[|h| - 1].outcome;
      if o == Abandoned then before else before + [o]
  }

  /** The reference definition: an event wherever two neighbouring verdicts differ. */
  function Edges(v: seq<Outcome>): seq<Event>
    decreases |v|
  {
    if |v| < 2 then [] else
      var before, last := v[|v| - 2], v[|v| - 1];
      Edges(v[..|v| - 1]) + if before == Success && last == Failed then [Outage] else if before == Failed && last == Success then [Recovery] else []
  }

  /** The event a verdict run fires against the verdicts finalized before it. */
  function EdgeAt(h: seq<Win>, k: nat): Option<Event>
    requires k < |h|
  {
    var v := Verdicts(h[..k]);
    if h[k].outcome == Abandoned || v == [] then None else Transition(v[|v| - 1], h[k].outcome)
  }

  /** What was dispatched for the runs of `h`, in history order. */
  function Sent(decided: map<int, Option<Event>>, h: seq<Win>): seq<Event>
    decreases |h|
  {
    if h == [] then [] else
      var r := h[|h| - 1].runId;
      Sent(decided, h[..|h| - 1]) + if r in decided && decided[r].Some? then [decided[r].value] else []
  }

  lemma {:induction false} HistoryMembers(log: seq<Win>, projectId: int, regionId: Option<int>)
    ensures forall w :: w in History(log, projectId, regionId) <==> w in log && w.projectId == projectId && w.regionId == regionId
    decreases |log|
  {
    if log != [] {
      HistoryMembers(log[..|log| - 1], projectId, regionId);
      assert log == log[..|log| - 1] + [log[|log| - 1]];
    }
  }

  lemma {:induction false} NoVerdicts(h: seq<Win>)
    requires forall i :: 0 <= i < |h| ==> h[i].outcome == Abandoned
    ensures Verdicts(h) == []
    decreases |h|
  {
    if h != [] { NoVerdicts(h[..|h| - 1]); }
  }

  lemma {:induction false} LastVerdict(h: seq<Win>, j: nat)
    requires j < |h| && h[j].outcome != Abandoned
    requires forall i :: j < i < |h| ==> h[i].outcome == Abandoned
    ensures Verdicts(h) != [] && Verdicts(h)[|Verdicts(h)| - 1] == h[j].outcome
    decreases |h|
  {
    if j < |h| - 1 { LastVerdict(h[..|h| - 1], j); }
  }

  function HistoryOf(s: State, r: int): seq<Win>
    requires r in s.db.runs
  {
    History(s.log, s.db.runs[r].projectId, s.db.runs[r].regionId)
  }

  lemma HistoryEntry(s: State, r: int, w: Win)
    requires Gate(s.db.runs, s.log) && r in s.db.runs && w in HistoryOf(s, r)
    ensures w.runId in s.db.runs && w == WinOf(s.db, w.runId, w.outcome)
    ensures s.db.runs[w.runId].outcome == Some(w.outcome)
    ensures SameHistory(s.db.runs[r], s.db.runs[w.runId])
  {
    HistoryMembers(s.log, s.db.runs[r].projectId, s.db.runs[r].regionId);
  }

  lemma EntryOf(s: State, r: int, q: int) returns (j: nat)
    requires Gate(s.db.runs, s.log) && r in s.db.runs && q in s.db.runs
    requires SameHistory(s.db.runs[r], s.db.runs[q]) && s.db.runs[q].outcome.Some?
    ensures j < |HistoryOf(s, r)| && HistoryOf(s, r)[j].runId == q
  {
    HistoryMembers(s.log, s.db.runs[r].projectId, s.db.runs[r].regionId);
    var n :| 0 <= n < |s.log| && s.log[n].runId == q;
    assert s.log[n] in HistoryOf(s, r);
    j :| 0 <= j < |HistoryOf(s, r)| && HistoryOf(s, r)[j] == s.log[n];
  }

  lemma EarlierVerdictIsCandidate(s: State, r: int, i: nat, k: nat)
    requires Gate(s.db.runs, s.log) && r in s.db.runs && InStartOrder(HistoryOf(s, r))
    requires i < k < |HistoryOf(s, r)| && HistoryOf(s, r)[k].runId == r && HistoryOf(s, r)[i].outcome != Abandoned
    ensures IsCandidate(s.db, r, HistoryOf(s, r)[i].runId)
  {
    HistoryEntry(s, r, HistoryOf(s, r)[i]);
    HistoryEntry(s, r, HistoryOf(s, r)[k]);
  }

  /** The detector's query answers with the edge of the history, whenever it is asked. */
  lemma DecisionIsEdge(s: State, r: int, prev: Option<int>, k: nat)
    requires Gate(s.db.runs, s.log) && r in s.db.runs && IsPrevious(s.db, r, prev)
    requires InStartOrder(HistoryOf(s, r)) && k < |HistoryOf(s, r)| && HistoryOf(s, r)[k].runId == r
    ensures Decision(s.db, r, prev) == EdgeAt(HistoryOf(s, r), k)
  {
    var h := HistoryOf(s, r);
    HistoryEntry(s, r, h[k]);
    match prev {
      case None =>
        forall i | 0 <= i < k ensures h[i].outcome == Abandoned {
          if h[i].outcome != Abandoned { EarlierVerdictIsCandidate(s, r, i, k); }
        }
        NoVerdicts(h[..k]);
      case Some(p) =>
        var j := EntryOf(s, r, p);
        HistoryEntry(s, r, h[j]);
        assert j < k;
        forall i | j < i < k ensures h[i].outcome == Abandoned {
          if h[i].outcome != Abandoned {
            EarlierVerdictIsCandidate(s, r, i, k);
            HistoryEntry(s, r, h[i]);
          }
        }
        LastVerdict(h[..k], j);
    }
  }

  // ------------------------------------------------------------ who may decide

  predicate IsVerdictRun(db: Db, r: int) {
    r in db.runs && IsVerdict(db.runs[r].outcome)
  }

  /** The finalized run an actor still has to hand to the detector. */
  function Owes(s: State, p: int): Option<int> {
    if p in s.posters && s.posters[p].pc.Alerting? then Some(s.posters[p].pc.runId) else None
  }

  function OwesMaster(s: State, m: int): Option<int> {
    if m in s.masters && s.masters[m].pc.Notifying? then Some(s.masters[m].runId) else None
  }

  /** Each verdict is handed to one actor, and answered once. */
  ghost predicate Notified(s: State) {
    && (forall p :: Owes(s, p).Some? ==> IsVerdictRun(s.db, Owes(s, p).value) && Owes(s, p).value !in s.decided)
    && (forall p, q :: Owes(s, p).Some? && Owes(s, p) == Owes(s, q) ==> p == q)
    && (forall m :: OwesMaster(s, m).Some? ==> IsVerdictRun(s.db, OwesMaster(s, m).value) && OwesMaster(s, m).value !in s.decided)
    && (forall r :: r in s.decided ==> IsVerdictRun(s.db, r))
  }

  /** After any action a poster owes what it owed, or the run it has just won, or nothing. */
  lemma OwesNext(s: State, a: Action, p: int)
    requires Owes(Apply(s, a), p).Some?
    ensures (Owes(s, p) == Owes(Apply(s, a), p) && !(a.PosterMoves? && a.p == p && DecidingRun(s, a).Some?))
         || (a.PosterMoves? && a.p == p && StatementOf(s, a).ClaimRun? && Owes(Apply(s, a), p) == Some(StatementOf(s, a).r))
  {
  }

  lemma KeepsNotifiedPosters(s: State, a: Action, p: int)
    requires Safe(s) && Notified(s) && Owes(Apply(s, a), p).Some?
    ensures IsVerdictRun(Apply(s, a).db, Owes(Apply(s, a), p).value)
    ensures Owes(Apply(s, a), p).value !in Apply(s, a).decided
  {
    LegalStatement(s, a);
    StatementGrows(s.db, StatementOf(s, a), s.now);
    OwesNext(s, a, p);
    if p in s.posters { assert LinkedPoster(s.db, s.posters[p]); }
    if a.MasterMoves? && a.m in s.masters { assert LinkedMaster(s.db, s.masters[a.m]); }
    if a.PosterMoves? { assert Owes(s, a.p) == Owes(s, p) && Owes(s, p).Some? ==> a.p == p; }
    if DecidingRun(s, a).Some? && a.PosterMoves? { assert DecidingRun(s, a) == Owes(s, a.p); }
  }

  lemma KeepsNotifiedOnce(s: State, a: Action, p: int, q: int)
    requires Safe(s) && Notified(s)
    requires Owes(Apply(s, a), p).Some? && Owes(Apply(s, a), p) == Owes(Apply(s, a), q)
    ensures p == q
  {
    OwesNext(s, a, p);
    OwesNext(s, a, q);
  }

  lemma OwesMasterNext(s: State, a: Action, m: int)
    requires OwesMaster(Apply(s, a), m).Some?
    ensures m in s.masters && OwesMaster(Apply(s, a), m) == Some(s.masters[m].runId)
    ensures (OwesMaster(s, m) == OwesMaster(Apply(s, a), m) && !(a.MasterMoves? && a.m == m))
         || (a.MasterMoves? && a.m == m && s.masters[m].pc.Settling?
             && StatementOf(s, a) == ClaimRun(s.masters[m].runId, s.masters[m].pc.verdict))
         || (a.MasterMoves? && a.m == m && DecidingRun(s, a).None? && OwesMaster(s, m) == OwesMaster(Apply(s, a), m))
  {
  }

  /** Whoever decides a run owed it. */
  lemma DeciderOwes(s: State, a: Action)
    ensures DecidingRun(s, a).Some? ==>
      (a.PosterMoves? && Owes(s, a.p) == DecidingRun(s, a)) || (a.MasterMoves? && OwesMaster(s, a.m) == DecidingRun(s, a))
  {
  }

  lemma KeepsNotifiedMasters(s: State, a: Action, m: int)
    requires Safe(s) && MastersSound(s) && Notified(s) && OwesMaster(Apply(s, a), m).Some?
    ensures IsVerdictRun(Apply(s, a).db, OwesMaster(Apply(s, a), m).value)
    ensures OwesMaster(Apply(s, a), m).value !in Apply(s, a).decided
  {
    LegalStatement(s, a);
    StatementGrows(s.db, StatementOf(s, a), s.now);
    OwesMasterNext(s, a, m);
    DeciderOwes(s, a);
    assert LinkedMaster(s.db, s.masters[m]) && MasterVerdict(s.db, s.masters[m]);
    if a.PosterMoves? && a.p in s.posters { assert LinkedPoster(s.db, s.posters[a.p]); }
  }

  lemma KeepsNotifiedRuns(s: State, a: Action, r: int)
    requires Safe(s) && Notified(s) && r in Apply(s, a).decided
    ensures IsVerdictRun(Apply(s, a).db, r)
  {
    LegalStatement(s, a);
    StatementGrows(s.db, StatementOf(s, a), s.now);
    DeciderOwes(s, a);
  }

  lemma KeepsNotified(s: State, a: Action)
    requires Safe(s) && MastersSound(s) && Notified(s)
    ensures Notified(Apply(s, a))
  {
    var s1 := Apply(s, a);
    forall p | Owes(s1, p).Some? ensures IsVerdictRun(s1.db, Owes(s1, p).value) && Owes(s1, p).value !in s1.decided {
      KeepsNotifiedPosters(s, a, p);
    }
    forall p, q | Owes(s1, p).Some? && Owes(s1, p) == Owes(s1, q) ensures p == q { KeepsNotifiedOnce(s, a, p, q); }
    forall m | OwesMaster(s1, m).Some?
      ensures IsVerdictRun(s1.db, OwesMaster(s1, m).value) && OwesMaster(s1, m).value !in s1.decided
    {
      KeepsNotifiedMasters(s, a, m);
    }
    forall r | r in s1.decided ensures IsVerdictRun(s1.db, r) { KeepsNotifiedRuns(s, a, r); }
  }

  lemma {:induction false} AlwaysNotified(actions: seq<Action>)
    ensures Notified(After(actions))
    decreases |actions|
  {
    if actions != [] {
      var before := actions[..|actions| - 1];
      AlwaysSafe(before);
      AlwaysMastersSound(before);
      AlwaysNotified(before);
      KeepsNotified(After(before), actions[|actions| - 1]);
    }
  }

  /** An abandoned run is never answered by the detector and no actor will ever hand it over. */
  lemma AbandonedNeverAlerts(actions: seq<Action>, r: int)
    requires IsAbandonedRun(After(actions).db, r)
    ensures r !in After(actions).decided
    ensures forall p :: Owes(After(actions), p) != Some(r)
    ensures forall m :: OwesMaster(After(actions), m) != Some(r)
  {
    AlwaysNotified(actions);
  }

  /** Results that arrive for an abandoned run, however many and however late, yield neither a verdict nor an alert. */
  lemma LateResultsStaySilent(actions: seq<Action>, more: seq<Action>, r: int)
    requires IsAbandonedRun(After(actions).db, r)
    ensures IsAbandonedRun(After(actions + more).db, r)
    ensures r !in After(actions + more).decided
    ensures forall p :: Owes(After(actions + more), p) != Some(r)
    ensures forall m :: OwesMaster(After(actions + more), m) != Some(r)
  {
    Finality(actions, more, r);
    AbandonedNeverAlerts(actions + more, r);
  }

  lemma DecidedStays(s: State, a: Action, r: int)
    requires Notified(s) && r in s.decided
    ensures r in Apply(s, a).decided && Apply(s, a).decided[r] == s.decided[r]
  {
    DeciderOwes(s, a);
  }

  // ------------------------------------------------------------ no verdict gets lost

  /** A verdict is in hand when the detector answered it or an actor still has to hand it over. */
  ghost predicate InHand(s: State, r: int) {
    r in s.decided || (exists p :: Owes(s, p) == Some(r)) || (exists m :: OwesMaster(s, m) == Some(r))
  }

  ghost predicate Accounted(s: State) {
    forall w :: w in s.log && w.outcome != Abandoned ==> InHand(s, w.runId)
  }

  /** The poster or the master whose claim won is the one that has to alert. */
  lemma WinnerOwes(s: State, a: Action, w: Win)
    requires w in Apply(s, a).log && w !in s.log && w.outcome != Abandoned
    ensures InHand(Apply(s, a), w.runId)
  {
    if a.PosterMoves? {
      assert Owes(Apply(s, a), a.p) == Some(w.runId);
    } else {
      assert OwesMaster(Apply(s, a), a.m) == Some(w.runId);
    }
  }

  lemma PosterKeeps(s: State, a: Action, p: int, r: int)
    requires Owes(s, p) == Some(r)
    ensures Owes(Apply(s, a), p) == Some(r) || r in Apply(s, a).decided
  {
  }

  lemma MasterKeeps(s: State, a: Action, m: int, r: int)
    requires OwesMaster(s, m) == Some(r)
    ensures OwesMaster(Apply(s, a), m) == Some(r) || r in Apply(s, a).decided
  {
  }

  lemma StaysInHand(s: State, a: Action, r: int)
    requires Notified(s) && InHand(s, r)
    ensures InHand(Apply(s, a), r)
  {
    if r in s.decided {
      DecidedStays(s, a, r);
    } else if p :| Owes(s, p) == Some(r) {
      PosterKeeps(s, a, p, r);
    } else {
      var m :| OwesMaster(s, m) == Some(r);
      MasterKeeps(s, a, m, r);
    }
  }

  /** In every reachable state each verdict ever won was answered, or is owed by a poster or a master. */
  lemma {:induction false} AlwaysAccounted(actions: seq<Action>)
    ensures Accounted(After(actions))
    decreases |actions|
  {
    if actions != [] {
      var before, a := actions[..|actions| - 1], actions[|actions| - 1];
      AlwaysNotified(before);
      AlwaysAccounted(before);
      var s := After(before);
      forall w | w in Apply(s, a).log && w.outcome != Abandoned ensures InHand(Apply(s, a), w.runId) {
        if w in s.log { StaysInHand(s, a, w.runId); } else { WinnerOwes(s, a, w); }
      }
    }
  }

  /** One more move of whoever owes a run has it answered, whichever answer the query gives. */
  lemma OwedIsAnsweredNext(s: State, r: int, id: int, prev: Option<int>)
    requires IsPrevious(s.db, r, prev)
    ensures Owes(s, id) == Some(r) ==> AnswersNow(s, PosterMoves(id, prev), r) && Owes(Apply(s, PosterMoves(id, prev)), id).None?
    ensures OwesMaster(s, id) == Some(r) ==> AnswersNow(s, MasterMoves(id, prev), r) && OwesMaster(Apply(s, MasterMoves(id, prev)), id).None?
  {
  }

  ghost predicate AnswersNow(s: State, a: Action, r: int)
    requires a.PosterMoves? || a.MasterMoves?
  {
    IsPrevious(s.db, r, a.prev) && Apply(s, a).decided == s.decided[r := Decision(s.db, r, a.prev)]
  }

  // ------------------------------------------------------------ main results

  /** Every answer on record is the edge of its history. */
  ghost predicate AnswersAreEdges(s: State, projectId: int, regionId: Option<int>) {
    var h := History(s.log, projectId, regionId);
    forall k :: 0 <= k < |h| && h[k].runId in s.decided ==> s.decided[h[k].runId] == EdgeAt(h, k)
  }

  lemma HistoryGrows(s: State, a: Action, projectId: int, regionId: Option<int>)
    ensures History(s.log, projectId, regionId) <= History(Apply(s, a).log, projectId, regionId)
  {
    var log1 := Apply(s, a).log;
    if log1 != s.log { assert log1[..|log1| - 1] == s.log; }
  }

  /** A run that enters the history with this action was unclaimed before it, so nobody had answered it. */
  lemma NewEntry(s: State, a: Action, projectId: int, regionId: Option<int>, k: nat)
    requires |History(s.log, projectId, regionId)| <= k < |History(Apply(s, a).log, projectId, regionId)|
    ensures Unclaimed(s.db, History(Apply(s, a).log, projectId, regionId)[k].runId)
  {
    var log1 := Apply(s, a).log;
    if log1 != s.log { assert log1[..|log1| - 1] == s.log; }
  }

  lemma FreshAnswer(s: State, a: Action, projectId: int, regionId: Option<int>, k: nat)
    requires Safe(s) && InStartOrder(History(s.log, projectId, regionId)) && k < |History(s.log, projectId, regionId)|
    requires DecidingRun(s, a) == Some(History(s.log, projectId, regionId)[k].runId)
    ensures NextDecided(s, a)[History(s.log, projectId, regionId)[k].runId] == EdgeAt(History(s.log, projectId, regionId), k)
  {
    var w := History(s.log, projectId, regionId)[k];
    HistoryMembers(s.log, projectId, regionId);
    assert w in s.log;
    DecisionIsEdge(s, w.runId, a.prev, k);
  }

  /** An answer on record was of a run already in the history, where its edge is the same. */
  lemma OldAnswer(s: State, a: Action, projectId: int, regionId: Option<int>, k: nat)
    requires Safe(s) && Notified(s) && AnswersAreEdges(s, projectId, regionId)
    requires k < |History(Apply(s, a).log, projectId, regionId)| && History(Apply(s, a).log, projectId, regionId)[k].runId in s.decided
    ensures var h1 := History(Apply(s, a).log, projectId, regionId);
            h1[k].runId in Apply(s, a).decided && Apply(s, a).decided[h1[k].runId] == EdgeAt(h1, k)
  {
    var h, h1 := History(s.log, projectId, regionId), History(Apply(s, a).log, projectId, regionId);
    HistoryGrows(s, a, projectId, regionId);
    if k >= |h| { NewEntry(s, a, projectId, regionId, k); }
    DecidedStays(s, a, h1[k].runId);
    assert h1[..k] == h[..k];
  }

  /** A new answer is given by this very action, for a run that is in the history. */
  lemma NewAnswer(s: State, a: Action, projectId: int, regionId: Option<int>, k: nat)
    requires Safe(s) && Notified(s) && InStartOrder(History(Apply(s, a).log, projectId, regionId))
    requires k < |History(Apply(s, a).log, projectId, regionId)|
    requires History(Apply(s, a).log, projectId, regionId)[k].runId !in s.decided
    requires History(Apply(s, a).log, projectId, regionId)[k].runId in Apply(s, a).decided
    ensures var h1 := History(Apply(s, a).log, projectId, regionId);
            Apply(s, a).decided[h1[k].runId] == EdgeAt(h1, k)
  {
    var h, h1 := History(s.log, projectId, regionId), History(Apply(s, a).log, projectId, regionId);
    HistoryGrows(s, a, projectId, regionId);
    DeciderOwes(s, a);
    if k >= |h| { NewEntry(s, a, projectId, regionId, k); }
    assert h1[..k] == h[..k];
    FreshAnswer(s, a, projectId, regionId, k);
  }

  lemma KeepsAnswers(s: State, a: Action, projectId: int, regionId: Option<int>)
    requires Safe(s) && Notified(s) && AnswersAreEdges(s, projectId, regionId)
    requires InStartOrder(History(Apply(s, a).log, projectId, regionId))
    ensures AnswersAreEdges(Apply(s, a), projectId, regionId)
  {
    var s1 := Apply(s, a);
    var h1 := History(s1.log, projectId, regionId);
    forall k | 0 <= k < |h1| && h1[k].runId in s1.decided ensures s1.decided[h1[k].runId] == EdgeAt(h1, k) {
      if h1[k].runId in s.decided { OldAnswer(s, a, projectId, regionId, k); } else { NewAnswer(s, a, projectId, regionId, k); }
    }
  }

  lemma {:induction false} AlwaysEdges(actions: seq<Action>, projectId: int, regionId: Option<int>)
    requires InStartOrder(History(After(actions).log, projectId, regionId))
    ensures AnswersAreEdges(After(actions), projectId, regionId)
    decreases |actions|
  {
    if actions != [] {
      var before, a := actions[..|actions| - 1], actions[|actions| - 1];
      HistoryGrows(After(before), a, projectId, regionId);
      AlwaysEdges(before, projectId, regionId);
      AlwaysSafe(before);
      AlwaysNotified(before);
      KeepsAnswers(After(before), a, projectId, regionId);
    }
  }

  /** One more run in the history: what it sends is the edge its verdict makes. */
  lemma SentNext(decided: map<int, Option<Event>>, init: seq<Win>, w: Win)
    requires w.runId in decided ==> decided[w.runId] == EdgeAt(init + [w], |init|)
    requires w.outcome != Abandoned ==> w.runId in decided
    requires Sent(decided, init) == Edges(Verdicts(init))
    ensures Sent(decided, init + [w]) == Edges(Verdicts(init + [w]))
  {
    var h, v := init + [w], Verdicts(init);
    assert h[..|init|] == init;
    assert (v + [w.outcome])[..|v|] == v;
  }

  lemma EdgeOfPrefix(h: seq<Win>, n: nat, k: nat)
    requires k < n <= |h|
    ensures EdgeAt(h[..n], k) == EdgeAt(h, k)
  {
    assert h[..n][..k] == h[..k];
  }

  lemma {:induction false} SentAreEdges(decided: map<int, Option<Event>>, h: seq<Win>)
    requires forall k :: 0 <= k < |h| && h[k].runId in decided ==> decided[h[k].runId] == EdgeAt(h, k)
    requires forall k :: 0 <= k < |h| && h[k].outcome != Abandoned ==> h[k].runId in decided
    ensures Sent(decided, h) == Edges(Verdicts(h))
    decreases |h|
  {
    if h != [] {
      var n := |h| - 1;
      forall k | 0 <= k < n ensures EdgeAt(h[..n], k) == EdgeAt(h, k) { EdgeOfPrefix(h, n, k); }
      SentAreEdges(decided, h[..n]);
      assert h == h[..n] + [h[n]];
      SentNext(decided, h[..n], h[n]);
    }
  }

  lemma {:induction false} EdgesAlternate(v: seq<Outcome>)
    requires Abandoned !in v
    ensures Edges(v) != [] ==> Edges(v)[|Edges(v)| - 1] == if v[|v| - 1] == Failed then Outage else Recovery
    ensures forall i :: 0 <= i < |Edges(v)| - 1 ==> Edges(v)[i] != Edges(v)[i + 1]
    ensures Edges(v) == [] ==> forall i :: 0 <= i < |v| ==> v[i] == v[0]
    decreases |v|
  {
    if |v| >= 2 { EdgesAlternate(v[..|v| - 1]); }
  }

  lemma {:induction false} VerdictsOnly(h: seq<Win>)
    ensures Abandoned !in Verdicts(h)
    decreases |h|
  {
    if h != [] { VerdictsOnly(h[..|h| - 1]); }
  }

  /** No poster and no master has still to hand a run of `h` to the detector. */
  ghost predicate NothingOwed(s: State, h: seq<Win>) {
    forall w :: w in h ==> (forall p :: Owes(s, p) != Some(w.runId)) && (forall m :: OwesMaster(s, m) != Some(w.runId))
  }

  /**
   Alerts are exactly the edges of the verdict history: once nobody has a run of a
   (project, region) finalized in start order left to alert on, what was dispatched is the
   edge sequence of its verdicts, abandoned runs deleted, and it strictly alternates.
   */
  lemma AlertsAreTheEdges(actions: seq<Action>, projectId: int, regionId: Option<int>)
    requires InStartOrder(History(After(actions).log, projectId, regionId))
    requires NothingOwed(After(actions), History(After(actions).log, projectId, regionId))
    ensures var s := After(actions);
            var h := History(s.log, projectId, regionId);
            && Sent(s.decided, h) == Edges(Verdicts(h))
            && forall i :: 0 <= i < |Sent(s.decided, h)| - 1 ==> Sent(s.decided, h)[i] != Sent(s.decided, h)[i + 1]
  {
    AlwaysEdges(actions, projectId, regionId);
    AlwaysAccounted(actions);
    var s := After(actions);
    var h := History(s.log, projectId, regionId);
    HistoryMembers(s.log, projectId, regionId);
    SentAreEdges(s.decided, h);
    VerdictsOnly(h);
    EdgesAlternate(Verdicts(h));
  }

  /** A decision stands: later actions neither change the answer on record nor would a new query answer otherwise. */
  lemma {:induction false} DecisionIsFinal(actions: seq<Action>, more: seq<Action>, r: int)
    requires r in After(actions).decided
    ensures r in After(actions + more).decided && After(actions + more).decided[r] == After(actions).decided[r]
    decreases |more|
  {
    if more == [] {
      assert actions + more == actions;
    } else {
      var most, a := more[..|more| - 1], more[|more| - 1];
      DecisionIsFinal(actions, most, r);
      AlwaysNotified(actions + most);
      assert actions + more == (actions + most) + [a];
      AppliedLast(actions + most, a);
      DecidedStays(After(actions + most), a, r);
    }
  }

  /** Asked again at any later moment, the query for an answered run gives the answer on record. */
  lemma QueryIsStable(actions: seq<Action>, r: int, prev: Option<int>)
    requires r in After(actions).decided && r in After(actions).db.runs
    requires InStartOrder(HistoryOf(After(actions), r)) && IsPrevious(After(actions).db, r, prev)
    ensures Decision(After(actions).db, r, prev) == After(actions).decided[r]
  {
    var s := After(actions);
    AlwaysSafe(actions);
    AlwaysNotified(actions);
    AlwaysEdges(actions, s.db.runs[r].projectId, s.db.runs[r].regionId);
    var k := EntryOf(s, r, r);
    DecisionIsEdge(s, r, prev, k);
  }
}
