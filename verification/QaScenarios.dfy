/** One actor running alone, and exactly which reports keep verdicts and abandonment marks sound. */
module QaScenarios {
  import opened Options
  import opened QaStore
  import opened QaRuns
  import opened QaVerdicts

  /** Left alone, a poster's three statements do what `WriteQaAgentResult` does. */
  lemma PosterAlone(s: State, p: int, prev: Option<int>)
    requires p in s.posters && s.posters[p].pc.Updating?
    ensures var a := PosterMoves(p, prev);
            var me := s.posters[p];
            Apply(Apply(Apply(s, a), a), a).db == WriteResult(s.db, me.execId, me.region, me.status, s.now)
  {
    var a, me := PosterMoves(p, prev), s.posters[p];
    var s1 := Apply(s, a);
    var s2 := Apply(s1, a);
    assert s1.now == s.now && s2.now == s.now;
    assert s2.db == s1.db;
    if Matches(s.db, me.execId, me.region) && Fits(me.status) {
      assert s1.db == WithStatus(s.db, me.execId, Stored(me.status), s.now);
    }
  }

  /** Left alone, a sweep's step on an unclaimed run does what `FinalizeUnfinishedQaRun` does. */
  lemma SweepAlone(s: State, w: int, cutoff: int, batch: seq<int>)
    requires w in s.sweeps && s.sweeps[w].Sweeping? && s.sweeps[w].queue != [] && Unclaimed(s.db, s.sweeps[w].queue[0])
    ensures var a := SweepMoves(w, cutoff, batch);
            Apply(Apply(s, a), a).db == FinalizeUnfinished(s.db, s.sweeps[w].queue[0], s.now)
  {
  }

  // ------------------------------------------------------------ the reports of a run

  /** A report an agent may send, any number of times. */
  datatype Post = Post(execId: int, region: int, status: string)

  /** The route rejects an empty status, and the column one that does not fit. */
  predicate Writable(post: Post) {
    post.status != "" && Fits(post.status)
  }

  /** Every report of the run is one of `posts`. */
  predicate Sends(actions: seq<Action>, posts: set<Post>) {
    forall i :: 0 <= i < |actions| && actions[i].PosterArrives? ==>
      Post(actions[i].execId, actions[i].region, actions[i].status) in posts
  }

  function PostOf(me: Poster): Post {
    Post(me.execId, me.region, me.status)
  }

  lemma {:induction false} PostersSent(actions: seq<Action>, posts: set<Post>)
    requires Sends(actions, posts)
    ensures forall p :: p in After(actions).posters ==>
              PostOf(After(actions).posters[p]) in posts && After(actions).posters[p].status != ""
    decreases |actions|
  {
    if actions != [] { PostersSent(actions[..|actions| - 1], posts); }
  }

  // ------------------------------------------------------------ two reports of one row

  /** A run of one test, its row, two posters of that row, and no other actor. */
  function Scene(e: int, g: int, one: Poster, two: Poster, row: Exec, outcome: Option<Outcome>): State {
    State(
      Db(map[1 := Run(7, Some(g), 0, 1, outcome, if outcome.Some? then Some(0) else None)], map[e := row]),
      0, map[1 := one, 2 := two], map[], map[], map[1 := []],
      if outcome.Some? then [Win(1, 7, Some(g), 0, outcome.value)] else [], map[])
  }

  function RowOf(g: int, status: string, completedAt: Option<int>): Exec {
    Exec(5, 7, Some(g), Some(1), status, completedAt)
  }

  /** The row once a report of it was written. */
  function WrittenRow(g: int, status: string): Exec {
    RowOf(g, Stored(status), Some(0))
  }

  function VerdictOn(status: string): Outcome {
    if SaysDown(status) then Failed else Success
  }

  lemma Continue(actions: seq<Action>, s: State, a: Action)
    requires After(actions) == s
    ensures After(actions + [a]) == Apply(s, a)
  {
    AppliedLast(actions, a);
  }

  /** The run and its row, before any report. */
  function Created(e: int, g: int): State {
    State(Db(map[1 := Run(7, Some(g), 0, 1, None, None)], map[e := RowOf(g, RUNNING, None)]),
          0, map[], map[], map[], map[1 := []], [], map[])
  }

  lemma FirstReads(e: int, g: int, st1: string, two: Poster)
    ensures Apply(Scene(e, g, Poster(e, g, st1, Reading(1)), two, WrittenRow(g, st1), None), PosterMoves(1, None))
         == Scene(e, g, Poster(e, g, st1, Claiming(1, VerdictOn(st1))), two, WrittenRow(g, st1), None)
  {
    var s := Scene(e, g, Poster(e, g, st1, Reading(1)), two, WrittenRow(g, st1), None);
    assert CompletedOf(s.db, 1) == {e};
    assert DownOf(s.db, 1) == if SaysDown(st1) then {e} else {};
  }

  lemma SecondWrites(e: int, g: int, one: Poster, st1: string, st2: string)
    requires Fits(st2)
    ensures Apply(Scene(e, g, one, Poster(e, g, st2, Updating), WrittenRow(g, st1), None), PosterMoves(2, None))
         == Scene(e, g, one, Poster(e, g, st2, Reading(1)), WrittenRow(g, st2), None)
  {
  }

  lemma FirstClaims(e: int, g: int, st1: string, v: Outcome, two: Poster, row: Exec)
    requires row.runId == Some(1)
    ensures Apply(Scene(e, g, Poster(e, g, st1, Claiming(1, v)), two, row, None), PosterMoves(1, None))
         == Scene(e, g, Poster(e, g, st1, Alerting(1)), two, row, Some(v))
  {
  }

  function Opening(e: int, g: int, st1: string, st2: string): seq<Action> {
    [] + [RouteCreatesRun(1, 7, g, [5])] + [RouteCreatesExec(1, e)] + [PosterArrives(1, e, g, st1)] + [PosterArrives(2, e, g, st2)]
  }

  lemma Opened(e: int, g: int, st1: string, st2: string)
    requires st1 != "" && st2 != ""
    ensures After(Opening(e, g, st1, st2))
         == Scene(e, g, Poster(e, g, st1, Updating), Poster(e, g, st2, Updating), RowOf(g, RUNNING, None), None)
  {
    var s1 := Apply(EMPTY, RouteCreatesRun(1, 7, g, [5]));
    var s2 := Apply(s1, RouteCreatesExec(1, e));
    var s3 := Apply(s2, PosterArrives(1, e, g, st1));
    var c := [] + [RouteCreatesRun(1, 7, g, [5])];
    Continue([], EMPTY, RouteCreatesRun(1, 7, g, [5]));
    Continue(c, s1, RouteCreatesExec(1, e));
    Continue(c + [RouteCreatesExec(1, e)], s2, PosterArrives(1, e, g, st1));
    Continue(c + [RouteCreatesExec(1, e)] + [PosterArrives(1, e, g, st1)], s3, PosterArrives(2, e, g, st2));
  }

  /** The first poster writes and reads; the second may write; the first claims. */
  lemma FirstGetsToClaim(opening: seq<Action>, e: int, g: int, st1: string, two: Poster)
    requires Fits(st1)
    requires After(opening) == Scene(e, g, Poster(e, g, st1, Updating), two, RowOf(g, RUNNING, None), None)
    ensures After(opening + [PosterMoves(1, None)] + [PosterMoves(1, None)])
         == Scene(e, g, Poster(e, g, st1, Claiming(1, VerdictOn(st1))), two, WrittenRow(g, st1), None)
  {
    Continue(opening, After(opening), PosterMoves(1, None));
    Continue(opening + [PosterMoves(1, None)],
             Scene(e, g, Poster(e, g, st1, Reading(1)), two, WrittenRow(g, st1), None), PosterMoves(1, None));
    FirstReads(e, g, st1, two);
  }

  function SplitRun(e: int, g: int, st1: string, st2: string): seq<Action> {
    Opening(e, g, st1, st2) + [PosterMoves(1, None)] + [PosterMoves(1, None)] + [PosterMoves(2, None)] + [PosterMoves(1, None)]
  }

  /** Poster 1 reads and poster 2 overwrites before poster 1 claims: the verdict is of the first report, the row of the second. */
  lemma SplitRunEnds(e: int, g: int, st1: string, st2: string)
    requires st1 != "" && st2 != "" && Fits(st1) && Fits(st2)
    ensures After(SplitRun(e, g, st1, st2))
         == Scene(e, g, Poster(e, g, st1, Alerting(1)), Poster(e, g, st2, Reading(1)), WrittenRow(g, st2), Some(VerdictOn(st1)))
  {
    var opening, move := Opening(e, g, st1, st2), PosterMoves(1, None);
    var claiming := Poster(e, g, st1, Claiming(1, VerdictOn(st1)));
    Opened(e, g, st1, st2);
    FirstGetsToClaim(opening, e, g, st1, Poster(e, g, st2, Updating));
    Continue(opening + [move] + [move],
             Scene(e, g, claiming, Poster(e, g, st2, Updating), WrittenRow(g, st1), None), PosterMoves(2, None));
    SecondWrites(e, g, claiming, st1, st2);
    Continue(opening + [move] + [move] + [PosterMoves(2, None)],
             Scene(e, g, claiming, Poster(e, g, st2, Reading(1)), WrittenRow(g, st2), None), move);
    FirstClaims(e, g, st1, VerdictOn(st1), Poster(e, g, st2, Reading(1)), WrittenRow(g, st2));
  }

  /** Two reports of a row that differ in being down, whatever their texts, can split the verdict from the row. */
  lemma ConflictingReportsSplitTheVerdict(e: int, g: int, st1: string, st2: string)
    requires st1 != "" && st2 != "" && Fits(st1) && Fits(st2) && SaysDown(st1) != SaysDown(st2)
    ensures HasVerdict(After(SplitRun(e, g, st1, st2)), 1) && !VerdictHolds(After(SplitRun(e, g, st1, st2)), 1)
  {
    SplitRunEnds(e, g, st1, st2);
    var s := After(SplitRun(e, g, st1, st2));
    assert ExecsOf(s.db, 1) == {e};
    assert s.db.execs[e].status == Stored(st2);
  }

  // ------------------------------------------------------------ exactly which reports are sound

  /** No row is to get two reports that differ in being down. */
  ghost predicate Agreeing(posts: set<Post>) {
    forall a, b :: a in posts && b in posts && Writable(a) && Writable(b) && a.execId == b.execId && a.region == b.region
      ==> SaysDown(a.status) == SaysDown(b.status)
  }

  ghost predicate VerdictsHold(s: State) {
    forall r :: HasVerdict(s, r) ==> VerdictHolds(s, r)
  }

  lemma AgreeingIsConsistent(actions: seq<Action>, posts: set<Post>)
    requires Sends(actions, posts) && Agreeing(posts)
    ensures Consistent(After(actions).posters)
  {
    PostersSent(actions, posts);
    var posters := After(actions).posters;
    forall p, q | p in posters && q in posters && Fits(posters[p].status) && Fits(posters[q].status)
      && posters[p].execId == posters[q].execId && posters[p].region == posters[q].region
      ensures SaysDown(posters[p].status) == SaysDown(posters[q].status)
    {
      assert Writable(PostOf(posters[p])) && Writable(PostOf(posters[q]));
    }
  }

  lemma AgreeingHolds(actions: seq<Action>, posts: set<Post>)
    requires Sends(actions, posts) && Agreeing(posts)
    ensures VerdictsHold(After(actions))
  {
    AgreeingIsConsistent(actions, posts);
    forall r | HasVerdict(After(actions), r) ensures VerdictHolds(After(actions), r) { RegionVerdictIsSound(actions, r); }
  }

  lemma DisagreeingSplits(posts: set<Post>) returns (actions: seq<Action>)
    requires !Agreeing(posts)
    ensures Sends(actions, posts) && !VerdictsHold(After(actions))
  {
    var a, b :| a in posts && b in posts && Writable(a) && Writable(b)
      && a.execId == b.execId && a.region == b.region && SaysDown(a.status) != SaysDown(b.status);
    actions := SplitRun(a.execId, a.region, a.status, b.status);
    ConflictingReportsSplitTheVerdict(a.execId, a.region, a.status, b.status);
    assert a == Post(a.execId, a.region, a.status) && b == Post(a.execId, a.region, b.status);
    SplitRunSends(a.execId, a.region, a.status, b.status, posts);
  }

  lemma SplitRunSends(e: int, g: int, st1: string, st2: string, posts: set<Post>)
    requires Post(e, g, st1) in posts && Post(e, g, st2) in posts
    ensures Sends(SplitRun(e, g, st1, st2), posts)
  {
    var opening, all := Opening(e, g, st1, st2), SplitRun(e, g, st1, st2);
    assert forall i :: 0 <= i < |opening| ==> all[i] == opening[i];
  }

  /** Verdicts are sound in every interleaving exactly if no row is to get two reports that differ in being down. */
  lemma VerdictsSoundIff(posts: set<Post>)
    ensures (forall actions :: Sends(actions, posts) ==> VerdictsHold(After(actions))) <==> Agreeing(posts)
  {
    if Agreeing(posts) {
      forall actions | Sends(actions, posts) ensures VerdictsHold(After(actions)) { AgreeingHolds(actions, posts); }
    } else {
      var actions := DisagreeingSplits(posts);
      assert Sends(actions, posts);
    }
  }

  function ForgedRun(e: int, g: int): seq<Action> {
    Opening(e, g, EXEC_ABANDONED, EXEC_ABANDONED) + [PosterMoves(1, None)] + [PosterMoves(1, None)] + [PosterMoves(1, None)]
  }

  /** A report that says "abandoned" leaves a row so marked under a SUCCESS run. */
  lemma ForgedMarkUnderSuccess(e: int, g: int)
    ensures var db := After(ForgedRun(e, g)).db;
            && 1 in db.runs && db.runs[1].outcome == Some(Success)
            && e in db.execs && db.execs[e].runId == Some(1) && db.execs[e].status == EXEC_ABANDONED
  {
    var opening, move := Opening(e, g, EXEC_ABANDONED, EXEC_ABANDONED), PosterMoves(1, None);
    var two := Poster(e, g, EXEC_ABANDONED, Updating);
    Opened(e, g, EXEC_ABANDONED, EXEC_ABANDONED);
    FirstGetsToClaim(opening, e, g, EXEC_ABANDONED, two);
    Continue(opening + [move] + [move],
             Scene(e, g, Poster(e, g, EXEC_ABANDONED, Claiming(1, Success)), two, WrittenRow(g, EXEC_ABANDONED), None), move);
    FirstClaims(e, g, EXEC_ABANDONED, Success, two, WrittenRow(g, EXEC_ABANDONED));
  }

  ghost predicate NoneForged(posts: set<Post>) {
    forall a :: a in posts ==> a.status != EXEC_ABANDONED
  }

  lemma {:induction false} UnsaidMarks(actions: seq<Action>, posts: set<Post>)
    requires Sends(actions, posts) && NoneForged(posts)
    ensures MarksSound(After(actions).db)
  {
    forall i | 0 <= i < |actions| ensures !Forges(After(actions[..i]), actions[i]) {
      assert Sends(actions[..i], posts);
      PostersSent(actions[..i], posts);
    }
    UnforgedMarks(actions, |actions|);
    assert actions[..|actions|] == actions;
  }

  /** In every interleaving rows marked abandoned belong to ABANDONED runs, exactly if no agent sends that word. */
  lemma MarksSoundIff(posts: set<Post>)
    ensures (forall actions :: Sends(actions, posts) ==> MarksSound(After(actions).db)) <==> NoneForged(posts)
  {
    if NoneForged(posts) {
      forall actions | Sends(actions, posts) ensures MarksSound(After(actions).db) { UnsaidMarks(actions, posts); }
    } else {
      var a :| a in posts && a.status == EXEC_ABANDONED;
      var c := ForgedRun(a.execId, a.region);
      ForgedMarkUnderSuccess(a.execId, a.region);
      assert a == Post(a.execId, a.region, EXEC_ABANDONED);
      assert Sends(c, posts) && !MarksSound(After(c).db);
    }
  }

  /** Under a verdict a row is marked abandoned exactly if a report that was written to it said so. */
  lemma MarkUnderVerdict(actions: seq<Action>, r: int, e: int)
    requires Consistent(After(actions).posters) && HasVerdict(After(actions), r) && e in ExecsOf(After(actions).db, r)
    ensures var s := After(actions);
            s.db.execs[e].status == EXEC_ABANDONED <==> exists p :: HasPosted(s, p, e) && s.posters[p].status == EXEC_ABANDONED
  {
    RegionVerdictIsSound(actions, r);
    forall p | HasPosted(After(actions), p, e)
      ensures Stored(After(actions).posters[p].status) == EXEC_ABANDONED <==> After(actions).posters[p].status == EXEC_ABANDONED
    {
      StoredWord(After(actions).posters[p].status, EXEC_ABANDONED);
    }
  }
}
