/**
 Browser-check runs as an interleaved system. Any number of result posters, master
 jobs, agent requests and sweeping schedulers move one database statement at a time;
 an actor that dies simply never moves again. A run of the system is a sequence of
 actions; an action that is not enabled changes nothing.
 */
module QaRuns {
  import opened Options
  import opened QaStore

  /** One POST of a region agent, between its statements. */
  datatype PosterPc = Updating | Reading(runId: int) | Claiming(runId: int, verdict: Outcome) | Alerting(runId: int) | Posted
  datatype Poster = Poster(execId: int, region: int, status: string, pc: PosterPc)

  /** One scheduler's abandonment sweep. */
  datatype SweepPc = Idle | Sweeping(queue: seq<int>) | Marking(runId: int, queue: seq<int>)

  /** One master job. Its tests run concurrently, so they keep moving whatever the job's own counter says. */
  datatype MasterPc = Testing | Settling(verdict: Outcome) | Notifying | Touching | Closing | Stamping | Exited
  datatype Master = Master(
    runId: int,
    projectId: int,
    tests: seq<int>,
    rows: map<int, int>,       // test index -> execution row
    results: map<int, string>, // test index -> status reported by the test
    pc: MasterPc
  )

  const TEST_STATUSES := {"passed", "failed", "error"}

  /** A claim that returned true, with the run it finalized. */
  datatype Win = Win(runId: int, projectId: int, regionId: Option<int>, startedAt: int, outcome: Outcome)

  datatype State = State(
    db: Db,
    now: int,
    posters: map<int, Poster>,
    sweeps: map<int, SweepPc>,
    masters: map<int, Master>,
    creating: map<int, seq<int>>,      // run -> tests whose rows the agent route has still to insert
    log: seq<Win>,                     // history: every claim that returned true
    decided: map<int, Option<Event>>   // history: what the transition detector answered per run
  )

  datatype Action =
    | Tick(d: nat)
    | RouteCreatesRun(r: int, projectId: int, region: int, testIds: seq<int>)
    | RouteCreatesExec(r: int, e: int)
    | PosterArrives(p: int, execId: int, region: int, status: string)
    | PosterMoves(p: int, prev: Option<int>)
    | SweepMoves(w: int, cutoff: int, batch: seq<int>)
    | MasterStarts(m: int, r: int, projectId: int, testIds: seq<int>)
    | MasterCreates(m: int, i: int, e: int)
    | MasterCreateFails(m: int, i: int)
    | MasterFinishes(m: int, i: int, status: string)
    | MasterMoves(m: int, prev: Option<int>)
    | MasterAborts(m: int)

  const EMPTY := State(Db(map[], map[]), 0, map[], map[], map[], map[], [], map[])

  // ------------------------------------------------- the statement an action issues

  datatype Statement =
    | Nothing
    | InsertRun(r: int, projectId: int, regionId: Option<int>, expected: nat)
    | InsertExec(e: int, testId: int, projectId: int, regionId: Option<int>, runId: int)
    | Report(e: int, status: string)
    | ClaimRun(r: int, o: Outcome)
    | Stamp(r: int)

  function Execute(db: Db, st: Statement, now: int): Db {
    match st
    case Nothing => db
    case InsertRun(r, projectId, regionId, expected) =>
      db.(runs := db.runs[r := Run(projectId, regionId, now, expected, None, None)])
    case InsertExec(e, testId, projectId, regionId, runId) =>
      db.(execs := db.execs[e := Exec(testId, projectId, regionId, Some(runId), RUNNING, None)])
    case Report(e, status) => if e in db.execs then WithStatus(db, e, status, now) else db
    case ClaimRun(r, o) => Claim(db, r, o, now)
    case Stamp(r) => MarkAbandoned(db, r, now)
  }

  function PosterStatement(s: State, me: Poster): Statement {
    match me.pc
    case Updating => if Matches(s.db, me.execId, me.region) && Fits(me.status) then Report(me.execId, Stored(me.status)) else Nothing
    case Claiming(r, v) => if Unclaimed(s.db, r) then ClaimRun(r, v) else Nothing
    case _ => Nothing
  }

  function SweepStatement(s: State, pc: SweepPc): Statement {
    match pc
    case Sweeping(queue) => if queue != [] && Unclaimed(s.db, queue[0]) then ClaimRun(queue[0], Abandoned) else Nothing
    case Marking(r, _) => Stamp(r)
    case Idle => Nothing
  }

  function MasterStatement(s: State, me: Master): Statement {
    match me.pc
    case Settling(v) => if Unclaimed(s.db, me.runId) then ClaimRun(me.runId, v) else Nothing
    case Closing => if Unclaimed(s.db, me.runId) then ClaimRun(me.runId, Abandoned) else Nothing
    case Stamping => Stamp(me.runId)
    case _ => Nothing
  }

  /** The test at index `i` of the job has neither a row nor a result yet. */
  predicate MayCreate(me: Master, i: int) {
    0 <= i < |me.tests| && i !in me.rows && i !in me.results
  }

  function StatementOf(s: State, a: Action): Statement {
    match a
    case RouteCreatesRun(r, projectId, region, testIds) =>
      if r in s.db.runs || testIds == [] then Nothing else InsertRun(r, projectId, Some(region), |testIds|)
    case RouteCreatesExec(r, e) =>
      if r !in s.creating || s.creating[r] == [] || r !in s.db.runs || e in s.db.execs then Nothing
      else InsertExec(e, s.creating[r][0], s.db.runs[r].projectId, s.db.runs[r].regionId, r)
    case PosterMoves(p, _) => if p in s.posters then PosterStatement(s, s.posters[p]) else Nothing
    case SweepMoves(w, _, _) => if w in s.sweeps then SweepStatement(s, s.sweeps[w]) else Nothing
    case MasterStarts(m, r, projectId, testIds) =>
      if m in s.masters || r in s.db.runs then Nothing else InsertRun(r, projectId, None, |testIds|)
    case MasterCreates(m, i, e) =>
      if m !in s.masters || e in s.db.execs || !MayCreate(s.masters[m], i) then Nothing
      else InsertExec(e, s.masters[m].tests[i], s.masters[m].projectId, None, s.masters[m].runId)
    case MasterFinishes(m, i, status) =>
      if MayFinish(s, m, i, status) then Report(s.masters[m].rows[i], status) else Nothing
    case MasterMoves(m, _) => if m in s.masters then MasterStatement(s, s.masters[m]) else Nothing
    case _ => Nothing
  }

  predicate MayFinish(s: State, m: int, i: int, status: string) {
    && m in s.masters && status in TEST_STATUSES
    && i in s.masters[m].rows && i !in s.masters[m].results && s.masters[m].rows[i] in s.db.execs
  }

  function WinOf(db: Db, r: int, o: Outcome): Win
    requires r in db.runs
  {
    Win(r, db.runs[r].projectId, db.runs[r].regionId, db.runs[r].startedAt, o)
  }

  function Logged(db: Db, log: seq<Win>, st: Statement): seq<Win> {
    if st.ClaimRun? && Unclaimed(db, st.r) then log + [WinOf(db, st.r, st.o)] else log
  }

  // ------------------------------------------------- where the actor goes next

  /** The run whose transition the action decides, if it decides one. */
  ghost function DecidingRun(s: State, a: Action): Option<int> {
    match a
    case PosterMoves(p, prev) =>
      if p in s.posters && s.posters[p].pc.Alerting? && IsPrevious(s.db, s.posters[p].pc.runId, prev)
      then Some(s.posters[p].pc.runId) else None
    case MasterMoves(m, prev) =>
      if m in s.masters && s.masters[m].pc.Notifying? && IsPrevious(s.db, s.masters[m].runId, prev)
      then Some(s.masters[m].runId) else None
    case _ => None
  }

  ghost function NextPoster(s: State, me: Poster, prev: Option<int>): PosterPc {
    match me.pc
    case Updating =>
      if !Matches(s.db, me.execId, me.region) || !Fits(me.status) || s.db.execs[me.execId].runId.None? then Posted
      else Reading(s.db.execs[me.execId].runId.value)
    case Reading(r) =>
      (match ProgressOf(s.db, r)
       case None => Posted
       case Some(p) => if p.completed >= p.expectedTests then Claiming(r, VerdictOf(p)) else Posted)
    case Claiming(r, v) => if Unclaimed(s.db, r) then Alerting(r) else Posted
    case Alerting(r) => if IsPrevious(s.db, r, prev) then Posted else me.pc
    case Posted => Posted
  }

  ghost function NextSweep(s: State, pc: SweepPc, cutoff: int, batch: seq<int>): SweepPc {
    match pc
    case Idle => if IsStaleBatch(s.db, cutoff, SWEEP_LIMIT, batch) then Sweeping(batch) else Idle
    case Sweeping(queue) =>
      if queue == [] then Idle
      else if Unclaimed(s.db, queue[0]) then Marking(queue[0], queue[1..])
      else Sweeping(queue[1..])
    case Marking(_, queue) => Sweeping(queue)
  }

  predicate AllIn(me: Master) {
    forall i :: 0 <= i < |me.tests| ==> i in me.results
  }

  function CountOf(results: map<int, string>, status: string): nat {
    |set i | i in results && results[i] == status|
  }

  /** The aggregate of the master job: any failed or errored test fails the run. */
  function MasterFold(results: map<int, string>): Outcome {
    if CountOf(results, "error") > 0 || CountOf(results, "failed") > 0 then Failed else Success
  }

  ghost function NextMaster(s: State, me: Master, prev: Option<int>): MasterPc {
    match me.pc
    case Testing => if AllIn(me) then Settling(MasterFold(me.results)) else Testing
    case Settling(_) => if Unclaimed(s.db, me.runId) then Notifying else Touching
    case Notifying => if IsPrevious(s.db, me.runId, prev) then Touching else Notifying
    case Touching => Exited
    case Closing => if Unclaimed(s.db, me.runId) then Stamping else Exited
    case Stamping => Exited
    case Exited => Exited
  }

  ghost function NextPosters(s: State, a: Action): map<int, Poster> {
    match a
    case PosterArrives(p, execId, region, status) =>
      if p in s.posters || status == "" then s.posters
      else s.posters[p := Poster(execId, region, status, Updating)]
    case PosterMoves(p, prev) =>
      if p in s.posters then s.posters[p := s.posters[p].(pc := NextPoster(s, s.posters[p], prev))] else s.posters
    case _ => s.posters
  }

  ghost function NextSweeps(s: State, a: Action): map<int, SweepPc> {
    match a
    case SweepMoves(w, cutoff, batch) =>
      s.sweeps[w := NextSweep(s, if w in s.sweeps then s.sweeps[w] else Idle, cutoff, batch)]
    case _ => s.sweeps
  }

  ghost function NextMasters(s: State, a: Action): map<int, Master> {
    match a
    case MasterStarts(m, r, projectId, testIds) =>
      if m in s.masters || r in s.db.runs then s.masters
      else s.masters[m := Master(r, projectId, testIds, map[], map[], Testing)]
    case MasterCreates(m, i, e) =>
      if m !in s.masters || e in s.db.execs || !MayCreate(s.masters[m], i) then s.masters
      else s.masters[m := s.masters[m].(rows := s.masters[m].rows[i := e])]
    case MasterCreateFails(m, i) =>
      if m !in s.masters || !MayCreate(s.masters[m], i) then s.masters
      else s.masters[m := s.masters[m].(results := s.masters[m].results[i := "error"])]
    case MasterFinishes(m, i, status) =>
      if MayFinish(s, m, i, status)
      then s.masters[m := s.masters[m].(results := s.masters[m].results[i := status])] else s.masters
    case MasterMoves(m, prev) =>
      if m in s.masters then s.masters[m := s.masters[m].(pc := NextMaster(s, s.masters[m], prev))] else s.masters
    case MasterAborts(m) =>
      if m in s.masters && (s.masters[m].pc.Testing? || s.masters[m].pc.Settling? || s.masters[m].pc.Touching?)
      then s.masters[m := s.masters[m].(pc := Closing)] else s.masters
    case _ => s.masters
  }

  function NextCreating(s: State, a: Action): map<int, seq<int>> {
    match (a, StatementOf(s, a))
    case (RouteCreatesRun(r, _, _, testIds), InsertRun(_, _, _, _)) => s.creating[r := testIds]
    case (RouteCreatesExec(r, _), InsertExec(_, _, _, _, _)) => if r in s.creating && s.creating[r] != [] then s.creating[r := s.creating[r][1..]] else s.creating
    case _ => s.creating
  }

  ghost function NextDecided(s: State, a: Action): map<int, Option<Event>> {
    match DecidingRun(s, a)
    case None => s.decided
    case Some(r) => s.decided[r := Decision(s.db, r, a.prev)]
  }

  ghost function Apply(s: State, a: Action): State {
    var st := StatementOf(s, a);
    State(
      Execute(s.db, st, s.now),
      if a.Tick? then s.now + a.d else s.now,
      NextPosters(s, a), NextSweeps(s, a), NextMasters(s, a), NextCreating(s, a),
      Logged(s.db, s.log, st),
      NextDecided(s, a))
  }

  /** The state after a sequence of actions from an empty instance. */
  ghost function After(actions: seq<Action>): State
    decreases |actions|
  {
    if actions == [] then EMPTY else Apply(After(actions[..|actions| - 1]), actions[|actions| - 1])
  }
}
