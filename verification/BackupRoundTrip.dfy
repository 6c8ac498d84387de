/**
 What a dump holds, and exactly when restoring one rebuilds the database it was taken from.
 */
module BackupRoundTrip {
  import opened Options
  import opened BackupTables
  import opened BackupRestore

  /** A window's cutoff is read from the clock anew for each table. */
  datatype Scope = ConfigOnly | Window(cutoff: Table -> int) | Everything

  function TimeColumn(t: Table): string {
    if t in {QaRuns, QaTestExecutions} then "startedAt" else "startTime"
  }

  /** Whether a dump of this scope holds the row. */
  predicate Included(scope: Scope, t: Table, row: Row) {
    && t != Sessions
    && (!IsTimed(t) ||
        match scope
        case ConfigOnly => false
        case Everything => true
        case Window(cutoff) => Column(row, TimeColumn(t)).Date? && Column(row, TimeColumn(t)).ms >= cutoff(t))
  }

  function Kept(d: Db, scope: Scope): Db {
    map id | id in d && Included(scope, id.table, d[id]) :: d[id]
  }

  // ------------------------------------------------------------ what that selects

  const HISTORY := {UrlMonitorExecutions, ApiExecutions, TcpExecutions, UdpExecutions, DbExecutions, TlsExecutions,
                    QaRuns, QaTestExecutions}

  /** The whole database but for login sessions. */
  function Snapshot(d: Db): Db {
    map id | id in d && id.table != Sessions :: d[id]
  }

  /** What users configured: no execution of any kind. */
  function Configuration(d: Db): Db {
    map id | id in d && id.table != Sessions && id.table !in HISTORY :: d[id]
  }

  /** The configuration, and the history that started at or after its table's cutoff. */
  function Recent(d: Db, cutoff: Table -> int): Db {
    map id | id in d && id.table != Sessions && (id.table in HISTORY ==> StartedSince(id.table, d[id], cutoff(id.table))) :: d[id]
  }

  predicate StartedSince(t: Table, row: Row, cutoff: int) {
    var started := Column(row, if t == QaRuns || t == QaTestExecutions then "startedAt" else "startTime");
    started.Date? && cutoff <= started.ms
  }

  function Selected(d: Db, scope: Scope): Db {
    match scope
    case Everything => Snapshot(d)
    case ConfigOnly => Configuration(d)
    case Window(cutoff) => Recent(d, cutoff)
  }

  lemma IncludedIs(scope: Scope, t: Table, row: Row)
    ensures Included(scope, t, row) <==>
      t != Sessions && (t in HISTORY ==> scope.Everything? || (scope.Window? && StartedSince(t, row, scope.cutoff(t))))
  {
  }

  /** Row by row, the dump's query keeps what the scope selects. */
  lemma KeptIsSelected(d: Db, scope: Scope)
    ensures Kept(d, scope) == Selected(d, scope)
  {
    forall id | id in d ensures id in Kept(d, scope) <==> id in Selected(d, scope) { IncludedIs(scope, id.table, d[id]); }
    assert Kept(d, scope).Keys == Selected(d, scope).Keys;
  }

  /** A database the schema admits, with ids from the sequences. */
  predicate WellFormed(d: Db) {
    forall id :: id in d ==> WellFormedRow(d, id.table, id.key, d[id])
  }

  predicate WellFormedRow(d: Db, t: Table, key: Key, row: Row) {
    && KeyOf(t, row) == Some(key)
    && (key.Serial? ==> key.n > 0)
    && IsTyped(t, row)
    && ParentsPresent(d, t, row)
  }

  // ------------------------------------------------------------ the dump

  ghost predicate NoRepeats(ids: seq<Id>) {
    forall i, j :: 0 <= i < j < |ids| ==> ids[i] != ids[j]
  }

  ghost predicate InTableOrder(ids: seq<Id>) {
    forall i, j :: 0 <= i < j < |ids| ==> Rank(ids[i].table) <= Rank(ids[j].table)
  }

  /** Each row of the scope once, tables in `TABLES` order. */
  ghost predicate Lists(ids: seq<Id>, d: Db, scope: Scope) {
    && NoRepeats(ids)
    && InTableOrder(ids)
    && (forall i :: 0 <= i < |ids| ==> ids[i] in Kept(d, scope))
    && (forall id :: id in Kept(d, scope) ==> id in ids)
  }

  function LineOf(id: Id, row: Row): Line {
    RowLine(Known(id.table), SerializeRow(row))
  }

  function DumpLines(ids: seq<Id>, d: Db, head: string): seq<Line>
    requires forall i :: 0 <= i < |ids| ==> ids[i] in d
  {
    [ManifestLine(BACKUP_FORMAT, head)] + seq(|ids|, i requires 0 <= i < |ids| => LineOf(ids[i], d[ids[i]]))
  }

  /** A dump of `d`: a manifest, then the rows of the scope. */
  ghost predicate IsDump(lines: seq<Line>, d: Db, scope: Scope, head: string) {
    exists ids :: Lists(ids, d, scope) && (forall i :: 0 <= i < |ids| ==> ids[i] in d) && lines == DumpLines(ids, d, head)
  }

  // ------------------------------------------------------------ loading it

  function Part(d: Db, ids: seq<Id>): Db {
    map id | id in d && id in ids :: d[id]
  }

  function CountsOf(ids: seq<Id>): Counts
    decreases |ids|
  {
    if ids == [] then map[] else Tallied(CountsOf(ids[..|ids| - 1]), ids[|ids| - 1].table, 1)
  }

  function IdsIn(d: Db, t: Table): set<Id> {
    set id | id in d && id.table == t
  }

  /** A table's count is the number of its rows; a table without rows has none. */
  ghost predicate Counted(counts: Counts, d: Db) {
    forall t: Table :: (t in counts <==> IdsIn(d, t) != {}) && (t in counts ==> counts[t] == |IdsIn(d, t)|)
  }

  lemma MoreIn(part: Db, id: Id, row: Row, t: Table)
    requires id !in part
    ensures |IdsIn(part[id := row], t)| == |IdsIn(part, t)| + if t == id.table then 1 else 0
  {
    assert IdsIn(part[id := row], t) == if t == id.table then IdsIn(part, t) + {id} else IdsIn(part, t);
  }

  lemma CountNext(counts: Counts, part: Db, id: Id, row: Row)
    requires id !in part && Counted(counts, part)
    ensures Counted(Tallied(counts, id.table, 1), part[id := row])
  {
    forall t: Table { MoreIn(part, id, row, t); }
    assert id in IdsIn(part[id := row], id.table);
  }

  lemma NextPart(d: Db, ids: seq<Id>)
    requires ids != [] && ids[|ids| - 1] in d
    ensures Part(d, ids) == Part(d, ids[..|ids| - 1])[ids[|ids| - 1] := d[ids[|ids| - 1]]]
  {
    assert ids == ids[..|ids| - 1] + [ids[|ids| - 1]];
  }

  lemma {:induction false} CountsAreRows(d: Db, ids: seq<Id>)
    requires NoRepeats(ids) && forall i :: 0 <= i < |ids| ==> ids[i] in d
    ensures Counted(CountsOf(ids), Part(d, ids))
    decreases |ids|
  {
    if ids != [] {
      var before, last := ids[..|ids| - 1], ids[|ids| - 1];
      CountsAreRows(d, before);
      NextPart(d, ids);
      CountNext(CountsOf(before), Part(d, before), last, d[last]);
    }
  }

  /** The i-th row goes in: its key is free and its parents are already there. */
  predicate GoesIn(base: Db, d: Db, ids: seq<Id>, i: nat)
    requires i < |ids| && ids[i] in d
  {
    ids[i] !in base && ParentsPresent(base + Part(d, ids[..i]), ids[i].table, d[ids[i]])
  }

  /** The rows of `base` the load starts from once its manifest is admitted. */
  function Base(target: Target): Db {
    if LooksEmpty(target.db) then target.db else map[]
  }

  predicate Admissible(target: Target) {
    LooksEmpty(target.db) || target.force
  }

  lemma PartGrows(base: Db, d: Db, ids: seq<Id>, i: nat)
    requires i < |ids| && ids[i] in d
    ensures base + Part(d, ids[..i + 1]) == (base + Part(d, ids[..i]))[ids[i] := d[ids[i]]]
  {
    assert forall id :: id in ids[..i + 1] <==> id in ids[..i] || id == ids[i];
  }

  lemma LoadRow(base: Db, d: Db, ids: seq<Id>, i: nat, counts: Counts)
    requires i < |ids| && ids[i] in d && NoRepeats(ids)
    requires WellFormedRow(d, ids[i].table, ids[i].key, d[ids[i]]) && ids[i].table != Sessions
    ensures AddRow(Loading(base + Part(d, ids[..i]), true, counts), Known(ids[i].table), SerializeRow(d[ids[i]]))
         == if GoesIn(base, d, ids, i)
            then Loading(base + Part(d, ids[..i + 1]), true, Tallied(counts, ids[i].table, 1)) else Failed
  {
    HydrateUndoesJson(ids[i].table, d[ids[i]]);
    PartGrows(base, d, ids, i);
    assert ids[i] !in ids[..i];
    var row := d[ids[i]];
    assert InvalidDate !in row.Values;
  }

  /** The first `n` rows go in. */
  predicate AllGoIn(base: Db, d: Db, ids: seq<Id>, n: nat)
    requires n <= |ids| && forall i :: 0 <= i < |ids| ==> ids[i] in d
  {
    forall i :: 0 <= i < n ==> GoesIn(base, d, ids, i)
  }

  /** The load after the manifest and the first `n` rows. */
  function LoadOf(base: Db, d: Db, ids: seq<Id>, n: nat): Load
    requires n <= |ids| && forall i :: 0 <= i < |ids| ==> ids[i] in d
  {
    if AllGoIn(base, d, ids, n) then Loading(base + Part(d, ids[..n]), true, CountsOf(ids[..n])) else Failed
  }

  lemma OneMoreRow(base: Db, d: Db, ids: seq<Id>, n: nat)
    requires n < |ids| && NoRepeats(ids) && forall i :: 0 <= i < |ids| ==> ids[i] in d
    requires WellFormedRow(d, ids[n].table, ids[n].key, d[ids[n]]) && ids[n].table != Sessions
    ensures LoadOf(base, d, ids, n + 1) == AddRow(LoadOf(base, d, ids, n), Known(ids[n].table), SerializeRow(d[ids[n]]))
  {
    OneMoreGoesIn(base, d, ids, n);
    if AllGoIn(base, d, ids, n) { LoadRow(base, d, ids, n, CountsOf(ids[..n])); }
  }

  lemma OneMoreGoesIn(base: Db, d: Db, ids: seq<Id>, n: nat)
    requires n < |ids| && forall i :: 0 <= i < |ids| ==> ids[i] in d
    ensures AllGoIn(base, d, ids, n + 1) == (AllGoIn(base, d, ids, n) && GoesIn(base, d, ids, n))
    ensures CountsOf(ids[..n + 1]) == Tallied(CountsOf(ids[..n]), ids[n].table, 1)
  {
    assert ids[..n + 1][..n] == ids[..n];
  }

  lemma NextLine(target: Target, d: Db, ids: seq<Id>, n: nat)
    requires n < |ids| && forall i :: 0 <= i < |ids| ==> ids[i] in d
    ensures Loaded(target, DumpLines(ids, d, target.head)[..n + 2])
         == AddRow(Loaded(target, DumpLines(ids, d, target.head)[..n + 1]), Known(ids[n].table), SerializeRow(d[ids[n]]))
  {
    var lines := DumpLines(ids, d, target.head);
    assert lines[..n + 2][..n + 1] == lines[..n + 1];
    assert lines[n + 1] == LineOf(ids[n], d[ids[n]]);
  }

  lemma FirstLine(target: Target, d: Db, ids: seq<Id>)
    requires forall i :: 0 <= i < |ids| ==> ids[i] in d
    ensures Loaded(target, DumpLines(ids, d, target.head)[..1])
         == if Admissible(target) then LoadOf(Base(target), d, ids, 0) else Failed
  {
    var first := DumpLines(ids, d, target.head)[..1];
    assert first == [ManifestLine(BACKUP_FORMAT, target.head)];
    assert first[..0] == [];
    assert Loaded(target, first[..0]) == Loading(target.db, false, map[]);
    assert Base(target) + Part(d, ids[..0]) == Base(target);
  }

  /** Rows a load can take. */
  ghost predicate Loadable(ids: seq<Id>, d: Db) {
    && NoRepeats(ids)
    && forall i :: 0 <= i < |ids| ==> ids[i] in d && WellFormedRow(d, ids[i].table, ids[i].key, d[ids[i]]) && ids[i].table != Sessions
  }

  lemma LoadNext(target: Target, d: Db, ids: seq<Id>, n: nat)
    requires n < |ids| && Loadable(ids, d)
    requires Loaded(target, DumpLines(ids, d, target.head)[..n + 1]) == LoadOf(Base(target), d, ids, n)
    ensures Loaded(target, DumpLines(ids, d, target.head)[..n + 2]) == LoadOf(Base(target), d, ids, n + 1)
  {
    NextLine(target, d, ids, n);
    OneMoreRow(Base(target), d, ids, n);
  }

  lemma {:induction false} LoadPrefix(target: Target, d: Db, ids: seq<Id>, n: nat)
    requires n <= |ids| && Loadable(ids, d) && Admissible(target)
    ensures Loaded(target, DumpLines(ids, d, target.head)[..n + 1]) == LoadOf(Base(target), d, ids, n)
    decreases n
  {
    if n == 0 {
      FirstLine(target, d, ids);
    } else {
      LoadPrefix(target, d, ids, n - 1);
      LoadNext(target, d, ids, n - 1);
    }
  }

  lemma ListedIsKept(ids: seq<Id>, d: Db, scope: Scope)
    requires Lists(ids, d, scope)
    ensures Part(d, ids) == Kept(d, scope)
  {
    var part, kept := Part(d, ids), Kept(d, scope);
    forall id ensures id in part <==> id in kept {
      if id in ids {
        var i :| 0 <= i < |ids| && ids[i] == id;
        assert ids[i] in kept;
      }
    }
  }

  /** What restoring a dump commits: everything, or nothing at all. */
  lemma RestoreOfDump(target: Target, d: Db, scope: Scope, ids: seq<Id>)
    requires WellFormed(d) && Lists(ids, d, scope)
    ensures Outcome(target, DumpLines(ids, d, target.head))
         == if Admissible(target) && AllGoIn(Base(target), d, ids, |ids|)
            then Some(Restored(Base(target) + Kept(d, scope), CountsOf(ids))) else None
  {
    WholeLoad(target, d, scope, ids);
    ListedIsKept(ids, d, scope);
  }

  lemma WholeLoad(target: Target, d: Db, scope: Scope, ids: seq<Id>)
    requires WellFormed(d) && Lists(ids, d, scope)
    ensures Loaded(target, DumpLines(ids, d, target.head))
         == if Admissible(target) && AllGoIn(Base(target), d, ids, |ids|)
            then Loading(Base(target) + Part(d, ids), true, CountsOf(ids)) else Failed
  {
    var lines := DumpLines(ids, d, target.head);
    if Admissible(target) {
      forall i | 0 <= i < |ids|
        ensures ids[i] in d && WellFormedRow(d, ids[i].table, ids[i].key, d[ids[i]]) && ids[i].table != Sessions
      {
        assert ids[i] in Kept(d, scope);
      }
      LoadPrefix(target, d, ids, |ids|);
      assert lines[..|ids| + 1] == lines && ids[..|ids|] == ids;
    } else {
      FirstLine(target, d, ids);
      FailureStays(target, lines, 1);
    }
  }

  // ------------------------------------------------------------ foreign keys

  /** Every foreign key inside `d` is met inside `d`. */
  predicate Closed(d: Db) {
    forall id :: id in d ==> ParentsPresent(d, id.table, d[id])
  }

  /** In table order a listed row's listed parents come before it. */
  lemma ParentComesFirst(ids: seq<Id>, i: nat, k: nat, parent: Id)
    requires InTableOrder(ids) && i < |ids| && parent in ids
    requires k < |References(ids[i].table)| && parent.table == References(ids[i].table)[k].parent
    ensures parent in ids[..i]
  {
    ParentsFirst(ids[i].table, k);
    var j :| 0 <= j < |ids| && ids[j] == parent;
    assert ids[..i][j] == parent;
  }

  lemma RowGoesIn(d: Db, scope: Scope, ids: seq<Id>, i: nat)
    requires Lists(ids, d, scope) && i < |ids| && ids[i] in d
    ensures GoesIn(map[], d, ids, i) <==> ParentsPresent(Kept(d, scope), ids[i].table, d[ids[i]])
  {
    var t, row, before, kept := ids[i].table, d[ids[i]], map[] + Part(d, ids[..i]), Kept(d, scope);
    forall k | 0 <= k < |References(t)|
      ensures ParentPresent(before, row, References(t)[k]) <==> ParentPresent(kept, row, References(t)[k])
    {
      var c := Column(row, References(t)[k].column);
      if c.Num? {
        var parent := Id(References(t)[k].parent, Serial(c.n));
        if parent in kept { ParentComesFirst(ids, i, k, parent); }
        if parent in before {
          var j :| 0 <= j < i && ids[j] == parent;
          assert ids[j] in kept;
        }
      }
    }
  }

  /** Into empty tables, a dump loads exactly when the rows it holds are closed under their foreign keys. */
  lemma LoadsIffClosed(d: Db, scope: Scope, ids: seq<Id>)
    requires Lists(ids, d, scope) && forall i :: 0 <= i < |ids| ==> ids[i] in d
    ensures AllGoIn(map[], d, ids, |ids|) <==> Closed(Kept(d, scope))
  {
    var kept := Kept(d, scope);
    forall i | 0 <= i < |ids|
      ensures GoesIn(map[], d, ids, i) <==> ParentsPresent(kept, ids[i].table, kept[ids[i]])
    {
      assert ids[i] in kept;
      RowGoesIn(d, scope, ids, i);
    }
    if AllGoIn(map[], d, ids, |ids|) {
      forall id | id in kept ensures ParentsPresent(kept, id.table, kept[id]) {
        var i :| 0 <= i < |ids| && ids[i] == id;
        assert GoesIn(map[], d, ids, i);
      }
    } else {
      var i :| 0 <= i < |ids| && !GoesIn(map[], d, ids, i);
      assert ids[i] in kept;
    }
  }

  /** A kept row keeps its parents, unless the parent is an execution the window cuts off. */
  lemma KeptParent(d: Db, scope: Scope, id: Id, k: nat)
    requires WellFormed(d) && id in Kept(d, scope) && k < |References(id.table)|
    requires !IsTimed(References(id.table)[k].parent) || !scope.Window?
    ensures ParentPresent(Kept(d, scope), d[id], References(id.table)[k])
  {
    ParentsFirst(id.table, k);
    assert ParentPresent(d, d[id], References(id.table)[k]);
  }

  /** The only reference to an execution table is a test execution's run. */
  lemma OnlyRunsAreTimedParents(t: Table, k: nat)
    requires k < |References(t)| && t != Sessions
    ensures IsTimed(References(t)[k].parent) <==> t == QaTestExecutions && k == 3
    ensures t == QaTestExecutions && k == 3 ==> References(t)[k] == Reference("runId", QaRuns)
  {
  }

  /** Every test execution in the dump has its run in the dump. */
  predicate RunsIncluded(kept: Db) {
    forall id :: id in kept && id.table == QaTestExecutions ==>
      ParentPresent(kept, kept[id], Reference("runId", QaRuns))
  }

  /** Config-only and full dumps are closed; a windowed dump is closed exactly when no kept execution's run was cut off. */
  lemma ClosedIff(d: Db, scope: Scope)
    requires WellFormed(d)
    ensures !scope.Window? ==> Closed(Kept(d, scope))
    ensures Closed(Kept(d, scope)) <==> RunsIncluded(Kept(d, scope))
  {
    if !scope.Window? || RunsIncluded(Kept(d, scope)) { ClosedIfRuns(d, scope); }
    if Closed(Kept(d, scope)) { RunsIfClosed(Kept(d, scope)); }
  }

  lemma ClosedIfRuns(d: Db, scope: Scope)
    requires WellFormed(d) && (!scope.Window? || RunsIncluded(Kept(d, scope)))
    ensures Closed(Kept(d, scope))
  {
    var kept := Kept(d, scope);
    forall id, k | id in kept && 0 <= k < |References(id.table)|
      ensures ParentPresent(kept, kept[id], References(id.table)[k])
    {
      OnlyRunsAreTimedParents(id.table, k);
      if !scope.Window? || !IsTimed(References(id.table)[k].parent) { KeptParent(d, scope, id, k); }
    }
  }

  lemma RunsIfClosed(kept: Db)
    requires Closed(kept)
    ensures RunsIncluded(kept)
  {
    forall id | id in kept && id.table == QaTestExecutions
      ensures ParentPresent(kept, kept[id], Reference("runId", QaRuns))
    {
      assert References(id.table)[3] == Reference("runId", QaRuns);
    }
  }

  // ------------------------------------------------------------ round trips

  /** The restore commits, leaves exactly the rows of `d`, and reports how many each table has. */
  ghost predicate Rebuilds(target: Target, lines: seq<Line>, d: Db) {
    && Outcome(target, lines).Some?
    && Outcome(target, lines).value.db == d
    && Counted(Outcome(target, lines).value.counts, d)
  }

  /** A row of one of the nine tables the restore looks at. */
  ghost predicate IsOccupied(db: Db) {
    exists id :: id in db && (id.table == Users || id.table == ApiKeys || id.table == UrlMonitors || id.table == ApiChecks ||
      id.table == TcpMonitors || id.table == UdpMonitors || id.table == DbMonitors || id.table == TlsMonitors || id.table == QaProjects)
  }

  lemma OccupiedIff(db: Db)
    ensures IsOccupied(db) <==> !LooksEmpty(db)
  {
    if id :| id in db && id.table in PROBES { assert IsOccupied(db); }
  }

  /** The target is empty, or it visibly is not and the caller forces. */
  predicate Clears(target: Target) {
    target.db == map[] || (target.force && !LooksEmpty(target.db))
  }

  /** Where nothing is left in the way, a dump commits exactly if it is closed. */
  lemma ClearedOutcome(target: Target, d: Db, scope: Scope, ids: seq<Id>)
    requires WellFormed(d) && Lists(ids, d, scope) && Clears(target) && forall i :: 0 <= i < |ids| ==> ids[i] in d
    ensures Outcome(target, DumpLines(ids, d, target.head))
         == if Closed(Kept(d, scope)) then Some(Restored(Kept(d, scope), CountsOf(ids))) else None
  {
    RestoreOfDump(target, d, scope, ids);
    LoadsIffClosed(d, scope, ids);
    EmptyPlus(Kept(d, scope));
  }

  lemma EmptyPlus(d: Db)
    ensures map[] + d == d
  {
  }

  /** Rows the probe overlooks spoil the restore. */
  lemma OverlookedOutcome(target: Target, d: Db, scope: Scope, ids: seq<Id>)
    requires WellFormed(d) && Lists(ids, d, scope) && !Clears(target) && forall i :: 0 <= i < |ids| ==> ids[i] in d
    ensures var outcome := Outcome(target, DumpLines(ids, d, target.head));
            outcome.None? || outcome.value.db != Kept(d, scope)
  {
    RestoreOfDump(target, d, scope, ids);
    if Admissible(target) && AllGoIn(target.db, d, ids, |ids|) { LeftoversStay(target.db, d, scope, ids); }
  }

  lemma RebuildsIff(target: Target, d: Db, scope: Scope, lines: seq<Line>)
    requires WellFormed(d) && IsDump(lines, d, scope, target.head) && !scope.Window?
    ensures Rebuilds(target, lines, Kept(d, scope)) <==> Clears(target)
  {
    var ids :| Lists(ids, d, scope) && (forall i :: 0 <= i < |ids| ==> ids[i] in d) && lines == DumpLines(ids, d, target.head);
    ClosedIff(d, scope);
    if Clears(target) {
      ClearedOutcome(target, d, scope, ids);
      CountsAreRows(d, ids);
      ListedIsKept(ids, d, scope);
    } else {
      OverlookedOutcome(target, d, scope, ids);
    }
  }

  /**
   Restoring a full dump rebuilds the database without its sessions, and a config-only dump
   the database without sessions and executions, if and only if the target holds no row at
   all, or holds one in a probed table and the caller forces.
   */
  lemma RoundTripIff(target: Target, d: Db, scope: Scope, lines: seq<Line>)
    requires WellFormed(d) && IsDump(lines, d, scope, target.head)
    ensures scope == Everything ==>
      (Rebuilds(target, lines, Snapshot(d)) <==> target.db == map[] || (target.force && IsOccupied(target.db)))
    ensures scope == ConfigOnly ==>
      (Rebuilds(target, lines, Configuration(d)) <==> target.db == map[] || (target.force && IsOccupied(target.db)))
  {
    KeptIsSelected(d, scope);
    OccupiedIff(target.db);
    if !scope.Window? { RebuildsIff(target, d, scope, lines); }
  }

  lemma LinesHold(ids: seq<Id>, d: Db, kept: Db, head: string, line: Line)
    requires forall i :: 0 <= i < |ids| ==> ids[i] in d && ids[i] in kept
    requires kept.Keys <= d.Keys && forall id :: id in kept ==> id in ids
    ensures line in DumpLines(ids, d, head) <==>
      line == ManifestLine(1, head) || exists id :: id in kept && line == RowLine(Known(id.table), SerializeRow(d[id]))
  {
    var lines := DumpLines(ids, d, head);
    if id :| id in kept && line == RowLine(Known(id.table), SerializeRow(d[id])) {
      var i :| 0 <= i < |ids| && ids[i] == id;
      assert lines[i + 1] == line;
    }
    assert lines[0] == ManifestLine(1, head);
  }

  /** A dump speaks of the rows its scope selects, all of them and no other. */
  lemma DumpHolds(lines: seq<Line>, d: Db, scope: Scope, head: string, line: Line)
    requires IsDump(lines, d, scope, head)
    ensures Selected(d, scope).Keys <= d.Keys
    ensures line in lines <==>
      line == ManifestLine(1, head) || exists id :: id in Selected(d, scope) && line == RowLine(Known(id.table), SerializeRow(d[id]))
  {
    KeptIsSelected(d, scope);
    var ids :| Lists(ids, d, scope) && (forall i :: 0 <= i < |ids| ==> ids[i] in d) && lines == DumpLines(ids, d, head);
    LinesHold(ids, d, Kept(d, scope), head, line);
  }

  /** Rows the probe does not see stay beside the restored ones. */
  lemma LeftoversStay(base: Db, d: Db, scope: Scope, ids: seq<Id>)
    requires base != map[] && Lists(ids, d, scope) && forall i :: 0 <= i < |ids| ==> ids[i] in d
    requires AllGoIn(base, d, ids, |ids|)
    ensures base + Kept(d, scope) != Kept(d, scope)
  {
    var id :| id in base;
    forall i | 0 <= i < |ids| ensures ids[i] !in base { assert GoesIn(base, d, ids, i); }
    assert id !in Kept(d, scope);
    assert id in base + Kept(d, scope);
  }

  /** Every test execution in the window that names a run names one in the window. */
  ghost predicate RunsAreRecent(d: Db, cutoff: Table -> int) {
    forall id :: id in Recent(d, cutoff) && id.table == QaTestExecutions ==>
      Column(d[id], "runId") == Null || (Column(d[id], "runId").Num? && Id(QaRuns, Serial(Column(d[id], "runId").n)) in Recent(d, cutoff))
  }

  /**
   A windowed dump restores into an emptied target exactly when no test execution lost its
   run, and then brings back the configuration with just the recent history.
   */
  lemma WindowRestoresIff(target: Target, d: Db, cutoff: Table -> int, lines: seq<Line>)
    requires WellFormed(d) && IsDump(lines, d, Window(cutoff), target.head)
    requires target.db == map[] || (target.force && IsOccupied(target.db))
    ensures Outcome(target, lines).Some? <==> RunsAreRecent(d, cutoff)
    ensures Outcome(target, lines).Some? <==> Rebuilds(target, lines, Recent(d, cutoff))
  {
    var scope := Window(cutoff);
    var ids :| Lists(ids, d, scope) && (forall i :: 0 <= i < |ids| ==> ids[i] in d) && lines == DumpLines(ids, d, target.head);
    OccupiedIff(target.db);
    ClosedIff(d, scope);
    ClearedOutcome(target, d, scope, ids);
    KeptIsSelected(d, scope);
    CountsAreRows(d, ids);
    ListedIsKept(ids, d, scope);
  }

  // ------------------------------------------------------------ files that are no dump

  /** Lines no restore takes at that place in a file. */
  ghost predicate IsRefused(target: Target, lines: seq<Line>, i: nat)
    requires i < |lines|
  {
    match lines[i]
    case Malformed => true
    case ManifestLine(format, head) => format != 1 || head != target.head || (IsOccupied(target.db) && (!target.force || HasManifest(lines[..i])))
    case RowLine(Unknown(_), _) => true
    case RowLine(Known(t), row) => t == Sessions || !HasManifest(lines[..i]) || HasBadDate(t, row)
  }

  predicate HasManifest(lines: seq<Line>) {
    exists i :: 0 <= i < |lines| && lines[i].ManifestLine?
  }

  /** A text that is no date, in a column of dates. */
  predicate HasBadDate(t: Table, row: WireRow) {
    exists c :: c in row && c in DateColumns(t) && row[c].WStr? && row[c].text.Plain? && row[c].text.date == None
  }

  lemma {:induction false} CheckedIsManifest(target: Target, lines: seq<Line>)
    ensures Loaded(target, lines).Loading? ==> Loaded(target, lines).checked == HasManifest(lines)
    decreases |lines|
  {
    if lines != [] {
      var before := lines[..|lines| - 1];
      CheckedIsManifest(target, before);
      assert lines[|lines| - 1].ManifestLine? || HasManifest(lines) == HasManifest(before);
    }
  }

  lemma BadDateFails(s: Load, t: Table, row: WireRow)
    requires HasBadDate(t, row)
    ensures AddRow(s, Known(t), row).Failed?
  {
    var c :| c in row && c in DateColumns(t) && row[c].WStr? && row[c].text.Plain? && row[c].text.date == None;
    assert HydrateRow(t, row)[c] == InvalidDate;
  }

  /** One refused line anywhere, or a file without a manifest, and nothing is restored. */
  lemma RefusedFile(target: Target, lines: seq<Line>)
    requires !HasManifest(lines) || exists i :: 0 <= i < |lines| && IsRefused(target, lines, i)
    ensures Outcome(target, lines) == None
  {
    OccupiedIff(target.db);
    CheckedIsManifest(target, lines);
    if i :| 0 <= i < |lines| && IsRefused(target, lines, i) {
      CheckedIsManifest(target, lines[..i]);
      LoadedNext(target, lines, i);
      if lines[i].RowLine? && lines[i].name.Known? && HasBadDate(lines[i].name.table, lines[i].row) {
        BadDateFails(Loaded(target, lines[..i]), lines[i].name.table, lines[i].row);
      }
      FailureStays(target, lines, i + 1);
    }
  }

  lemma EarlierParents(d: Db, ids: seq<Id>, i: nat, n: nat)
    requires i < n <= |ids| && ids[i] in d && GoesIn(map[], d, ids, i)
    requires forall x :: x in ids[..i] ==> x in ids[..n]
    ensures ParentsPresent(Part(d, ids[..n]), ids[i].table, d[ids[i]])
  {
    var t, row := ids[i].table, d[ids[i]];
    forall k | 0 <= k < |References(t)| ensures ParentPresent(Part(d, ids[..n]), row, References(t)[k]) {
      assert ParentPresent(map[] + Part(d, ids[..i]), row, References(t)[k]);
    }
  }

  /** Wherever the load is cut short, the rows already in are closed under their foreign keys. */
  lemma PrefixesAreClosed(d: Db, scope: Scope, ids: seq<Id>, n: nat)
    requires WellFormed(d) && Lists(ids, d, scope) && !scope.Window? && n <= |ids|
    ensures Closed(Part(d, ids[..n]))
  {
    ClosedIff(d, scope);
    LoadsIffClosed(d, scope, ids);
    var part := Part(d, ids[..n]);
    forall id | id in part ensures ParentsPresent(part, id.table, part[id]) {
      var i :| 0 <= i < n && ids[..n][i] == id;
      assert GoesIn(map[], d, ids, i);
      assert forall x :: x in ids[..i] ==> x in ids[..n];
      EarlierParents(d, ids, i, n);
    }
  }
}
