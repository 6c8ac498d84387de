/**
 Writing a dump, as one stream or as one file a table, and reading it back as text.
 */
module BackupExport {
  import opened Options
  import opened BackupTables
  import opened BackupRestore
  import opened BackupRoundTrip
  import Paging
  import Lines

  // ------------------------------------------------------------ one table

  /** The table's rows, each once. */
  ghost predicate ListsTable(ids: seq<Id>, kept: Db, t: Table) {
    && NoRepeats(ids)
    && (forall i :: 0 <= i < |ids| ==> ids[i] in kept && ids[i].table == t)
    && (forall id :: id in kept && id.table == t ==> id in ids)
  }

  ghost function LinesOf(ids: seq<Id>, kept: Db): seq<Line>
    requires forall i :: 0 <= i < |ids| ==> ids[i] in kept
  {
    seq(|ids|, i requires 0 <= i < |ids| => LineOf(ids[i], kept[ids[i]]))
  }

  ghost function IdsOf(t: Table, ns: seq<int>): seq<Id> {
    seq(|ns|, i requires 0 <= i < |ns| => Id(t, Serial(ns[i])))
  }

  function RowsById(d: Db, t: Table): map<int, Row> {
    map n | n in Serials(d, t) :: d[Id(t, Serial(n))]
  }

  lemma WantedIds(kept: Db, t: Table, ns: seq<int>)
    requires Paging.IsAscending(ns)
    requires forall i :: 0 <= i < |ns| ==> Id(t, Serial(ns[i])) in kept
    requires forall id :: id in kept && id.table == t ==> id.key.Serial? && id.key.n in ns
    ensures ListsTable(IdsOf(t, ns), kept, t)
  {
    var ids := IdsOf(t, ns);
    forall id | id in kept && id.table == t ensures id in ids {
      var i :| 0 <= i < |ns| && ns[i] == id.key.n;
      assert ids[i] == id;
    }
  }

  lemma PassingIsKept(d: Db, scope: Scope, t: Table, n: int)
    ensures n in Paging.Passing(RowsById(d, t), row => Included(scope, t, row)) <==> Id(t, Serial(n)) in Kept(d, scope)
  {
  }

  /** A table with ids has serial keys only, from 1 up. */
  predicate SerialFromOne(kept: Db, t: Table) {
    forall id :: id in kept && id.table == t ==> id.key.Serial? && id.key.n > 0
  }

  lemma WellFormedSerials(d: Db, scope: Scope, t: Table)
    requires WellFormed(d) && IsSerial(t)
    ensures SerialFromOne(Kept(d, scope), t)
  {
    forall id | id in Kept(d, scope) && id.table == t ensures id.key.Serial? && id.key.n > 0 {
      assert WellFormedRow(d, t, id.key, d[id]);
    }
  }

  lemma KeptRows(d: Db, scope: Scope)
    ensures forall id :: id in Kept(d, scope) ==> id in d && Kept(d, scope)[id] == d[id]
  {
  }

  /** A table with ids, by keyset paging. */
  method PagedNdjson(d: Db, scope: Scope, t: Table) returns (lines: seq<Line>, ghost ids: seq<Id>)
    requires WellFormed(d) && IsSerial(t)
    ensures ListsTable(ids, Kept(d, scope), t) && lines == LinesOf(ids, Kept(d, scope))
  {
    var byId := RowsById(d, t);
    var wanted := row => Included(scope, t, row);
    var rows := Paging.TableRows(byId, wanted, READ_BATCH);
    lines := LinesFor(t, rows);
    ids := PagedIds(d, scope, t, byId, wanted, rows);
    LinesAre(t, rows, lines, ids, Kept(d, scope));
  }

  lemma LinesAre(t: Table, rows: seq<Row>, lines: seq<Line>, ids: seq<Id>, kept: Db)
    requires |lines| == |rows| == |ids| && forall i :: 0 <= i < |ids| ==> ids[i] in kept && ids[i].table == t
    requires forall i :: 0 <= i < |rows| ==> rows[i] == kept[ids[i]] && lines[i] == RowLine(Known(t), SerializeRow(rows[i]))
    ensures lines == LinesOf(ids, kept)
  {
  }

  lemma PagedIds(d: Db, scope: Scope, t: Table, byId: map<int, Row>, wanted: Row -> bool, rows: seq<Row>) returns (ids: seq<Id>)
    requires WellFormed(d) && IsSerial(t)
    requires byId == RowsById(d, t) && wanted == (row => Included(scope, t, row))
    requires rows == Paging.PlainQuery(byId, wanted)
    ensures ListsTable(ids, Kept(d, scope), t) && |rows| == |ids|
    ensures forall i :: 0 <= i < |ids| ==> rows[i] == Kept(d, scope)[ids[i]]
  {
    var kept := Kept(d, scope);
    var positive := Paging.Above(Paging.Passing(byId, wanted), 0);
    var ns := Paging.Ascending(positive);
    Paging.AscendingIs(positive);
    WellFormedSerials(d, scope, t);
    KeptRows(d, scope);
    forall n ensures n in ns <==> n > 0 && Id(t, Serial(n)) in kept { PassingIsKept(d, scope, t, n); }
    WantedIds(kept, t, ns);
    ids := IdsOf(t, ns);
  }

  method LinesFor(t: Table, rows: seq<Row>) returns (lines: seq<Line>)
    ensures |lines| == |rows|
    ensures forall i :: 0 <= i < |rows| ==> lines[i] == RowLine(Known(t), SerializeRow(rows[i]))
  {
    lines := [];
    for i := 0 to |rows|
      invariant |lines| == i
      invariant forall j :: 0 <= j < i ==> lines[j] == RowLine(Known(t), SerializeRow(rows[j]))
    {
      lines := lines + [RowLine(Known(t), SerializeRow(rows[i]))];
    }
  }

  /** A join table, in one pass and in any order. */
  method JoinNdjson(d: Db, t: Table) returns (lines: seq<Line>, ghost ids: seq<Id>)
    ensures ListsTable(ids, d, t) && lines == LinesOf(ids, d)
  {
    lines, ids := [], [];
    var rest := set id | id in d && id.table == t;
    while rest != {}
      invariant forall id :: id in rest ==> id in d && id.table == t
      invariant NoRepeats(ids) && forall i :: 0 <= i < |ids| ==> ids[i] in d && ids[i].table == t && ids[i] !in rest
      invariant forall id :: id in d && id.table == t ==> id in rest || id in ids
      invariant lines == LinesOf(ids, d)
      decreases rest
    {
      var id :| id in rest;
      lines := lines + [LineOf(id, d[id])];
      ids := ids + [id];
      rest := rest - {id};
    }
  }

  method TableNdjson(d: Db, scope: Scope, t: Table) returns (lines: seq<Line>, ghost ids: seq<Id>)
    requires WellFormed(d) && t != Sessions
    ensures ListsTable(ids, Kept(d, scope), t) && lines == LinesOf(ids, Kept(d, scope))
  {
    if IsSerial(t) {
      lines, ids := PagedNdjson(d, scope, t);
    } else {
      lines, ids := JoinNdjson(d, t);
    }
  }

  // ------------------------------------------------------------ the whole dump

  /** The first `n` tables of the dump. */
  ghost predicate ListsFirst(ids: seq<Id>, kept: Db, n: nat) {
    && NoRepeats(ids)
    && InTableOrder(ids)
    && (forall i :: 0 <= i < |ids| ==> ids[i] in kept && Rank(ids[i].table) < n)
    && (forall id :: id in kept && Rank(id.table) < n ==> id in ids)
  }

  lemma NextTable(ids: seq<Id>, more: seq<Id>, kept: Db, t: Table)
    requires ListsFirst(ids, kept, Rank(t)) && ListsTable(more, kept, t)
    ensures ListsFirst(ids + more, kept, Rank(t) + 1)
  {
    forall id | id in kept && Rank(id.table) == Rank(t) ensures id.table == t { SameRank(id.table, t); }
  }

  /** A table's part of the dump: nothing, for an execution table in a config-only dump. */
  method Section(d: Db, scope: Scope, t: Table) returns (lines: seq<Line>, ghost ids: seq<Id>)
    requires WellFormed(d) && t != Sessions
    ensures ListsTable(ids, Kept(d, scope), t) && lines == LinesOf(ids, Kept(d, scope))
  {
    if IsTimed(t) && scope.ConfigOnly? {
      lines, ids := [], [];
    } else {
      lines, ids := TableNdjson(d, scope, t);
    }
  }

  lemma NextSection(lines: seq<Line>, ids: seq<Id>, more: seq<Line>, moreIds: seq<Id>, kept: Db, t: Table)
    requires ListsFirst(ids, kept, Rank(t)) && lines == LinesOf(ids, kept)
    requires ListsTable(moreIds, kept, t) && more == LinesOf(moreIds, kept)
    ensures ListsFirst(ids + moreIds, kept, Rank(t) + 1) && lines + more == LinesOf(ids + moreIds, kept)
  {
    NextTable(ids, moreIds, kept, t);
  }

  method Ndjson(d: Db, scope: Scope, head: string) returns (lines: seq<Line>)
    requires WellFormed(d)
    ensures IsDump(lines, d, scope, head)
  {
    ghost var kept := Kept(d, scope);
    ghost var ids: seq<Id> := [];
    var rows: seq<Line> := [];
    for k := 0 to |TABLES|
      invariant ListsFirst(ids, kept, k) && rows == LinesOf(ids, kept)
    {
      RankAtIndex(k);
      var more, moreIds := Section(d, scope, TABLES[k]);
      NextSection(rows, ids, more, moreIds, kept, TABLES[k]);
      rows, ids := rows + more, ids + moreIds;
    }
    AllListed(d, scope, ids);
    lines := [ManifestLine(BACKUP_FORMAT, head)] + rows;
  }

  lemma AllListed(d: Db, scope: Scope, ids: seq<Id>)
    requires ListsFirst(ids, Kept(d, scope), |TABLES|)
    ensures Lists(ids, d, scope) && (forall i :: 0 <= i < |ids| ==> ids[i] in d)
    ensures forall head :: DumpLines(ids, d, head) == [ManifestLine(BACKUP_FORMAT, head)] + LinesOf(ids, Kept(d, scope))
  {
    KeptRows(d, scope);
    forall id | id in Kept(d, scope) ensures id in ids { TableAtRank(id.table); }
  }

  // ------------------------------------------------------------ as text

  /** However the text of a dump is cut into chunks, its lines are read back. */
  lemma TextReadsBack(chunks: seq<string>, texts: seq<string>, parse: string -> Line, lines: seq<Line>)
    requires |texts| == |lines| && Lines.Concat(chunks) == Lines.Written(texts)
    requires forall i :: 0 <= i < |texts| ==> texts[i] != "" && '\n' !in texts[i] && parse(texts[i]) == lines[i]
    ensures Parsed(parse, Lines.AllLines(Lines.Concat(chunks))) == lines
  {
    Lines.ReadBack(texts);
  }

  // ------------------------------------------------------------ one file a table

  function Digit(n: nat): char
    requires n < 10
  {
    '0' + n as char
  }

  /** The position padded to two digits, then the table's name. */
  function FileName(position: nat, name: string): string
    requires position < 100
  {
    [Digit(position / 10), Digit(position % 10)] + "_" + name + ".ndjson.gz"
  }

  predicate NameBefore(a: string, b: string)
    decreases |a|
  {
    if a == "" then b != "" else b != "" && (a[0] < b[0] || (a[0] == b[0] && NameBefore(a[1..], b[1..])))
  }

  /** Padding makes names sort as their positions do. */
  lemma PaddedNamesSort(i: nat, j: nat, a: string, b: string)
    requires i < j < 100
    ensures NameBefore(FileName(i, a), FileName(j, b)) && !NameBefore(FileName(j, b), FileName(i, a))
  {
    var x, y := FileName(i, a), FileName(j, b);
    assert x[0] == Digit(i / 10) && y[0] == Digit(j / 10);
    assert x[1..][0] == Digit(i % 10) && y[1..][0] == Digit(j % 10);
  }

  ghost predicate SortedNames(names: seq<string>) {
    forall i, j :: 0 <= i < j < |names| ==> NameBefore(names[i], names[j])
  }

  ghost predicate Increasing(positions: seq<nat>) {
    forall i, j :: 0 <= i < j < |positions| ==> positions[i] < positions[j]
  }

  predicate Located(positions: seq<nat>, names: seq<string>) {
    |names| <= 100 && forall i :: 0 <= i < |positions| ==> positions[i] < |names|
  }

  /** The files of a split dump, in the order of their tables. */
  function FileNames(positions: seq<nat>, names: seq<string>): seq<string>
    requires Located(positions, names)
  {
    seq(|positions|, i requires 0 <= i < |positions| => FileName(positions[i], names[positions[i]]))
  }

  lemma {:induction false} BeforeIsStrict(a: string, b: string)
    requires NameBefore(a, b)
    ensures a != b && !NameBefore(b, a)
    decreases |a|
  {
    if a != "" && a[0] == b[0] { BeforeIsStrict(a[1..], b[1..]); }
  }

  /** There is one sorted listing of a set of names. */
  lemma {:induction false} SortedOnce(a: seq<string>, b: seq<string>)
    requires SortedNames(a) && SortedNames(b) && forall f :: f in a <==> f in b
    ensures a == b
    decreases |a|
  {
    SameEmptiness(a, b);
    if a != [] {
      SameFirst(a, b);
      forall f ensures f in a[1..] <==> f in b[1..] {
        FirstIsOnce(a, f);
        FirstIsOnce(b, f);
      }
      SortedOnce(a[1..], b[1..]);
      assert a == [a[0]] + a[1..] && b == [b[0]] + b[1..];
    }
  }

  lemma SameEmptiness(a: seq<string>, b: seq<string>)
    requires forall f :: f in a <==> f in b
    ensures a == [] <==> b == []
  {
    if a != [] { assert a[0] in b; }
    if b != [] { assert b[0] in a; }
  }

  lemma SameFirst(a: seq<string>, b: seq<string>)
    requires SortedNames(a) && SortedNames(b) && (forall f :: f in a <==> f in b) && a != [] && b != []
    ensures a[0] == b[0]
  {
    assert a[0] in b && b[0] in a;
    var i :| 0 <= i < |b| && b[i] == a[0];
    var j :| 0 <= j < |a| && a[j] == b[0];
    if NameBefore(a[0], b[0]) { BeforeIsStrict(a[0], b[0]); }
  }

  lemma FirstIsOnce(a: seq<string>, f: string)
    requires SortedNames(a) && a != []
    ensures f in a[1..] <==> f in a && f != a[0]
  {
    if f in a[1..] {
      var i :| 0 < i < |a| && a[i] == f;
      BeforeIsStrict(a[0], f);
    }
  }

  /** A sorted listing of the dump's directory is the table order, whichever tables have files. */
  lemma SplitFilesReplayInOrder(listing: seq<string>, positions: seq<nat>, names: seq<string>)
    requires Increasing(positions) && Located(positions, names)
    requires SortedNames(listing) && forall f :: f in listing <==> f in FileNames(positions, names)
    ensures listing == FileNames(positions, names)
  {
    var files := FileNames(positions, names);
    forall i, j | 0 <= i < j < |files| ensures NameBefore(files[i], files[j]) {
      PaddedNamesSort(positions[i], positions[j], names[positions[i]], names[positions[j]]);
    }
    SortedOnce(listing, files);
  }

  /** Execution tables have no file in a config-only dump. */
  predicate HasFile(scope: Scope, t: Table) {
    !(IsTimed(t) && scope.ConfigOnly?)
  }

  /** The positions, below `n`, of the tables that have a file. */
  function Positions(scope: Scope, tables: seq<Table>, n: nat): (positions: seq<nat>)
    requires n <= |tables|
    ensures forall i :: 0 <= i < |positions| ==> positions[i] < n
    ensures forall i, j :: 0 <= i < j < |positions| ==> positions[i] < positions[j]
  {
    if n == 0 then [] else Positions(scope, tables, n - 1) + if HasFile(scope, tables[n - 1]) then [n - 1] else []
  }

  /** The files of the first `n` tables, in table order. */
  function FirstFiles(scope: Scope, tables: seq<Table>, names: seq<string>, n: nat): seq<string>
    requires n <= |tables| == |names| <= 100
  {
    FileNames(Positions(scope, tables, n), names)
  }

  lemma FirstFilesNext(scope: Scope, tables: seq<Table>, names: seq<string>, n: nat)
    requires n < |tables| == |names| <= 100
    ensures FirstFiles(scope, tables, names, n + 1)
         == FirstFiles(scope, tables, names, n) + if HasFile(scope, tables[n]) then [FileName(n, names[n])] else []
  {
  }

  type Files = map<string, seq<Line>>

  /** The lines of one table of the dump. */
  ghost predicate IsSection(lines: seq<Line>, d: Db, scope: Scope, t: Table) {
    exists ids :: ListsTable(ids, Kept(d, scope), t) && lines == LinesOf(ids, Kept(d, scope))
  }

  ghost predicate Holds(files: Files, d: Db, scope: Scope, t: Table, f: string) {
    f in files && IsSection(files[f], d, scope, t)
  }

  /** Each of the first `n` tables that has a file has its lines there. */
  ghost predicate FilesHold(files: Files, d: Db, scope: Scope, tables: seq<Table>, names: seq<string>, n: nat)
    requires n <= |tables| == |names| <= 100
  {
    forall k :: 0 <= k < n && HasFile(scope, tables[k]) ==> Holds(files, d, scope, tables[k], FileName(k, names[k]))
  }

  /** A split dump of the first `n` tables: a file for each that has one, and no other. */
  ghost predicate IsSplit(files: Files, d: Db, scope: Scope, tables: seq<Table>, names: seq<string>, n: nat)
    requires n <= |tables| == |names| <= 100
  {
    && (forall f :: f in files <==> f in FirstFiles(scope, tables, names, n))
    && FilesHold(files, d, scope, tables, names, n)
  }

  lemma MoreFilesHold(files: Files, d: Db, scope: Scope, tables: seq<Table>, names: seq<string>, n: nat, lines: seq<Line>)
    requires n < |tables| == |names| <= 100 && FilesHold(files, d, scope, tables, names, n)
    requires IsSection(lines, d, scope, tables[n])
    ensures FilesHold(files[FileName(n, names[n]) := lines], d, scope, tables, names, n + 1)
  {
    var f := FileName(n, names[n]);
    forall k | 0 <= k < n && HasFile(scope, tables[k])
      ensures Holds(files[f := lines], d, scope, tables[k], FileName(k, names[k]))
    {
      PaddedNamesSort(k, n, names[k], names[n]);
    }
  }

  lemma NextFile(files: Files, d: Db, scope: Scope, tables: seq<Table>, names: seq<string>, n: nat, lines: seq<Line>)
    requires n < |tables| == |names| <= 100 && IsSplit(files, d, scope, tables, names, n)
    requires HasFile(scope, tables[n]) && IsSection(lines, d, scope, tables[n])
    ensures IsSplit(files[FileName(n, names[n]) := lines], d, scope, tables, names, n + 1)
  {
    MoreFilesHold(files, d, scope, tables, names, n, lines);
    FirstFilesNext(scope, tables, names, n);
  }

  lemma SameFirstFiles(scope: Scope, tables: seq<Table>, names: seq<string>, n: nat)
    requires n < |tables| == |names| <= 100 && !HasFile(scope, tables[n])
    ensures FirstFiles(scope, tables, names, n + 1) == FirstFiles(scope, tables, names, n)
  {
    FirstFilesNext(scope, tables, names, n);
  }

  lemma NoFile(files: Files, d: Db, scope: Scope, tables: seq<Table>, names: seq<string>, n: nat)
    requires n < |tables| == |names| <= 100 && IsSplit(files, d, scope, tables, names, n) && !HasFile(scope, tables[n])
    ensures IsSplit(files, d, scope, tables, names, n + 1)
  {
    SameFirstFiles(scope, tables, names, n);
  }

  /** Each table to its own file; the names are the tables' SQL names. */
  method ExportSplit(d: Db, scope: Scope, tables: seq<Table>, names: seq<string>) returns (files: Files)
    requires WellFormed(d) && |tables| == |names| <= 100 && Sessions !in tables
    ensures IsSplit(files, d, scope, tables, names, |tables|)
  {
    files := map[];
    for k := 0 to |tables|
      invariant IsSplit(files, d, scope, tables, names, k)
    {
      if HasFile(scope, tables[k]) {
        var lines, ids := TableNdjson(d, scope, tables[k]);
        NextFile(files, d, scope, tables, names, k, lines);
        files := files[FileName(k, names[k]) := lines];
      } else {
        NoFile(files, d, scope, tables, names, k);
      }
    }
  }

  predicate AllIn(files: Files, listing: seq<string>) {
    forall i :: 0 <= i < |listing| ==> listing[i] in files
  }

  /** The files read one after the other. */
  function Replay(files: Files, listing: seq<string>): seq<Line>
    requires AllIn(files, listing)
    decreases |listing|
  {
    if listing == [] then [] else Replay(files, listing[..|listing| - 1]) + files[listing[|listing| - 1]]
  }

  /** Replayed, the first files are the first `n` tables of the dump. */
  ghost predicate ReplaysFirst(files: Files, d: Db, scope: Scope, listing: seq<string>, n: nat, ids: seq<Id>) {
    && AllIn(files, listing)
    && ListsFirst(ids, Kept(d, scope), n)
    && Replay(files, listing) == LinesOf(ids, Kept(d, scope))
  }

  lemma FileReplays(files: Files, d: Db, scope: Scope, t: Table, listing: seq<string>, f: string, before: seq<Id>) returns (ids: seq<Id>)
    requires Holds(files, d, scope, t, f) && ReplaysFirst(files, d, scope, listing, Rank(t), before)
    ensures ReplaysFirst(files, d, scope, listing + [f], Rank(t) + 1, ids)
  {
    var more :| ListsTable(more, Kept(d, scope), t) && files[f] == LinesOf(more, Kept(d, scope));
    NextSection(Replay(files, listing), before, files[f], more, Kept(d, scope), t);
    ids := before + more;
  }

  lemma ReplayNext(files: Files, d: Db, scope: Scope, t: Table, n: nat, listing: seq<string>, f: string, before: seq<Id>) returns (ids: seq<Id>)
    requires Rank(t) == n && ReplaysFirst(files, d, scope, listing, n, before)
    requires HasFile(scope, t) ==> Holds(files, d, scope, t, f)
    ensures ReplaysFirst(files, d, scope, listing + (if HasFile(scope, t) then [f] else []), n + 1, ids)
  {
    if HasFile(scope, t) {
      ids := FileReplays(files, d, scope, t, listing, f, before);
    } else {
      assert listing + [] == listing;
      ids := before;
    }
  }

  /** Tables in their dump order. */
  predicate Ranked(tables: seq<Table>) {
    forall k :: 0 <= k < |tables| ==> Rank(tables[k]) == k
  }

  lemma ReplayAt(files: Files, d: Db, scope: Scope, tables: seq<Table>, names: seq<string>, n: nat, before: seq<Id>) returns (ids: seq<Id>)
    requires Ranked(tables) && n < |tables| == |names| <= 100
    requires HasFile(scope, tables[n]) ==> Holds(files, d, scope, tables[n], FileName(n, names[n]))
    requires ReplaysFirst(files, d, scope, FirstFiles(scope, tables, names, n), n, before)
    ensures ReplaysFirst(files, d, scope, FirstFiles(scope, tables, names, n + 1), n + 1, ids)
  {
    FirstFilesNext(scope, tables, names, n);
    ids := ReplayNext(files, d, scope, tables[n], n, FirstFiles(scope, tables, names, n), FileName(n, names[n]), before);
  }

  /** The files of the first `n` tables hold the first `n` tables of the dump. */
  ghost predicate Replays(files: Files, d: Db, scope: Scope, tables: seq<Table>, names: seq<string>, n: nat)
    requires n <= |tables| == |names| <= 100
  {
    exists ids :: ReplaysFirst(files, d, scope, FirstFiles(scope, tables, names, n), n, ids)
  }

  lemma NothingYet(files: Files, d: Db, scope: Scope, tables: seq<Table>, names: seq<string>)
    requires |tables| == |names| <= 100
    ensures Replays(files, d, scope, tables, names, 0)
  {
    assert FirstFiles(scope, tables, names, 0) == [];
    assert ListsFirst([], Kept(d, scope), 0);
    assert Replay(files, []) == [] && LinesOf([], Kept(d, scope)) == [];
    assert ReplaysFirst(files, d, scope, FirstFiles(scope, tables, names, 0), 0, []);
  }

  lemma ReplayStep(files: Files, d: Db, scope: Scope, tables: seq<Table>, names: seq<string>, n: nat)
    requires Ranked(tables) && n < |tables| == |names| <= 100
    requires FilesHold(files, d, scope, tables, names, |tables|)
    requires Replays(files, d, scope, tables, names, n)
    ensures Replays(files, d, scope, tables, names, n + 1)
  {
    var before :| ReplaysFirst(files, d, scope, FirstFiles(scope, tables, names, n), n, before);
    var ids := ReplayAt(files, d, scope, tables, names, n, before);
  }

  /** The files of the first `n` tables hold them, as far as there are any. */
  ghost predicate Replayed(files: Files, d: Db, scope: Scope, tables: seq<Table>, names: seq<string>, n: nat) {
    n <= |tables| == |names| <= 100 ==> Replays(files, d, scope, tables, names, n)
  }

  lemma {:induction false} ReplayUpTo(files: Files, d: Db, scope: Scope, tables: seq<Table>, names: seq<string>, n: nat)
    requires Ranked(tables) && |tables| == |names| <= 100
    requires FilesHold(files, d, scope, tables, names, |tables|)
    ensures Replayed(files, d, scope, tables, names, n)
    decreases n
  {
    if n == 0 {
      NothingYet(files, d, scope, tables, names);
    } else if n <= |tables| {
      ReplayUpTo(files, d, scope, tables, names, n - 1);
      ReplayStep(files, d, scope, tables, names, n - 1);
    }
  }

  /** Reading a split dump's files in the order of their names, after the manifest, is a single-file dump. */
  lemma SplitReplaysTheDump(files: Files, listing: seq<string>, d: Db, scope: Scope, names: seq<string>, head: string)
    requires |TABLES| == |names| <= 100 && IsSplit(files, d, scope, TABLES, names, |TABLES|)
    requires SortedNames(listing) && forall f :: f in listing <==> f in files
    ensures AllIn(files, listing)
    ensures IsDump([ManifestLine(BACKUP_FORMAT, head)] + Replay(files, listing), d, scope, head)
  {
    SplitFilesReplayInOrder(listing, Positions(scope, TABLES, |TABLES|), names);
    forall k | 0 <= k < |TABLES| ensures Rank(TABLES[k]) == k { RankAtIndex(k); }
    ReplayUpTo(files, d, scope, TABLES, names, |TABLES|);
    var ids :| ReplaysFirst(files, d, scope, FirstFiles(scope, TABLES, names, |TABLES|), |TABLES|, ids);
    AllListed(d, scope, ids);
  }

  /** Restores a split dump: the manifest, then each listed file's lines. */
  method RestoreFromDir(instance: Instance, manifest: Line, files: Files, listing: seq<string>, force: bool)
    returns (counts: Option<Counts>)
    requires AllIn(files, listing)
    modifies instance
    ensures Leaves(Outcome(Target(old(instance.rows), instance.head, force), [manifest] + Replay(files, listing)),
                   old(instance.rows), old(instance.sequences), instance.rows, instance.sequences, counts)
  {
    var rows: seq<Line> := [];
    assert AllIn(files, listing[..0]) && Replay(files, listing[..0]) == [];
    for i := 0 to |listing|
      invariant AllIn(files, listing[..i]) && rows == Replay(files, listing[..i])
      invariant instance.rows == old(instance.rows) && instance.sequences == old(instance.sequences)
    {
      assert listing[..i + 1] == listing[..i] + [listing[i]];
      rows := rows + files[listing[i]];
    }
    assert listing[..|listing|] == listing;
    counts := instance.RestoreLines([manifest] + rows, force);
  }

  /** The split form round-trips exactly when the single file does. */
  lemma SplitRoundTripIff(target: Target, files: Files, listing: seq<string>, d: Db, scope: Scope, names: seq<string>)
    requires WellFormed(d) && |TABLES| == |names| <= 100 && IsSplit(files, d, scope, TABLES, names, |TABLES|)
    requires SortedNames(listing) && forall f :: f in listing <==> f in files
    ensures AllIn(files, listing)
    ensures scope == Everything ==>
      (Rebuilds(target, [ManifestLine(BACKUP_FORMAT, target.head)] + Replay(files, listing), Snapshot(d))
       <==> target.db == map[] || (target.force && IsOccupied(target.db)))
    ensures scope == ConfigOnly ==>
      (Rebuilds(target, [ManifestLine(BACKUP_FORMAT, target.head)] + Replay(files, listing), Configuration(d))
       <==> target.db == map[] || (target.force && IsOccupied(target.db)))
  {
    SplitReplaysTheDump(files, listing, d, scope, names, target.head);
    RoundTripIff(target, d, scope, [ManifestLine(BACKUP_FORMAT, target.head)] + Replay(files, listing));
  }
}
