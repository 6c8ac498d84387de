/**
 Loading a dump: lines are gathered into batches of one table, each batch is one INSERT,
 and the whole load is one transaction. The reference is the loader without batches.
 */
module BackupRestore {
  import opened Options
  import opened BackupTables
  import opened Sets
  import Lines

  datatype Key = Serial(n: int) | Composite(cells: seq<Cell>)

  datatype Id = Id(table: Table, key: Key)

  /** Every table of an instance, by table and primary key. */
  type Db = map<Id, Row>

  // ------------------------------------------------------------ one INSERT

  function Column(row: Row, name: string): Cell {
    if name in row then row[name] else Null
  }

  function Columns(row: Row, names: seq<string>): seq<Cell> {
    seq(|names|, i requires 0 <= i < |names| => Column(row, names[i]))
  }

  function KeyOf(t: Table, row: Row): Option<Key> {
    match CompositeKey(t)
    case None => if Column(row, "id").Num? then Some(Serial(Column(row, "id").n)) else None
    case Some(names) => if Null in Columns(row, names) then None else Some(Composite(Columns(row, names)))
  }

  predicate ParentPresent(db: Db, row: Row, r: Reference) {
    var c := Column(row, r.column);
    c == Null || (c.Num? && Id(r.parent, Serial(c.n)) in db)
  }

  predicate ParentsPresent(db: Db, t: Table, row: Row) {
    forall i :: 0 <= i < |References(t)| ==> ParentPresent(db, row, References(t)[i])
  }

  /** The row has its key, the key is free, and no value is an invalid date. */
  predicate KeyIsFree(db: Db, t: Table, row: Row) {
    && KeyOf(t, row).Some?
    && Id(t, KeyOf(t, row).value) !in db
    && InvalidDate !in row.Values
  }

  function Put(db: Db, t: Table, row: Row): Db
    requires KeyOf(t, row).Some?
  {
    db[Id(t, KeyOf(t, row).value) := row]
  }

  /** Keys are enforced row by row. */
  function PutAll(db: Db, t: Table, rows: seq<Row>): Option<Db>
    decreases |rows|
  {
    if rows == [] then Some(db) else
      var done := PutAll(db, t, rows[..|rows| - 1]);
      var row := rows[|rows| - 1];
      if done.Some? && KeyIsFree(done.value, t, row) then Some(Put(done.value, t, row)) else None
  }

  /** One multi-row INSERT: foreign keys are checked once, when the statement ends. */
  function InsertMany(db: Db, t: Table, rows: seq<Row>): Option<Db> {
    var put := PutAll(db, t, rows);
    if put.Some? && AllParentsPresent(put.value, t, rows) then put else None
  }

  predicate AllParentsPresent(db: Db, t: Table, rows: seq<Row>) {
    forall i :: 0 <= i < |rows| ==> ParentsPresent(db, t, rows[i])
  }

  function InsertOne(db: Db, t: Table, row: Row): Option<Db> {
    if KeyIsFree(db, t, row) && ParentsPresent(db, t, row) then Some(Put(db, t, row)) else None
  }

  /** The same rows, one INSERT each. */
  function InsertEach(db: Db, t: Table, rows: seq<Row>): Option<Db>
    decreases |rows|
  {
    if rows == [] then Some(db) else
      var done := InsertEach(db, t, rows[..|rows| - 1]);
      if done.Some? then InsertOne(done.value, t, rows[|rows| - 1]) else None
  }

  /** A row's parents live in other tables. */
  lemma SameParents(a: Db, b: Db, t: Table, row: Row)
    requires forall id: Id :: id.table != t ==> (id in a <==> id in b)
    ensures ParentsPresent(a, t, row) == ParentsPresent(b, t, row)
  {
    forall i | 0 <= i < |References(t)|
      ensures ParentPresent(a, row, References(t)[i]) == ParentPresent(b, row, References(t)[i])
    {
      ParentsFirst(t, i);
    }
  }

  lemma SameParentsOfAll(a: Db, b: Db, t: Table, rows: seq<Row>)
    requires forall id: Id :: id.table != t ==> (id in a <==> id in b)
    ensures AllParentsPresent(a, t, rows) == AllParentsPresent(b, t, rows)
  {
    forall i | 0 <= i < |rows| ensures ParentsPresent(a, t, rows[i]) == ParentsPresent(b, t, rows[i]) {
      SameParents(a, b, t, rows[i]);
    }
  }

  lemma LastParents(db: Db, t: Table, init: seq<Row>, row: Row)
    ensures AllParentsPresent(db, t, init + [row]) == (AllParentsPresent(db, t, init) && ParentsPresent(db, t, row))
  {
    var rows := init + [row];
    assert forall i :: 0 <= i < |init| ==> rows[i] == init[i];
    assert rows[|init|] == row;
  }

  lemma InsertOneMore(db: Db, t: Table, init: seq<Row>, row: Row)
    ensures InsertMany(db, t, init + [row]) ==
            var done := InsertMany(db, t, init);
            if done.Some? then InsertOne(done.value, t, row) else None
  {
    var before := PutAll(db, t, init);
    if before.Some? && KeyIsFree(before.value, t, row) {
      ParentsAfterPut(before.value, t, init, row);
    }
  }

  lemma ParentsAfterPut(before: Db, t: Table, init: seq<Row>, row: Row)
    requires KeyIsFree(before, t, row)
    ensures AllParentsPresent(Put(before, t, row), t, init + [row])
        <==> AllParentsPresent(before, t, init) && ParentsPresent(before, t, row)
  {
    var all := Put(before, t, row);
    SameParentsOfAll(before, all, t, init);
    SameParents(before, all, t, row);
    LastParents(all, t, init, row);
  }

  /** No table references itself, so a batch does what its rows would do one at a time. */
  lemma {:induction false} BatchIsRowByRow(db: Db, t: Table, rows: seq<Row>)
    ensures InsertMany(db, t, rows) == InsertEach(db, t, rows)
    decreases |rows|
  {
    if rows != [] {
      var init, row := rows[..|rows| - 1], rows[|rows| - 1];
      BatchIsRowByRow(db, t, init);
      assert rows == init + [row];
      InsertOneMore(db, t, init, row);
    }
  }

  // ------------------------------------------------------------ the reference loader

  datatype Name = Known(table: Table) | Unknown(text: string)

  datatype Line = ManifestLine(format: int, schemaHead: string) | RowLine(name: Name, row: WireRow) | Malformed

  type Counts = map<Table, nat>

  datatype Load = Loading(db: Db, checked: bool, counts: Counts) | Failed

  /** What a restore starts from: committed rows, migration head, and the caller's `force`. */
  datatype Target = Target(db: Db, head: string, force: bool)

  const PROBES := {Users, UrlMonitors, ApiChecks, TcpMonitors, UdpMonitors, DbMonitors, TlsMonitors, QaProjects, ApiKeys}

  /** `targetIsEmpty`: only these tables are counted. */
  predicate LooksEmpty(db: Db) {
    forall id :: id in db ==> id.table !in PROBES
  }

  function Tallied(counts: Counts, t: Table, k: nat): Counts {
    counts[t := k + if t in counts then counts[t] else 0]
  }

  /**
   A manifest line. The emptiness probe runs on another connection, so it sees committed
   rows only, and once this transaction has truncated the tables it waits for ever.
   Truncation cascades: sessions go with their users.
   */
  function Admit(target: Target, s: Load, format: int, head: string): Load
    requires s.Loading?
  {
    if format != BACKUP_FORMAT || head != target.head then Failed
    else if LooksEmpty(target.db) then s.(checked := true)
    else if !target.force || s.checked then Failed
    else s.(db := map[], checked := true)
  }

  function AddRow(s: Load, name: Name, row: WireRow): Load {
    if s.Failed? || !s.checked || name.Unknown? || name.table == Sessions then Failed else
      var inserted := InsertOne(s.db, name.table, HydrateRow(name.table, row));
      if inserted.Some? then Loading(inserted.value, true, Tallied(s.counts, name.table, 1)) else Failed
  }

  function Consume(target: Target, s: Load, line: Line): Load {
    if s.Failed? then Failed else
      match line
      case Malformed => Failed
      case ManifestLine(format, head) => Admit(target, s, format, head)
      case RowLine(name, row) => AddRow(s, name, row)
  }

  /** Every line at once takes effect. */
  function Loaded(target: Target, lines: seq<Line>): Load
    decreases |lines|
  {
    if lines == [] then Loading(target.db, false, map[])
    else Consume(target, Loaded(target, lines[..|lines| - 1]), lines[|lines| - 1])
  }

  datatype Restored = Restored(db: Db, counts: Counts)

  /** What a restore commits, if it commits. */
  function Outcome(target: Target, lines: seq<Line>): Option<Restored> {
    var end := Loaded(target, lines);
    if end.Loading? && end.checked then Some(Restored(end.db, end.counts)) else None
  }

  lemma {:induction false} FailureStays(target: Target, lines: seq<Line>, n: nat)
    requires n <= |lines| && Loaded(target, lines[..n]).Failed?
    ensures Loaded(target, lines).Failed?
    decreases |lines|
  {
    if n < |lines| {
      assert lines[..|lines| - 1][..n] == lines[..n];
      FailureStays(target, lines[..|lines| - 1], n);
    } else {
      assert lines[..n] == lines;
    }
  }

  // ------------------------------------------------------------ the batching loader

  function AddRows(s: Load, name: Name, rows: seq<WireRow>): Load
    decreases |rows|
  {
    if rows == [] then s else AddRow(AddRows(s, name, rows[..|rows| - 1]), name, rows[|rows| - 1])
  }

  function HydrateAll(t: Table, rows: seq<WireRow>): seq<Row> {
    seq(|rows|, i requires 0 <= i < |rows| => HydrateRow(t, rows[i]))
  }

  /** Rows waiting in a batch, seen as rows already added. */
  lemma HydrateLast(t: Table, rows: seq<WireRow>)
    requires rows != []
    ensures var all := HydrateAll(t, rows);
            && all[..|all| - 1] == HydrateAll(t, rows[..|rows| - 1]) && all[|all| - 1] == HydrateRow(t, rows[|rows| - 1])
  {
  }

  lemma EachLast(db: Db, t: Table, rows: seq<WireRow>)
    requires rows != []
    ensures InsertEach(db, t, HydrateAll(t, rows)) ==
            var done := InsertEach(db, t, HydrateAll(t, rows[..|rows| - 1]));
            if done.Some? then InsertOne(done.value, t, HydrateRow(t, rows[|rows| - 1])) else None
  {
    HydrateLast(t, rows);
  }

  /** The load once rows of a table are in, `n` of them. */
  function LoadedWith(s: Load, t: Table, db: Option<Db>, n: nat): Load
    requires s.Loading?
  {
    if db.Some? then Loading(db.value, true, if n == 0 then s.counts else Tallied(s.counts, t, n)) else Failed
  }

  lemma AddOne(s: Load, t: Table, before: Load, db: Option<Db>, n: nat, row: WireRow)
    requires s.Loading? && t != Sessions && before == LoadedWith(s, t, db, n)
    ensures AddRow(before, Known(t), row)
         == LoadedWith(s, t, if db.Some? then InsertOne(db.value, t, HydrateRow(t, row)) else None, n + 1)
  {
    if n > 0 { TallyMore(s.counts, t, n); }
  }

  lemma NothingPending(s: Load, t: Table)
    requires s.Loading? && s.checked
    ensures AddRows(s, Known(t), []) == LoadedWith(s, t, InsertEach(s.db, t, HydrateAll(t, [])), 0)
  {
  }

  lemma {:induction false} PendingIsEach(s: Load, t: Table, rows: seq<WireRow>)
    requires s.Loading? && s.checked && t != Sessions
    ensures AddRows(s, Known(t), rows) == LoadedWith(s, t, InsertEach(s.db, t, HydrateAll(t, rows)), |rows|)
    decreases |rows|
  {
    if rows == [] {
      NothingPending(s, t);
    } else {
      var init, last := rows[..|rows| - 1], rows[|rows| - 1];
      PendingIsEach(s, t, init);
      AddOne(s, t, AddRows(s, Known(t), init), InsertEach(s.db, t, HydrateAll(t, init)), |init|, last);
      EachLast(s.db, t, rows);
    }
  }

  lemma TallyMore(counts: Counts, t: Table, k: nat)
    ensures Tallied(Tallied(counts, t, k), t, 1) == Tallied(counts, t, k + 1)
  {
  }

  function Parsed(parse: string -> Line, texts: seq<string>): seq<Line> {
    seq(|texts|, i requires 0 <= i < |texts| => parse(texts[i]))
  }

  /** A failed load changes nothing; one that commits also sets the sequences. */
  predicate Leaves(outcome: Option<Restored>, rows: Db, sequences: map<Table, int>,
                   rows': Db, sequences': map<Table, int>, counts: Option<Counts>)
  {
    match outcome
    case None => counts == None && rows' == rows && sequences' == sequences
    case Some(r) => counts == Some(r.counts) && rows' == r.db && SequencesPastRows(rows', sequences', |TABLES|)
  }

  /** An instance's database, as the restore changes it. */
  class Instance {
    var rows: Db
    var sequences: map<Table, int>  // last id handed out
    const head: string

    constructor (rows: Db, sequences: map<Table, int>, head: string)
      ensures this.rows == rows && this.sequences == sequences && this.head == head
    {
      this.rows, this.sequences, this.head := rows, sequences, head;
    }

    /** Inserts the waiting batch inside the open transaction. */
    static method Flush(s: Load, name: Name, pending: seq<WireRow>) returns (after: Load)
      requires s.Loading? && |pending| <= WRITE_BATCH
      requires pending != [] ==> s.checked
      ensures after == AddRows(s, name, pending)
    {
      if |pending| == 0 { return s; }
      if name.Unknown? || name.table == Sessions {
        return Failed;
      }
      var t := name.table;
      var hydrated: seq<Row> := [];
      for i := 0 to |pending|
        invariant hydrated == HydrateAll(t, pending[..i])
      {
        var out := Hydrate(t, pending[i]);
        hydrated := hydrated + [out];
      }
      assert pending[..|pending|] == pending;
      BatchIsRowByRow(s.db, t, hydrated);
      PendingIsEach(s, t, pending);
      var inserted := InsertMany(s.db, t, hydrated);
      if inserted.None? { return Failed; }
      after := Loading(inserted.value, true, Tallied(s.counts, t, |pending|));
    }

    /**
     One line: it joins the waiting batch, which goes in first if it is another table's and
     at once if it is full. A manifest takes effect immediately.
     */
    static method Take(target: Target, tx: Load, name: Name, pending: seq<WireRow>, line: Line)
      returns (tx': Load, name': Name, pending': seq<WireRow>)
      requires tx.Loading? && |pending| < WRITE_BATCH && (pending != [] ==> tx.checked)
      ensures tx'.Failed? ==> Consume(target, AddRows(tx, name, pending), line).Failed?
      ensures tx'.Loading? ==>
                && |pending'| < WRITE_BATCH && (pending' != [] ==> tx'.checked)
                && AddRows(tx', name', pending') == Consume(target, AddRows(tx, name, pending), line)
    {
      tx', name', pending' := tx, name, pending;
      AddedKeepsCheck(tx, name, pending);
      match line {
        case Malformed =>
          tx' := Failed;
        case ManifestLine(format, schemaHead) =>
          tx' := Admit(target, tx, format, schemaHead);
        case RowLine(t, row) =>
          if !tx.checked {
            tx' := Failed;
            return;
          }
          if t != name {
            tx' := Flush(tx, name, pending);
            if tx'.Failed? { return; }
            name', pending' := t, [];
          }
          pending' := pending' + [row];
          if |pending'| >= WRITE_BATCH {
            tx' := Flush(tx', t, pending');
            pending' := [];
          }
      }
    }

    /**
     Restores a dump. However rows fall into batches, what is committed, what is counted and
     whether the load fails are as if each line took effect on its own; a failed load
     changes nothing.
     */
    method RestoreLines(lines: seq<Line>, force: bool) returns (counts: Option<Counts>)
      modifies this
      ensures Leaves(Outcome(Target(old(rows), head, force), lines), old(rows), old(sequences), rows, sequences, counts)
    {
      var target := Target(rows, head, force);
      var tx, pendingName, pending := Loading(rows, false, map[]), Unknown(""), [];
      for i := 0 to |lines|
        invariant tx.Loading? && |pending| < WRITE_BATCH && rows == old(rows) && sequences == old(sequences)
        invariant pending != [] ==> tx.checked
        invariant Loaded(target, lines[..i]) == AddRows(tx, pendingName, pending)
      {
        LoadedNext(target, lines, i);
        tx, pendingName, pending := Take(target, tx, pendingName, pending, lines[i]);
        if tx.Failed? {
          FailureStays(target, lines, i + 1);
          return None;
        }
      }
      assert lines[..|lines|] == lines;
      tx := Flush(tx, pendingName, pending);
      if tx.Failed? || !tx.checked { return None; }
      rows := tx.db;
      sequences := SetSequences(rows, sequences);
      return Some(tx.counts);
    }

    /** After the commit, each sequence is set past its table's ids. */
    static method SetSequences(rows: Db, before: map<Table, int>) returns (sequences: map<Table, int>)
      ensures SequencesPastRows(rows, sequences, |TABLES|)
    {
      sequences := before;
      for i := 0 to |TABLES|
        invariant SequencesPastRows(rows, sequences, i)
      {
        RankAtIndex(i);
        var last := LastSerial(rows, TABLES[i]);
        if IsSerial(TABLES[i]) { sequences := sequences[TABLES[i] := last]; }
      }
    }

    /** The same, from text that arrives in chunks; `parse` is JSON.parse of one line. */
    method RestoreStream(chunks: seq<string>, parse: string -> Line, force: bool) returns (counts: Option<Counts>)
      modifies this
      ensures Leaves(Outcome(Target(old(rows), head, force), Parsed(parse, Lines.AllLines(Lines.Concat(chunks)))),
                     old(rows), old(sequences), rows, sequences, counts)
    {
      var texts := Lines.LinesFromStream(chunks);
      var lines: seq<Line> := [];
      for i := 0 to |texts|
        invariant lines == Parsed(parse, texts[..i]) && rows == old(rows) && sequences == old(sequences)
      {
        lines := lines + [parse(texts[i])];
      }
      assert texts[..|texts|] == texts;
      counts := RestoreLines(lines, force);
    }
  }

  /** Waiting rows do not change whether a manifest has been seen. */
  lemma {:induction false} AddedKeepsCheck(s: Load, name: Name, rows: seq<WireRow>)
    requires s.Loading?
    ensures AddRows(s, name, rows).Loading? ==> AddRows(s, name, rows).checked == s.checked
    decreases |rows|
  {
    if rows != [] { AddedKeepsCheck(s, name, rows[..|rows| - 1]); }
  }

  lemma LoadedNext(target: Target, lines: seq<Line>, i: nat)
    requires i < |lines|
    ensures Loaded(target, lines[..i + 1]) == Consume(target, Loaded(target, lines[..i]), lines[i])
  {
    assert lines[..i + 1][..i] == lines[..i];
  }

  // ------------------------------------------------------------ sequences

  function Serials(db: Db, t: Table): set<int> {
    set id | id in db && id.table == t && id.key.Serial? :: id.key.n
  }

  /** The greatest id of the table, or 1. */
  predicate IsLast(db: Db, t: Table, last: int) {
    && last >= 1
    && (forall id :: id in db && id.table == t && id.key.Serial? ==> id.key.n <= last)
    && (last == 1 || Id(t, Serial(last)) in db)
  }

  /** The sequences of the first `n` tables were set. */
  predicate SequencesPastRows(db: Db, sequences: map<Table, int>, n: nat) {
    forall t: Table :: t != Sessions && IsSerial(t) && Rank(t) < n ==> t in sequences && IsLast(db, t, sequences[t])
  }

  /** GREATEST(COALESCE(MAX(id), 0), 1). */
  method LastSerial(db: Db, t: Table) returns (last: int)
    ensures IsLast(db, t, last)
  {
    var all := Serials(db, t);
    var rest := all;
    last := 1;
    while rest != {}
      invariant rest <= all
      invariant last >= 1 && (last == 1 || last in all)
      invariant forall n :: n in all && n !in rest ==> n <= last
      decreases rest
    {
      Inhabited(rest);
      var n :| n in rest;
      if n > last { last := n; }
      rest := rest - {n};
    }
    forall id | id in db && id.table == t && id.key.Serial? ensures id.key.n <= last { assert id.key.n in all; }
  }

  /** The next id a table hands out is free. */
  lemma NextIdIsFree(db: Db, sequences: map<Table, int>, t: Table)
    requires SequencesPastRows(db, sequences, |TABLES|) && t != Sessions && IsSerial(t)
    ensures t in sequences && Id(t, Serial(sequences[t] + 1)) !in db
  {
    TableAtRank(t);
  }
}
