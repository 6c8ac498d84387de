/**
 What an import makes of a bundle, told entry by entry: the id each kept entry gets, the row
 each reference names, and from these the bindings and page rows that are written.
 */
module ImportNames {
  import opened Options
  import opened Import
  import opened ImportProofs

  // ------------------------------------------------------------ entries and their ids

  /** The entry becomes a row: nothing failed, or only children it does not have. */
  predicate IsGood(k: Kind, rows: seq<Row>, i: int) {
    && 0 <= i < |rows| && rows[i].Row?
    && (rows[i].fault == Accepted ||
        (rows[i].fault == ChildrenFail && (rows[i].children == 0 || (k != Url && k != Api && k != Qa))))
  }

  /** How many of the entries draw an id: all but nulls and entries that fail their schema. */
  function Draws(rows: seq<Row>): nat
    decreases |rows|
  {
    if rows == [] then 0 else
      var last := rows[|rows| - 1];
      Draws(rows[..|rows| - 1]) + if last.Row? && last.fault != Invalid then 1 else 0
  }

  /** The id the i-th entry draws. */
  function IdAt(start: Db, k: Kind, rows: seq<Row>, i: int): int
    requires 0 <= i < |rows|
  {
    Next(start, k) + Draws(rows[..i])
  }

  /** A row is in under this id, as it is in the bundle and with exactly its children. */
  ghost predicate IsStored(db: Db, k: Kind, n: int, row: Row)
    requires row.Row?
  {
    && Id(k, n) in db.rows && db.rows[Id(k, n)] == FromRow(row)
    && forall j: nat :: Child(Id(k, n), j) in db.children <==> (k == Url || k == Api || k == Qa) && j < row.children
  }

  /** The new rows of a table are the good entries, each under its id. */
  ghost predicate Placed(start: Db, db: Db, k: Kind, rows: seq<Row>) {
    && Next(db, k) == Next(start, k) + Draws(rows)
    && (forall i :: IsGood(k, rows, i) ==> IsStored(db, k, IdAt(start, k, rows, i), rows[i]))
    && (forall id :: IsNew(start, db, id) && id.kind == k ==> exists i :: IsGood(k, rows, i) && id.n == IdAt(start, k, rows, i))
  }

  /** The last good entry with this bundle id. */
  predicate IsNamed(k: Kind, rows: seq<Row>, ref: int, i: int) {
    && IsGood(k, rows, i) && rows[i].ref == Some(ref)
    && forall j :: i < j < |rows| && IsGood(k, rows, j) ==> rows[j].ref != Some(ref)
  }

  /** The mapping of a table sends a bundle id to the id that entry was given, and knows no other. */
  ghost predicate MapIs(start: Db, m: map<int, int>, k: Kind, rows: seq<Row>) {
    && (forall ref :: ref in m ==> exists i :: IsNamed(k, rows, ref, i) && m[ref] == IdAt(start, k, rows, i))
    && (forall ref, i :: IsNamed(k, rows, ref, i) ==> ref in m && m[ref] == IdAt(start, k, rows, i))
  }

  ghost predicate IsBound(start: Db, k: Kind, rows: seq<Row>, i: int, b: Bound) {
    && (k == Url || k == Api) && IsGood(k, rows, i) && rows[i].refs != []
    && b == Bound(Id(k, IdAt(start, k, rows, i)), rows[i].refs, rows[i].name)
  }

  /** The monitors of a table that wait to be bound are its good entries that list channels. */
  ghost predicate PendingIs(start: Db, pending: seq<Bound>, k: Kind, rows: seq<Row>) {
    && (forall b :: b in pending && b.monitor.kind == k ==> exists i :: IsBound(start, k, rows, i, b))
    && (forall i, b :: IsBound(start, k, rows, i, b) ==> b in pending)
  }

  ghost predicate Told(start: Db, s: State, k: Kind, rows: seq<Row>) {
    && Placed(start, s.db, k, rows)
    && (k == Url || k == Api || k == Channel ==> MapIs(start, MapOf(s.maps, k), k, rows))
    && PendingIs(start, s.pending, k, rows)
  }

  // ------------------------------------------------------------ one more entry

  lemma IdsStay(start: Db, k: Kind, rows: seq<Row>)
    requires rows != []
    ensures forall i :: 0 <= i < |rows| - 1 ==> IdAt(start, k, rows[..|rows| - 1], i) == IdAt(start, k, rows, i)
    ensures IdAt(start, k, rows, |rows| - 1) == Next(start, k) + Draws(rows[..|rows| - 1])
    ensures forall i :: IsGood(k, rows[..|rows| - 1], i) <==> IsGood(k, rows, i) && i < |rows| - 1
  {
    var init := rows[..|rows| - 1];
    forall i ensures IsGood(k, init, i) <==> IsGood(k, rows, i) && i < |rows| - 1 {
      if 0 <= i < |init| { assert init[i] == rows[i]; }
    }
    forall i | 0 <= i < |init| ensures IdAt(start, k, init, i) == IdAt(start, k, rows, i) { assert init[..i] == rows[..i]; }
  }

  /** What is good goes in. */
  lemma GoodIff(k: Kind, rows: seq<Row>, i: int)
    requires 0 <= i < |rows|
    ensures IsGood(k, rows, i) <==> rows[i].Row? && !Fails(k, rows[i])
    ensures rows[i].Row? ==> ChildrenOf(k, rows[i]) == if k == Url || k == Api || k == Qa then rows[i].children else 0
  {
  }

  lemma NewIsStored(db: Db, k: Kind, row: Row)
    requires WellFormed(db) && row.Row?
    ensures IsStored(Inserted(db, k, ChildrenOf(k, row), FromRow(row)), k, Next(db, k), row)
  {
  }

  lemma StaysStored(db: Db, k: Kind, n: int, row: Row, j: Kind, more: Row)
    requires WellFormed(db) && row.Row? && more.Row? && IsStored(db, k, n, row)
    ensures IsStored(Inserted(db, j, ChildrenOf(j, more), FromRow(more)), k, n, row)
  {
    assert Id(k, n) != Id(j, Next(db, j));
  }

  lemma PlacedKept(start: Db, db: Db, k: Kind, rows: seq<Row>)
    requires WellFormed(db) && rows != [] && Placed(start, db, k, rows[..|rows| - 1]) && IsGood(k, rows, |rows| - 1)
    ensures Placed(start, Inserted(db, k, ChildrenOf(k, rows[|rows| - 1]), FromRow(rows[|rows| - 1])), k, rows)
  {
    var n := |rows| - 1;
    var init, row := rows[..n], rows[n];
    var after := Inserted(db, k, ChildrenOf(k, row), FromRow(row));
    IdsStay(start, k, rows);
    forall i | IsGood(k, rows, i) ensures IsStored(after, k, IdAt(start, k, rows, i), rows[i]) {
      if i == n { NewIsStored(db, k, row); } else { StaysStored(db, k, IdAt(start, k, init, i), init[i], k, row); }
    }
    forall id | IsNew(start, after, id) && id.kind == k ensures exists i :: IsGood(k, rows, i) && id.n == IdAt(start, k, rows, i) {
      if id.n == Next(db, k) {
        assert IsGood(k, rows, n);
      } else {
        var i :| IsGood(k, init, i) && id.n == IdAt(start, k, init, i);
        assert IsGood(k, rows, i);
      }
    }
  }

  /** A skipped entry changes at most the next id. */
  lemma PlacedSkipped(start: Db, db: Db, after: Db, k: Kind, rows: seq<Row>)
    requires rows != [] && Placed(start, db, k, rows[..|rows| - 1]) && !IsGood(k, rows, |rows| - 1)
    requires after.(next := db.next) == db && Next(after, k) == Next(start, k) + Draws(rows)
    ensures Placed(start, after, k, rows)
  {
    var init := rows[..|rows| - 1];
    IdsStay(start, k, rows);
    forall i | IsGood(k, rows, i) ensures IsStored(after, k, IdAt(start, k, rows, i), rows[i]) {
      assert IsStored(db, k, IdAt(start, k, init, i), init[i]);
    }
    forall id | IsNew(start, after, id) && id.kind == k ensures exists i :: IsGood(k, rows, i) && id.n == IdAt(start, k, rows, i) {
      var i :| IsGood(k, init, i) && id.n == IdAt(start, k, init, i);
      assert IsGood(k, rows, i);
    }
  }

  lemma NamedNext(k: Kind, rows: seq<Row>, ref: int, i: int)
    requires rows != []
    ensures IsNamed(k, rows, ref, i) <==>
      if IsGood(k, rows, |rows| - 1) && rows[|rows| - 1].ref == Some(ref) then i == |rows| - 1 else IsNamed(k, rows[..|rows| - 1], ref, i)
  {
    var n := |rows| - 1;
    var init := rows[..n];
    assert forall j :: IsGood(k, init, j) <==> IsGood(k, rows, j) && j < n;
    assert forall j :: 0 <= j < n ==> init[j] == rows[j];
  }

  lemma MapKept(start: Db, m: map<int, int>, k: Kind, rows: seq<Row>)
    requires rows != [] && MapIs(start, m, k, rows[..|rows| - 1]) && IsGood(k, rows, |rows| - 1)
    ensures var last := rows[|rows| - 1].ref;
            MapIs(start, if last.Some? then m[last.value := IdAt(start, k, rows, |rows| - 1)] else m, k, rows)
  {
    var n := |rows| - 1;
    var init, last := rows[..n], rows[n].ref;
    var m1 := if last.Some? then m[last.value := IdAt(start, k, rows, n)] else m;
    IdsStay(start, k, rows);
    forall ref, i | IsNamed(k, rows, ref, i) ensures ref in m1 && m1[ref] == IdAt(start, k, rows, i) {
      NamedNext(k, rows, ref, i);
    }
    forall ref | ref in m1 ensures exists i :: IsNamed(k, rows, ref, i) && m1[ref] == IdAt(start, k, rows, i) {
      if last == Some(ref) {
        NamedNext(k, rows, ref, n);
      } else {
        var i :| IsNamed(k, init, ref, i) && m[ref] == IdAt(start, k, init, i);
        NamedNext(k, rows, ref, i);
      }
    }
  }

  lemma MapSkipped(start: Db, m: map<int, int>, k: Kind, rows: seq<Row>)
    requires rows != [] && MapIs(start, m, k, rows[..|rows| - 1]) && !IsGood(k, rows, |rows| - 1)
    ensures MapIs(start, m, k, rows)
  {
    IdsStay(start, k, rows);
    forall ref, i | IsNamed(k, rows, ref, i) ensures ref in m && m[ref] == IdAt(start, k, rows, i) {
      NamedNext(k, rows, ref, i);
    }
    forall ref | ref in m ensures exists i :: IsNamed(k, rows, ref, i) && m[ref] == IdAt(start, k, rows, i) {
      var i :| IsNamed(k, rows[..|rows| - 1], ref, i) && m[ref] == IdAt(start, k, rows[..|rows| - 1], i);
      NamedNext(k, rows, ref, i);
    }
  }

  lemma BoundNext(start: Db, k: Kind, rows: seq<Row>, i: int, b: Bound)
    requires rows != []
    ensures IsBound(start, k, rows, i, b) <==>
      IsBound(start, k, rows[..|rows| - 1], i, b) || (i == |rows| - 1 && IsBound(start, k, rows, i, b))
  {
    IdsStay(start, k, rows);
  }

  /** The last entry adds what it waits for, if it does. */
  lemma PendingNext(start: Db, before: seq<Bound>, added: seq<Bound>, k: Kind, rows: seq<Row>)
    requires rows != [] && PendingIs(start, before, k, rows[..|rows| - 1])
    requires forall b :: b in added <==> IsBound(start, k, rows, |rows| - 1, b)
    ensures PendingIs(start, before + added, k, rows)
  {
    forall b | b in before + added && b.monitor.kind == k ensures exists i :: IsBound(start, k, rows, i, b) {
      if b in added {
        assert IsBound(start, k, rows, |rows| - 1, b);
      } else {
        var i :| IsBound(start, k, rows[..|rows| - 1], i, b);
        BoundNext(start, k, rows, i, b);
      }
    }
    forall i, b | IsBound(start, k, rows, i, b) ensures b in before + added { BoundNext(start, k, rows, i, b); }
  }

  lemma KeptTold(start: Db, s: State, k: Kind, rows: seq<Row>)
    requires WellFormed(s.db) && rows != [] && Told(start, s, k, rows[..|rows| - 1]) && IsGood(k, rows, |rows| - 1)
    ensures Told(start, KeepRow(s, k, rows[|rows| - 1]), k, rows)
  {
    var n := |rows| - 1;
    var row, t := rows[n], KeepRow(s, k, rows[n]);
    IdsStay(start, k, rows);
    PlacedKept(start, s.db, k, rows);
    if k in {Url, Api, Channel} { MapKept(start, MapOf(s.maps, k), k, rows); }
    var added := if k in {Url, Api} && row.refs != [] then [Bound(Id(k, Next(s.db, k)), row.refs, row.name)] else [];
    PendingNext(start, s.pending, added, k, rows);
    assert t.pending == s.pending + added;
  }

  lemma SkippedTold(start: Db, s: State, t: State, k: Kind, rows: seq<Row>)
    requires rows != [] && Told(start, s, k, rows[..|rows| - 1]) && !IsGood(k, rows, |rows| - 1)
    requires t.db.(next := s.db.next) == s.db && Next(t.db, k) == Next(start, k) + Draws(rows)
    requires t.maps == s.maps && t.pending == s.pending
    ensures Told(start, t, k, rows)
  {
    PlacedSkipped(start, s.db, t.db, k, rows);
    if k in {Url, Api, Channel} { MapSkipped(start, MapOf(s.maps, k), k, rows); }
    PendingNext(start, s.pending, [], k, rows);
    assert s.pending + [] == s.pending;
  }

  lemma RowTold(start: Db, s: State, k: Kind, rows: seq<Row>)
    requires WellFormed(s.db) && rows != [] && Told(start, s, k, rows[..|rows| - 1])
    requires ImportRow(s, k, rows[|rows| - 1]).Some?
    ensures Told(start, ImportRow(s, k, rows[|rows| - 1]).value, k, rows)
  {
    GoodIff(k, rows, |rows| - 1);
    if IsGood(k, rows, |rows| - 1) {
      KeptTold(start, s, k, rows);
    } else {
      SkippedTold(start, s, ImportRow(s, k, rows[|rows| - 1]).value, k, rows);
    }
  }

  /** Nothing of another table changes. */
  ghost predicate SameTable(a: Db, b: Db, k: Kind) {
    && Next(a, k) == Next(b, k)
    && (forall n :: (Id(k, n) in a.rows <==> Id(k, n) in b.rows) && (Id(k, n) in a.rows ==> a.rows[Id(k, n)] == b.rows[Id(k, n)]))
    && (forall n, j :: Child(Id(k, n), j) in a.children <==> Child(Id(k, n), j) in b.children)
  }

  lemma StaysPlaced(start: Db, a: Db, b: Db, k: Kind, rows: seq<Row>)
    requires SameTable(a, b, k) && Placed(start, a, k, rows)
    ensures Placed(start, b, k, rows)
  {
    forall i | IsGood(k, rows, i) ensures IsStored(b, k, IdAt(start, k, rows, i), rows[i]) {
      assert IsStored(a, k, IdAt(start, k, rows, i), rows[i]);
    }
    forall id | IsNew(start, b, id) && id.kind == k ensures exists i :: IsGood(k, rows, i) && id.n == IdAt(start, k, rows, i) {
      assert Id(k, id.n) == id;
      assert IsNew(start, a, id);
    }
  }

  lemma OtherTable(s: State, j: Kind, row: Row, k: Kind)
    requires ImportRow(s, j, row).Some? && j != k
    ensures SameTable(s.db, ImportRow(s, j, row).value.db, k)
    ensures MapOf(ImportRow(s, j, row).value.maps, k) == MapOf(s.maps, k)
    ensures forall b :: b in ImportRow(s, j, row).value.pending && b.monitor.kind == k <==> b in s.pending && b.monitor.kind == k
  {
    if row.Row? {
      OtherInserted(s.db, j, ChildrenOf(j, row), FromRow(row), k);
      OtherKept(s, j, row, k);
    }
  }

  lemma OtherInserted(db: Db, j: Kind, children: nat, origin: Origin, k: Kind)
    requires j != k
    ensures SameTable(db, Inserted(db, j, children, origin), k) && SameTable(db, Drawn(db, j), k)
  {
  }

  lemma OtherKept(s: State, j: Kind, row: Row, k: Kind)
    requires row.Row? && j != k
    ensures MapOf(KeepRow(s, j, row).maps, k) == MapOf(s.maps, k)
    ensures forall b :: b in KeepRow(s, j, row).pending && b.monitor.kind == k <==> b in s.pending && b.monitor.kind == k
  {
  }

  lemma OtherTold(start: Db, s: State, j: Kind, row: Row, k: Kind, rows: seq<Row>)
    requires ImportRow(s, j, row).Some? && j != k && Told(start, s, k, rows)
    ensures Told(start, ImportRow(s, j, row).value, k, rows)
  {
    OtherTable(s, j, row, k);
    StaysPlaced(start, s.db, ImportRow(s, j, row).value.db, k, rows);
  }

  lemma {:induction false} OthersTold(start: Db, s: State, j: Kind, more: seq<Row>, k: Kind, rows: seq<Row>)
    requires ImportRows(s, j, more).Some? && j != k && Told(start, s, k, rows)
    ensures Told(start, ImportRows(s, j, more).value, k, rows)
    decreases |more|
  {
    if more != [] {
      OthersTold(start, s, j, more[..|more| - 1], k, rows);
      OtherTold(start, ImportRows(s, j, more[..|more| - 1]).value, j, more[|more| - 1], k, rows);
    }
  }

  lemma {:induction false} RowsTold(start: Db, s: State, k: Kind, rows: seq<Row>)
    requires WellFormed(start) && Inv(start, s) && k != Page && ImportRows(s, k, rows).Some? && Told(start, s, k, [])
    ensures Told(start, ImportRows(s, k, rows).value, k, rows)
    decreases |rows|
  {
    if rows != [] {
      RowsTold(start, s, k, rows[..|rows| - 1]);
      RowsInv(start, s, k, rows[..|rows| - 1]);
      RowTold(start, ImportRows(s, k, rows[..|rows| - 1]).value, k, rows);
    }
  }

  // ------------------------------------------------------------ all the lists

  function RowsOf(b: Bundle, k: Kind): seq<Row> {
    match k
    case Url => b.urls
    case Api => b.apis
    case Tcp => b.tcps
    case Heartbeat => b.heartbeats
    case Udp => b.udps
    case Qa => b.qas
    case Channel => b.channels
    case Page => []
  }

  /** The lists in `done` are imported, and nothing else. */
  ghost predicate ToldAll(start: Db, s: State, b: Bundle, done: set<Kind>) {
    && Inv(start, s) && s.db.pageRows == start.pageRows
    && forall k :: Told(start, s, k, if k in done then RowsOf(b, k) else [])
  }

  lemma {:induction false} RowsKeepPageRows(s: State, k: Kind, rows: seq<Row>)
    requires ImportRows(s, k, rows).Some?
    ensures ImportRows(s, k, rows).value.db.pageRows == s.db.pageRows
    decreases |rows|
  {
    if rows != [] { RowsKeepPageRows(s, k, rows[..|rows| - 1]); }
  }

  lemma ListTold(start: Db, s: Option<State>, b: Bundle, done: set<Kind>, k: Kind)
    requires WellFormed(start) && k !in done && k != Page && Then(s, k, RowsOf(b, k)).Some?
    requires ToldAll(start, s.value, b, done)
    ensures ToldAll(start, Then(s, k, RowsOf(b, k)).value, b, done + {k})
  {
    var rows := RowsOf(b, k);
    RowsInv(start, s.value, k, rows);
    RowsKeepPageRows(s.value, k, rows);
    forall j ensures Told(start, ImportRows(s.value, k, rows).value, j, if j in done + {k} then RowsOf(b, j) else []) {
      if j == k {
        RowsTold(start, s.value, k, rows);
      } else {
        OthersTold(start, s.value, k, rows, j, if j in done then RowsOf(b, j) else []);
      }
    }
  }

  /** The order the lists are imported in; pages follow. */
  const ORDER := [Url, Api, Tcp, Heartbeat, Udp, Qa, Channel]

  /** The first `n` lists. */
  function FirstLists(db: Db, b: Bundle, n: nat): Option<State>
    requires n <= |ORDER|
  {
    if n == 0 then Some(Begin(db)) else Then(FirstLists(db, b, n - 1), ORDER[n - 1], RowsOf(b, ORDER[n - 1]))
  }

  lemma NextList(db: Db, b: Bundle, n: nat, k: Kind)
    requires n < |ORDER| && ORDER[n] == k
    ensures FirstLists(db, b, n + 1) == Then(FirstLists(db, b, n), k, RowsOf(b, k))
  {
  }

  lemma InOrder(db: Db, b: Bundle)
    ensures FirstLists(db, b, 7) == Monitors(db, b)
  {
    NextList(db, b, 0, Url);
    NextList(db, b, 1, Api);
    NextList(db, b, 2, Tcp);
    NextList(db, b, 3, Heartbeat);
    NextList(db, b, 4, Udp);
    NextList(db, b, 5, Qa);
    NextList(db, b, 6, Channel);
  }

  function Done(n: nat): set<Kind>
    requires n <= |ORDER|
  {
    set k | k in ORDER[..n]
  }

  lemma DoneNext(n: nat)
    requires n < |ORDER|
    ensures Done(n + 1) == Done(n) + {ORDER[n]} && ORDER[n] !in Done(n) && ORDER[n] != Page
  {
    assert ORDER[..n + 1] == ORDER[..n] + [ORDER[n]];
  }

  lemma {:induction false} FirstTold(db: Db, b: Bundle, n: nat)
    requires WellFormed(db) && n <= |ORDER| && FirstLists(db, b, n).Some?
    ensures ToldAll(db, FirstLists(db, b, n).value, b, Done(n))
    decreases n
  {
    if n > 0 {
      FirstTold(db, b, n - 1);
      DoneNext(n - 1);
      ListTold(db, FirstLists(db, b, n - 1), b, Done(n - 1), ORDER[n - 1]);
    }
  }

  lemma EveryListDone(k: Kind)
    ensures k == Page || k in Done(7)
  {
    assert ORDER[..7] == ORDER;
    assert ORDER[0] == Url && ORDER[1] == Api && ORDER[2] == Tcp && ORDER[3] == Heartbeat;
    assert ORDER[4] == Udp && ORDER[5] == Qa && ORDER[6] == Channel;
  }

  lemma AllTold(start: Db, s: State, b: Bundle, done: set<Kind>)
    requires ToldAll(start, s, b, done) && forall k :: k == Page || k in done
    ensures forall k :: Told(start, s, k, RowsOf(b, k))
  {
    forall k ensures Told(start, s, k, RowsOf(b, k)) { assert RowsOf(b, Page) == []; }
  }

  lemma MonitorsTold(db: Db, b: Bundle)
    requires WellFormed(db) && Monitors(db, b).Some?
    ensures Inv(db, Monitors(db, b).value) && Monitors(db, b).value.db.pageRows == db.pageRows
    ensures forall k :: Told(db, Monitors(db, b).value, k, RowsOf(b, k))
  {
    InOrder(db, b);
    FirstTold(db, b, 7);
    forall k ensures k == Page || k in Done(7) { EveryListDone(k); }
    AllTold(db, Monitors(db, b).value, b, Done(7));
  }

  // ------------------------------------------------------------ bindings

  /** One of the references is the bundle id of the channel that got this id. */
  ghost predicate Names(start: Db, b: Bundle, refs: seq<Ref>, channel: int) {
    exists ref, j :: Number(ref) in refs && IsNamed(Channel, b.channels, ref, j) && channel == IdAt(start, Channel, b.channels, j)
  }

  /** A kept URL monitor or API check, with a channel that its own entry names. */
  ghost predicate IsBinding(start: Db, b: Bundle, x: Binding) {
    && (x.monitor.kind == Url || x.monitor.kind == Api)
    && exists i :: IsGood(x.monitor.kind, RowsOf(b, x.monitor.kind), i)
         && x.monitor.n == IdAt(start, x.monitor.kind, RowsOf(b, x.monitor.kind), i)
         && Names(start, b, RowsOf(b, x.monitor.kind)[i].refs, x.channel)
  }

  ghost predicate Wires(m: map<int, int>, pending: seq<Bound>, x: Binding) {
    exists p :: p in pending && x.monitor == p.monitor && x.channel in Resolved(m, p.refs)
  }

  lemma WiresLast(m: map<int, int>, pending: seq<Bound>, x: Binding)
    requires pending != []
    ensures var init, last := pending[..|pending| - 1], pending[|pending| - 1];
            Wires(m, pending, x) <==> Wires(m, init, x) || x in BindingsOf(last.monitor, Resolved(m, last.refs))
  {
    var init, last := pending[..|pending| - 1], pending[|pending| - 1];
    assert forall p :: p in pending <==> p in init || p == last;
  }

  lemma {:induction false} WiringAdds(s: State, pending: seq<Bound>)
    requires WireAll(s, pending).Some?
    ensures var t := WireAll(s, pending).value;
            && t.db == s.db.(bindings := t.db.bindings) && t.maps == s.maps
            && forall x :: x in t.db.bindings <==> x in s.db.bindings || Wires(MapOf(s.maps, Channel), pending, x)
    decreases |pending|
  {
    if pending != [] {
      var init := pending[..|pending| - 1];
      WiringAdds(s, init);
      forall x { WiresLast(MapOf(s.maps, Channel), pending, x); }
      AddsLast(WireAll(s, init).value, pending[|pending| - 1]);
    }
  }

  lemma AddsLast(s: State, b: Bound)
    requires WireOne(s, b).Some?
    ensures var t := WireOne(s, b).value;
            && t.db == s.db.(bindings := t.db.bindings) && t.maps == s.maps
            && t.db.bindings == s.db.bindings + BindingsOf(b.monitor, Resolved(MapOf(s.maps, Channel), b.refs))
  {
  }

  lemma ResolvedAreNamed(start: Db, m: map<int, int>, b: Bundle, refs: seq<Ref>, channel: int)
    requires MapIs(start, m, Channel, b.channels)
    ensures channel in Resolved(m, refs) <==> Names(start, b, refs, channel)
  {
    if channel in Resolved(m, refs) {
      var i :| 0 <= i < |refs| && Maps(m, refs[i]) && m[refs[i].n] == channel;
      var j :| IsNamed(Channel, b.channels, refs[i].n, j) && m[refs[i].n] == IdAt(start, Channel, b.channels, j);
      assert Number(refs[i].n) == refs[i];
    }
    if Names(start, b, refs, channel) {
      var ref, j :| Number(ref) in refs && IsNamed(Channel, b.channels, ref, j) && channel == IdAt(start, Channel, b.channels, j);
      var i :| 0 <= i < |refs| && refs[i] == Number(ref);
      assert Maps(m, refs[i]);
    }
  }

  lemma WiresWhatIsNamed(start: Db, s: State, b: Bundle, x: Binding)
    requires forall k :: Told(start, s, k, RowsOf(b, k))
    ensures Wires(MapOf(s.maps, Channel), s.pending, x) <==> IsBinding(start, b, x)
  {
    var k := x.monitor.kind;
    var rows, m := RowsOf(b, k), MapOf(s.maps, Channel);
    assert Told(start, s, k, rows) && Told(start, s, Channel, RowsOf(b, Channel));
    if Wires(m, s.pending, x) {
      var p :| p in s.pending && x.monitor == p.monitor && x.channel in Resolved(m, p.refs);
      var i :| IsBound(start, k, rows, i, p);
      ResolvedAreNamed(start, m, b, rows[i].refs, x.channel);
    }
    if IsBinding(start, b, x) {
      var i :| IsGood(k, rows, i) && x.monitor.n == IdAt(start, k, rows, i) && Names(start, b, rows[i].refs, x.channel);
      ResolvedAreNamed(start, m, b, rows[i].refs, x.channel);
      assert IsBound(start, k, rows, i, Bound(x.monitor, rows[i].refs, rows[i].name));
    }
  }

  // ------------------------------------------------------------ pages

  function KindOf(monitorType: Option<string>): Kind {
    if monitorType == Some("url") then Url else Api
  }

  /** The reference names entry `j` of its list: the URL monitors for type `url`, the API checks for any other. */
  predicate Finds(b: Bundle, r: PageRef, j: int) {
    r.PageRef? && r.ref.Number? && IsNamed(KindOf(r.monitorType), RowsOf(b, KindOf(r.monitorType)), r.ref.n, j)
  }

  ghost predicate FindsOne(b: Bundle, r: PageRef) {
    exists j :: Finds(b, r, j)
  }

  /** No reference is null, and each that names nothing can be noted. */
  ghost predicate CanNote(b: Bundle, p: PageInput)
    requires p.PageInput?
  {
    forall q :: 0 <= q < |p.monitors| ==>
      p.monitors[q].PageRef? && (FindsOne(b, p.monitors[q]) || (Printable(p.monitors[q].ref) && p.monitors[q].monitorType.Some?))
  }

  ghost predicate FindsAny(b: Bundle, p: PageInput)
    requires p.PageInput?
  {
    exists q :: 0 <= q < |p.monitors| && FindsOne(b, p.monitors[q])
  }

  /** The page gets as far as its INSERT, which draws an id. */
  ghost predicate IsTried(b: Bundle, p: PageInput) {
    p.PageInput? && p.fault != Invalid && CanNote(b, p) && (p.monitors == [] || FindsAny(b, p))
  }

  /** It stays: the insert does not fail, nor do its rows, and all their types can be printed. */
  ghost predicate IsKeptPage(b: Bundle, p: PageInput) {
    && IsTried(b, p)
    && (p.fault == Accepted || (p.fault == ChildrenFail && !FindsAny(b, p)))
    && forall q :: 0 <= q < |p.monitors| ==> p.monitors[q].monitorType.Some?
  }

  ghost function PageDraws(b: Bundle, pages: seq<PageInput>): nat
    decreases |pages|
  {
    if pages == [] then 0 else PageDraws(b, pages[..|pages| - 1]) + if IsTried(b, pages[|pages| - 1]) then 1 else 0
  }

  ghost function PageIdAt(start: Db, b: Bundle, i: int): int
    requires 0 <= i <= |b.pages|
  {
    Next(start, Page) + PageDraws(b, b.pages[..i])
  }

  /** The row of page `i` for its `q`-th reference, which names entry `j`. */
  ghost predicate IsPageRow(start: Db, b: Bundle, r: PageRow, i: int, q: int, j: int) {
    && 0 <= i < |b.pages| && IsKeptPage(b, b.pages[i]) && 0 <= q < |b.pages[i].monitors|
    && Finds(b, b.pages[i].monitors[q], j)
    && var ref := b.pages[i].monitors[q];
       r == PageRow(PageIdAt(start, b, i), ref.monitorType.value, IdAt(start, KindOf(ref.monitorType), RowsOf(b, KindOf(ref.monitorType)), j))
  }

  /** What the first `n` pages have put into the tables. */
  ghost predicate PagesTold(start: Db, db: Db, b: Bundle, n: nat)
    requires n <= |b.pages|
  {
    && Next(db, Page) == PageIdAt(start, b, n)
    && (forall i :: 0 <= i < n && IsKeptPage(b, b.pages[i]) ==>
          Id(Page, PageIdAt(start, b, i)) in db.rows && db.rows[Id(Page, PageIdAt(start, b, i))] == FromPage(b.pages[i]))
    && (forall id :: IsNew(start, db, id) && id.kind == Page ==>
          exists i :: 0 <= i < n && IsKeptPage(b, b.pages[i]) && id.n == PageIdAt(start, b, i))
    && (forall r :: r in db.pageRows && r !in start.pageRows ==> exists i, q, j :: i < n && IsPageRow(start, b, r, i, q, j))
    && (forall r, i, q, j :: i < n && IsPageRow(start, b, r, i, q, j) ==> r in db.pageRows)
  }

  /** The mappings of both lists a page can refer to. */
  ghost predicate MapsTold(start: Db, maps: IdMaps, b: Bundle) {
    MapIs(start, MapOf(maps, Url), Url, b.urls) && MapIs(start, MapOf(maps, Api), Api, b.apis)
  }

  lemma FindsIff(start: Db, maps: IdMaps, b: Bundle, r: PageRef)
    requires MapsTold(start, maps, b)
    ensures Resolves(maps, r) <==> FindsOne(b, r)
    ensures forall j :: Finds(b, r, j) ==> Resolves(maps, r) && TargetOf(maps, r) == IdAt(start, KindOf(r.monitorType), RowsOf(b, KindOf(r.monitorType)), j)
  {
    if Resolves(maps, r) {
      var k := KindOf(r.monitorType);
      var j :| IsNamed(k, RowsOf(b, k), r.ref.n, j) && MapOf(maps, k)[r.ref.n] == IdAt(start, k, RowsOf(b, k), j);
      assert Finds(b, r, j);
    }
  }

  lemma FindsAllIff(start: Db, maps: IdMaps, b: Bundle, p: PageInput)
    requires MapsTold(start, maps, b) && p.PageInput?
    ensures forall q :: 0 <= q < |p.monitors| ==> (Resolves(maps, p.monitors[q]) <==> FindsOne(b, p.monitors[q]))
    ensures FindsAny(b, p) <==> SomeResolve(maps, p.monitors)
    ensures CanNote(b, p) <==> !ResolvingThrows(maps, p.monitors)
  {
    forall q | 0 <= q < |p.monitors| ensures Resolves(maps, p.monitors[q]) <==> FindsOne(b, p.monitors[q]) {
      FindsIff(start, maps, b, p.monitors[q]);
    }
    if !CanNote(b, p) {
      var q :| 0 <= q < |p.monitors| && !(p.monitors[q].PageRef? && (FindsOne(b, p.monitors[q]) || (Printable(p.monitors[q].ref) && p.monitors[q].monitorType.Some?)));
      assert Throws(maps, p.monitors[q]);
    }
  }

  lemma KeptPageIff(start: Db, maps: IdMaps, b: Bundle, p: PageInput)
    requires MapsTold(start, maps, b)
    ensures IsTried(b, p) <==> p.PageInput? && !PageRefused(maps, p)
    ensures IsKeptPage(b, p) <==> IsKept(maps, p)
  {
    if p.PageInput? {
      FindsAllIff(start, maps, b, p);
      assert AllDangle(maps, p.monitors) <==> p.monitors != [] && !SomeResolve(maps, p.monitors);
      if CanNote(b, p) { TypesIff(start, maps, b, p); }
    }
  }

  lemma TypesIff(start: Db, maps: IdMaps, b: Bundle, p: PageInput)
    requires MapsTold(start, maps, b) && p.PageInput? && CanNote(b, p)
    ensures DedupeThrows(maps, p.monitors) <==> !forall q :: 0 <= q < |p.monitors| ==> p.monitors[q].monitorType.Some?
  {
    FindsAllIff(start, maps, b, p);
    if q :| 0 <= q < |p.monitors| && p.monitors[q].monitorType.None? {
      assert FindsOne(b, p.monitors[q]);
      assert Resolves(maps, p.monitors[q]);
    }
  }

  lemma PageIdNext(start: Db, b: Bundle, n: nat)
    requires n < |b.pages|
    ensures PageIdAt(start, b, n + 1) == PageIdAt(start, b, n) + if IsTried(b, b.pages[n]) then 1 else 0
  {
    assert b.pages[..n + 1][..n] == b.pages[..n];
  }

  lemma RowsOfPage(start: Db, maps: IdMaps, b: Bundle, n: nat, r: PageRow)
    requires MapsTold(start, maps, b) && n < |b.pages| && IsKeptPage(b, b.pages[n])
    ensures r in PageRowsOf(maps, PageIdAt(start, b, n), b.pages[n].monitors) <==> exists q, j :: IsPageRow(start, b, r, n, q, j)
  {
    var p, page := b.pages[n], PageIdAt(start, b, n);
    if r in PageRowsOf(maps, page, p.monitors) {
      var q :| 0 <= q < |p.monitors| && HasRow(maps, p.monitors[q]) && PageRowOf(maps, page, p.monitors[q]) == r;
      FindsIff(start, maps, b, p.monitors[q]);
      var j :| Finds(b, p.monitors[q], j);
      assert IsPageRow(start, b, r, n, q, j);
    }
    if q, j :| IsPageRow(start, b, r, n, q, j) {
      FindsIff(start, maps, b, p.monitors[q]);
      assert PageRowOf(maps, page, p.monitors[q]) == r;
    }
  }

  /** A skipped page changes at most the next id. */
  lemma SkippedPageTold(start: Db, db: Db, after: Db, b: Bundle, n: nat)
    requires n < |b.pages| && PagesTold(start, db, b, n) && !IsKeptPage(b, b.pages[n])
    requires after.(next := db.next) == db && Next(after, Page) == PageIdAt(start, b, n + 1)
    ensures PagesTold(start, after, b, n + 1)
  {
    forall id | IsNew(start, after, id) && id.kind == Page
      ensures exists i :: 0 <= i < n + 1 && IsKeptPage(b, b.pages[i]) && id.n == PageIdAt(start, b, i)
    {
      assert IsNew(start, db, id);
      var i :| 0 <= i < n && IsKeptPage(b, b.pages[i]) && id.n == PageIdAt(start, b, i);
    }
    forall r | r in after.pageRows && r !in start.pageRows ensures exists i, q, j :: i < n + 1 && IsPageRow(start, b, r, i, q, j) {
      var i, q, j :| i < n && IsPageRow(start, b, r, i, q, j);
    }
  }

  lemma KeptPageTold(start: Db, db: Db, after: Db, b: Bundle, n: nat, added: set<PageRow>)
    requires WellFormed(db) && n < |b.pages| && PagesTold(start, db, b, n) && IsKeptPage(b, b.pages[n])
    requires after == Inserted(db, Page, 0, FromPage(b.pages[n])).(pageRows := db.pageRows + added)
    requires Next(after, Page) == PageIdAt(start, b, n + 1)
    requires forall r :: r in added <==> exists q, j :: IsPageRow(start, b, r, n, q, j)
    ensures PagesTold(start, after, b, n + 1)
  {
    forall id | IsNew(start, after, id) && id.kind == Page
      ensures exists i :: 0 <= i < n + 1 && IsKeptPage(b, b.pages[i]) && id.n == PageIdAt(start, b, i)
    {
      if id.n != Next(db, Page) {
        assert IsNew(start, db, id);
        var i :| 0 <= i < n && IsKeptPage(b, b.pages[i]) && id.n == PageIdAt(start, b, i);
      }
    }
    forall r | r in after.pageRows && r !in start.pageRows ensures exists i, q, j :: i < n + 1 && IsPageRow(start, b, r, i, q, j) {
      if r in db.pageRows {
        var i, q, j :| i < n && IsPageRow(start, b, r, i, q, j);
      } else {
        var q, j :| IsPageRow(start, b, r, n, q, j);
      }
    }
    forall r, i, q, j | i < n + 1 && IsPageRow(start, b, r, i, q, j) ensures r in after.pageRows { }
  }

  lemma PageTold(start: Db, s: State, b: Bundle, n: nat)
    requires WellFormed(s.db) && MapsTold(start, s.maps, b) && n < |b.pages| && PagesTold(start, s.db, b, n)
    requires ImportPage(s, b.pages[n]).Some?
    ensures PagesTold(start, ImportPage(s, b.pages[n]).value.db, b, n + 1)
  {
    var p, t := b.pages[n], ImportPage(s, b.pages[n]).value;
    KeptPageIff(start, s.maps, b, p);
    PageIdNext(start, b, n);
    if IsKept(s.maps, p) {
      forall r { RowsOfPage(start, s.maps, b, n, r); }
      KeptPageTold(start, s.db, t.db, b, n, PageRowsOf(s.maps, Next(s.db, Page), p.monitors));
    } else {
      SkippedPageTold(start, s.db, t.db, b, n);
    }
  }

  /** Pages touch no other table, and map nothing. */
  ghost predicate PagesKeep(s: State, t: State) {
    t.db.bindings == s.db.bindings && t.maps == s.maps && forall k :: k != Page ==> SameTable(s.db, t.db, k)
  }

  lemma PageKeeps(s: State, p: PageInput)
    requires ImportPage(s, p).Some?
    ensures PagesKeep(s, ImportPage(s, p).value)
  {
  }

  lemma KeepsOn(s: State, t: State, u: State)
    requires PagesKeep(s, t) && PagesKeep(t, u)
    ensures PagesKeep(s, u)
  {
    forall k | k != Page ensures SameTable(s.db, u.db, k) { assert SameTable(s.db, t.db, k) && SameTable(t.db, u.db, k); }
  }

  lemma PageNext(start: Db, s: State, t: State, b: Bundle, n: nat)
    requires WellFormed(t.db) && MapsTold(start, s.maps, b) && n < |b.pages| && ImportPage(t, b.pages[n]).Some?
    requires PagesTold(start, t.db, b, n) && PagesKeep(s, t)
    ensures PagesTold(start, ImportPage(t, b.pages[n]).value.db, b, n + 1) && PagesKeep(s, ImportPage(t, b.pages[n]).value)
  {
    PageTold(start, t, b, n);
    PageKeeps(t, b.pages[n]);
    KeepsOn(s, t, ImportPage(t, b.pages[n]).value);
  }

  lemma PagesSplit(s: State, pages: seq<PageInput>, n: nat)
    requires n < |pages|
    ensures ImportPages(s, pages[..n + 1])
         == if ImportPages(s, pages[..n]).None? then None else ImportPage(ImportPages(s, pages[..n]).value, pages[n])
  {
    assert pages[..n + 1][..n] == pages[..n];
  }

  lemma PagesFit(start: Db, s: State, pages: seq<PageInput>)
    requires WellFormed(start) && Inv(start, s) && ImportPages(s, pages).Some?
    ensures WellFormed(ImportPages(s, pages).value.db)
  {
    PagesInv(start, s, pages);
  }

  /** After the first `n` pages. */
  ghost predicate PagesTell(start: Db, s: State, t: State, b: Bundle, n: nat)
    requires n <= |b.pages|
  {
    PagesTold(start, t.db, b, n) && PagesKeep(s, t)
  }

  lemma {:induction false} PagesAreTold(start: Db, s: State, b: Bundle, n: nat)
    requires WellFormed(start) && Inv(start, s) && MapsTold(start, s.maps, b) && PagesTold(start, s.db, b, 0)
    requires n <= |b.pages| && ImportPages(s, b.pages[..n]).Some?
    ensures PagesTell(start, s, ImportPages(s, b.pages[..n]).value, b, n)
    decreases n
  {
    if n > 0 {
      PagesSplit(s, b.pages, n - 1);
      PagesAreTold(start, s, b, n - 1);
      PagesFit(start, s, b.pages[..n - 1]);
      PageNext(start, s, ImportPages(s, b.pages[..n - 1]).value, b, n - 1);
    }
  }

  // ------------------------------------------------------------ main result

  /** Binding channels changes bindings only. */
  lemma StaysToldWired(start: Db, s: State, after: Db, b: Bundle)
    requires forall k :: Told(start, s, k, RowsOf(b, k))
    requires after == s.db.(bindings := after.bindings) && s.db.pageRows == start.pageRows
    ensures forall k :: Placed(start, after, k, RowsOf(b, k))
    ensures MapsTold(start, s.maps, b) && PagesTold(start, after, b, 0)
  {
    forall k ensures Placed(start, after, k, RowsOf(b, k)) {
      assert Told(start, s, k, RowsOf(b, k));
      StaysPlaced(start, s.db, after, k, RowsOf(b, k));
    }
    assert Told(start, s, Url, RowsOf(b, Url)) && Told(start, s, Api, RowsOf(b, Api));
    assert Placed(start, after, Page, RowsOf(b, Page));
    NoPagesYet(start, after, b);
  }

  lemma NoPagesYet(start: Db, db: Db, b: Bundle)
    requires Placed(start, db, Page, []) && db.pageRows == start.pageRows
    ensures PagesTold(start, db, b, 0)
  {
  }

  ghost predicate BindingsTold(start: Db, db: Db, b: Bundle) {
    forall x :: x in db.bindings <==> x in start.bindings || IsBinding(start, b, x)
  }

  lemma WiredBindings(start: Db, s: State, t: State, b: Bundle)
    requires (forall k :: Told(start, s, k, RowsOf(b, k))) && s.db.bindings == start.bindings && WireAll(s, s.pending) == Some(t)
    ensures BindingsTold(start, t.db, b) && t.db == s.db.(bindings := t.db.bindings) && t.maps == s.maps
  {
    WiringAdds(s, s.pending);
    forall x { WiresWhatIsNamed(start, s, b, x); }
  }

  lemma RowsTell(db: Db, b: Bundle)
    requires WellFormed(db) && Monitors(db, b).Some?
    ensures forall k :: Told(db, Monitors(db, b).value, k, RowsOf(b, k))
    ensures Monitors(db, b).value.db.pageRows == db.pageRows && Monitors(db, b).value.db.bindings == db.bindings
  {
    MonitorsTold(db, b);
    MonitorsSound(db, b);
  }

  lemma WiredInv(db: Db, b: Bundle)
    requires WellFormed(db) && Monitors(db, b).Some? && WireAll(Monitors(db, b).value, Monitors(db, b).value.pending).Some?
    ensures Inv(db, WireAll(Monitors(db, b).value, Monitors(db, b).value.pending).value)
  {
    WiredSound(db, b);
  }

  /**
   What an import that commits leaves, told from the bundle alone: the good entries of each list
   are its new rows, each under the id its place in the list gives; the new bindings are those
   of a kept monitor with a channel its own references name; and the new page rows are those
   of a kept page with the monitors its own references name.
   */
  lemma ImportTells(db: Db, b: Bundle)
    requires WellFormed(db) && Whole(db, b).Some?
    ensures forall k :: k != Page ==> Placed(db, Whole(db, b).value.db, k, RowsOf(b, k))
    ensures BindingsTold(db, Whole(db, b).value.db, b)
    ensures PagesTold(db, Whole(db, b).value.db, b, |b.pages|)
  {
    var rows := Monitors(db, b).value;
    var s, t := WireAll(rows, rows.pending).value, Whole(db, b).value;
    RowsTell(db, b);
    WiredInv(db, b);
    WiredBindings(db, rows, s, b);
    StaysToldWired(db, rows, s.db, b);
    assert b.pages[..|b.pages|] == b.pages;
    PagesAreTold(db, s, b, |b.pages|);
    forall k | k != Page ensures Placed(db, t.db, k, RowsOf(b, k)) { StaysPlaced(db, s.db, t.db, k, RowsOf(b, k)); }
  }

  /** With distinct bundle ids there is one entry a reference can name. */
  lemma DistinctAreNamed(k: Kind, rows: seq<Row>, ref: int, i: int)
    requires forall x, y :: 0 <= x < y < |rows| && rows[x].Row? && rows[y].Row? && rows[x].ref.Some? ==> rows[x].ref != rows[y].ref
    ensures IsNamed(k, rows, ref, i) <==> IsGood(k, rows, i) && rows[i].ref == Some(ref)
  {
  }
}
