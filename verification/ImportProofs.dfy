/**
 What holds of every import: references land on rows it created, primary keys are never
 violated, counters are exact, and every input row is counted or skipped.
 */
module ImportProofs {
  import opened Options
  import opened Sets
  import opened Import

  // ------------------------------------------------------------ invariants

  /** Ids come from the sequences, and rows hang on rows that exist. */
  ghost predicate WellFormed(db: Db) {
    && (forall id :: id in db.rows ==> id.n < Next(db, id.kind))
    && (forall c :: c in db.children ==> c.parent.n < Next(db, c.parent.kind))
    && (forall b :: b in db.bindings ==> b.monitor.n < Next(db, b.monitor.kind))
    && (forall r :: r in db.pageRows ==> r.page < Next(db, Page))
  }

  /** Created by this import. */
  ghost predicate IsNew(start: Db, db: Db, id: Id) {
    id in db.rows && id !in start.rows
  }

  function NewRows(start: Db, db: Db, k: Kind): set<Id> {
    set id | id in db.rows && id !in start.rows && id.kind == k
  }

  /** Nothing is lost, and everything new has an id the sequences had not given out. */
  ghost predicate Grows(start: Db, db: Db) {
    && (forall id :: id in start.rows ==> id in db.rows && db.rows[id] == start.rows[id])
    && start.children <= db.children
    && start.bindings <= db.bindings && start.pageRows <= db.pageRows
    && (forall k :: Next(start, k) <= Next(db, k))
    && (forall id :: IsNew(start, db, id) ==> Next(start, id.kind) <= id.n)
  }

  ghost predicate MapsLand(start: Db, db: Db, maps: IdMaps) {
    forall k, ref :: k in maps && ref in maps[k] ==> IsNew(start, db, Id(k, maps[k][ref]))
  }

  ghost predicate PendingLands(start: Db, db: Db, pending: seq<Bound>) {
    && (forall i :: 0 <= i < |pending| ==> IsNew(start, db, pending[i].monitor))
    && (forall i, j :: 0 <= i < j < |pending| ==> pending[i].monitor != pending[j].monitor)
  }

  ghost predicate BindingLands(start: Db, db: Db, b: Binding) {
    IsNew(start, db, b.monitor) && IsNew(start, db, Id(Channel, b.channel))
  }

  /** A page row names a page and a monitor of this import: a URL monitor, or for any other type an API check. */
  ghost predicate PageRowLands(start: Db, db: Db, r: PageRow) {
    IsNew(start, db, Id(Page, r.page)) && IsNew(start, db, Id(if r.monitorType == "url" then Url else Api, r.monitor))
  }

  ghost predicate Lands(start: Db, db: Db) {
    && (forall b :: b in db.bindings && b !in start.bindings ==> BindingLands(start, db, b))
    && (forall r :: r in db.pageRows && r !in start.pageRows ==> PageRowLands(start, db, r))
    && (forall c :: c in db.children && c !in start.children ==> IsNew(start, db, c.parent))
  }

  ghost predicate Exact(start: Db, s: State) {
    && (forall k :: CountOf(s, k) == |NewRows(start, s.db, k)|)
    && s.wired == |s.db.bindings - start.bindings|
  }

  ghost predicate Inv(start: Db, s: State) {
    && WellFormed(s.db) && Grows(start, s.db)
    && MapsLand(start, s.db, s.maps) && PendingLands(start, s.db, s.pending)
    && Lands(start, s.db) && Exact(start, s)
  }

  // ------------------------------------------------------------ one row

  /** The database only gained rows and sequence values. */
  ghost predicate Extends(a: Db, b: Db) {
    a.rows.Keys <= b.rows.Keys && forall k :: Next(a, k) <= Next(b, k)
  }

  lemma StillLands(start: Db, a: Db, b: Db, maps: IdMaps, pending: seq<Bound>)
    requires Extends(a, b) && MapsLand(start, a, maps) && PendingLands(start, a, pending)
    ensures MapsLand(start, b, maps) && PendingLands(start, b, pending)
    ensures forall id :: IsNew(start, a, id) ==> IsNew(start, b, id)
  {
    forall k, ref | k in maps && ref in maps[k] ensures IsNew(start, b, Id(k, maps[k][ref])) {
      assert IsNew(start, a, Id(k, maps[k][ref]));
    }
  }

  lemma InsertedNew(start: Db, db: Db, k: Kind, children: nat, origin: Origin)
    requires WellFormed(start) && WellFormed(db) && Grows(start, db)
    ensures Id(k, Next(db, k)) !in db.rows && Extends(db, Inserted(db, k, children, origin))
    ensures forall x :: IsNew(start, Inserted(db, k, children, origin), x) <==> IsNew(start, db, x) || x == Id(k, Next(db, k))
  {
  }

  lemma InsertedFits(start: Db, db: Db, k: Kind, children: nat, origin: Origin)
    requires WellFormed(start) && WellFormed(db) && Grows(start, db)
    ensures WellFormed(Inserted(db, k, children, origin)) && Grows(start, Inserted(db, k, children, origin))
  {
    InsertedNew(start, db, k, children, origin);
  }

  lemma InsertedGrows(start: Db, db: Db, k: Kind, children: nat, origin: Origin)
    requires WellFormed(start) && WellFormed(db) && Grows(start, db) && Lands(start, db)
    ensures var after := Inserted(db, k, children, origin);
            && WellFormed(after) && Grows(start, after) && Lands(start, after) && Extends(db, after)
            && IsNew(start, after, Id(k, Next(db, k))) && Id(k, Next(db, k)) !in db.rows
  {
    InsertedNew(start, db, k, children, origin);
    InsertedFits(start, db, k, children, origin);
  }

  lemma InsertedExact(start: Db, db: Db, k: Kind, children: nat, origin: Origin)
    requires start.rows.Keys <= db.rows.Keys && Id(k, Next(db, k)) !in db.rows
    ensures forall j :: |NewRows(start, Inserted(db, k, children, origin), j)| == |NewRows(start, db, j)| + if j == k then 1 else 0
  {
    var after, id := Inserted(db, k, children, origin), Id(k, Next(db, k));
    forall j ensures NewRows(start, after, j) == NewRows(start, db, j) + if j == k then {id} else {} { }
  }

  lemma KeptPending(start: Db, s: State, k: Kind, row: Row)
    requires row.Row? && PendingLands(start, s.db, s.pending) && Id(k, Next(s.db, k)) !in s.db.rows
    requires PendingLands(start, Inserted(s.db, k, ChildrenOf(k, row), FromRow(row)), s.pending)
    requires IsNew(start, Inserted(s.db, k, ChildrenOf(k, row), FromRow(row)), Id(k, Next(s.db, k)))
    ensures PendingLands(start, KeepRow(s, k, row).db, KeepRow(s, k, row).pending)
  {
  }

  lemma KeptRowInv(start: Db, s: State, k: Kind, row: Row)
    requires WellFormed(start) && Inv(start, s) && row.Row? && k != Page
    ensures Inv(start, KeepRow(s, k, row))
  {
    var t, children := KeepRow(s, k, row), ChildrenOf(k, row);
    InsertedGrows(start, s.db, k, children, FromRow(row));
    StillLands(start, s.db, t.db, s.maps, s.pending);
    KeptMaps(start, s, k, row);
    KeptPending(start, s, k, row);
    PlacedRowInv(start, s, k, children, FromRow(row), t);
  }

  lemma PlacedRowInv(start: Db, s: State, k: Kind, children: nat, origin: Origin, t: State)
    requires Inv(start, s) && t.db == Inserted(s.db, k, children, origin) && Id(k, Next(s.db, k)) !in s.db.rows
    requires WellFormed(t.db) && Grows(start, t.db) && Lands(start, t.db)
    requires MapsLand(start, t.db, t.maps) && PendingLands(start, t.db, t.pending)
    requires t.counts == s.counts[k := CountOf(s, k) + 1] && t.wired == s.wired
    ensures Inv(start, t)
  {
    InsertedExact(start, s.db, k, children, origin);
    assert t.db.bindings == s.db.bindings;
  }

  lemma KeptMaps(start: Db, s: State, k: Kind, row: Row)
    requires row.Row? && MapsLand(start, Inserted(s.db, k, ChildrenOf(k, row), FromRow(row)), s.maps)
    requires IsNew(start, Inserted(s.db, k, ChildrenOf(k, row), FromRow(row)), Id(k, Next(s.db, k)))
    ensures MapsLand(start, KeepRow(s, k, row).db, KeepRow(s, k, row).maps)
  {
  }

  /** A failed row leaves every table as it was. */
  lemma FailedRowChangesNothing(s: State, k: Kind, row: Row)
    requires ImportRow(s, k, row).Some? && (row.NullRow? || Fails(k, row))
    ensures var t := ImportRow(s, k, row).value;
            t.db.(next := s.db.next) == s.db && t.maps == s.maps && t.pending == s.pending && t.counts == s.counts
  {
  }

  lemma SkipInv(start: Db, s: State, note: Note)
    requires Inv(start, s)
    ensures Inv(start, Skip(s, note))
  {
  }

  lemma DrawnInv(start: Db, s: State, k: Kind, note: Note)
    requires Inv(start, s)
    ensures Inv(start, Skip(s, note)) && Inv(start, Skip(s.(db := Drawn(s.db, k)), note))
  {
    SkipInv(start, s, note);
    SpentInv(start, s, Drawn(s.db, k));
    SkipInv(start, s.(db := Drawn(s.db, k)), note);
  }

  lemma SpentInv(start: Db, s: State, d: Db)
    requires Inv(start, s) && d.(next := s.db.next) == s.db && forall k :: Next(s.db, k) <= Next(d, k)
    ensures Inv(start, s.(db := d))
  {
    StillLands(start, s.db, d, s.maps, s.pending);
    assert forall id :: IsNew(start, d, id) <==> IsNew(start, s.db, id);
    assert forall j :: NewRows(start, d, j) == NewRows(start, s.db, j);
  }

  lemma RowInv(start: Db, s: State, k: Kind, row: Row)
    requires WellFormed(start) && Inv(start, s) && k != Page && ImportRow(s, k, row).Some?
    ensures Inv(start, ImportRow(s, k, row).value)
  {
    if row.NullRow? {
      DrawnInv(start, s, k, RowSkipped(k, "?"));
    } else if Fails(k, row) {
      DrawnInv(start, s, k, RowSkipped(k, row.name));
    } else {
      KeptRowInv(start, s, k, row);
    }
  }

  lemma {:induction false} RowsInv(start: Db, s: State, k: Kind, rows: seq<Row>)
    requires WellFormed(start) && Inv(start, s) && k != Page && ImportRows(s, k, rows).Some?
    ensures Inv(start, ImportRows(s, k, rows).value)
    decreases |rows|
  {
    if rows != [] {
      RowsInv(start, s, k, rows[..|rows| - 1]);
      RowInv(start, ImportRows(s, k, rows[..|rows| - 1]).value, k, rows[|rows| - 1]);
    }
  }

  /** Only bindings and page rows were added, and they land. */
  lemma SameRowsLand(start: Db, a: Db, b: Db, maps: IdMaps, pending: seq<Bound>)
    requires b == a.(bindings := b.bindings, pageRows := b.pageRows)
    requires a.bindings <= b.bindings && a.pageRows <= b.pageRows
    requires WellFormed(a) && Grows(start, a) && Lands(start, a)
    requires MapsLand(start, a, maps) && PendingLands(start, a, pending)
    requires forall x :: x in b.bindings && x !in a.bindings ==> BindingLands(start, a, x)
    requires forall r :: r in b.pageRows && r !in a.pageRows ==> PageRowLands(start, a, r)
    ensures WellFormed(b) && Grows(start, b) && Lands(start, b)
    ensures MapsLand(start, b, maps) && PendingLands(start, b, pending)
    ensures forall k :: NewRows(start, b, k) == NewRows(start, a, k)
  {
    StillLands(start, a, b, maps, pending);
    assert forall id :: IsNew(start, b, id) <==> IsNew(start, a, id);
    forall r | r in b.pageRows && r !in start.pageRows ensures PageRowLands(start, b, r) {
      assert PageRowLands(start, a, r);
    }
    forall x | x in b.bindings && x !in start.bindings ensures BindingLands(start, b, x) {
      assert BindingLands(start, a, x);
    }
  }

  // ------------------------------------------------------------ channel bindings

  /** No binding of this monitor yet. */
  ghost predicate Unbound(db: Db, monitor: Id) {
    forall b :: b in db.bindings ==> b.monitor != monitor
  }

  lemma BindingsSize(monitor: Id, channels: set<int>)
    ensures |BindingsOf(monitor, channels)| == |channels|
    decreases channels
  {
    if channels != {} {
      Inhabited(channels);
      var c :| c in channels;
      BindingsSize(monitor, channels - {c});
      assert BindingsOf(monitor, channels) == BindingsOf(monitor, channels - {c}) + {Binding(monitor, c)};
    }
  }

  lemma UnionSize<T>(a: set<T>, b: set<T>)
    requires a !! b
    ensures |a + b| == |a| + |b|
  {
  }

  lemma WiredSize(start: set<Binding>, db: set<Binding>, monitor: Id, channels: set<int>)
    requires start <= db && forall b :: b in db ==> b.monitor != monitor
    ensures BindingsOf(monitor, channels) !! db
    ensures |(db + BindingsOf(monitor, channels)) - start| == |db - start| + |channels|
  {
    var added := BindingsOf(monitor, channels);
    BindingsSize(monitor, channels);
    assert (db + added) - start == (db - start) + added;
    UnionSize(db - start, added);
  }

  lemma MapLands(start: Db, db: Db, maps: IdMaps, k: Kind, ref: int)
    requires MapsLand(start, db, maps) && ref in MapOf(maps, k)
    ensures IsNew(start, db, Id(k, MapOf(maps, k)[ref]))
  {
  }

  lemma AddedLand(start: Db, db: Db, maps: IdMaps, b: Bound)
    requires MapsLand(start, db, maps) && IsNew(start, db, b.monitor)
    ensures forall x :: x in BindingsOf(b.monitor, Resolved(MapOf(maps, Channel), b.refs)) ==> BindingLands(start, db, x)
  {
    var m := MapOf(maps, Channel);
    forall x | x in BindingsOf(b.monitor, Resolved(m, b.refs)) ensures BindingLands(start, db, x) {
      var i :| 0 <= i < |b.refs| && Maps(m, b.refs[i]) && m[b.refs[i].n] == x.channel;
      MapLands(start, db, maps, Channel, b.refs[i].n);
    }
  }

  /** No reference repeated or not makes the bindings' primary key fail: only printing and the size of the statement can. */
  lemma WireOneInv(start: Db, s: State, b: Bound)
    requires Inv(start, s) && IsNew(start, s.db, b.monitor) && Unbound(s.db, b.monitor)
    ensures WireOne(s, b).Some? <==> Bindable(MapOf(s.maps, Channel), s.db.cap, b.refs)
    ensures WireOne(s, b).Some? ==> Inv(start, WireOne(s, b).value)
  {
    WiredSize(start.bindings, s.db.bindings, b.monitor, Resolved(MapOf(s.maps, Channel), b.refs));
    AddedLand(start, s.db, s.maps, b);
    if Bindable(MapOf(s.maps, Channel), s.db.cap, b.refs) {
      AddBindings(start, s, BindingsOf(b.monitor, Resolved(MapOf(s.maps, Channel), b.refs)), WireOne(s, b).value);
    }
  }

  lemma AddBindings(start: Db, s: State, added: set<Binding>, t: State)
    requires Inv(start, s) && forall x :: x in added ==> BindingLands(start, s.db, x)
    requires t.db == s.db.(bindings := s.db.bindings + added) && t.maps == s.maps && t.pending == s.pending
    requires t.counts == s.counts && t.wired == |t.db.bindings - start.bindings|
    ensures Inv(start, t)
  {
    SameRowsLand(start, s.db, t.db, s.maps, s.pending);
  }

  /** Wiring goes through the pending monitors, each still unbound when its turn comes. */
  ghost predicate Wiring(start: Db, s: State, t: State, n: nat)
    requires n <= |s.pending|
  {
    && Inv(start, t) && t.pending == s.pending && t.maps == s.maps
    && t.db == s.db.(bindings := t.db.bindings)
    && forall i :: n <= i < |s.pending| ==> Unbound(t.db, s.pending[i].monitor)
  }

  lemma WireStep(start: Db, s: State, t: State, n: nat)
    requires n < |s.pending| && Wiring(start, s, t, n)
    ensures WireOne(t, s.pending[n]).Some? <==> Bindable(MapOf(s.maps, Channel), s.db.cap, s.pending[n].refs)
    ensures WireOne(t, s.pending[n]).Some? ==> Wiring(start, s, WireOne(t, s.pending[n]).value, n + 1)
  {
    WireOneInv(start, t, s.pending[n]);
    forall i | n + 1 <= i < |s.pending| ensures s.pending[i].monitor != s.pending[n].monitor { }
  }

  /** All these monitors can be bound. */
  predicate AllBind(m: map<int, int>, cap: nat, pending: seq<Bound>) {
    forall i :: 0 <= i < |pending| ==> Bindable(m, cap, pending[i].refs)
  }

  lemma WireNext(s: State, pending: seq<Bound>, n: nat)
    requires n < |pending|
    ensures WireAll(s, pending[..n + 1])
         == if WireAll(s, pending[..n]).None? then None else WireOne(WireAll(s, pending[..n]).value, pending[n])
    ensures forall m, cap :: AllBind(m, cap, pending[..n + 1]) <==> AllBind(m, cap, pending[..n]) && Bindable(m, cap, pending[n].refs)
  {
    assert pending[..n + 1][..n] == pending[..n];
    assert pending[..n + 1][n] == pending[n];
    assert forall i :: 0 <= i < n ==> pending[..n + 1][i] == pending[..n][i];
  }

  /** The first `n` pending monitors are wired, or one of them cannot be bound. */
  ghost predicate WiredUpTo(start: Db, s: State, n: nat)
    requires n <= |s.pending|
  {
    && (WireAll(s, s.pending[..n]).Some? <==> AllBind(MapOf(s.maps, Channel), s.db.cap, s.pending[..n]))
    && (WireAll(s, s.pending[..n]).Some? ==> Wiring(start, s, WireAll(s, s.pending[..n]).value, n))
  }

  lemma WiredUpToNext(start: Db, s: State, n: nat)
    requires n < |s.pending| && WiredUpTo(start, s, n)
    ensures WiredUpTo(start, s, n + 1)
  {
    WireNext(s, s.pending, n);
    var before := WireAll(s, s.pending[..n]);
    if before.Some? { WireStep(start, s, before.value, n); }
  }

  /** Wiring aborts the import exactly on a monitor that cannot be bound; duplicate references never do. */
  lemma {:induction false} WireAbortsIff(start: Db, s: State, n: nat)
    requires Inv(start, s) && s.db.bindings == start.bindings && WellFormed(start) && n <= |s.pending|
    ensures WiredUpTo(start, s, n)
    decreases n
  {
    if n == 0 {
      NothingWired(start, s);
    } else {
      WireAbortsIff(start, s, n - 1);
      WiredUpToNext(start, s, n - 1);
    }
  }

  lemma NothingWired(start: Db, s: State)
    requires Inv(start, s) && s.db.bindings == start.bindings && WellFormed(start)
    ensures WireAll(s, s.pending[..0]) == Some(s) && AllBind(MapOf(s.maps, Channel), s.db.cap, s.pending[..0]) && Wiring(start, s, s, 0)
  {
  }

  // ------------------------------------------------------------ status pages

  /** A new page's id is on no page row, so its rows, a set, violate no primary key. */
  lemma PageKeysAreFree(s: State, p: PageInput)
    requires WellFormed(s.db) && p.PageInput?
    ensures PageRowsOf(s.maps, Next(s.db, Page), p.monitors) !! s.db.pageRows
  {
  }

  lemma PageRowsLand(start: Db, db: Db, maps: IdMaps, page: int, monitors: seq<PageRef>)
    requires MapsLand(start, db, maps) && IsNew(start, db, Id(Page, page))
    ensures forall r :: r in PageRowsOf(maps, page, monitors) ==> PageRowLands(start, db, r)
  {
  }

  lemma KeptPageInv(start: Db, s: State, p: PageInput)
    requires WellFormed(start) && Inv(start, s) && p.PageInput?
    ensures Inv(start, KeepPage(s, p))
  {
    PlacedPageInv(start, s, p, KeepPage(s, p));
  }

  lemma PlacedPageInv(start: Db, s: State, p: PageInput, t: State)
    requires WellFormed(start) && Inv(start, s) && p.PageInput? && t.maps == s.maps && t.pending == s.pending
    requires t.db == Inserted(s.db, Page, 0, FromPage(p)).(pageRows := s.db.pageRows + PageRowsOf(s.maps, Next(s.db, Page), p.monitors))
    requires t.counts == s.counts[Page := CountOf(s, Page) + 1] && t.wired == s.wired
    ensures Inv(start, t)
  {
    var n, mid := Next(s.db, Page), Inserted(s.db, Page, 0, FromPage(p));
    InsertedGrows(start, s.db, Page, 0, FromPage(p));
    InsertedExact(start, s.db, Page, 0, FromPage(p));
    StillLands(start, s.db, mid, s.maps, s.pending);
    PageRowsLand(start, mid, s.maps, n, p.monitors);
    AddPageRows(start, s, mid, PageRowsOf(s.maps, n, p.monitors), t);
  }

  lemma AddPageRows(start: Db, s: State, mid: Db, added: set<PageRow>, t: State)
    requires WellFormed(mid) && Grows(start, mid) && Lands(start, mid) && MapsLand(start, mid, s.maps) && PendingLands(start, mid, s.pending)
    requires Exact(start, s) && mid.bindings == s.db.bindings && forall r :: r in added ==> PageRowLands(start, mid, r)
    requires forall k :: |NewRows(start, mid, k)| == |NewRows(start, s.db, k)| + if k == Page then 1 else 0
    requires t.db == mid.(pageRows := mid.pageRows + added) && t.maps == s.maps && t.pending == s.pending
    requires t.counts == s.counts[Page := CountOf(s, Page) + 1] && t.wired == s.wired
    ensures Inv(start, t)
  {
    SameRowsLand(start, mid, t.db, s.maps, s.pending);
  }

  lemma PageInv(start: Db, s: State, p: PageInput)
    requires WellFormed(start) && Inv(start, s) && ImportPage(s, p).Some?
    ensures Inv(start, ImportPage(s, p).value)
  {
    DrawnInv(start, s, Page, RowSkipped(Page, TextOf(p.slug)));
    if IsKept(s.maps, p) { KeptPageInv(start, s, p); }
  }

  lemma {:induction false} PagesInv(start: Db, s: State, pages: seq<PageInput>)
    requires WellFormed(start) && Inv(start, s) && ImportPages(s, pages).Some?
    ensures Inv(start, ImportPages(s, pages).value)
    decreases |pages|
  {
    if pages != [] {
      PagesInv(start, s, pages[..|pages| - 1]);
      PageInv(start, ImportPages(s, pages[..|pages| - 1]).value, pages[|pages| - 1]);
    }
  }

  /** The rows of a kept page name monitors of their own type exactly if no resolved reference has a type other than url or api. */
  lemma PageRowsKeepTheirTypeIff(s: State, p: PageInput)
    requires IsKept(s.maps, p) && WellFormed(s.db)
    ensures (forall r :: r in KeepPage(s, p).db.pageRows - s.db.pageRows ==> r.monitorType in {"url", "api"})
       <==> (forall i :: 0 <= i < |p.monitors| && Resolves(s.maps, p.monitors[i]) ==> p.monitors[i].monitorType in {Some("url"), Some("api")})
  {
    var n := Next(s.db, Page);
    PageKeysAreFree(s, p);
    assert KeepPage(s, p).db.pageRows - s.db.pageRows == PageRowsOf(s.maps, n, p.monitors);
    forall i | 0 <= i < |p.monitors| && Resolves(s.maps, p.monitors[i])
      ensures HasRow(s.maps, p.monitors[i]) && PageRowOf(s.maps, n, p.monitors[i]) in PageRowsOf(s.maps, n, p.monitors)
    {
    }
  }

  // ------------------------------------------------------------ which imports commit

  ghost predicate NoNull(rows: seq<Row>) {
    forall i :: 0 <= i < |rows| ==> rows[i].Row?
  }

  lemma LastNoNull(rows: seq<Row>)
    requires rows != []
    ensures NoNull(rows) <==> NoNull(rows[..|rows| - 1]) && rows[|rows| - 1].Row?
  {
    var init := rows[..|rows| - 1];
    assert forall i :: 0 <= i < |init| ==> rows[i] == init[i];
  }

  lemma RowCommitsIff(s: State, k: Kind, row: Row)
    ensures ImportRow(s, k, row).Some? <==> k == Channel || row.Row?
  {
  }

  lemma {:induction false} RowsCommitIff(s: State, k: Kind, rows: seq<Row>)
    ensures ImportRows(s, k, rows).Some? <==> k == Channel || NoNull(rows)
    decreases |rows|
  {
    if rows != [] {
      var before := ImportRows(s, k, rows[..|rows| - 1]);
      RowsCommitIff(s, k, rows[..|rows| - 1]);
      LastNoNull(rows);
      if before.Some? { RowCommitsIff(before.value, k, rows[|rows| - 1]); }
    }
  }

  lemma {:induction false} PagesCommitIff(s: State, pages: seq<PageInput>)
    ensures ImportPages(s, pages).Some? <==> forall i :: 0 <= i < |pages| ==> pages[i].PageInput?
    decreases |pages|
  {
    if pages != [] {
      var init := pages[..|pages| - 1];
      PagesCommitIff(s, init);
      assert forall i :: 0 <= i < |init| ==> pages[i] == init[i];
    }
  }

  // ------------------------------------------------------------ counted or skipped

  function SkipsOf(notes: seq<Note>, k: Kind): nat
    decreases |notes|
  {
    if notes == [] then 0 else
      var last := notes[|notes| - 1];
      SkipsOf(notes[..|notes| - 1], k) + if last.RowSkipped? && last.kind == k then 1 else 0
  }

  function Seen(s: State, k: Kind): nat {
    CountOf(s, k) + SkipsOf(s.skipped, k)
  }

  lemma OneSkip(notes: seq<Note>, note: Note, k: Kind)
    ensures SkipsOf(notes + [note], k) == SkipsOf(notes, k) + if note.RowSkipped? && note.kind == k then 1 else 0
  {
    assert (notes + [note])[..|notes|] == notes;
  }

  /** Notes about references skip no row. */
  lemma {:induction false} OtherNotes(notes: seq<Note>, more: seq<Note>, k: Kind)
    requires forall note :: note in more ==> !note.RowSkipped?
    ensures SkipsOf(notes + more, k) == SkipsOf(notes, k)
    decreases |more|
  {
    if more == [] {
      assert notes + more == notes;
    } else {
      OtherNotes(notes, more[..|more| - 1], k);
      assert notes + more == notes + more[..|more| - 1] + [more[|more| - 1]];
      OneSkip(notes + more[..|more| - 1], more[|more| - 1], k);
    }
  }

  lemma SkippedSeen(s: State, db: Db, note: Note, j: Kind)
    ensures Seen(Skip(s.(db := db), note), j) == Seen(s, j) + if note.RowSkipped? && note.kind == j then 1 else 0
  {
    OneSkip(s.skipped, note, j);
  }

  lemma KeptSeen(s: State, k: Kind, row: Row, j: Kind)
    requires row.Row?
    ensures Seen(KeepRow(s, k, row), j) == Seen(s, j) + if j == k then 1 else 0
    ensures KeepRow(s, k, row).db.bindings == s.db.bindings
  {
  }

  lemma RowSeen(s: State, k: Kind, row: Row, j: Kind)
    requires ImportRow(s, k, row).Some?
    ensures Seen(ImportRow(s, k, row).value, j) == Seen(s, j) + if j == k then 1 else 0
    ensures ImportRow(s, k, row).value.db.bindings == s.db.bindings
  {
    if row.NullRow? {
      SkippedSeen(s, s.db, RowSkipped(k, "?"), j);
    } else if Fails(k, row) {
      SkippedSeen(s, if row.fault == Invalid then s.db else Drawn(s.db, k), RowSkipped(k, row.name), j);
    } else {
      KeptSeen(s, k, row, j);
    }
  }

  lemma {:induction false} RowsSeen(s: State, k: Kind, rows: seq<Row>, j: Kind)
    requires ImportRows(s, k, rows).Some?
    ensures var t := ImportRows(s, k, rows).value;
            && Seen(t, j) == Seen(s, j) + (if j == k then |rows| else 0)
            && t.db.bindings == s.db.bindings
    decreases |rows|
  {
    if rows != [] {
      RowsSeen(s, k, rows[..|rows| - 1], j);
      RowSeen(ImportRows(s, k, rows[..|rows| - 1]).value, k, rows[|rows| - 1], j);
    }
  }

  /** A note for each reference that does not resolve, and no other. */
  lemma {:induction false} UnresolvedAre(m: map<int, int>, b: Bound, refs: seq<Ref>)
    ensures forall note :: note in Unresolved(m, b, refs) <==>
              exists r :: r in refs && !(r.Number? && r.n in m) && note == RefUnresolved(b.monitor, b.name, r)
    decreases |refs|
  {
    if refs != [] {
      UnresolvedAre(m, b, refs[..|refs| - 1]);
      assert refs == refs[..|refs| - 1] + [refs[|refs| - 1]];
    }
  }

  lemma {:induction false} WiringSeen(s: State, pending: seq<Bound>, j: Kind)
    requires WireAll(s, pending).Some?
    ensures Seen(WireAll(s, pending).value, j) == Seen(s, j)
    decreases |pending|
  {
    if pending != [] {
      WiringSeen(s, pending[..|pending| - 1], j);
      var before, b := WireAll(s, pending[..|pending| - 1]).value, pending[|pending| - 1];
      UnresolvedAre(MapOf(before.maps, Channel), b, b.refs);
      OtherNotes(before.skipped, Unresolved(MapOf(before.maps, Channel), b, b.refs), j);
    }
  }

  lemma {:induction false} DanglingAre(maps: IdMaps, slug: Option<string>, monitors: seq<PageRef>)
    ensures forall note :: note in Dangling(maps, slug, monitors) <==>
              exists r :: r in monitors && r.PageRef? && !Resolves(maps, r) && note == PageRefUnresolved(TextOf(slug), TextOf(r.monitorType), r.ref)
    decreases |monitors|
  {
    if monitors != [] {
      DanglingAre(maps, slug, monitors[..|monitors| - 1]);
      assert monitors == monitors[..|monitors| - 1] + [monitors[|monitors| - 1]];
    }
  }

  /** The pages that are recorded twice: counted, and skipped as well. */
  function Doubles(maps: IdMaps, pages: seq<PageInput>): nat
    decreases |pages|
  {
    if pages == [] then 0 else Doubles(maps, pages[..|pages| - 1]) + if IsDouble(maps, pages[|pages| - 1]) then 1 else 0
  }

  lemma {:induction false} NoDoublesIff(maps: IdMaps, pages: seq<PageInput>)
    ensures Doubles(maps, pages) == 0 <==> forall i :: 0 <= i < |pages| ==> !IsDouble(maps, pages[i])
    decreases |pages|
  {
    if pages != [] {
      var init := pages[..|pages| - 1];
      NoDoublesIff(maps, init);
      assert forall i :: 0 <= i < |init| ==> pages[i] == init[i];
    }
  }

  lemma KeptPageSeen(s: State, p: PageInput, j: Kind)
    requires p.PageInput?
    ensures Seen(KeepPage(s, p), j) == Seen(s, j) + if j == Page then (if IsDouble(s.maps, p) then 2 else 1) else 0
  {
    OneSkip(s.skipped, RowSkipped(Page, ""), j);
    DanglingAre(s.maps, p.slug, p.monitors);
    OtherNotes(s.skipped, Dangling(s.maps, p.slug, p.monitors), j);
  }

  lemma PageSeen(s: State, p: PageInput, j: Kind)
    requires ImportPage(s, p).Some?
    ensures Seen(ImportPage(s, p).value, j) == Seen(s, j) + if j == Page then (if IsDouble(s.maps, p) then 2 else 1) else 0
    ensures ImportPage(s, p).value.maps == s.maps
  {
    if PageRefused(s.maps, p) {
      SkippedSeen(s, s.db, RowSkipped(Page, TextOf(p.slug)), j);
    } else if PageFails(s.maps, p) {
      SkippedSeen(s, Drawn(s.db, Page), RowSkipped(Page, TextOf(p.slug)), j);
    } else {
      KeptPageSeen(s, p, j);
    }
  }

  lemma {:induction false} PagesSeen(s: State, pages: seq<PageInput>, j: Kind)
    requires ImportPages(s, pages).Some?
    ensures Seen(ImportPages(s, pages).value, j) == Seen(s, j) + if j == Page then |pages| + Doubles(s.maps, pages) else 0
    ensures ImportPages(s, pages).value.maps == s.maps
    decreases |pages|
  {
    if pages != [] {
      PagesSeen(s, pages[..|pages| - 1], j);
      PageSeen(ImportPages(s, pages[..|pages| - 1]).value, pages[|pages| - 1], j);
    }
  }

  // ------------------------------------------------------------ the whole import

  function Given(b: Bundle, k: Kind): nat {
    match k
    case Url => |b.urls|
    case Api => |b.apis|
    case Tcp => |b.tcps|
    case Heartbeat => |b.heartbeats|
    case Udp => |b.udps|
    case Qa => |b.qas|
    case Channel => |b.channels|
    case Page => |b.pages|
  }

  /** One table of the bundle, with everything that is kept on the way. */
  lemma Table(start: Db, s: State, k: Kind, rows: seq<Row>)
    requires WellFormed(start) && Inv(start, s) && k != Page && ImportRows(s, k, rows).Some?
    ensures var t := ImportRows(s, k, rows).value;
            && Inv(start, t) && t.db.bindings == s.db.bindings
            && forall j :: Seen(t, j) == Seen(s, j) + (if j == k then |rows| else 0)
  {
    RowsInv(start, s, k, rows);
    forall j ensures Seen(ImportRows(s, k, rows).value, j) == Seen(s, j) + (if j == k then |rows| else 0) {
      RowsSeen(s, k, rows, j);
    }
    RowsSeen(s, k, rows, k);
  }

  lemma MonitorsSound(db: Db, b: Bundle)
    requires WellFormed(db) && Monitors(db, b).Some?
    ensures var t := Monitors(db, b).value;
            && Inv(db, t) && t.db.bindings == db.bindings
            && forall j :: Seen(t, j) == if j == Page then 0 else Given(b, j)
  {
    ProbesSound(db, b);
    OthersSound(db, Then(Then(Then(Some(Begin(db)), Url, b.urls), Api, b.apis), Tcp, b.tcps).value, b);
  }

  function Others(s: State, b: Bundle): Option<State> {
    Then(Then(Then(Then(Some(s), Heartbeat, b.heartbeats), Udp, b.udps), Qa, b.qas), Channel, b.channels)
  }

  /** `n` more rows of kind `k` were seen, and nothing else changed that matters here. */
  ghost predicate SawMore(start: Db, s: State, t: State, k: Kind, n: nat) {
    && Inv(start, t) && t.db.bindings == s.db.bindings
    && forall j :: Seen(t, j) == Seen(s, j) + (if j == k then n else 0)
  }

  lemma TableSaw(start: Db, s: State, k: Kind, rows: seq<Row>)
    requires WellFormed(start) && Inv(start, s) && k != Page && Then(Some(s), k, rows).Some?
    ensures SawMore(start, s, Then(Some(s), k, rows).value, k, |rows|)
  {
    Table(start, s, k, rows);
  }

  lemma SawMoreOf(start: Db, s: State, t: State, k: Kind, n: nat, j: Kind)
    requires SawMore(start, s, t, k, n)
    ensures Seen(t, j) == Seen(s, j) + if j == k then n else 0
  {
  }

  lemma OthersSound(db: Db, s: State, b: Bundle)
    requires WellFormed(db) && Inv(db, s) && Others(s, b).Some?
    ensures var t := Others(s, b).value;
            && Inv(db, t) && t.db.bindings == s.db.bindings
            && forall j :: Seen(t, j) == Seen(s, j) + if j in {Heartbeat, Udp, Qa, Channel} then Given(b, j) else 0
  {
    var t1 := Then(Some(s), Heartbeat, b.heartbeats).value;
    var t2 := Then(Some(t1), Udp, b.udps).value;
    var t3 := Then(Some(t2), Qa, b.qas).value;
    TableSaw(db, s, Heartbeat, b.heartbeats);
    TableSaw(db, t1, Udp, b.udps);
    TableSaw(db, t2, Qa, b.qas);
    TableSaw(db, t3, Channel, b.channels);
    var t4 := Then(Some(t3), Channel, b.channels).value;
    forall j ensures Seen(t4, j) == Seen(s, j) + if j in {Heartbeat, Udp, Qa, Channel} then Given(b, j) else 0 {
      FourSeen(db, s, t1, t2, t3, t4, b, j);
    }
  }

  lemma FourSeen(start: Db, s: State, t1: State, t2: State, t3: State, t4: State, b: Bundle, j: Kind)
    requires SawMore(start, s, t1, Heartbeat, |b.heartbeats|) && SawMore(start, t1, t2, Udp, |b.udps|)
    requires SawMore(start, t2, t3, Qa, |b.qas|) && SawMore(start, t3, t4, Channel, |b.channels|)
    ensures Seen(t4, j) == Seen(s, j) + if j in {Heartbeat, Udp, Qa, Channel} then Given(b, j) else 0
  {
    SawMoreOf(start, s, t1, Heartbeat, |b.heartbeats|, j);
    SawMoreOf(start, t1, t2, Udp, |b.udps|, j);
    SawMoreOf(start, t2, t3, Qa, |b.qas|, j);
    SawMoreOf(start, t3, t4, Channel, |b.channels|, j);
  }

  lemma ProbesSound(db: Db, b: Bundle)
    requires WellFormed(db) && Then(Then(Then(Some(Begin(db)), Url, b.urls), Api, b.apis), Tcp, b.tcps).Some?
    ensures var t := Then(Then(Then(Some(Begin(db)), Url, b.urls), Api, b.apis), Tcp, b.tcps).value;
            && Inv(db, t) && t.db.bindings == db.bindings
            && forall j :: Seen(t, j) == if j in {Url, Api, Tcp} then Given(b, j) else 0
  {
    Table(db, Begin(db), Url, b.urls);
    var s1 := ImportRows(Begin(db), Url, b.urls).value;
    Table(db, s1, Api, b.apis);
    Table(db, ImportRows(s1, Api, b.apis).value, Tcp, b.tcps);
  }

  /** Wiring after the rows fails exactly on a monitor that cannot be bound. */
  lemma WiredSound(db: Db, b: Bundle)
    requires WellFormed(db) && Monitors(db, b).Some?
    ensures var t := Monitors(db, b).value;
            && (WireAll(t, t.pending).Some? <==> AllBind(MapOf(t.maps, Channel), t.db.cap, t.pending))
            && (WireAll(t, t.pending).Some? ==>
                  && Inv(db, WireAll(t, t.pending).value)
                  && forall j :: Seen(WireAll(t, t.pending).value, j) == Seen(t, j))
  {
    MonitorsSound(db, b);
    var t := Monitors(db, b).value;
    WireAbortsIff(db, t, |t.pending|);
    assert t.pending[..|t.pending|] == t.pending;
    if WireAll(t, t.pending).Some? {
      forall j ensures Seen(WireAll(t, t.pending).value, j) == Seen(t, j) { WiringSeen(t, t.pending, j); }
    }
  }

  lemma PagesSound(db: Db, s: State, pages: seq<PageInput>)
    requires WellFormed(db) && Inv(db, s) && ImportPages(s, pages).Some?
    ensures Inv(db, ImportPages(s, pages).value) && ImportPages(s, pages).value.maps == s.maps
    ensures forall k :: Seen(ImportPages(s, pages).value, k) == Seen(s, k) + if k == Page then |pages| + Doubles(s.maps, pages) else 0
  {
    PagesInv(db, s, pages);
    PagesSeen(s, pages, Page);
    forall k ensures Seen(ImportPages(s, pages).value, k) == Seen(s, k) + if k == Page then |pages| + Doubles(s.maps, pages) else 0 {
      PagesSeen(s, pages, k);
    }
  }

  /**
   Whatever the bundle: every surviving binding and page row points at rows this import
   created, counters are exact, and every input row is counted or skipped; only a kept page
   whose slug cannot be printed and which has a dangling reference is both.
   */
  lemma ImportIsSound(db: Db, b: Bundle)
    requires WellFormed(db) && Whole(db, b).Some?
    ensures var t := Whole(db, b).value;
            && Lands(db, t.db) && Exact(db, t) && Grows(db, t.db)
            && forall k :: CountOf(t, k) + SkipsOf(t.skipped, k) == Given(b, k) + if k == Page then Doubles(t.maps, b.pages) else 0
  {
    MonitorsSound(db, b);
    WiredSound(db, b);
    var rows := Monitors(db, b).value;
    PagesSound(db, WireAll(rows, rows.pending).value, b.pages);
    assert forall k :: Seen(Whole(db, b).value, k) == Given(b, k) + if k == Page then Doubles(Whole(db, b).value.maps, b.pages) else 0;
  }

  /** Counted plus skipped is what was given. */
  predicate RecordedOnce(s: State, b: Bundle, k: Kind) {
    CountOf(s, k) + SkipsOf(s.skipped, k) == Given(b, k)
  }

  /** Every input row is counted or skipped once, exactly if no kept page has both an unprintable slug and a dangling reference. */
  lemma RecordedOnceIff(db: Db, b: Bundle)
    requires WellFormed(db) && Whole(db, b).Some?
    ensures (forall k :: RecordedOnce(Whole(db, b).value, b, k))
       <==> (forall i :: 0 <= i < |b.pages| ==> !IsDouble(Whole(db, b).value.maps, b.pages[i]))
  {
    ImportIsSound(db, b);
    var t := Whole(db, b).value;
    NoDoublesIff(t.maps, b.pages);
    assert RecordedOnce(t, b, Page) <==> Doubles(t.maps, b.pages) == 0;
    assert forall k :: k != Page ==> RecordedOnce(t, b, k);
  }

  // ------------------------------------------------------------ when an import commits

  /** Every row of the list that is kept can be bound. */
  predicate KeptBind(m: map<int, int>, cap: nat, k: Kind, rows: seq<Row>) {
    forall i :: 0 <= i < |rows| && rows[i].Row? && !Fails(k, rows[i]) ==> Bindable(m, cap, rows[i].refs)
  }

  lemma NothingToBind(m: map<int, int>, cap: nat)
    ensures Bindable(m, cap, [])
  {
    assert Resolved(m, []) == {};
  }

  lemma RowPending(s: State, k: Kind, row: Row, m: map<int, int>, cap: nat)
    requires ImportRow(s, k, row).Some?
    ensures AllBind(m, cap, ImportRow(s, k, row).value.pending) <==>
            AllBind(m, cap, s.pending) && (k in {Url, Api} && row.Row? && !Fails(k, row) ==> Bindable(m, cap, row.refs))
  {
    NothingToBind(m, cap);
    if row.Row? && !Fails(k, row) && k in {Url, Api} && row.refs != [] {
      var more := s.pending + [Bound(Id(k, Next(s.db, k)), row.refs, row.name)];
      assert more[|s.pending|].refs == row.refs;
      assert forall i :: 0 <= i < |s.pending| ==> more[i] == s.pending[i];
    }
  }

  lemma LastKept(m: map<int, int>, cap: nat, k: Kind, rows: seq<Row>)
    requires rows != []
    ensures var init, row := rows[..|rows| - 1], rows[|rows| - 1];
            KeptBind(m, cap, k, rows) <==> KeptBind(m, cap, k, init) && (row.Row? && !Fails(k, row) ==> Bindable(m, cap, row.refs))
  {
    var init := rows[..|rows| - 1];
    assert forall i :: 0 <= i < |init| ==> rows[i] == init[i];
  }

  lemma {:induction false} RowsPending(s: State, k: Kind, rows: seq<Row>, m: map<int, int>, cap: nat)
    requires ImportRows(s, k, rows).Some?
    ensures AllBind(m, cap, ImportRows(s, k, rows).value.pending) <==>
            AllBind(m, cap, s.pending) && (k in {Url, Api} ==> KeptBind(m, cap, k, rows))
    decreases |rows|
  {
    if rows != [] {
      RowsPending(s, k, rows[..|rows| - 1], m, cap);
      RowPending(ImportRows(s, k, rows[..|rows| - 1]).value, k, rows[|rows| - 1], m, cap);
      LastKept(m, cap, k, rows);
    }
  }

  lemma ThenPending(s: Option<State>, k: Kind, rows: seq<Row>, m: map<int, int>, cap: nat)
    requires Then(s, k, rows).Some?
    ensures AllBind(m, cap, Then(s, k, rows).value.pending) <==>
            AllBind(m, cap, s.value.pending) && (k in {Url, Api} ==> KeptBind(m, cap, k, rows))
  {
    RowsPending(s.value, k, rows, m, cap);
  }

  lemma OthersPending(s: State, b: Bundle, m: map<int, int>, cap: nat)
    requires Others(s, b).Some?
    ensures AllBind(m, cap, Others(s, b).value.pending) <==> AllBind(m, cap, s.pending)
  {
    var s4 := Then(Some(s), Heartbeat, b.heartbeats);
    var s5 := Then(s4, Udp, b.udps);
    var s6 := Then(s5, Qa, b.qas);
    ThenPending(Some(s), Heartbeat, b.heartbeats, m, cap);
    ThenPending(s4, Udp, b.udps, m, cap);
    ThenPending(s5, Qa, b.qas, m, cap);
    ThenPending(s6, Channel, b.channels, m, cap);
  }

  lemma PendingBinds(db: Db, b: Bundle, m: map<int, int>, cap: nat)
    requires Monitors(db, b).Some?
    ensures AllBind(m, cap, Monitors(db, b).value.pending) <==> KeptBind(m, cap, Url, b.urls) && KeptBind(m, cap, Api, b.apis)
  {
    var s1 := Then(Some(Begin(db)), Url, b.urls);
    var s2 := Then(s1, Api, b.apis);
    var s3 := Then(s2, Tcp, b.tcps);
    OthersPending(s3.value, b, m, cap);
    ThenPending(Some(Begin(db)), Url, b.urls, m, cap);
    ThenPending(s1, Api, b.apis, m, cap);
    ThenPending(s2, Tcp, b.tcps, m, cap);
  }

  // ------------------------------------------------------------ which channels a bundle's references reach

  /** The bundle ids of the channels that are kept. */
  function KeptIds(rows: seq<Row>): set<int> {
    set i | 0 <= i < |rows| && rows[i].Row? && !Fails(Channel, rows[i]) && rows[i].ref.Some? :: rows[i].ref.value
  }

  /** The distinct ids among the references that name a kept channel. */
  function Named(ids: set<int>, refs: seq<Ref>): set<int> {
    set i | 0 <= i < |refs| && refs[i].Number? && refs[i].n in ids :: refs[i].n
  }

  /** The channel map sends the bundle's ids to different channels, all already handed out. */
  ghost predicate SendsApart(s: State, m: map<int, int>) {
    && (forall a, b :: a in m && b in m && m[a] == m[b] ==> a == b)
    && (forall a :: a in m ==> m[a] < Next(s.db, Channel))
  }

  ghost predicate ChannelMapIs(s: State, ids: set<int>) {
    MapOf(s.maps, Channel).Keys == ids && SendsApart(s, MapOf(s.maps, Channel))
  }

  lemma RowMaps(s: State, k: Kind, row: Row, ids: set<int>)
    requires ImportRow(s, k, row).Some? && ChannelMapIs(s, ids)
    ensures ChannelMapIs(ImportRow(s, k, row).value, if k == Channel then ids + KeptIds([row]) else ids)
    ensures ImportRow(s, k, row).value.db.cap == s.db.cap
  {
    assert k == Channel && row.Row? && !Fails(k, row) && row.ref.Some? ==> KeptIds([row]) == {row.ref.value} by {
      assert [row][0] == row;
    }
  }

  lemma LastKeptId(rows: seq<Row>)
    requires rows != []
    ensures KeptIds(rows) == KeptIds(rows[..|rows| - 1]) + KeptIds([rows[|rows| - 1]])
  {
    var init, last := rows[..|rows| - 1], [rows[|rows| - 1]];
    assert last[0] == rows[|rows| - 1];
    forall x ensures x in KeptIds(rows) <==> x in KeptIds(init) || x in KeptIds(last) {
      if x in KeptIds(init) {
        var i :| 0 <= i < |init| && init[i].Row? && !Fails(Channel, init[i]) && init[i].ref == Some(x);
        assert rows[i] == init[i];
      }
    }
  }

  lemma {:induction false} RowsMaps(s: State, k: Kind, rows: seq<Row>, ids: set<int>)
    requires ImportRows(s, k, rows).Some? && ChannelMapIs(s, ids)
    ensures ChannelMapIs(ImportRows(s, k, rows).value, if k == Channel then ids + KeptIds(rows) else ids)
    ensures ImportRows(s, k, rows).value.db.cap == s.db.cap
    decreases |rows|
  {
    if rows == [] {
      assert KeptIds(rows) == {} && ids + {} == ids;
    } else {
      var init, now := rows[..|rows| - 1], if k == Channel then ids + KeptIds(rows[..|rows| - 1]) else ids;
      RowsMaps(s, k, init, ids);
      RowMaps(ImportRows(s, k, init).value, k, rows[|rows| - 1], now);
      LastKeptId(rows);
      assert ids + KeptIds(rows) == (ids + KeptIds(init)) + KeptIds([rows[|rows| - 1]]);
    }
  }

  lemma ThenMaps(s: Option<State>, k: Kind, rows: seq<Row>, ids: set<int>)
    requires Then(s, k, rows).Some? && ChannelMapIs(s.value, ids)
    ensures ChannelMapIs(Then(s, k, rows).value, if k == Channel then ids + KeptIds(rows) else ids)
    ensures Then(s, k, rows).value.db.cap == s.value.db.cap
  {
    RowsMaps(s.value, k, rows, ids);
  }

  lemma OthersMap(s: State, b: Bundle)
    requires Others(s, b).Some? && ChannelMapIs(s, {})
    ensures ChannelMapIs(Others(s, b).value, KeptIds(b.channels)) && Others(s, b).value.db.cap == s.db.cap
  {
    var s4 := Then(Some(s), Heartbeat, b.heartbeats);
    var s5 := Then(s4, Udp, b.udps);
    var s6 := Then(s5, Qa, b.qas);
    ThenMaps(Some(s), Heartbeat, b.heartbeats, {});
    ThenMaps(s4, Udp, b.udps, {});
    ThenMaps(s5, Qa, b.qas, {});
    ThenMaps(s6, Channel, b.channels, {});
    assert {} + KeptIds(b.channels) == KeptIds(b.channels);
  }

  /** After the rows the channel map is of the kept channels, and one to one. */
  lemma ChannelMap(db: Db, b: Bundle)
    requires Monitors(db, b).Some?
    ensures ChannelMapIs(Monitors(db, b).value, KeptIds(b.channels)) && Monitors(db, b).value.db.cap == db.cap
  {
    var s1 := Then(Some(Begin(db)), Url, b.urls);
    var s2 := Then(s1, Api, b.apis);
    var s3 := Then(s2, Tcp, b.tcps);
    ThenMaps(Some(Begin(db)), Url, b.urls, {});
    ThenMaps(s1, Api, b.apis, {});
    ThenMaps(s2, Tcp, b.tcps, {});
    OthersMap(s3.value, b);
  }

  lemma ImageSize(m: map<int, int>, keys: set<int>, image: set<int>)
    requires keys <= m.Keys && forall a, b :: a in m && b in m && m[a] == m[b] ==> a == b
    requires image == set a | a in keys :: m[a]
    ensures |image| == |keys|
    decreases keys
  {
    if keys != {} {
      Inhabited(keys);
      var a :| a in keys;
      var rest := set x | x in keys - {a} :: m[x];
      ImageSize(m, keys - {a}, rest);
      assert image == rest + {m[a]};
    }
  }

  /** As many channels are reached as kept channels are named. */
  lemma ReachesAsMany(m: map<int, int>, refs: seq<Ref>)
    requires forall a, b :: a in m && b in m && m[a] == m[b] ==> a == b
    ensures |Resolved(m, refs)| == |Named(m.Keys, refs)|
  {
    var names := Named(m.Keys, refs);
    forall x ensures x in Resolved(m, refs) <==> x in set a | a in names :: m[a] {
      if a :| a in names && m[a] == x {
        var i :| 0 <= i < |refs| && refs[i].Number? && refs[i].n == a;
        assert Maps(m, refs[i]);
      }
      if i :| 0 <= i < |refs| && Maps(m, refs[i]) && m[refs[i].n] == x { assert refs[i].n in names; }
    }
    ImageSize(m, names, Resolved(m, refs));
  }

  /** References that can be bound, said of the bundle alone. */
  predicate CanBind(ids: set<int>, cap: nat, refs: seq<Ref>) {
    AllPrintable(refs) && |Named(ids, refs)| <= cap
  }

  predicate KeptCanBind(b: Bundle, cap: nat, k: Kind, rows: seq<Row>) {
    forall i :: 0 <= i < |rows| && rows[i].Row? && !Fails(k, rows[i]) ==> CanBind(KeptIds(b.channels), cap, rows[i].refs)
  }

  lemma SameBinding(m: map<int, int>, b: Bundle, cap: nat, k: Kind, rows: seq<Row>)
    requires m.Keys == KeptIds(b.channels) && forall x, y :: x in m && y in m && m[x] == m[y] ==> x == y
    ensures KeptBind(m, cap, k, rows) <==> KeptCanBind(b, cap, k, rows)
  {
    forall i | 0 <= i < |rows| && rows[i].Row? ensures Bindable(m, cap, rows[i].refs) <==> CanBind(KeptIds(b.channels), cap, rows[i].refs) {
      ReachesAsMany(m, rows[i].refs);
    }
  }

  lemma BindsIff(db: Db, b: Bundle)
    requires Monitors(db, b).Some?
    ensures AllBind(MapOf(Monitors(db, b).value.maps, Channel), Monitors(db, b).value.db.cap, Monitors(db, b).value.pending)
       <==> KeptCanBind(b, db.cap, Url, b.urls) && KeptCanBind(b, db.cap, Api, b.apis)
  {
    var t := Monitors(db, b).value;
    ChannelMap(db, b);
    PendingBinds(db, b, MapOf(t.maps, Channel), db.cap);
    SameBinding(MapOf(t.maps, Channel), b, db.cap, Url, b.urls);
    SameBinding(MapOf(t.maps, Channel), b, db.cap, Api, b.apis);
  }

  /**
   An import commits exactly if no list but the channels holds a null, and no kept URL monitor
   or API check lists a channel reference that cannot be printed or names more kept channels
   than one statement can bind.
   */
  lemma CommitsIff(db: Db, b: Bundle)
    requires WellFormed(db)
    ensures Whole(db, b).Some? <==>
            && NoNull(b.urls) && NoNull(b.apis) && NoNull(b.tcps) && NoNull(b.heartbeats) && NoNull(b.udps) && NoNull(b.qas)
            && (forall i :: 0 <= i < |b.pages| ==> b.pages[i].PageInput?)
            && KeptCanBind(b, db.cap, Url, b.urls) && KeptCanBind(b, db.cap, Api, b.apis)
  {
    MonitorsCommitIff(db, b);
    if Monitors(db, b).Some? {
      WiredSound(db, b);
      BindsIff(db, b);
      var rows := Monitors(db, b).value;
      if WireAll(rows, rows.pending).Some? { PagesCommitIff(WireAll(rows, rows.pending).value, b.pages); }
    }
  }

  /** One kept monitor with one unprintable reference rolls everything back, though no list holds a null. */
  lemma UnprintableRefRollsBack(db: Db, name: string)
    requires WellFormed(db)
    ensures Whole(db, Bundle([Row(None, name, [Other(None)], 0, Accepted)], [], [], [], [], [], [], [])).None?
  {
    var row := Row(None, name, [Other(None)], 0, Accepted);
    var b := Bundle([row], [], [], [], [], [], [], []);
    CommitsIff(db, b);
    assert !AllPrintable(b.urls[0].refs) by { assert !Printable(row.refs[0]); }
  }

  /** One resolving and one dangling reference under an unprintable slug: the page is counted and skipped. */
  lemma UnprintableSlugIsRecordedTwice(maps: IdMaps, ref: int, dangling: int)
    requires ref in MapOf(maps, Url) && dangling !in MapOf(maps, Url)
    ensures IsDouble(maps, PageInput(None, [PageRef(Number(ref), Some("url")), PageRef(Number(dangling), Some("url"))], Accepted))
  {
    var p := PageInput(None, [PageRef(Number(ref), Some("url")), PageRef(Number(dangling), Some("url"))], Accepted);
    assert Resolves(maps, p.monitors[0]) && !Resolves(maps, p.monitors[1]);
  }

  lemma MonitorsCommitIff(db: Db, b: Bundle)
    ensures Monitors(db, b).Some? <==>
            NoNull(b.urls) && NoNull(b.apis) && NoNull(b.tcps) && NoNull(b.heartbeats) && NoNull(b.udps) && NoNull(b.qas)
  {
    forall s, k, rows ensures ImportRows(s, k, rows).Some? <==> k == Channel || NoNull(rows) { RowsCommitIff(s, k, rows); }
  }
}
