/**
 Bulk import: rows of a bundle are inserted one by one under savepoints, bundle references
 are remapped to the ids the database gave out, and everything is one transaction.
 */
module Import {
  import opened Options

  datatype Kind = Url | Api | Tcp | Heartbeat | Udp | Qa | Channel | Page

  datatype Id = Id(kind: Kind, n: int)

  /** An assertion or a generated test. */
  datatype Child = Child(parent: Id, position: nat)

  datatype Binding = Binding(monitor: Id, channel: int)

  datatype PageRow = PageRow(page: int, monitorType: string, monitor: int)

  /** What a table row was made from: the entry of the bundle, for a row an import made. */
  datatype Origin = Earlier | FromRow(row: Row) | FromPage(page: PageInput)

  /**
   The tables an import writes; the next id of each sequence, which no rollback gives back;
   and the most bindings one INSERT can carry, which the driver's cap on parameters sets.
   */
  datatype Db = Db(rows: map<Id, Origin>, children: set<Child>, bindings: set<Binding>, pageRows: set<PageRow>,
                   next: map<Kind, int>, cap: nat)

  function Next(db: Db, k: Kind): int {
    if k in db.next then db.next[k] else 1
  }

  function Drawn(db: Db, k: Kind): Db {
    db.(next := db.next[k := Next(db, k) + 1])
  }

  // ------------------------------------------------------------ the bundle

  /** Where a row fails, if it does. */
  datatype Fault = Accepted | Invalid | InsertFails | ChildrenFail

  /**
   A reference is any JSON value. Only a number can resolve; anything else has the text a
   template prints for it, or none: printing `{"toString": null}` throws.
   */
  datatype Ref = Number(n: int) | Other(text: Option<string>)

  datatype Row = NullRow | Row(ref: Option<int>, name: string, refs: seq<Ref>, children: nat, fault: Fault)

  /** Types and slugs are texts, or values that cannot be printed. */
  datatype PageRef = NullRef | PageRef(ref: Ref, monitorType: Option<string>)

  datatype PageInput = NullPage | PageInput(slug: Option<string>, monitors: seq<PageRef>, fault: Fault)

  datatype Bundle = Bundle(urls: seq<Row>, apis: seq<Row>, tcps: seq<Row>, heartbeats: seq<Row>, udps: seq<Row>,
                           qas: seq<Row>, channels: seq<Row>, pages: seq<PageInput>)

  // ------------------------------------------------------------ the state of an import

  /** A monitor that is to be bound to channels. */
  datatype Bound = Bound(monitor: Id, refs: seq<Ref>, name: string)

  datatype Note =
    | RowSkipped(kind: Kind, name: string)
    | RefUnresolved(monitor: Id, name: string, ref: Ref)
    | PageRefUnresolved(slug: string, monitorType: string, ref: Ref)

  type IdMaps = map<Kind, map<int, int>>

  datatype State = State(db: Db, maps: IdMaps, pending: seq<Bound>, counts: map<Kind, nat>, wired: nat, skipped: seq<Note>)

  function MapOf(maps: IdMaps, k: Kind): map<int, int> {
    if k in maps then maps[k] else map[]
  }

  function CountOf(s: State, k: Kind): nat {
    if k in s.counts then s.counts[k] else 0
  }

  function Skip(s: State, note: Note): State {
    s.(skipped := s.skipped + [note])
  }

  // ------------------------------------------------------------ one row

  function ChildrenOf(k: Kind, row: Row): nat
    requires row.Row?
  {
    if k in {Url, Api, Qa} then row.children else 0
  }

  predicate Fails(k: Kind, row: Row)
    requires row.Row?
  {
    row.fault == Invalid || row.fault == InsertFails || (row.fault == ChildrenFail && ChildrenOf(k, row) > 0)
  }

  function ChildrenUnder(parent: Id, n: nat): set<Child> {
    set i: nat | i < n :: Child(parent, i)
  }

  function Inserted(db: Db, k: Kind, children: nat, origin: Origin): Db {
    var id := Id(k, Next(db, k));
    Drawn(db, k).(rows := db.rows[id := origin], children := db.children + ChildrenUnder(id, children))
  }

  /** The row and its children are in; references to it resolve from now on. */
  function KeepRow(s: State, k: Kind, row: Row): State
    requires row.Row?
  {
    var n := Next(s.db, k);
    s.(db := Inserted(s.db, k, ChildrenOf(k, row), FromRow(row)),
       maps := if row.ref.Some? && k in {Url, Api, Channel} then s.maps[k := MapOf(s.maps, k)[row.ref.value := n]] else s.maps,
       pending := if k in {Url, Api} && row.refs != [] then s.pending + [Bound(Id(k, n), row.refs, row.name)] else s.pending,
       counts := s.counts[k := CountOf(s, k) + 1])
  }

  /** A failed row costs at most a sequence value. A null row throws in the handler too, except among channels. */
  function ImportRow(s: State, k: Kind, row: Row): Option<State> {
    if row.NullRow? then
      if k == Channel then Some(Skip(s, RowSkipped(k, "?"))) else None
    else if Fails(k, row) then
      Some(Skip(if row.fault == Invalid then s else s.(db := Drawn(s.db, k)), RowSkipped(k, row.name)))
    else Some(KeepRow(s, k, row))
  }

  function ImportRows(s: State, k: Kind, rows: seq<Row>): Option<State>
    decreases |rows|
  {
    if rows == [] then Some(s) else
      var before := ImportRows(s, k, rows[..|rows| - 1]);
      if before.None? then None else ImportRow(before.value, k, rows[|rows| - 1])
  }

  // ------------------------------------------------------------ channel bindings

  predicate Printable(r: Ref) {
    r.Number? || r.text.Some?
  }

  predicate AllPrintable(refs: seq<Ref>) {
    forall i :: 0 <= i < |refs| ==> Printable(refs[i])
  }

  predicate Maps(m: map<int, int>, r: Ref) {
    r.Number? && r.n in m
  }

  function Resolved(m: map<int, int>, refs: seq<Ref>): set<int> {
    set i | 0 <= i < |refs| && Maps(m, refs[i]) :: m[refs[i].n]
  }

  /** Every reference can be printed, and one statement carries the bindings. */
  predicate Bindable(m: map<int, int>, cap: nat, refs: seq<Ref>) {
    AllPrintable(refs) && |Resolved(m, refs)| <= cap
  }

  function Unresolved(m: map<int, int>, b: Bound, refs: seq<Ref>): seq<Note>
    decreases |refs|
  {
    if refs == [] then [] else
      var r := refs[|refs| - 1];
      Unresolved(m, b, refs[..|refs| - 1]) + if Maps(m, r) then [] else [RefUnresolved(b.monitor, b.name, r)]
  }

  function BindingsOf(monitor: Id, channels: set<int>): set<Binding> {
    set c | c in channels :: Binding(monitor, c)
  }

  /**
   One INSERT of distinct bindings, after a note for each reference that does not resolve. No
   savepoint here: a reference that cannot be printed, more bindings than one statement
   carries, or a primary key already there, aborts the whole import.
   */
  function WireOne(s: State, b: Bound): Option<State> {
    var m := MapOf(s.maps, Channel);
    var channels := Resolved(m, b.refs);
    var added := BindingsOf(b.monitor, channels);
    if Bindable(m, s.db.cap, b.refs) && added !! s.db.bindings
    then Some(s.(db := s.db.(bindings := s.db.bindings + added), wired := s.wired + |channels|,
                 skipped := s.skipped + Unresolved(m, b, b.refs)))
    else None
  }

  function WireAll(s: State, pending: seq<Bound>): Option<State>
    decreases |pending|
  {
    if pending == [] then Some(s) else
      var before := WireAll(s, pending[..|pending| - 1]);
      if before.None? then None else WireOne(before.value, pending[|pending| - 1])
  }

  // ------------------------------------------------------------ status pages

  /** Any type but `url` is looked up among the API checks. */
  function MapFor(maps: IdMaps, monitorType: Option<string>): map<int, int> {
    MapOf(maps, if monitorType == Some("url") then Url else Api)
  }

  predicate Resolves(maps: IdMaps, r: PageRef) {
    r.PageRef? && Maps(MapFor(maps, r.monitorType), r.ref)
  }

  function TargetOf(maps: IdMaps, r: PageRef): int
    requires Resolves(maps, r)
  {
    MapFor(maps, r.monitorType)[r.ref.n]
  }

  /** A null, or a dangling reference whose note cannot be printed. */
  predicate Throws(maps: IdMaps, r: PageRef) {
    r.NullRef? || (!Resolves(maps, r) && (!Printable(r.ref) || r.monitorType.None?))
  }

  predicate ResolvingThrows(maps: IdMaps, monitors: seq<PageRef>) {
    exists i :: 0 <= i < |monitors| && Throws(maps, monitors[i])
  }

  function PageRowOf(maps: IdMaps, page: int, r: PageRef): PageRow
    requires Resolves(maps, r) && r.monitorType.Some?
  {
    PageRow(page, r.monitorType.value, TargetOf(maps, r))
  }

  predicate HasRow(maps: IdMaps, r: PageRef) {
    Resolves(maps, r) && r.monitorType.Some?
  }

  function PageRowsOf(maps: IdMaps, page: int, monitors: seq<PageRef>): set<PageRow> {
    set i | 0 <= i < |monitors| && HasRow(maps, monitors[i]) :: PageRowOf(maps, page, monitors[i])
  }

  function ResolvedRefs(maps: IdMaps, monitors: seq<PageRef>): seq<PageRef>
    decreases |monitors|
  {
    if monitors == [] then [] else
      var r := monitors[|monitors| - 1];
      ResolvedRefs(maps, monitors[..|monitors| - 1]) + if Resolves(maps, r) then [r] else []
  }

  function TextOf(t: Option<string>): string {
    if t.Some? then t.value else ""
  }

  function Dangling(maps: IdMaps, slug: Option<string>, monitors: seq<PageRef>): seq<Note>
    decreases |monitors|
  {
    if monitors == [] then [] else
      var r := monitors[|monitors| - 1];
      Dangling(maps, slug, monitors[..|monitors| - 1])
      + if Resolves(maps, r) || r.NullRef? then [] else [PageRefUnresolved(TextOf(slug), TextOf(r.monitorType), r.ref)]
  }

  predicate AllDangle(maps: IdMaps, monitors: seq<PageRef>) {
    monitors != [] && forall i :: 0 <= i < |monitors| ==> !Resolves(maps, monitors[i])
  }

  predicate SomeResolve(maps: IdMaps, monitors: seq<PageRef>) {
    exists i :: 0 <= i < |monitors| && Resolves(maps, monitors[i])
  }

  predicate SomeDangle(maps: IdMaps, monitors: seq<PageRef>) {
    exists i :: 0 <= i < |monitors| && !Resolves(maps, monitors[i])
  }

  /** A resolved reference whose type cannot be printed throws when duplicates are dropped. */
  predicate DedupeThrows(maps: IdMaps, monitors: seq<PageRef>) {
    exists i :: 0 <= i < |monitors| && Resolves(maps, monitors[i]) && monitors[i].monitorType.None?
  }

  /** The page is skipped before it is inserted. */
  predicate PageRefused(maps: IdMaps, p: PageInput)
    requires p.PageInput?
  {
    p.fault == Invalid || ResolvingThrows(maps, p.monitors) || AllDangle(maps, p.monitors)
  }

  predicate PageFails(maps: IdMaps, p: PageInput)
    requires p.PageInput?
  {
    p.fault == InsertFails || DedupeThrows(maps, p.monitors) || (p.fault == ChildrenFail && SomeResolve(maps, p.monitors))
  }

  predicate IsKept(maps: IdMaps, p: PageInput) {
    p.PageInput? && !PageRefused(maps, p) && !PageFails(maps, p)
  }

  /** The page is in, but the note for its dangling references cannot be printed, so it is also recorded as skipped. */
  predicate IsDouble(maps: IdMaps, p: PageInput) {
    IsKept(maps, p) && p.slug.None? && SomeDangle(maps, p.monitors)
  }

  function KeepPage(s: State, p: PageInput): State
    requires p.PageInput?
  {
    var n := Next(s.db, Page);
    s.(db := Inserted(s.db, Page, 0, FromPage(p)).(pageRows := s.db.pageRows + PageRowsOf(s.maps, n, p.monitors)),
       counts := s.counts[Page := CountOf(s, Page) + 1],
       skipped := s.skipped + if IsDouble(s.maps, p) then [RowSkipped(Page, "")] else Dangling(s.maps, p.slug, p.monitors))
  }

  function ImportPage(s: State, p: PageInput): Option<State> {
    if p.NullPage? then None
    else if PageRefused(s.maps, p) then Some(Skip(s, RowSkipped(Page, TextOf(p.slug))))
    else if PageFails(s.maps, p) then Some(Skip(s.(db := Drawn(s.db, Page)), RowSkipped(Page, TextOf(p.slug))))
    else Some(KeepPage(s, p))
  }

  function ImportPages(s: State, pages: seq<PageInput>): Option<State>
    decreases |pages|
  {
    if pages == [] then Some(s) else
      var before := ImportPages(s, pages[..|pages| - 1]);
      if before.None? then None else ImportPage(before.value, pages[|pages| - 1])
  }

  // ------------------------------------------------------------ the whole import

  function Begin(db: Db): State {
    State(db, map[], [], map[], 0, [])
  }

  function Then(s: Option<State>, k: Kind, rows: seq<Row>): Option<State> {
    if s.Some? then ImportRows(s.value, k, rows) else None
  }

  /** The lists in the order they are imported; channels come last, so that references resolve. */
  function Monitors(db: Db, b: Bundle): Option<State> {
    var probes := Then(Then(Then(Some(Begin(db)), Url, b.urls), Api, b.apis), Tcp, b.tcps);
    Then(Then(Then(Then(probes, Heartbeat, b.heartbeats), Udp, b.udps), Qa, b.qas), Channel, b.channels)
  }

  function Whole(db: Db, b: Bundle): Option<State> {
    var rows := Monitors(db, b);
    var wired := if rows.Some? then WireAll(rows.value, rows.value.pending) else None;
    if wired.Some? then ImportPages(wired.value, b.pages) else None
  }

  class Importer {
    var db: Db
    var maps: IdMaps
    var pending: seq<Bound>
    var counts: map<Kind, nat>
    var wired: nat
    var skipped: seq<Note>

    constructor (db: Db)
      ensures View() == Begin(db)
    {
      this.db, maps, pending, counts, wired, skipped := db, map[], [], map[], 0, [];
    }

    function View(): State
      reads this
    {
      State(db, maps, pending, counts, wired, skipped)
    }

    method InsertChildren(parent: Id, children: nat)
      modifies this`db
      ensures db == old(db).(children := old(db).children + ChildrenUnder(parent, children))
    {
      for j := 0 to children
        invariant db == old(db).(children := old(db).children + ChildrenUnder(parent, j))
      {
        db := db.(children := db.children + {Child(parent, j)});
      }
    }

    /** A row and its children under a savepoint: both are in, or the tables are as they were. */
    method Insert(k: Kind, row: Row) returns (id: Option<int>)
      requires row.Row?
      modifies this`db
      ensures id == if Fails(k, row) then None else Some(Next(old(db), k))
      ensures db == if row.fault == Invalid then old(db) else if Fails(k, row) then Drawn(old(db), k)
                    else Inserted(old(db), k, ChildrenOf(k, row), FromRow(row))
    {
      if row.fault == Invalid { return None; }
      var savepoint := db;
      var n := Next(db, k);
      db := Drawn(db, k);
      if row.fault == InsertFails { return None; }
      db := db.(rows := db.rows[Id(k, n) := FromRow(row)]);
      var children := ChildrenOf(k, row);
      InsertChildren(Id(k, n), children);
      if row.fault == ChildrenFail && children > 0 {
        db := savepoint.(next := db.next);
        return None;
      }
      return Some(n);
    }

    /** One row; false when its handler throws out of the import. */
    method One(k: Kind, row: Row) returns (ok: bool)
      modifies this
      ensures ok == ImportRow(old(View()), k, row).Some?
      ensures View() == if ok then ImportRow(old(View()), k, row).value else old(View())
    {
      if row.NullRow? {
        if k != Channel { return false; }
        skipped := skipped + [RowSkipped(k, "?")];
        return true;
      }
      var n := Insert(k, row);
      if n.None? {
        skipped := skipped + [RowSkipped(k, row.name)];
        return true;
      }
      if row.ref.Some? && k in {Url, Api, Channel} { maps := maps[k := MapOf(maps, k)[row.ref.value := n.value]]; }
      if k in {Url, Api} && |row.refs| > 0 { pending := pending + [Bound(Id(k, n.value), row.refs, row.name)]; }
      counts := counts[k := (if k in counts then counts[k] else 0) + 1];
      return true;
    }

    method Rows(k: Kind, rows: seq<Row>) returns (ok: bool)
      modifies this
      ensures ok == ImportRows(old(View()), k, rows).Some?
      ensures ok ==> View() == ImportRows(old(View()), k, rows).value
    {
      for i := 0 to |rows|
        invariant ImportRows(old(View()), k, rows[..i]) == Some(View())
      {
        assert rows[..i + 1][..i] == rows[..i];
        var done := One(k, rows[i]);
        if !done {
          RowsAbort(old(View()), k, rows, i + 1);
          return false;
        }
      }
      assert rows[..|rows|] == rows;
      return true;
    }

    /** The distinct channels the references resolve to, and a note for each that does not; false when one cannot be printed. */
    method ResolveRefs(b: Bound) returns (ok: bool, unique: set<int>, notes: seq<Note>)
      ensures ok == AllPrintable(b.refs)
      ensures ok ==> unique == Resolved(MapOf(maps, Channel), b.refs) && notes == Unresolved(MapOf(maps, Channel), b, b.refs)
    {
      var m := MapOf(maps, Channel);
      unique, notes := {}, [];
      for i := 0 to |b.refs|
        invariant unique == Resolved(m, b.refs[..i]) && notes == Unresolved(m, b, b.refs[..i])
        invariant AllPrintable(b.refs[..i])
      {
        var r := b.refs[i];
        assert b.refs[..i + 1][..i] == b.refs[..i];
        assert Resolved(m, b.refs[..i + 1]) == Resolved(m, b.refs[..i]) + if Maps(m, r) then {m[r.n]} else {};
        if Maps(m, r) {
          unique := unique + {m[r.n]};
        } else if r.Other? && r.text.None? {
          return false, unique, notes;
        } else {
          notes := notes + [RefUnresolved(b.monitor, b.name, r)];
        }
      }
      assert b.refs[..|b.refs|] == b.refs;
      return true, unique, notes;
    }

    /** Channels are inserted once each. */
    method Wire(b: Bound) returns (ok: bool)
      modifies this
      ensures ok == WireOne(old(View()), b).Some?
      ensures View() == if ok then WireOne(old(View()), b).value else old(View())
    {
      var printed, unique, notes := ResolveRefs(b);
      if !printed { return false; }
      var added := BindingsOf(b.monitor, unique);
      if |unique| > db.cap || !(added !! db.bindings) { return false; }
      skipped := skipped + notes;
      db := db.(bindings := db.bindings + added);
      wired := wired + |unique|;
      return true;
    }

    method WireChannelBindings() returns (ok: bool)
      modifies this
      ensures ok == WireAll(old(View()), old(pending)).Some?
      ensures ok ==> View() == WireAll(old(View()), old(pending)).value
    {
      var bindings := pending;
      for i := 0 to |bindings|
        invariant WireAll(old(View()), bindings[..i]) == Some(View())
      {
        assert bindings[..i + 1][..i] == bindings[..i];
        var done := Wire(bindings[i]);
        if !done {
          WiringAborts(old(View()), bindings, i + 1);
          return false;
        }
      }
      assert bindings[..|bindings|] == bindings;
      return true;
    }

    /** The references that resolve, and a note for each that does not; false when one throws. */
    method ResolveStatusPageMonitors(slug: Option<string>, monitors: seq<PageRef>)
      returns (ok: bool, resolved: seq<PageRef>, notes: seq<Note>)
      ensures ok == !ResolvingThrows(maps, monitors)
      ensures ok ==> resolved == ResolvedRefs(maps, monitors) && notes == Dangling(maps, slug, monitors)
    {
      resolved, notes := [], [];
      for i := 0 to |monitors|
        invariant resolved == ResolvedRefs(maps, monitors[..i]) && notes == Dangling(maps, slug, monitors[..i])
        invariant forall j :: 0 <= j < i ==> !Throws(maps, monitors[j])
      {
        assert monitors[..i + 1][..i] == monitors[..i];
        var r := monitors[i];
        if r.NullRef? { return false, resolved, notes; }
        if Resolves(maps, r) {
          resolved := resolved + [r];
        } else {
          if (r.ref.Other? && r.ref.text.None?) || r.monitorType.None? { return false, resolved, notes; }
          notes := notes + [PageRefUnresolved(TextOf(slug), r.monitorType.value, r.ref)];
        }
      }
      assert monitors[..|monitors|] == monitors;
      return true, resolved, notes;
    }

    /** Drops duplicates by type and id; false when a type cannot be printed. */
    method DedupeStatusPageMonitors(page: int, resolved: seq<PageRef>) returns (ok: bool, targets: seq<PageRow>)
      requires forall i :: 0 <= i < |resolved| ==> Resolves(maps, resolved[i])
      ensures ok == !DedupeThrows(maps, resolved)
      ensures forall i, j :: 0 <= i < j < |targets| ==> targets[i] != targets[j]
      ensures ok ==> (set r | r in targets) == PageRowsOf(maps, page, resolved)
    {
      targets := [];
      for i := 0 to |resolved|
        invariant forall a, b :: 0 <= a < b < |targets| ==> targets[a] != targets[b]
        invariant forall j :: 0 <= j < i ==> resolved[j].monitorType.Some?
        invariant forall r :: r in targets ==> exists j :: 0 <= j < i && HasRow(maps, resolved[j]) && PageRowOf(maps, page, resolved[j]) == r
        invariant forall j :: 0 <= j < i && HasRow(maps, resolved[j]) ==> PageRowOf(maps, page, resolved[j]) in targets
      {
        if resolved[i].monitorType.None? { return false, targets; }
        var r := PageRowOf(maps, page, resolved[i]);
        if r !in targets { targets := targets + [r]; }
      }
      return true, targets;
    }

    /** The page and its rows under a savepoint. */
    method InsertPage(p: PageInput, resolved: seq<PageRef>) returns (placed: bool)
      requires p.PageInput? && resolved == ResolvedRefs(maps, p.monitors)
      modifies this`db
      ensures placed == !PageFails(maps, p)
      ensures db == if placed
                    then Inserted(old(db), Page, 0, FromPage(p)).(pageRows := old(db).pageRows + PageRowsOf(maps, Next(old(db), Page), p.monitors))
                    else Drawn(old(db), Page)
    {
      var savepoint := db;
      var n := Next(db, Page);
      ResolvedRefsAre(maps, p.monitors);
      SamePageRows(maps, n, p.monitors);
      db := Drawn(db, Page);
      if p.fault == InsertFails { return false; }
      assert ChildrenUnder(Id(Page, n), 0) == {};
      db := db.(rows := db.rows[Id(Page, n) := FromPage(p)]);
      var distinct, targets := DedupeStatusPageMonitors(n, resolved);
      if !distinct || (p.fault == ChildrenFail && |resolved| > 0) {
        db := savepoint.(next := db.next);
        return false;
      }
      db := db.(pageRows := db.pageRows + set r | r in targets);
      return true;
    }

    method Refuse(k: Kind, name: string)
      modifies this`skipped
      ensures View() == Skip(old(View()), RowSkipped(k, name))
    {
      skipped := skipped + [RowSkipped(k, name)];
    }

    /** Counts a page that is in, and notes its dangling references; a slug that cannot be printed makes that note throw. */
    method CountPage(p: PageInput, notes: seq<Note>)
      modifies this`counts, this`skipped
      ensures counts == old(counts)[Page := CountOf(old(View()), Page) + 1]
      ensures skipped == old(skipped) + if notes != [] && p.PageInput? && p.slug.None? then [RowSkipped(Page, "")] else notes
    {
      counts := counts[Page := (if Page in counts then counts[Page] else 0) + 1];
      skipped := skipped + if |notes| > 0 && p.PageInput? && p.slug.None? then [RowSkipped(Page, "")] else notes;
    }

    method OnePage(p: PageInput) returns (ok: bool)
      modifies this
      ensures ok == ImportPage(old(View()), p).Some?
      ensures View() == if ok then ImportPage(old(View()), p).value else old(View())
    {
      if p.NullPage? { return false; }
      ok := true;
      if p.fault == Invalid {
        Refuse(Page, TextOf(p.slug));
        return;
      }
      var resolving, resolved, notes := ResolveStatusPageMonitors(p.slug, p.monitors);
      RefusedIff(maps, p);
      if !resolving || (|p.monitors| > 0 && |resolved| == 0) {
        Refuse(Page, TextOf(p.slug));
        return;
      }
      var placed := InsertPage(p, resolved);
      if !placed {
        Refuse(Page, TextOf(p.slug));
        return;
      }
      NotesIffDangling(maps, p.slug, p.monitors);
      CountPage(p, notes);
    }

    method StatusPages(pages: seq<PageInput>) returns (ok: bool)
      modifies this
      ensures ok == ImportPages(old(View()), pages).Some?
      ensures ok ==> View() == ImportPages(old(View()), pages).value
    {
      for i := 0 to |pages|
        invariant ImportPages(old(View()), pages[..i]) == Some(View())
      {
        assert pages[..i + 1][..i] == pages[..i];
        var done := OnePage(pages[i]);
        if !done {
          PagesAbort(old(View()), pages, i + 1);
          return false;
        }
      }
      assert pages[..|pages|] == pages;
      return true;
    }

    /** The callback of the import's transaction. */
    method Body(b: Bundle) returns (ok: bool)
      requires View() == Begin(db)
      modifies this
      ensures ok == Whole(old(db), b).Some?
      ensures ok ==> View() == Whole(old(db), b).value
    {
      ok := Rows(Url, b.urls);
      if ok { ok := Rows(Api, b.apis); }
      if ok { ok := Rows(Tcp, b.tcps); }
      if ok { ok := Rows(Heartbeat, b.heartbeats); }
      if ok { ok := Rows(Udp, b.udps); }
      if ok { ok := Rows(Qa, b.qas); }
      if ok { ok := Rows(Channel, b.channels); }
      if ok { ok := WireChannelBindings(); }
      if ok { ok := StatusPages(b.pages); }
    }
  }

  /** `/api/import`: another version is refused, and an import that throws rolls every table back, though not the sequences. */
  method RunImport(db: Db, version: int, b: Bundle) returns (after: Db, result: Option<State>)
    ensures result == if version == 1 then Whole(db, b) else None
    ensures result.Some? ==> after == result.value.db
    ensures result.None? ==> after.(next := db.next) == db
  {
    if version != 1 { return db, None; }
    var importer := new Importer(db);
    var ok := importer.Body(b);
    if ok { return importer.db, Some(importer.View()); }
    return db.(next := importer.db.next), None;
  }

  lemma {:induction false} RowsAbort(s: State, k: Kind, rows: seq<Row>, n: nat)
    requires n <= |rows| && ImportRows(s, k, rows[..n]).None?
    ensures ImportRows(s, k, rows).None?
    decreases |rows|
  {
    if n < |rows| {
      assert rows[..|rows| - 1][..n] == rows[..n];
      RowsAbort(s, k, rows[..|rows| - 1], n);
    } else {
      assert rows[..n] == rows;
    }
  }

  lemma {:induction false} WiringAborts(s: State, pending: seq<Bound>, n: nat)
    requires n <= |pending| && WireAll(s, pending[..n]).None?
    ensures WireAll(s, pending).None?
    decreases |pending|
  {
    if n < |pending| {
      assert pending[..|pending| - 1][..n] == pending[..n];
      WiringAborts(s, pending[..|pending| - 1], n);
    } else {
      assert pending[..n] == pending;
    }
  }

  lemma {:induction false} PagesAbort(s: State, pages: seq<PageInput>, n: nat)
    requires n <= |pages| && ImportPages(s, pages[..n]).None?
    ensures ImportPages(s, pages).None?
    decreases |pages|
  {
    if n < |pages| {
      assert pages[..|pages| - 1][..n] == pages[..n];
      PagesAbort(s, pages[..|pages| - 1], n);
    } else {
      assert pages[..n] == pages;
    }
  }

  lemma {:induction false} ResolvedRefsAre(maps: IdMaps, monitors: seq<PageRef>)
    ensures forall i :: 0 <= i < |ResolvedRefs(maps, monitors)| ==> Resolves(maps, ResolvedRefs(maps, monitors)[i])
    ensures forall r :: r in ResolvedRefs(maps, monitors) <==> r in monitors && Resolves(maps, r)
    ensures ResolvedRefs(maps, monitors) != [] <==> SomeResolve(maps, monitors)
    decreases |monitors|
  {
    if monitors != [] {
      var init, r := monitors[..|monitors| - 1], monitors[|monitors| - 1];
      ResolvedRefsAre(maps, init);
      assert monitors == init + [r];
      if SomeResolve(maps, init) {
        var i :| 0 <= i < |init| && Resolves(maps, init[i]);
        assert Resolves(maps, monitors[i]);
      }
    }
  }

  lemma RefusedIff(maps: IdMaps, p: PageInput)
    requires p.PageInput?
    ensures PageRefused(maps, p) <==>
            p.fault == Invalid || ResolvingThrows(maps, p.monitors) || (p.monitors != [] && ResolvedRefs(maps, p.monitors) == [])
  {
    ResolvedRefsAre(maps, p.monitors);
  }

  lemma SamePageRows(maps: IdMaps, page: int, monitors: seq<PageRef>)
    ensures PageRowsOf(maps, page, ResolvedRefs(maps, monitors)) == PageRowsOf(maps, page, monitors)
    ensures DedupeThrows(maps, ResolvedRefs(maps, monitors)) <==> DedupeThrows(maps, monitors)
  {
    ResolvedRefsAre(maps, monitors);
    var resolved := ResolvedRefs(maps, monitors);
    forall i | 0 <= i < |monitors| && Resolves(maps, monitors[i]) ensures monitors[i] in resolved { }
    forall i | 0 <= i < |resolved| ensures resolved[i] in monitors { assert resolved[i] in resolved; }
  }

  lemma {:induction false} NotesIffDangling(maps: IdMaps, slug: Option<string>, monitors: seq<PageRef>)
    requires !ResolvingThrows(maps, monitors)
    ensures Dangling(maps, slug, monitors) != [] <==> SomeDangle(maps, monitors)
    decreases |monitors|
  {
    if monitors != [] {
      var init := monitors[..|monitors| - 1];
      forall i | 0 <= i < |init| ensures !Throws(maps, init[i]) { assert init[i] == monitors[i]; }
      NotesIffDangling(maps, slug, init);
      assert !Throws(maps, monitors[|monitors| - 1]);
      if SomeDangle(maps, init) {
        var i :| 0 <= i < |init| && !Resolves(maps, init[i]);
        assert !Resolves(maps, monitors[i]);
      }
    }
  }
}
