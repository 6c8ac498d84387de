/**
 The dump's contract: which tables it holds and in which order, their foreign keys,
 their serial ids and date columns, and how a row travels through JSON.
 */
module BackupTables {
  import opened Options

  const BACKUP_FORMAT := 1
  const READ_BATCH: nat := 2000
  const WRITE_BATCH: nat := 500

  datatype Table =
    | ApiKeys | Users | Regions
    | UrlMonitors | ApiChecks | TcpMonitors | UdpMonitors | DbMonitors | TlsMonitors
    | QaProjects | HeartbeatMonitors
    | UrlMonitorAssertions | ApiAssertions | QaGeneratedTests
    | AlertChannels | MonitorAlertChannels | MonitorRegions
    | StatusPages | StatusPageMonitors | Incidents | IncidentUpdates
    | UrlMonitorExecutions | ApiExecutions | TcpExecutions | UdpExecutions | DbExecutions | TlsExecutions
    | QaRuns | QaTestExecutions
    | Sessions  // not part of a dump

  /** The order tables are dumped and restored in. */
  const TABLES := [
    ApiKeys, Users, Regions,
    UrlMonitors, ApiChecks, TcpMonitors, UdpMonitors, DbMonitors, TlsMonitors,
    QaProjects, HeartbeatMonitors,
    UrlMonitorAssertions, ApiAssertions, QaGeneratedTests,
    AlertChannels, MonitorAlertChannels, MonitorRegions,
    StatusPages, StatusPageMonitors, Incidents, IncidentUpdates,
    UrlMonitorExecutions, ApiExecutions, TcpExecutions, UdpExecutions, DbExecutions, TlsExecutions,
    QaRuns, QaTestExecutions]

  /** Position of a table in `TABLES`. */
  function Rank(t: Table): nat {
    match t
    case ApiKeys => 0
    case Users => 1
    case Regions => 2
    case UrlMonitors => 3
    case ApiChecks => 4
    case TcpMonitors => 5
    case UdpMonitors => 6
    case DbMonitors => 7
    case TlsMonitors => 8
    case QaProjects => 9
    case HeartbeatMonitors => 10
    case UrlMonitorAssertions => 11
    case ApiAssertions => 12
    case QaGeneratedTests => 13
    case AlertChannels => 14
    case MonitorAlertChannels => 15
    case MonitorRegions => 16
    case StatusPages => 17
    case StatusPageMonitors => 18
    case Incidents => 19
    case IncidentUpdates => 20
    case UrlMonitorExecutions => 21
    case ApiExecutions => 22
    case TcpExecutions => 23
    case UdpExecutions => 24
    case DbExecutions => 25
    case TlsExecutions => 26
    case QaRuns => 27
    case QaTestExecutions => 28
    case Sessions => 29
  }

  lemma TableAtRank(t: Table)
    requires t != Sessions
    ensures Rank(t) < |TABLES| && TABLES[Rank(t)] == t
  {
    match t
    case ApiKeys =>
    case Users =>
    case Regions =>
    case UrlMonitors =>
    case ApiChecks =>
    case TcpMonitors =>
    case UdpMonitors =>
    case DbMonitors =>
    case TlsMonitors =>
    case QaProjects =>
    case HeartbeatMonitors =>
    case UrlMonitorAssertions =>
    case ApiAssertions =>
    case QaGeneratedTests =>
    case AlertChannels =>
    case MonitorAlertChannels =>
    case MonitorRegions =>
    case StatusPages =>
    case StatusPageMonitors =>
    case Incidents =>
    case IncidentUpdates =>
    case UrlMonitorExecutions =>
    case ApiExecutions =>
    case TcpExecutions =>
    case UdpExecutions =>
    case DbExecutions =>
    case TlsExecutions =>
    case QaRuns =>
    case QaTestExecutions =>
    case _ =>
  }

  lemma RankAtIndex(i: nat)
    requires i < |TABLES|
    ensures Rank(TABLES[i]) == i && TABLES[i] != Sessions
  {
    if i < 15 { EarlyRank(i); } else { LateRank(i); }
  }

  lemma EarlyRank(i: nat)
    requires i < 15
    ensures i < |TABLES| && Rank(TABLES[i]) == i && TABLES[i] != Sessions
  {
  }

  lemma LateRank(i: nat)
    requires 15 <= i < |TABLES|
    ensures Rank(TABLES[i]) == i && TABLES[i] != Sessions
  {
    assert |TABLES| == 29;
  }

  lemma SameRank(a: Table, b: Table)
    ensures Rank(a) == Rank(b) <==> a == b
  {
    if Rank(a) == Rank(b) && a != Sessions { TableAtRank(a); if b != Sessions { TableAtRank(b); } }
  }

  /** Join tables have a composite key and no sequence. */
  function CompositeKey(t: Table): Option<seq<string>> {
    match t
    case MonitorAlertChannels => Some(["monitorType", "monitorId", "channelId"])
    case MonitorRegions => Some(["monitorType", "monitorId", "regionId"])
    case StatusPageMonitors => Some(["statusPageId", "monitorType", "monitorId"])
    case _ => None
  }

  predicate IsSerial(t: Table) {
    CompositeKey(t).None?
  }

  /** The windowed execution tables: skipped by a config-only dump. */
  predicate IsTimed(t: Table) {
    t in {UrlMonitorExecutions, ApiExecutions, TcpExecutions, UdpExecutions, DbExecutions, TlsExecutions,
          QaRuns, QaTestExecutions}
  }

  datatype Reference = Reference(column: string, parent: Table)

  /** The foreign keys of the schema. */
  function References(t: Table): seq<Reference> {
    match t
    case Regions => [Reference("apiKeyId", ApiKeys)]
    case UrlMonitorAssertions => [Reference("urlMonitorId", UrlMonitors)]
    case ApiAssertions => [Reference("apiCheckId", ApiChecks)]
    case QaGeneratedTests => [Reference("projectId", QaProjects)]
    case MonitorAlertChannels => [Reference("channelId", AlertChannels)]
    case MonitorRegions => [Reference("regionId", Regions)]
    case StatusPageMonitors => [Reference("statusPageId", StatusPages)]
    case Incidents => [Reference("statusPageId", StatusPages)]
    case IncidentUpdates => [Reference("incidentId", Incidents)]
    case UrlMonitorExecutions => [Reference("urlMonitorId", UrlMonitors), Reference("regionId", Regions)]
    case ApiExecutions => [Reference("apiCheckId", ApiChecks), Reference("regionId", Regions)]
    case TcpExecutions => [Reference("tcpMonitorId", TcpMonitors), Reference("regionId", Regions)]
    case UdpExecutions => [Reference("udpMonitorId", UdpMonitors), Reference("regionId", Regions)]
    case DbExecutions => [Reference("dbMonitorId", DbMonitors), Reference("regionId", Regions)]
    case TlsExecutions => [Reference("tlsMonitorId", TlsMonitors), Reference("regionId", Regions)]
    case QaRuns => [Reference("projectId", QaProjects), Reference("regionId", Regions)]
    case QaTestExecutions =>
      [Reference("testId", QaGeneratedTests), Reference("projectId", QaProjects),
       Reference("regionId", Regions), Reference("runId", QaRuns)]
    case Sessions => [Reference("userId", Users)]
    case _ => []
  }

  /** Parents come first, are serial, and a config table never references an execution table. */
  lemma ParentsFirst(t: Table, i: nat)
    requires i < |References(t)|
    ensures Rank(References(t)[i].parent) < Rank(t)
    ensures IsSerial(References(t)[i].parent) && References(t)[i].parent != Sessions
    ensures t != Sessions && !IsTimed(t) ==> !IsTimed(References(t)[i].parent)
  {
  }

  // ------------------------------------------------------------ rows and their JSON form

  /** A string is arbitrary text, with the instant `new Date` makes of it, if any, or the ISO rendering of an instant. */
  datatype Text = Plain(s: string, date: Option<int>) | Iso(ms: int)

  datatype Cell = Null | Num(n: int) | Bool(b: bool) | Str(text: Text) | Date(ms: int) | Json(doc: string) | InvalidDate

  /** What JSON can carry: everything but dates. */
  datatype Wire = WNull | WNum(n: int) | WBool(b: bool) | WStr(text: Text) | WJson(doc: string)

  type Row = map<string, Cell>
  type WireRow = map<string, Wire>

  /** Columns Drizzle types as `date`. */
  function DateColumns(t: Table): set<string> {
    match t
    case ApiKeys => {"lastUsedAt", "revokedAt", "createdAt", "updatedAt"}
    case Regions => {"lastSeenAt", "createdAt", "updatedAt"}
    case QaProjects => {"lastRunAt", "createdAt", "updatedAt"}
    case HeartbeatMonitors => {"lastPingAt", "createdAt", "updatedAt"}
    case UrlMonitorAssertions => {"createdAt"}
    case ApiAssertions => {"createdAt"}
    case QaGeneratedTests => {"createdAt"}
    case MonitorAlertChannels => {"createdAt"}
    case MonitorRegions => {"createdAt"}
    case StatusPageMonitors => {"createdAt"}
    case Incidents => {"createdAt", "updatedAt", "resolvedAt"}
    case IncidentUpdates => {"createdAt"}
    case UrlMonitorExecutions => {"startTime", "endTime"}
    case ApiExecutions => {"startTime", "endTime"}
    case TcpExecutions => {"startTime", "endTime"}
    case UdpExecutions => {"startTime", "endTime"}
    case DbExecutions => {"startTime", "endTime"}
    case TlsExecutions => {"validTo", "startTime", "endTime"}
    case QaRuns => {"startedAt", "alertedAt"}
    case QaTestExecutions => {"startedAt", "completedAt"}
    case Sessions => {"expiresAt", "createdAt"}
    case _ => {"createdAt", "updatedAt"}
  }

  /** JSON.stringify of one value; a date becomes its ISO string. */
  function Serialize(c: Cell): Wire {
    match c
    case Null => WNull
    case Num(n) => WNum(n)
    case Bool(b) => WBool(b)
    case Str(text) => WStr(text)
    case Date(ms) => WStr(Iso(ms))
    case Json(doc) => WJson(doc)
    case InvalidDate => WNull
  }

  function SerializeRow(row: Row): WireRow {
    map k | k in row :: Serialize(row[k])
  }

  /** The value a column gets back: strings in date columns become dates. */
  function HydrateCell(isDate: bool, w: Wire): Cell {
    match w
    case WNull => Null
    case WNum(n) => Num(n)
    case WBool(b) => Bool(b)
    case WJson(doc) => Json(doc)
    case WStr(text) =>
      if !isDate then Str(text)
      else match text case Iso(ms) => Date(ms) case Plain(_, date) => if date.Some? then Date(date.value) else InvalidDate
  }

  function HydrateRow(t: Table, row: WireRow): Row {
    map k | k in row :: HydrateCell(k in DateColumns(t), row[k])
  }

  /** A value that a column can hold: no text in a date column, no date in another, no invalid date. */
  predicate Fits(isDate: bool, c: Cell) {
    c != InvalidDate && if isDate then !c.Str? else !c.Date?
  }

  predicate IsTyped(t: Table, row: Row) {
    forall k :: k in row ==> Fits(k in DateColumns(t), row[k])
  }

  /** `hydrate`: the entries of the row, one by one. */
  method Hydrate(t: Table, row: WireRow) returns (out: Row)
    ensures out == HydrateRow(t, row)
  {
    out := map[];
    var rest := row.Keys;
    while rest != {}
      invariant rest <= row.Keys
      invariant out.Keys == row.Keys - rest
      invariant forall k :: k in out ==> out[k] == HydrateCell(k in DateColumns(t), row[k])
      decreases rest
    {
      var k :| k in rest;
      out := out[k := HydrateCell(k in DateColumns(t), row[k])];
      rest := rest - {k};
    }
  }

  /** What JSON loses, hydration restores, exactly for rows the schema types. */
  lemma HydrateUndoesJson(t: Table, row: Row)
    ensures HydrateRow(t, SerializeRow(row)) == row <==> IsTyped(t, row)
  {
    var back := HydrateRow(t, SerializeRow(row));
    forall k | k in row ensures back[k] == row[k] <==> Fits(k in DateColumns(t), row[k]) { }
    if IsTyped(t, row) {
      assert back.Keys == row.Keys;
    } else {
      var k :| k in row && !Fits(k in DateColumns(t), row[k]);
      assert back[k] != row[k];
    }
  }
}
