/**
 Heartbeat monitors: pings under a row lock, sweeps of several schedulers that first find
 overdue rows and then mark them one by one.
 */
module Heartbeat {
  import opened Options
  import opened Sets

  const DEBOUNCE_MS := 1000

  datatype Status = Pending | Up | Overdue

  /** Times in milliseconds, period and grace in seconds. */
  datatype Beat = Beat(token: string, period: int, grace: int, enabled: bool, lastPingAt: Option<int>, status: Status)

  type Beats = map<int, Beat>

  datatype Ping = Ping(row: Beat, wasOverdue: bool)

  // ------------------------------------------------------------ statements

  predicate Debounced(b: Beat, now: int) {
    b.lastPingAt.Some? && now - b.lastPingAt.value < DEBOUNCE_MS
  }

  function Pinged(b: Beat, now: int): Beat {
    if Debounced(b, now) then b else b.(lastPingAt := Some(now), status := Up)
  }

  predicate Recovers(b: Beat, now: int) {
    b.status == Overdue && !Debounced(b, now)
  }

  predicate PastDeadline(b: Beat, now: int) {
    b.lastPingAt.Some? && now - b.lastPingAt.value > (b.period + b.grace) * 1000
  }

  predicate IsOverdue(b: Beat, now: int) {
    b.enabled && b.status == Up && PastDeadline(b, now)
  }

  function OverdueIds(beats: Beats, now: int): set<int> {
    set id | id in beats && IsOverdue(beats[id], now)
  }

  function Marked(b: Beat): Beat {
    if b.status == Up then b.(status := Overdue) else b
  }

  /** Tokens are unique. */
  predicate Valid(beats: Beats) {
    forall a, b :: a in beats && b in beats && beats[a].token == beats[b].token ==> a == b
  }

  predicate Answers(beats: Beats, token: string, id: int) {
    id in beats && beats[id].token == token && beats[id].enabled
  }

  // ------------------------------------------------------------ the repository and the tick

  class HeartbeatRepo {
    var rows: Beats

    constructor (rows: Beats)
      ensures this.rows == rows
    {
      this.rows := rows;
    }

    method Lookup(token: string) returns (found: Option<int>)
      ensures found.Some? ==> Answers(rows, token, found.value)
      ensures found.None? ==> forall id :: !Answers(rows, token, id)
    {
      var rest := rows.Keys;
      while rest != {}
        invariant rest <= rows.Keys
        invariant forall id :: id in rows && id !in rest ==> !Answers(rows, token, id)
        decreases rest
      {
        Inhabited(rest);
        var id :| id in rest;
        if rows[id].token == token && rows[id].enabled { return Some(id); }
        rest := rest - {id};
      }
      return None;
    }

    /** One transaction: peek under the row lock, then update. */
    method RecordPing(token: string, now: int) returns (ping: Option<Ping>)
      requires Valid(rows)
      modifies this
      ensures Valid(rows) && rows.Keys == old(rows).Keys
      ensures ping.None? <==> forall id :: !Answers(old(rows), token, id)
      ensures forall id :: id in rows ==> rows[id] == if Answers(old(rows), token, id) then Pinged(old(rows)[id], now) else old(rows)[id]
      ensures forall id :: Answers(old(rows), token, id) ==> ping == Some(Ping(rows[id], Recovers(old(rows)[id], now)))
      ensures forall id :: id in old(rows) && old(rows)[id].token == token && old(rows)[id].enabled ==>
                if old(rows)[id].lastPingAt.Some? && now < old(rows)[id].lastPingAt.value + 1000
                then rows == old(rows) && ping == Some(Ping(rows[id], false))
                else rows == old(rows)[id := old(rows)[id].(lastPingAt := Some(now), status := Up)]
                     && ping == Some(Ping(rows[id], old(rows)[id].status == Overdue))
    {
      var found := Lookup(token);
      if found.None? { return None; }
      var id := found.value;
      var prior := rows[id];
      if prior.lastPingAt.Some? && now - prior.lastPingAt.value < DEBOUNCE_MS {
        return Some(Ping(prior, false));
      }
      rows := rows[id := prior.(lastPingAt := Some(now), status := Up)];
      return Some(Ping(rows[id], prior.status == Overdue));
    }

    method FindOverdue(now: int) returns (due: set<int>)
      ensures due == OverdueIds(rows, now)
      ensures forall id :: id in due <==>
                && id in rows && rows[id].enabled && rows[id].status == Up
                && rows[id].lastPingAt.Some? && now > rows[id].lastPingAt.value + 1000 * (rows[id].period + rows[id].grace)
    {
      due := set id | id in rows && rows[id].enabled && rows[id].status == Up
                      && rows[id].lastPingAt.Some?
                      && now - rows[id].lastPingAt.value > (rows[id].period + rows[id].grace) * 1000;
      assert forall id :: id in due <==> id in OverdueIds(rows, now);
    }

    method MarkOverdue(id: int) returns (transitioned: bool)
      modifies this
      ensures transitioned <==> id in old(rows) && old(rows)[id].status == Up
      ensures rows == if id in old(rows) then old(rows)[id := Marked(old(rows)[id])] else old(rows)
    {
      transitioned := id in rows && rows[id].status == Up;
      if transitioned { rows := rows[id := rows[id].(status := Overdue)]; }
    }

    /**
     A sweep nothing interrupts: exactly the enabled rows past their deadline turn OVERDUE,
     each reported once, nothing else changes, and none is left past its deadline.
     */
    method TickHeartbeats(now: int) returns (outages: seq<int>)
      modifies this
      ensures rows.Keys == old(rows).Keys
      ensures forall id :: id in rows ==>
                rows[id] == if IsOverdue(old(rows)[id], now) then old(rows)[id].(status := Overdue) else old(rows)[id]
      ensures forall i, j :: 0 <= i < j < |outages| ==> outages[i] != outages[j]
      ensures forall id :: id in outages <==> id in OverdueIds(old(rows), now)
      ensures OverdueIds(rows, now) == {}
      ensures forall id :: id in outages <==>
                && id in old(rows) && old(rows)[id].enabled && old(rows)[id].status == Up && old(rows)[id].lastPingAt.Some?
                && now > old(rows)[id].lastPingAt.value + 1000 * (old(rows)[id].period + old(rows)[id].grace)
    {
      var overdue := FindOverdue(now);
      var rest := overdue;
      outages := [];
      while rest != {}
        invariant rest <= overdue && rows.Keys == old(rows).Keys
        invariant forall id :: id in rows ==>
                    rows[id] == if id in overdue && id !in rest then old(rows)[id].(status := Overdue) else old(rows)[id]
        invariant forall id :: id in outages <==> id in overdue && id !in rest
        invariant forall i, j :: 0 <= i < j < |outages| ==> outages[i] != outages[j]
        decreases rest
      {
        Inhabited(rest);
        var id :| id in rest;
        rest := rest - {id};
        var transitioned := MarkOverdue(id);
        if !transitioned { continue; }
        outages := outages + [id];
      }
      assert forall id :: id in rows ==> !IsOverdue(rows[id], now);
    }
  }

  // ------------------------------------------------------------ every interleaving

  datatype Kind = Outage | Recovery

  datatype Alert = Alert(id: int, kind: Kind)

  /** `found` holds, per scheduler, the rows its sweep has still to mark. */
  datatype State = State(now: int, beats: Beats, found: map<int, set<int>>, alerts: seq<Alert>)

  datatype Action =
    | Wait(ms: nat)
    | Create(id: int, token: string, period: int, grace: int, enabled: bool)
    | Edit(id: int, period: int, grace: int, enabled: bool)
    | SendPing(id: int)
    | Find(scheduler: int)
    | Mark(scheduler: int, id: int)
    | Sweep(order: seq<int>)  // finding and marking with nothing in between

  function Report(alerts: seq<Alert>, fires: bool, id: int, kind: Kind): seq<Alert> {
    if fires then alerts + [Alert(id, kind)] else alerts
  }

  function MarkOne(s: State, id: int): State
    requires id in s.beats
  {
    s.(beats := s.beats[id := Marked(s.beats[id])], alerts := Report(s.alerts, s.beats[id].status == Up, id, Outage))
  }

  function SweepAll(s: State, order: seq<int>): State
    decreases |order|
  {
    if order == [] then s else
      var before, id := SweepAll(s, order[..|order| - 1]), order[|order| - 1];
      if id in before.beats && IsOverdue(before.beats[id], before.now) then MarkOne(before, id) else before
  }

  function PingOne(s: State, id: int): State
    requires id in s.beats
  {
    s.(beats := s.beats[id := Pinged(s.beats[id], s.now)],
       alerts := Report(s.alerts, Recovers(s.beats[id], s.now), id, Recovery))
  }

  function Apply(s: State, a: Action): State {
    match a
    case Wait(ms) => s.(now := s.now + ms)
    case Create(id, token, period, grace, enabled) =>
      if id in s.beats || exists b :: b in s.beats && s.beats[b].token == token then s
      else s.(beats := s.beats[id := Beat(token, period, grace, enabled, None, Pending)])
    case Edit(id, period, grace, enabled) =>
      if id !in s.beats then s
      else s.(beats := s.beats[id := s.beats[id].(period := period, grace := grace, enabled := enabled)])
    case SendPing(id) => if id !in s.beats || !s.beats[id].enabled then s else PingOne(s, id)
    case Find(p) => s.(found := s.found[p := OverdueIds(s.beats, s.now)])
    case Mark(p, id) =>
      if p !in s.found || id !in s.found[p] || id !in s.beats then s
      else MarkOne(s, id).(found := s.found[p := s.found[p] - {id}])
    case Sweep(order) => SweepAll(s, order)
  }

  function After(start: int, actions: seq<Action>): State
    decreases |actions|
  {
    if actions == [] then State(start, map[], map[], [])
    else Apply(After(start, actions[..|actions| - 1]), actions[|actions| - 1])
  }

  lemma AppliedLast(start: int, actions: seq<Action>, a: Action)
    ensures After(start, actions + [a]) == Apply(After(start, actions), a)
  {
    assert (actions + [a])[..|actions|] == actions;
  }

  // ------------------------------------------------------------ alternation

  /** The transitions one monitor reported. */
  function Of(alerts: seq<Alert>, id: int): seq<Kind>
    decreases |alerts|
  {
    if alerts == [] then [] else
      var last := alerts[|alerts| - 1];
      Of(alerts[..|alerts| - 1], id) + if last.id == id then [last.kind] else []
  }

  predicate Alternates(kinds: seq<Kind>) {
    forall i :: 0 <= i < |kinds| ==> kinds[i] == if i % 2 == 0 then Outage else Recovery
  }

  predicate IsDown(beats: Beats, id: int) {
    id in beats && beats[id].status == Overdue
  }

  predicate Told(s: State, id: int) {
    Alternates(Of(s.alerts, id)) && (|Of(s.alerts, id)| % 2 == 1 <==> IsDown(s.beats, id))
  }

  lemma Reported(alerts: seq<Alert>, fires: bool, id: int, kind: Kind, other: int)
    ensures Of(Report(alerts, fires, id, kind), other)
         == Of(alerts, other) + if fires && id == other then [kind] else []
  {
    if fires { assert (alerts + [Alert(id, kind)])[..|alerts|] == alerts; }
  }

  /** A history that alternates goes on alternating when the next kind is the one that is due. */
  lemma NextKind(kinds: seq<Kind>, kind: Kind)
    requires Alternates(kinds) && kind == if |kinds| % 2 == 0 then Outage else Recovery
    ensures Alternates(kinds + [kind])
  {
  }

  lemma MarkTold(s: State, id: int, other: int)
    requires id in s.beats && Told(s, other)
    ensures Told(MarkOne(s, id), other)
  {
    var fires := s.beats[id].status == Up;
    Reported(s.alerts, fires, id, Outage, other);
    if fires && id == other { NextKind(Of(s.alerts, id), Outage); } else { assert Of(s.alerts, other) + [] == Of(s.alerts, other); }
  }

  lemma PingTold(s: State, id: int, other: int)
    requires id in s.beats && Told(s, other)
    ensures Told(PingOne(s, id), other)
  {
    var fires := Recovers(s.beats[id], s.now);
    Reported(s.alerts, fires, id, Recovery, other);
    if fires && id == other { NextKind(Of(s.alerts, id), Recovery); } else { assert Of(s.alerts, other) + [] == Of(s.alerts, other); }
  }

  lemma {:induction false} SweepTold(s: State, order: seq<int>, other: int)
    requires Told(s, other)
    ensures Told(SweepAll(s, order), other)
    decreases |order|
  {
    if order != [] {
      SweepTold(s, order[..|order| - 1], other);
      var before, id := SweepAll(s, order[..|order| - 1]), order[|order| - 1];
      if id in before.beats { MarkTold(before, id, other); }
    }
  }

  /** In every interleaving outages and recoveries alternate, an outage first, and an outage is open exactly while OVERDUE. */
  lemma {:induction false} AlwaysTold(start: int, actions: seq<Action>, id: int)
    ensures Told(After(start, actions), id)
    decreases |actions|
  {
    if actions != [] {
      AlwaysTold(start, actions[..|actions| - 1], id);
      var s, a := After(start, actions[..|actions| - 1]), actions[|actions| - 1];
      match a {
        case SendPing(p) => if p in s.beats { PingTold(s, p, id); }
        case Mark(_, m) => if m in s.beats { MarkTold(s, m, id); }
        case Sweep(order) => SweepTold(s, order, id);
        case _ =>
      }
    }
  }

  // ------------------------------------------------------------ what a sweep and a ping amount to

  /** Enabled, UP, and silent for longer than period and grace. */
  predicate IsSilent(s: State, id: int)
    requires id in s.beats
  {
    var b := s.beats[id];
    b.enabled && b.status == Up && b.lastPingAt.Some? && s.now > b.lastPingAt.value + 1000 * (b.period + b.grace)
  }

  ghost predicate TurnedOverdue(s: State, t: State, id: int)
    requires id in s.beats
  {
    && id in t.beats && t.beats[id] == s.beats[id].(status := Overdue)
    && Of(t.alerts, id) == Of(s.alerts, id) + [Outage]
  }

  ghost predicate LeftAlone(s: State, t: State, id: int)
    requires id in s.beats
  {
    id in t.beats && t.beats[id] == s.beats[id] && Of(t.alerts, id) == Of(s.alerts, id)
  }

  lemma MarkedOne(s: State, m: int, id: int)
    requires m in s.beats && id in s.beats && IsSilent(s, m)
    ensures if m == id then TurnedOverdue(s, MarkOne(s, m), id) else LeftAlone(s, MarkOne(s, m), id)
  {
    Reported(s.alerts, true, m, Outage, id);
    assert m != id ==> Of(s.alerts, id) + [] == Of(s.alerts, id);
  }

  /** An uninterrupted sweep turns each silent monitor in its order OVERDUE, with one outage, and leaves every other alone. */
  lemma {:induction false} SweepTurnsTheSilent(s: State, order: seq<int>, id: int)
    requires id in s.beats
    ensures SweepAll(s, order).now == s.now
    ensures if id in order && IsSilent(s, id) then TurnedOverdue(s, SweepAll(s, order), id) else LeftAlone(s, SweepAll(s, order), id)
    decreases |order|
  {
    if order != [] {
      var init, last := order[..|order| - 1], order[|order| - 1];
      SweepTurnsTheSilent(s, init, id);
      assert order == init + [last];
      var before := SweepAll(s, init);
      if last in before.beats && IsOverdue(before.beats[last], before.now) { MarkedOne(before, last, id); }
    }
  }

  /** Found and then marked, with nothing in between, a monitor turns OVERDUE exactly if it is silent. */
  lemma FoundAndMarked(s: State, scheduler: int, id: int)
    requires id in s.beats
    ensures var t := Apply(Apply(s, Find(scheduler)), Mark(scheduler, id));
            if IsSilent(s, id) then TurnedOverdue(s, t, id) else LeftAlone(s, t, id)
  {
    if IsSilent(s, id) { MarkedOne(s, id, id); }
  }

  /** A ping counts if the monitor is enabled and was not pinged within the last second: it is UP as of now, and a recovery if it was OVERDUE. */
  lemma PingCounts(s: State, id: int)
    requires id in s.beats
    ensures var b := s.beats[id];
            var t := Apply(s, SendPing(id));
            if b.enabled && (b.lastPingAt.Some? ==> s.now >= b.lastPingAt.value + 1000)
            then id in t.beats && t.beats[id] == b.(lastPingAt := Some(s.now), status := Up)
                 && Of(t.alerts, id) == Of(s.alerts, id) + if b.status == Overdue then [Recovery] else []
            else t == s
  {
    Reported(s.alerts, Recovers(s.beats[id], s.now), id, Recovery, id);
    assert Of(s.alerts, id) + [] == Of(s.alerts, id);
  }

  function Tally(kinds: seq<Kind>, kind: Kind): nat
    decreases |kinds|
  {
    if kinds == [] then 0 else Tally(kinds[..|kinds| - 1], kind) + if kinds[|kinds| - 1] == kind then 1 else 0
  }

  lemma {:induction false} AlternatingTally(kinds: seq<Kind>)
    requires Alternates(kinds)
    ensures Tally(kinds, Outage) - Tally(kinds, Recovery) == |kinds| % 2
    decreases |kinds|
  {
    if kinds != [] { AlternatingTally(kinds[..|kinds| - 1]); }
  }

  /** Every outage but an open one was followed by its recovery. */
  lemma OutagesMinusRecoveries(start: int, actions: seq<Action>, id: int)
    ensures var s := After(start, actions);
            Tally(Of(s.alerts, id), Outage) - Tally(Of(s.alerts, id), Recovery) == (if IsDown(s.beats, id) then 1 else 0)
  {
    AlwaysTold(start, actions, id);
    AlternatingTally(Of(After(start, actions).alerts, id));
  }

  // ------------------------------------------------------------ the debounce

  /** A ping now would be answered OK, yet leave the monitor OVERDUE. */
  predicate Swallows(s: State, id: int) {
    && id in s.beats && s.beats[id].enabled && s.beats[id].status == Overdue
    && Apply(s, SendPing(id)).beats[id].status == Overdue
  }

  /** Every OVERDUE monitor was last pinged at least a debounce ago. */
  predicate Clear(s: State) {
    forall id :: id in s.beats && s.beats[id].status == Overdue ==> !Debounced(s.beats[id], s.now)
  }

  /** A second or more between the latest tolerated ping and its deadline. */
  predicate SaneDeadlines(beats: Beats) {
    forall id :: id in beats ==> beats[id].period + beats[id].grace >= 1
  }

  predicate SaneDeadline(a: Action) {
    (a.Create? ==> a.period + a.grace >= 1) && (a.Edit? ==> a.period + a.grace >= 1)
  }

  predicate SaneAction(a: Action) {
    !a.Mark? && SaneDeadline(a)
  }

  lemma {:induction false} SweepStaysClear(s: State, order: seq<int>)
    requires Clear(s) && SaneDeadlines(s.beats)
    ensures Clear(SweepAll(s, order)) && SaneDeadlines(SweepAll(s, order).beats)
    decreases |order|
  {
    if order != [] { SweepStaysClear(s, order[..|order| - 1]); }
  }

  /** With uninterrupted sweeps and deadlines of a second or more, no recovering ping is ever swallowed. */
  lemma {:induction false} UninterruptedSweepsSwallowNothing(start: int, actions: seq<Action>)
    requires forall i :: 0 <= i < |actions| ==> SaneAction(actions[i])
    ensures Clear(After(start, actions)) && SaneDeadlines(After(start, actions).beats)
    ensures forall id :: !Swallows(After(start, actions), id)
    decreases |actions|
  {
    if actions != [] {
      var s, a := After(start, actions[..|actions| - 1]), actions[|actions| - 1];
      UninterruptedSweepsSwallowNothing(start, actions[..|actions| - 1]);
      if a.Sweep? { SweepStaysClear(s, a.order); }
    }
  }

  /** A mark leaves a monitor whose next ping is swallowed exactly when it runs within a debounce of the last ping. */
  lemma MarkSwallowsIff(s: State, scheduler: int, id: int)
    requires scheduler in s.found && id in s.found[scheduler] && id in s.beats
    requires s.beats[id].enabled && s.beats[id].status == Up && s.beats[id].lastPingAt.Some?
    ensures Swallows(Apply(s, Mark(scheduler, id)), id) <==> s.now < s.beats[id].lastPingAt.value + DEBOUNCE_MS
  {
  }

  /** The mark takes effect on a monitor pinged less than a debounce ago. */
  predicate MarksFreshPing(s: State, a: Action) {
    && a.Mark? && a.scheduler in s.found && a.id in s.found[a.scheduler]
    && a.id in s.beats && s.beats[a.id].status == Up && Debounced(s.beats[a.id], s.now)
  }

  lemma StepStaysClear(s: State, a: Action)
    requires Clear(s) && SaneDeadlines(s.beats) && SaneDeadline(a) && !MarksFreshPing(s, a)
    ensures Clear(Apply(s, a)) && SaneDeadlines(Apply(s, a).beats)
  {
    if a.Sweep? { SweepStaysClear(s, a.order); }
  }

  lemma FreshMarkBreaks(s: State, a: Action)
    requires MarksFreshPing(s, a)
    ensures !Clear(Apply(s, a))
  {
    assert Apply(s, a).beats[a.id].status == Overdue && Debounced(Apply(s, a).beats[a.id], Apply(s, a).now);
  }

  lemma NextState(start: int, actions: seq<Action>, n: nat)
    requires n < |actions|
    ensures After(start, actions[..n + 1]) == Apply(After(start, actions[..n]), actions[n])
  {
    assert actions[..n + 1][..n] == actions[..n];
  }

  lemma {:induction false} ClearUpTo(start: int, actions: seq<Action>, n: nat)
    requires n <= |actions| && forall i :: 0 <= i < |actions| ==> SaneDeadline(actions[i])
    requires forall i :: 0 <= i < n ==> !MarksFreshPing(After(start, actions[..i]), actions[i])
    ensures Clear(After(start, actions[..n])) && SaneDeadlines(After(start, actions[..n]).beats)
    decreases n
  {
    if n > 0 {
      ClearUpTo(start, actions, n - 1);
      NextState(start, actions, n - 1);
      StepStaysClear(After(start, actions[..n - 1]), actions[n - 1]);
    }
  }

  /**
   In every interleaving with deadlines of a second or more: all through the run no OVERDUE
   monitor is within the debounce of its last ping, exactly if no mark takes effect within
   the debounce of one.
   */
  lemma AlwaysClearIff(start: int, actions: seq<Action>)
    requires forall i :: 0 <= i < |actions| ==> SaneDeadline(actions[i])
    ensures (forall n :: 0 <= n <= |actions| ==> Clear(After(start, actions[..n])))
       <==> (forall n :: 0 <= n < |actions| ==> !MarksFreshPing(After(start, actions[..n]), actions[n]))
  {
    if n :| 0 <= n < |actions| && MarksFreshPing(After(start, actions[..n]), actions[n]) {
      FreshMarkBreaks(After(start, actions[..n]), actions[n]);
      NextState(start, actions, n);
      assert !Clear(After(start, actions[..n + 1]));
    } else {
      forall n | 0 <= n <= |actions| ensures Clear(After(start, actions[..n])) { ClearUpTo(start, actions, n); }
    }
  }

  function Enable(s: State, id: int): State
    requires id in s.beats
  {
    Apply(s, Edit(id, s.beats[id].period, s.beats[id].grace, true))
  }

  /** Being clear is swallowing nothing: some ping, of a monitor that is enabled, would be lost exactly if the state is not clear. */
  lemma ClearIffNothingSwallowed(s: State)
    ensures Clear(s) <==> forall id :: id in s.beats ==> !Swallows(Enable(s, id), id)
  {
    if id :| id in s.beats && s.beats[id].status == Overdue && Debounced(s.beats[id], s.now) {
      assert Swallows(Enable(s, id), id);
    }
  }

  /** One monitor's whole state. */
  function Single(now: int, period: int, grace: int, last: Option<int>, status: Status,
                  found: map<int, set<int>>, alerts: seq<Alert>): State
  {
    State(now, map[1 := Beat("t", period, grace, true, last, status)], found, alerts)
  }

  lemma Created(period: int, grace: int)
    ensures Apply(State(0, map[], map[], []), Create(1, "t", period, grace, true))
         == Single(0, period, grace, None, Pending, map[], [])
  {
  }

  lemma LateFind(period: int, grace: int, t: int)
    requires t == (period + grace) * 1000 + 1
    ensures Apply(Single(t, period, grace, Some(0), Up, map[], []), Find(7))
         == Single(t, period, grace, Some(0), Up, map[7 := {1}], [])
  {
    assert OverdueIds(Single(t, period, grace, Some(0), Up, map[], []).beats, t) == {1};
  }

  lemma StaleMark(period: int, grace: int, t: int)
    ensures Apply(Single(t, period, grace, Some(t), Up, map[7 := {1}], []), Mark(7, 1))
         == Single(t, period, grace, Some(t), Overdue, map[7 := {}], [Alert(1, Outage)])
  {
    assert {1} - {1} == {};
    assert map[7 := {1}][7 := {}] == map[7 := {}];
  }

  lemma Continue(actions: seq<Action>, s: State, a: Action)
    requires After(0, actions) == s
    ensures After(0, actions + [a]) == Apply(s, a)
  {
    AppliedLast(0, actions, a);
  }

  /** A sweep finds the monitor overdue, the late ping arrives, the sweep marks it all the same. */
  lemma StaleRun(period: int, grace: int, t: nat) returns (actions: seq<Action>)
    requires period + grace >= 1 && t == (period + grace) * 1000 + 1
    ensures actions == [] + [Create(1, "t", period, grace, true)] + [SendPing(1)] + [Wait(t)] + [Find(7)] + [SendPing(1)] + [Mark(7, 1)]
    ensures After(0, actions) == Single(t, period, grace, Some(t), Overdue, map[7 := {}], [Alert(1, Outage)])
  {
    actions := [];
    Continue(actions, State(0, map[], map[], []), Create(1, "t", period, grace, true));
    Created(period, grace);
    actions := actions + [Create(1, "t", period, grace, true)];
    Continue(actions, Single(0, period, grace, None, Pending, map[], []), SendPing(1));
    actions := actions + [SendPing(1)];
    Continue(actions, Single(0, period, grace, Some(0), Up, map[], []), Wait(t));
    actions := actions + [Wait(t)];
    Continue(actions, Single(t, period, grace, Some(0), Up, map[], []), Find(7));
    LateFind(period, grace, t);
    actions := actions + [Find(7)];
    Continue(actions, Single(t, period, grace, Some(0), Up, map[7 := {1}], []), SendPing(1));
    actions := actions + [SendPing(1)];
    Continue(actions, Single(t, period, grace, Some(t), Up, map[7 := {1}], []), Mark(7, 1));
    StaleMark(period, grace, t);
    actions := actions + [Mark(7, 1)];
  }

  /** Interleaved, it happens however long the period: the retry that follows within the second is lost. */
  lemma StaleMarkSwallowsAPing(period: int, grace: int)
    requires period >= 30 && grace >= 0
    ensures var s := After(0, [] + [Create(1, "t", period, grace, true)] + [SendPing(1)] + [Wait((period + grace) * 1000 + 1)]
                              + [Find(7)] + [SendPing(1)] + [Mark(7, 1)]);
            && Swallows(s, 1)
            && !PastDeadline(s.beats[1], s.now)
            && s.alerts == [Alert(1, Outage)]
  {
    var actions := StaleRun(period, grace, (period + grace) * 1000 + 1);
  }
}
