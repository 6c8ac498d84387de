/**
 The dispatch tick for interval monitors: the age query, the bucketed slot claim per
 target, the execution row, the enqueue that may fail. Each tick is taken as one step;
 the ticks may belong to any number of schedulers. Times are milliseconds.
 */
module Cadence {
  import opened Options
  import opened Arithmetic
  import Slots

  datatype Execution = Execution(monitorId: int, region: Option<int>, startTime: int, status: string)

  /** A monitor with its fan-out targets; `[None]` when no region is attached. */
  datatype Monitor = Monitor(id: int, intervalSeconds: nat, targets: seq<Option<int>>)

  /** What a tick meets: the time, whether Redis answers, and the targets whose enqueue throws. */
  datatype Env = Env(now: int, redisUp: bool, lost: set<Option<int>>)

  datatype World = World(slots: map<Slots.Slot, int>, execs: seq<Execution>)

  /** MAX(start_time) over the monitor's executions, whatever their status. */
  function LastStart(execs: seq<Execution>, id: int): Option<int>
    decreases |execs|
  {
    if execs == [] then None else
      var before, e := LastStart(execs[..|execs| - 1], id), execs[|execs| - 1];
      if e.monitorId != id then before
      else if before.Some? && before.value > e.startTime then before
      else Some(e.startTime)
  }

  /** EXTRACT(EPOCH FROM age)::int rounds to the nearest second. */
  function AgeSeconds(start: int, now: int): int {
    (now - start + 500) / 1000
  }

  predicate IsDue(execs: seq<Execution>, m: Monitor, now: int) {
    match LastStart(execs, m.id)
    case None => true
    case Some(t) => AgeSeconds(t, now) >= m.intervalSeconds
  }

  function Width(m: Monitor): int {
    Slots.Ttl(m.intervalSeconds)
  }

  function SlotFor(m: Monitor, target: Option<int>, now: int): Slots.Slot
    requires m.intervalSeconds >= 1
  {
    Slots.Key("url", m.id, now / (m.intervalSeconds * 1000), target)
  }

  predicate Granted(w: World, m: Monitor, target: Option<int>, env: Env)
    requires m.intervalSeconds >= 1
  {
    !env.redisUp || !Slots.Held(w.slots, SlotFor(m, target, env.now), env.now)
  }

  function DispatchTo(w: World, m: Monitor, target: Option<int>, env: Env): World
    requires m.intervalSeconds >= 1
  {
    if !Granted(w, m, target, env) then w else
      World(
        if env.redisUp then w.slots[SlotFor(m, target, env.now) := env.now + Width(m)] else w.slots,
        w.execs + [Execution(m.id, target, env.now, if target in env.lost then "FAILED" else "PENDING")])
  }

  function DispatchTargets(w: World, m: Monitor, env: Env, n: nat): World
    requires m.intervalSeconds >= 1 && n <= |m.targets|
  {
    if n == 0 then w else DispatchTo(DispatchTargets(w, m, env, n - 1), m, m.targets[n - 1], env)
  }

  ghost predicate IsFleet(fleet: seq<Monitor>) {
    && (forall i :: 0 <= i < |fleet| ==> fleet[i].intervalSeconds >= 1 && fleet[i].targets != [])
    && (forall i, j :: 0 <= i < j < |fleet| ==> fleet[i].id != fleet[j].id)
    // region ids are serial, so they are positive and never collide with the master's 0
    && (forall i, j, k :: 0 <= i < |fleet| && 0 <= j < k < |fleet[i].targets| ==> fleet[i].targets[j] != fleet[i].targets[k])
    && (forall i, j :: 0 <= i < |fleet| && 0 <= j < |fleet[i].targets| && fleet[i].targets[j].Some? ==> fleet[i].targets[j].value > 0)
  }

  /** One tick over the first `n` monitors; all ages were read when the tick began. */
  function TickMonitors(w0: World, fleet: seq<Monitor>, env: Env, n: nat): World
    requires n <= |fleet| && forall i :: 0 <= i < |fleet| ==> fleet[i].intervalSeconds >= 1
  {
    if n == 0 then w0 else
      var w, m := TickMonitors(w0, fleet, env, n - 1), fleet[n - 1];
      if IsDue(w0.execs, m, env.now) then DispatchTargets(w, m, env, |m.targets|) else w
  }

  class Scheduler {
    var slots: map<Slots.Slot, int>
    var execs: seq<Execution>

    ghost function Contents(): World reads this {
      World(slots, execs)
    }

    constructor ()
      ensures Contents() == World(map[], [])
    {
      slots, execs := map[], [];
    }

    method ClaimDispatchSlot(key: Slots.Slot, ttlSeconds: int, now: int, redisUp: bool) returns (granted: bool)
      modifies this`slots
      ensures granted == (!redisUp || !Slots.Held(old(slots), key, now))
      ensures slots == if redisUp && granted then old(slots)[key := now + Slots.Ttl(ttlSeconds)] else old(slots)
    {
      if !redisUp { return true; }
      granted := !(key in slots && now < slots[key]);
      if granted {
        slots := slots[key := now + 1000 * (if ttlSeconds < 1 then 1 else ttlSeconds)];
      }
    }

    method FindDue(fleet: seq<Monitor>, now: int) returns (ages: seq<Option<int>>)
      ensures |ages| == |fleet|
      ensures forall i :: 0 <= i < |fleet| ==>
                ((ages[i].Some? && ages[i].value < fleet[i].intervalSeconds) <==> !IsDue(execs, fleet[i], now))
    {
      ages := [];
      for i := 0 to |fleet|
        invariant |ages| == i
        invariant forall j :: 0 <= j < i ==>
                    ((ages[j].Some? && ages[j].value < fleet[j].intervalSeconds) <==> !IsDue(execs, fleet[j], now))
      {
        var last := LastStart(execs, fleet[i].id);
        ages := ages + [if last.None? then None else Some(AgeSeconds(last.value, now))];
      }
    }

    /** Claims the target's slot and, if granted, writes its execution row and enqueues the job, or marks the row FAILED. */
    method DispatchOne(m: Monitor, bucket: int, target: Option<int>, env: Env)
      requires m.intervalSeconds >= 1 && bucket == env.now / (m.intervalSeconds * 1000)
      modifies this
      ensures Contents() == DispatchTo(old(Contents()), m, target, env)
      ensures var slot := Slots.Slot("url", m.id, bucket, if target.Some? then target.value else 0);
              if env.redisUp && slot in old(slots) && env.now < old(slots)[slot] then slots == old(slots) && execs == old(execs)
              else execs == old(execs) + [Execution(m.id, target, env.now, if target in env.lost then "FAILED" else "PENDING")]
                   && slots == if env.redisUp then old(slots)[slot := env.now + 1000 * m.intervalSeconds] else old(slots)
    {
      var granted := ClaimDispatchSlot(Slots.Key("url", m.id, bucket, target), m.intervalSeconds, env.now, env.redisUp);
      if !granted { return; }
      execs := execs + [Execution(m.id, target, env.now, "PENDING")];
      if target in env.lost {
        execs := execs[|execs| - 1 := execs[|execs| - 1].(status := "FAILED")];
      }
    }

    method TickUrlMonitors(fleet: seq<Monitor>, env: Env)
      requires IsFleet(fleet)
      modifies this
      ensures Contents() == TickMonitors(old(Contents()), fleet, env, |fleet|)
    {
      var ages := FindDue(fleet, env.now);
      for i := 0 to |fleet|
        invariant Contents() == TickMonitors(old(Contents()), fleet, env, i)
      {
        var m := fleet[i];
        if ages[i].Some? && ages[i].value < m.intervalSeconds { continue; }
        var bucket := env.now / (m.intervalSeconds * 1000);
        ghost var before := Contents();
        for n := 0 to |m.targets|
          invariant Contents() == DispatchTargets(before, m, env, n)
        {
          DispatchOne(m, bucket, m.targets[n], env);
        }
      }
    }
  }

  // ------------------------------------------------------------ runs of ticks

  function After(fleet: seq<Monitor>, ticks: seq<Env>): World
    requires forall i :: 0 <= i < |fleet| ==> fleet[i].intervalSeconds >= 1
    decreases |ticks|
  {
    if ticks == [] then World(map[], [])
    else TickMonitors(After(fleet, ticks[..|ticks| - 1]), fleet, ticks[|ticks| - 1], |fleet|)
  }

  predicate Climbing(ticks: seq<Env>) {
    forall i, j :: 0 <= i < j < |ticks| ==> ticks[i].now < ticks[j].now
  }

  /** Some execution of the monitor in that region started at `t`. */
  ghost predicate StartedIn(execs: seq<Execution>, id: int, region: Option<int>, t: int) {
    exists i :: 0 <= i < |execs| && execs[i].monitorId == id && execs[i].region == region && execs[i].startTime == t
  }

  /** Tick `i` dispatched monitor `m`. */
  predicate Fires(fleet: seq<Monitor>, ticks: seq<Env>, m: Monitor, i: nat)
    requires i < |ticks| && forall n :: 0 <= n < |fleet| ==> fleet[n].intervalSeconds >= 1
  {
    LastStart(After(fleet, ticks[..i + 1]).execs, m.id) == Some(ticks[i].now)
  }

  // ------------------------------------------------------------ one monitor in one tick

  lemma OtherMonitor(w: World, m: Monitor, env: Env, n: nat, id: int)
    requires m.intervalSeconds >= 1 && n <= |m.targets| && id != m.id
    ensures var w1 := DispatchTargets(w, m, env, n);
            && LastStart(w1.execs, id) == LastStart(w.execs, id)
            && (forall k: Slots.Slot :: k.id == id ==> (k in w1.slots <==> k in w.slots))
            && (forall k: Slots.Slot :: k.id == id && k in w.slots ==> w1.slots[k] == w.slots[k])
            && w.execs <= w1.execs
  {
    if n > 0 {
      OtherMonitor(w, m, env, n - 1, id);
      var before := DispatchTargets(w, m, env, n - 1);
      if Granted(before, m, m.targets[n - 1], env) {
        var after := DispatchTargets(w, m, env, n);
        assert after.execs[..|before.execs|] == before.execs;
      }
    }
  }

  predicate DistinctTargets(m: Monitor) {
    && (forall i, j :: 0 <= i < j < |m.targets| ==> m.targets[i] != m.targets[j])
    && (forall i :: 0 <= i < |m.targets| && m.targets[i].Some? ==> m.targets[i].value > 0)
  }

  /** The slots one tick takes for its first `n` targets. */
  function TakenSlots(m: Monitor, now: int, n: nat): map<Slots.Slot, int>
    requires m.intervalSeconds >= 1 && n <= |m.targets|
  {
    if n == 0 then map[] else TakenSlots(m, now, n - 1)[SlotFor(m, m.targets[n - 1], now) := now + Width(m)]
  }

  function StartedRows(m: Monitor, env: Env, n: nat): (rows: seq<Execution>)
    requires n <= |m.targets|
    ensures |rows| == n
  {
    if n == 0 then [] else
      StartedRows(m, env, n - 1) +
      [Execution(m.id, m.targets[n - 1], env.now, if m.targets[n - 1] in env.lost then "FAILED" else "PENDING")]
  }

  lemma TakenSlotsAre(m: Monitor, now: int, n: nat)
    requires m.intervalSeconds >= 1 && n <= |m.targets|
    ensures forall i :: 0 <= i < n ==> SlotFor(m, m.targets[i], now) in TakenSlots(m, now, n)
    ensures forall k :: k in TakenSlots(m, now, n) ==>
              TakenSlots(m, now, n)[k] == now + Width(m) && exists i :: 0 <= i < n && k == SlotFor(m, m.targets[i], now)
  {
    if n > 0 { TakenSlotsAre(m, now, n - 1); }
  }

  lemma NotYetTaken(m: Monitor, now: int, n: nat)
    requires m.intervalSeconds >= 1 && n < |m.targets| && DistinctTargets(m)
    ensures SlotFor(m, m.targets[n], now) !in TakenSlots(m, now, n)
  {
    TakenSlotsAre(m, now, n);
    forall i | 0 <= i < n ensures SlotFor(m, m.targets[i], now) != SlotFor(m, m.targets[n], now) {
      assert m.targets[i] != m.targets[n];
    }
  }

  /** The tick takes the current bucket in every target, and no other bucket. */
  lemma TakenIsCurrentBucket(m: Monitor, now: int, b: int, i: nat)
    requires m.intervalSeconds >= 1 && i < |m.targets|
    ensures Slots.Key("url", m.id, b, m.targets[i]) in TakenSlots(m, now, |m.targets|) <==> b == now / Width(m)
  {
    TakenSlotsAre(m, now, |m.targets|);
    assert SlotFor(m, m.targets[i], now) in TakenSlots(m, now, |m.targets|);
  }

  lemma StartedRowsAre(m: Monitor, env: Env, n: nat, i: nat)
    requires i < n <= |m.targets|
    ensures var e := StartedRows(m, env, n)[i];
            e.monitorId == m.id && e.region == m.targets[i] && e.startTime == env.now
  {
    if i < n - 1 { StartedRowsAre(m, env, n - 1, i); }
  }

  /** A tick that finds every slot free dispatches every target. */
  lemma AllGranted(w: World, m: Monitor, env: Env, n: nat)
    requires m.intervalSeconds >= 1 && n <= |m.targets| && DistinctTargets(m)
    requires forall i :: 0 <= i < |m.targets| ==> Granted(w, m, m.targets[i], env)
    ensures DispatchTargets(w, m, env, n) ==
            World(if env.redisUp then w.slots + TakenSlots(m, env.now, n) else w.slots, w.execs + StartedRows(m, env, n))
  {
    if n > 0 {
      AllGranted(w, m, env, n - 1);
      NotYetTaken(m, env.now, n - 1);
      GrantedNext(w, DispatchTargets(w, m, env, n - 1), m, env, n - 1);
    }
  }

  lemma GrantedNext(w: World, w1: World, m: Monitor, env: Env, n: nat)
    requires m.intervalSeconds >= 1 && n < |m.targets|
    requires Granted(w, m, m.targets[n], env) && SlotFor(m, m.targets[n], env.now) !in TakenSlots(m, env.now, n)
    requires w1 == World(if env.redisUp then w.slots + TakenSlots(m, env.now, n) else w.slots, w.execs + StartedRows(m, env, n))
    ensures DispatchTo(w1, m, m.targets[n], env) ==
            World(if env.redisUp then w.slots + TakenSlots(m, env.now, n + 1) else w.slots, w.execs + StartedRows(m, env, n + 1))
  {
    var k := SlotFor(m, m.targets[n], env.now);
    assert env.redisUp ==> !Slots.Held(w.slots, k, env.now);
    assert env.redisUp ==> !Slots.Held(w1.slots, k, env.now);
    var row := Execution(m.id, m.targets[n], env.now, if m.targets[n] in env.lost then "FAILED" else "PENDING");
    assert w.execs + (StartedRows(m, env, n) + [row]) == (w.execs + StartedRows(m, env, n)) + [row];
    assert (w.slots + TakenSlots(m, env.now, n))[k := env.now + Width(m)] == w.slots + TakenSlots(m, env.now, n)[k := env.now + Width(m)];
  }

  lemma NoneGranted(w: World, m: Monitor, env: Env, n: nat)
    requires m.intervalSeconds >= 1 && n <= |m.targets|
    requires forall i :: 0 <= i < |m.targets| ==> !Granted(w, m, m.targets[i], env)
    ensures DispatchTargets(w, m, env, n) == w
  {
    if n > 0 { NoneGranted(w, m, env, n - 1); }
  }

  // ------------------------------------------------------------ invariants of a run

  /** A monitor's slots are alike in all its regions. */
  ghost predicate Alike(slots: map<Slots.Slot, int>, m: Monitor) {
    forall b, i, j :: 0 <= i < |m.targets| && 0 <= j < |m.targets| ==>
      var k, l := Slots.Key("url", m.id, b, m.targets[i]), Slots.Key("url", m.id, b, m.targets[j]);
      (k in slots <==> l in slots) && (k in slots && l in slots ==> slots[k] == slots[l])
  }

  /** No slot of the monitor is of a bucket later than its last start. */
  ghost predicate Past(w: World, m: Monitor, now: int)
    requires m.intervalSeconds >= 1
  {
    && (forall k: Slots.Slot :: k in w.slots && k.id == m.id ==>
          LastStart(w.execs, m.id).Some? && k.bucket <= LastStart(w.execs, m.id).value / Width(m))
    && (LastStart(w.execs, m.id).Some? ==> LastStart(w.execs, m.id).value <= now)
  }

  ghost predicate Tidy(w: World, m: Monitor, now: int)
    requires m.intervalSeconds >= 1
  {
    Alike(w.slots, m) && Past(w, m, now)
  }

  lemma {:induction false} LastStartAppended(a: seq<Execution>, b: seq<Execution>, id: int, now: int)
    requires a <= b && |a| < |b|
    requires forall i :: |a| <= i < |b| ==> b[i].monitorId == id && b[i].startTime == now
    requires LastStart(a, id).Some? ==> LastStart(a, id).value <= now
    ensures LastStart(b, id) == Some(now)
    decreases |b|
  {
    if |b| > |a| + 1 {
      LastStartAppended(a, b[..|b| - 1], id, now);
    } else {
      assert b[..|b| - 1] == a;
    }
  }

  lemma AllStarted(w: World, m: Monitor, env: Env, before: int)
    requires m.intervalSeconds >= 1 && m.targets != [] && DistinctTargets(m)
    requires Tidy(w, m, before) && before <= env.now
    requires forall i :: 0 <= i < |m.targets| ==> Granted(w, m, m.targets[i], env)
    ensures var w1 := DispatchTargets(w, m, env, |m.targets|);
            && LastStart(w1.execs, m.id) == Some(env.now)
            && (forall i :: 0 <= i < |m.targets| ==> StartedIn(w1.execs, m.id, m.targets[i], env.now))
            && Tidy(w1, m, env.now)
  {
    var n := |m.targets|;
    AllGranted(w, m, env, n);
    var w1, rows := DispatchTargets(w, m, env, n), StartedRows(m, env, n);
    forall i | |w.execs| <= i < |w1.execs| ensures w1.execs[i].monitorId == m.id && w1.execs[i].startTime == env.now {
      StartedRowsAre(m, env, n, i - |w.execs|);
    }
    LastStartAppended(w.execs, w1.execs, m.id, env.now);
    forall i | 0 <= i < n ensures StartedIn(w1.execs, m.id, m.targets[i], env.now) {
      StartedRowsAre(m, env, n, i);
      assert w1.execs[|w.execs| + i] == rows[i];
    }
    if env.redisUp { TakenStayAlike(w.slots, m, env.now); }
    TakenArePast(w, w1, m, env, before);
  }

  lemma TakenStayAlike(slots: map<Slots.Slot, int>, m: Monitor, now: int)
    requires m.intervalSeconds >= 1 && Alike(slots, m)
    ensures Alike(slots + TakenSlots(m, now, |m.targets|), m)
  {
    var slots1 := slots + TakenSlots(m, now, |m.targets|);
    TakenSlotsAre(m, now, |m.targets|);
    forall b, i, j | 0 <= i < |m.targets| && 0 <= j < |m.targets|
      ensures var k, l := Slots.Key("url", m.id, b, m.targets[i]), Slots.Key("url", m.id, b, m.targets[j]);
              (k in slots1 <==> l in slots1) && (k in slots1 && l in slots1 ==> slots1[k] == slots1[l])
    {
      TakenIsCurrentBucket(m, now, b, i);
      TakenIsCurrentBucket(m, now, b, j);
    }
  }

  lemma TakenArePast(w: World, w1: World, m: Monitor, env: Env, before: int)
    requires m.intervalSeconds >= 1 && Past(w, m, before) && before <= env.now
    requires w1.slots == if env.redisUp then w.slots + TakenSlots(m, env.now, |m.targets|) else w.slots
    requires LastStart(w1.execs, m.id) == Some(env.now)
    ensures Past(w1, m, env.now)
  {
    TakenSlotsAre(m, env.now, |m.targets|);
    forall k: Slots.Slot | k in w1.slots && k.id == m.id ensures k.bucket <= env.now / Width(m) {
      if k in w.slots { DivMonotone(LastStart(w.execs, m.id).value, env.now, Width(m)); }
    }
  }

  /** One tick of one monitor either leaves it alone or dispatches all its targets. */
  lemma OwnMonitor(w: World, m: Monitor, env: Env, before: int)
    requires m.intervalSeconds >= 1 && m.targets != [] && DistinctTargets(m)
    requires Tidy(w, m, before) && before <= env.now
    ensures var w1 := DispatchTargets(w, m, env, |m.targets|);
            && Tidy(w1, m, env.now)
            && (w1 == w || (LastStart(w1.execs, m.id) == Some(env.now)
                            && forall i :: 0 <= i < |m.targets| ==> StartedIn(w1.execs, m.id, m.targets[i], env.now)))
  {
    if forall i :: 0 <= i < |m.targets| ==> Granted(w, m, m.targets[i], env) {
      AllStarted(w, m, env, before);
    } else {
      var i :| 0 <= i < |m.targets| && !Granted(w, m, m.targets[i], env);
      forall j | 0 <= j < |m.targets| ensures !Granted(w, m, m.targets[j], env) {
        assert SlotFor(m, m.targets[j], env.now) in w.slots;
      }
      NoneGranted(w, m, env, |m.targets|);
    }
  }

  // ------------------------------------------------------------ the whole tick, and runs

  /** The two worlds look the same to monitor `id`; the second may hold more executions. */
  ghost predicate SameView(a: World, b: World, id: int) {
    && LastStart(a.execs, id) == LastStart(b.execs, id)
    && (forall k: Slots.Slot :: k.id == id ==> (k in a.slots <==> k in b.slots))
    && (forall k: Slots.Slot :: k.id == id && k in a.slots && k in b.slots ==> a.slots[k] == b.slots[k])
    && a.execs <= b.execs
  }

  lemma OthersStep(w0: World, fleet: seq<Monitor>, env: Env, n: nat, id: int)
    requires IsFleet(fleet) && n < |fleet| && fleet[n].id != id
    ensures SameView(TickMonitors(w0, fleet, env, n), TickMonitors(w0, fleet, env, n + 1), id)
  {
    OtherMonitor(TickMonitors(w0, fleet, env, n), fleet[n], env, |fleet[n].targets|, id);
  }

  lemma SameViewThrough(a: World, b: World, c: World, id: int)
    requires SameView(a, b, id) && SameView(b, c, id)
    ensures SameView(a, c, id)
  {
  }

  /** The monitors served between `lo` and `hi` do not change what monitor `id` sees. */
  lemma OthersKeepView(w0: World, fleet: seq<Monitor>, env: Env, lo: nat, hi: nat, id: int)
    requires IsFleet(fleet) && lo <= hi <= |fleet|
    requires forall j :: lo <= j < hi ==> fleet[j].id != id
    ensures SameView(TickMonitors(w0, fleet, env, lo), TickMonitors(w0, fleet, env, hi), id)
    decreases hi
  {
    if lo < hi {
      OthersKeepView(w0, fleet, env, lo, hi - 1, id);
      OthersStep(w0, fleet, env, hi - 1, id);
      SameViewThrough(TickMonitors(w0, fleet, env, lo), TickMonitors(w0, fleet, env, hi - 1), TickMonitors(w0, fleet, env, hi), id);
    }
  }

  lemma SameViewTidy(a: World, b: World, m: Monitor, now: int)
    requires m.intervalSeconds >= 1 && SameView(a, b, m.id) && Tidy(a, m, now)
    ensures Tidy(b, m, now)
  {
  }

  lemma FreshBucketIsFree(w: World, m: Monitor, env: Env, before: int, i: nat)
    requires m.intervalSeconds >= 1 && i < |m.targets| && Tidy(w, m, before)
    requires LastStart(w.execs, m.id).Some? ==> LastStart(w.execs, m.id).value + Width(m) <= env.now
    ensures Granted(w, m, m.targets[i], env)
  {
    if LastStart(w.execs, m.id).Some? { NextBucket(LastStart(w.execs, m.id).value, env.now, Width(m)); }
  }

  /**
   A whole tick, seen by one monitor: it is left alone, or it was due and every one of its
   targets is dispatched; and a full interval after its last start it is always dispatched,
   because being due then means a fresh bucket, and so a free slot.
   */
  lemma FleetTick(w0: World, fleet: seq<Monitor>, env: Env, i: nat, before: int)
    requires IsFleet(fleet) && i < |fleet|
    requires Tidy(w0, fleet[i], before) && before < env.now
    ensures var w, m := TickMonitors(w0, fleet, env, |fleet|), fleet[i];
            && Tidy(w, m, env.now)
            && (LastStart(w.execs, m.id) == Some(env.now) || LastStart(w.execs, m.id) == LastStart(w0.execs, m.id))
            && (LastStart(w.execs, m.id) == Some(env.now) ==>
                  && IsDue(w0.execs, m, env.now)
                  && forall j :: 0 <= j < |m.targets| ==> StartedIn(w.execs, m.id, m.targets[j], env.now))
            && ((LastStart(w0.execs, m.id).None? || LastStart(w0.execs, m.id).value + Width(m) <= env.now) ==>
                  LastStart(w.execs, m.id) == Some(env.now))
  {
    var m := fleet[i];
    var wi, wj, w := TickMonitors(w0, fleet, env, i), TickMonitors(w0, fleet, env, i + 1), TickMonitors(w0, fleet, env, |fleet|);
    OthersKeepView(w0, fleet, env, 0, i, m.id);
    OthersKeepView(w0, fleet, env, i + 1, |fleet|, m.id);
    SameViewTidy(w0, wi, m, before);
    if IsDue(w0.execs, m, env.now) {
      OwnMonitor(wi, m, env, before);
      if LastStart(w0.execs, m.id).None? || LastStart(w0.execs, m.id).value + Width(m) <= env.now {
        forall j | 0 <= j < |m.targets| ensures Granted(wi, m, m.targets[j], env) { FreshBucketIsFree(wi, m, env, before, j); }
        AllStarted(wi, m, env, before);
      }
    }
    assert Tidy(wj, m, env.now);
    SameViewTidy(wj, w, m, env.now);
    if LastStart(w.execs, m.id) == Some(env.now) {
      forall j | 0 <= j < |m.targets| ensures StartedIn(w.execs, m.id, m.targets[j], env.now) {
        var n :| 0 <= n < |wj.execs| && wj.execs[n].monitorId == m.id && wj.execs[n].region == m.targets[j] && wj.execs[n].startTime == env.now;
        assert w.execs[n] == wj.execs[n];
      }
    }
  }

  /** The start of the run precedes its first tick. */
  function Before(ticks: seq<Env>, n: nat): int
    requires n <= |ticks| && ticks != []
  {
    if n == 0 then ticks[0].now - 1 else ticks[n - 1].now
  }

  lemma {:induction false} AlwaysTidy(fleet: seq<Monitor>, ticks: seq<Env>, i: nat, n: nat)
    requires IsFleet(fleet) && i < |fleet| && Climbing(ticks) && n <= |ticks| && ticks != []
    ensures Tidy(After(fleet, ticks[..n]), fleet[i], Before(ticks, n))
    decreases n
  {
    if n > 0 {
      AlwaysTidy(fleet, ticks, i, n - 1);
      assert ticks[..n][..n - 1] == ticks[..n - 1];
      FleetTick(After(fleet, ticks[..n - 1]), fleet, ticks[n - 1], i, Before(ticks, n - 1));
    }
  }

  /** Tick `n` of a run, seen by one monitor. */
  lemma TickOfRun(fleet: seq<Monitor>, ticks: seq<Env>, i: nat, n: nat)
    requires IsFleet(fleet) && i < |fleet| && Climbing(ticks) && n < |ticks|
    ensures var a, b, m := After(fleet, ticks[..n]), After(fleet, ticks[..n + 1]), fleet[i];
            && (Fires(fleet, ticks, m, n) || LastStart(b.execs, m.id) == LastStart(a.execs, m.id))
            && (Fires(fleet, ticks, m, n) ==>
                  && IsDue(a.execs, m, ticks[n].now)
                  && forall j :: 0 <= j < |m.targets| ==> StartedIn(b.execs, m.id, m.targets[j], ticks[n].now))
            && ((LastStart(a.execs, m.id).None? || LastStart(a.execs, m.id).value + Width(m) <= ticks[n].now) ==> Fires(fleet, ticks, m, n))
  {
    AlwaysTidy(fleet, ticks, i, n);
    assert ticks[..n + 1][..n] == ticks[..n];
    FleetTick(After(fleet, ticks[..n]), fleet, ticks[n], i, Before(ticks, n));
  }

  /** While nothing fires, the last start stays that of the last firing tick. */
  lemma {:induction false} QuietSince(fleet: seq<Monitor>, ticks: seq<Env>, i: nat, a: nat, n: nat)
    requires IsFleet(fleet) && i < |fleet| && Climbing(ticks) && a < n <= |ticks|
    requires Fires(fleet, ticks, fleet[i], a)
    requires forall l :: a < l < n ==> !Fires(fleet, ticks, fleet[i], l)
    ensures LastStart(After(fleet, ticks[..n]).execs, fleet[i].id) == Some(ticks[a].now)
    decreases n
  {
    if n > a + 1 {
      QuietSince(fleet, ticks, i, a, n - 1);
      TickOfRun(fleet, ticks, i, n - 1);
    }
  }

  /** The first tick dispatches every monitor that never ran. */
  lemma FirstTickFires(fleet: seq<Monitor>, ticks: seq<Env>, i: nat)
    requires IsFleet(fleet) && i < |fleet| && Climbing(ticks) && ticks != []
    ensures Fires(fleet, ticks, fleet[i], 0)
  {
    TickOfRun(fleet, ticks, i, 0);
  }

  /**
   Cadence: with ticks at most `gap` ms apart, consecutive dispatches of an enabled
   monitor are less than interval + gap apart, at least interval - 500 ms apart, and at
   least a full interval apart when ticks fall on whole seconds. Redis may be down at any
   tick and any enqueue may fail; a failed enqueue does not bring the next dispatch forward.
   */
  lemma DispatchCadence(fleet: seq<Monitor>, ticks: seq<Env>, i: nat, a: nat, b: nat, gap: nat)
    requires IsFleet(fleet) && i < |fleet| && Climbing(ticks) && a < b < |ticks|
    requires forall l :: 0 <= l < |ticks| - 1 ==> ticks[l + 1].now - ticks[l].now <= gap
    requires Fires(fleet, ticks, fleet[i], a) && Fires(fleet, ticks, fleet[i], b)
    requires forall l :: a < l < b ==> !Fires(fleet, ticks, fleet[i], l)
    ensures 1000 * fleet[i].intervalSeconds - 500 <= ticks[b].now - ticks[a].now < 1000 * fleet[i].intervalSeconds + gap
    ensures ticks[a].now % 1000 == 0 && ticks[b].now % 1000 == 0 ==> ticks[b].now - ticks[a].now >= 1000 * fleet[i].intervalSeconds
  {
    DueAtNext(fleet, ticks, i, a, b);
    RoundedAge(ticks[a].now, ticks[b].now, fleet[i].intervalSeconds);
    NotYetAtPrevious(fleet, ticks, i, a, b);
    assert ticks[b - 1 + 1].now - ticks[b - 1].now <= gap;
  }

  lemma RoundedAge(t: int, u: int, interval: nat)
    requires AgeSeconds(t, u) >= interval
    ensures u - t >= 1000 * interval - 500
    ensures t % 1000 == 0 && u % 1000 == 0 ==> u - t >= 1000 * interval
  {
  }

  lemma DueAtNext(fleet: seq<Monitor>, ticks: seq<Env>, i: nat, a: nat, b: nat)
    requires IsFleet(fleet) && i < |fleet| && Climbing(ticks) && a < b < |ticks|
    requires Fires(fleet, ticks, fleet[i], a) && Fires(fleet, ticks, fleet[i], b)
    requires forall l :: a < l < b ==> !Fires(fleet, ticks, fleet[i], l)
    ensures AgeSeconds(ticks[a].now, ticks[b].now) >= fleet[i].intervalSeconds
  {
    QuietSince(fleet, ticks, i, a, b);
    TickOfRun(fleet, ticks, i, b);
  }

  lemma NotYetAtPrevious(fleet: seq<Monitor>, ticks: seq<Env>, i: nat, a: nat, b: nat)
    requires IsFleet(fleet) && i < |fleet| && Climbing(ticks) && a < b < |ticks|
    requires Fires(fleet, ticks, fleet[i], a)
    requires forall l :: a < l < b ==> !Fires(fleet, ticks, fleet[i], l)
    ensures ticks[b - 1].now < ticks[a].now + 1000 * fleet[i].intervalSeconds
  {
    if b - 1 > a {
      QuietSince(fleet, ticks, i, a, b - 1);
      TickOfRun(fleet, ticks, i, b - 1);
    }
  }

  /** Every dispatch serves every region the monitor is attached to. */
  lemma FiringServesEveryTarget(fleet: seq<Monitor>, ticks: seq<Env>, i: nat, n: nat, j: nat)
    requires IsFleet(fleet) && i < |fleet| && Climbing(ticks) && n < |ticks| && j < |fleet[i].targets|
    requires Fires(fleet, ticks, fleet[i], n)
    ensures StartedIn(After(fleet, ticks[..n + 1]).execs, fleet[i].id, fleet[i].targets[j], ticks[n].now)
  {
    TickOfRun(fleet, ticks, i, n);
  }
}
