/**
 Exactly when a tick dispatches a monitor again. The age is rounded, so a monitor is due
 half a second early; whether it is then dispatched depends on the bucket its last start
 took, which stays claimed for a whole interval if Redis was there to take the claim.
 */
module Firing {
  import opened Options
  import opened Arithmetic
  import opened Cadence
  import Slots

  const ROUNDING_MS := 500

  /** Tick `u` dispatches a monitor last dispatched by tick `t`. */
  predicate Ready(t: Env, u: Env, m: Monitor)
    requires m.intervalSeconds >= 1
  {
    && u.now - t.now >= Width(m) - ROUNDING_MS
    && (u.now / Width(m) != t.now / Width(m) || !t.redisUp || !u.redisUp)
  }

  /** With Redis up: a full interval has passed, or all but half a second of it and the bucket is a later one. */
  lemma ReadyWithRedis(t: Env, u: Env, m: Monitor)
    requires m.intervalSeconds >= 1 && t.redisUp && u.redisUp && t.now <= u.now
    ensures Ready(t, u, m) <==>
            u.now >= t.now + Width(m) || (u.now >= t.now + Width(m) - ROUNDING_MS && u.now / Width(m) > t.now / Width(m))
  {
    DivMonotone(t.now, u.now, Width(m));
    if u.now >= t.now + Width(m) { NextBucket(t.now, u.now, Width(m)); }
  }

  // ------------------------------------------------------------ what the last start left in Redis

  function Bucket(m: Monitor, t: int, i: nat): Slots.Slot
    requires m.intervalSeconds >= 1 && i < |m.targets|
  {
    SlotFor(m, m.targets[i], t)
  }

  /** The bucket of the last start: claimed for an interval if Redis was up, otherwise at most half a second longer. */
  ghost predicate Leaves(slots: map<Slots.Slot, int>, m: Monitor, t: int, up: bool)
    requires m.intervalSeconds >= 1
  {
    forall i :: 0 <= i < |m.targets| ==>
      if up then Bucket(m, t, i) in slots && slots[Bucket(m, t, i)] == t + Width(m)
      else Bucket(m, t, i) in slots ==> slots[Bucket(m, t, i)] <= t + ROUNDING_MS
  }

  /** The monitor as its last dispatching tick left it. */
  ghost predicate Left(w: World, m: Monitor, last: Env)
    requires m.intervalSeconds >= 1
  {
    LastStart(w.execs, m.id) == Some(last.now) && Leaves(w.slots, m, last.now, last.redisUp)
  }

  lemma SameViewLeft(a: World, b: World, m: Monitor, last: Env)
    requires m.intervalSeconds >= 1 && SameView(a, b, m.id) && Left(a, m, last)
    ensures Left(b, m, last)
  {
    forall i | 0 <= i < |m.targets| ensures Bucket(m, last.now, i).id == m.id { }
  }

  lemma RoundsUp(t: int, u: int, interval: nat)
    ensures AgeSeconds(t, u) >= interval <==> u - t >= 1000 * interval - ROUNDING_MS
  {
  }

  lemma DueIff(execs: seq<Execution>, m: Monitor, t: int, now: int)
    requires m.intervalSeconds >= 1 && LastStart(execs, m.id) == Some(t)
    ensures IsDue(execs, m, now) <==> now - t >= Width(m) - ROUNDING_MS
  {
    RoundsUp(t, now, m.intervalSeconds);
  }

  lemma FreeIfReady(w: World, m: Monitor, last: Env, env: Env, before: int, i: nat)
    requires m.intervalSeconds >= 1 && i < |m.targets|
    requires Tidy(w, m, before) && Left(w, m, last) && last.now <= env.now && Ready(last, env, m)
    ensures Granted(w, m, m.targets[i], env)
  {
    DivMonotone(last.now, env.now, Width(m));
    var k := SlotFor(m, m.targets[i], env.now);
    if env.now / Width(m) == last.now / Width(m) {
      assert k == Bucket(m, last.now, i);
    } else {
      assert k.id == m.id && k.bucket == env.now / Width(m);
    }
  }

  lemma HeldUnlessReady(w: World, m: Monitor, last: Env, env: Env, i: nat)
    requires m.intervalSeconds >= 1 && i < |m.targets|
    requires Left(w, m, last) && last.now <= env.now && IsDue(w.execs, m, env.now) && !Ready(last, env, m)
    ensures !Granted(w, m, m.targets[i], env)
  {
    DueIff(w.execs, m, last.now, env.now);
    assert SlotFor(m, m.targets[i], env.now) == Bucket(m, last.now, i);
    if env.now >= last.now + Width(m) { NextBucket(last.now, env.now, Width(m)); }
  }

  /** A dispatching tick leaves its own bucket claimed, or, without Redis, at most an old claim about to lapse. */
  lemma DispatchLeaves(w: World, m: Monitor, env: Env, before: int)
    requires m.intervalSeconds >= 1 && DistinctTargets(m) && Tidy(w, m, before) && before <= env.now
    requires forall i :: 0 <= i < |m.targets| ==> Granted(w, m, m.targets[i], env)
    requires env.redisUp || Leaves(w.slots, m, env.now, false)
    ensures Leaves(DispatchTargets(w, m, env, |m.targets|).slots, m, env.now, env.redisUp)
  {
    AllGranted(w, m, env, |m.targets|);
    TakenSlotsAre(m, env.now, |m.targets|);
  }

  /** Without Redis: whatever the bucket still holds lapses within half a second. */
  lemma OldClaimsLapse(w: World, m: Monitor, last: Env, env: Env, before: int)
    requires m.intervalSeconds >= 1 && Tidy(w, m, before) && Left(w, m, last) && last.now <= env.now
    requires IsDue(w.execs, m, env.now)
    ensures Leaves(w.slots, m, env.now, false)
  {
    DueIff(w.execs, m, last.now, env.now);
    DivMonotone(last.now, env.now, Width(m));
    forall i | 0 <= i < |m.targets| && Bucket(m, env.now, i) in w.slots
      ensures w.slots[Bucket(m, env.now, i)] <= env.now + ROUNDING_MS
    {
      var k := Bucket(m, env.now, i);
      assert k.id == m.id && k.bucket == env.now / Width(m);
      assert k == Bucket(m, last.now, i);
    }
  }

  lemma NothingClaimed(w: World, m: Monitor, env: Env, before: int)
    requires m.intervalSeconds >= 1 && Tidy(w, m, before) && LastStart(w.execs, m.id).None?
    ensures Leaves(w.slots, m, env.now, false)
    ensures forall i :: 0 <= i < |m.targets| ==> Granted(w, m, m.targets[i], env)
  {
    forall i | 0 <= i < |m.targets| ensures Bucket(m, env.now, i) !in w.slots { assert Bucket(m, env.now, i).id == m.id; }
  }

  // ------------------------------------------------------------ one tick

  /** What a tick does to a monitor last dispatched by `last`. */
  lemma OwnTick(w: World, m: Monitor, env: Env, before: int, last: Env)
    requires m.intervalSeconds >= 1 && m.targets != [] && DistinctTargets(m)
    requires Tidy(w, m, before) && before < env.now && Left(w, m, last) && last.now <= before
    ensures var w1 := if IsDue(w.execs, m, env.now) then DispatchTargets(w, m, env, |m.targets|) else w;
            if Ready(last, env, m) then Left(w1, m, env) else w1 == w
  {
    DueIff(w.execs, m, last.now, env.now);
    if Ready(last, env, m) {
      forall i | 0 <= i < |m.targets| ensures Granted(w, m, m.targets[i], env) { FreeIfReady(w, m, last, env, before, i); }
      OldClaimsLapse(w, m, last, env, before);
      AllStarted(w, m, env, before);
      DispatchLeaves(w, m, env, before);
    } else if IsDue(w.execs, m, env.now) {
      forall i | 0 <= i < |m.targets| ensures !Granted(w, m, m.targets[i], env) { HeldUnlessReady(w, m, last, env, i); }
      NoneGranted(w, m, env, |m.targets|);
    }
  }

  /** The first dispatch of all. */
  lemma OwnFirstTick(w: World, m: Monitor, env: Env, before: int)
    requires m.intervalSeconds >= 1 && m.targets != [] && DistinctTargets(m)
    requires Tidy(w, m, before) && before < env.now && LastStart(w.execs, m.id).None?
    ensures Left(DispatchTargets(w, m, env, |m.targets|), m, env)
  {
    NothingClaimed(w, m, env, before);
    AllStarted(w, m, env, before);
    DispatchLeaves(w, m, env, before);
  }

  /** The tick over the whole fleet, seen by monitor `i`: only its own turn matters. */
  lemma AroundOwnTurn(w0: World, fleet: seq<Monitor>, env: Env, i: nat)
    requires IsFleet(fleet) && i < |fleet|
    ensures SameView(w0, TickMonitors(w0, fleet, env, i), fleet[i].id)
    ensures SameView(TickMonitors(w0, fleet, env, i + 1), TickMonitors(w0, fleet, env, |fleet|), fleet[i].id)
  {
    OthersKeepView(w0, fleet, env, 0, i, fleet[i].id);
    OthersKeepView(w0, fleet, env, i + 1, |fleet|, fleet[i].id);
  }

  lemma SameDue(a: World, b: World, m: Monitor, now: int)
    requires SameView(a, b, m.id)
    ensures IsDue(a.execs, m, now) == IsDue(b.execs, m, now)
  {
  }

  lemma ExactTick(w0: World, fleet: seq<Monitor>, env: Env, i: nat, before: int, last: Env)
    requires IsFleet(fleet) && i < |fleet|
    requires Tidy(w0, fleet[i], before) && before < env.now && Left(w0, fleet[i], last) && last.now <= before
    ensures Left(TickMonitors(w0, fleet, env, |fleet|), fleet[i], if Ready(last, env, fleet[i]) then env else last)
  {
    var m := fleet[i];
    var wi, wj, w := TickMonitors(w0, fleet, env, i), TickMonitors(w0, fleet, env, i + 1), TickMonitors(w0, fleet, env, |fleet|);
    AroundOwnTurn(w0, fleet, env, i);
    SameViewTidy(w0, wi, m, before);
    SameViewLeft(w0, wi, m, last);
    SameDue(w0, wi, m, env.now);
    OwnTick(wi, m, env, before, last);
    SameViewLeft(wj, w, m, if Ready(last, env, m) then env else last);
  }

  lemma ExactFirstTick(w0: World, fleet: seq<Monitor>, env: Env, i: nat, before: int)
    requires IsFleet(fleet) && i < |fleet|
    requires Tidy(w0, fleet[i], before) && before < env.now && LastStart(w0.execs, fleet[i].id).None?
    ensures Left(TickMonitors(w0, fleet, env, |fleet|), fleet[i], env)
  {
    var m := fleet[i];
    var wi, wj, w := TickMonitors(w0, fleet, env, i), TickMonitors(w0, fleet, env, i + 1), TickMonitors(w0, fleet, env, |fleet|);
    AroundOwnTurn(w0, fleet, env, i);
    SameViewTidy(w0, wi, m, before);
    OwnFirstTick(wi, m, env, before);
    SameViewLeft(wj, w, m, env);
  }

  // ------------------------------------------------------------ runs

  /** In every run, after a tick, the monitor is as its last dispatching tick left it. */
  lemma {:induction false} LastFiring(fleet: seq<Monitor>, ticks: seq<Env>, i: nat, n: nat) returns (a: nat)
    requires IsFleet(fleet) && i < |fleet| && Climbing(ticks) && n < |ticks|
    ensures a <= n && Left(After(fleet, ticks[..n + 1]), fleet[i], ticks[a])
    decreases n
  {
    AlwaysTidy(fleet, ticks, i, n);
    assert ticks[..n + 1][..n] == ticks[..n];
    var w0, env := After(fleet, ticks[..n]), ticks[n];
    if n == 0 {
      ExactFirstTick(w0, fleet, env, i, Before(ticks, n));
      a := 0;
    } else {
      a := LastFiring(fleet, ticks, i, n - 1);
      ExactTick(w0, fleet, env, i, Before(ticks, n), ticks[a]);
      if Ready(ticks[a], env, fleet[i]) { a := n; }
    }
  }

  /** In every run, the tick after a dispatch and a pause dispatches again exactly if it is ready. */
  lemma FiresIff(fleet: seq<Monitor>, ticks: seq<Env>, i: nat, a: nat, n: nat)
    requires IsFleet(fleet) && i < |fleet| && Climbing(ticks) && a < n < |ticks|
    requires Fires(fleet, ticks, fleet[i], a) && forall l :: a < l < n ==> !Fires(fleet, ticks, fleet[i], l)
    ensures Fires(fleet, ticks, fleet[i], n) <==> Ready(ticks[a], ticks[n], fleet[i])
  {
    QuietSince(fleet, ticks, i, a, n);
    var last := LastFiring(fleet, ticks, i, n - 1);
    assert last == a;
    AlwaysTidy(fleet, ticks, i, n);
    ExactTick(After(fleet, ticks[..n]), fleet, ticks[n], i, Before(ticks, n), ticks[a]);
    assert ticks[..n + 1][..n] == ticks[..n];
  }

  /** A tick in the last half second of the interval after tick `a`, in a later bucket or without Redis at either end. */
  predicate Early(m: Monitor, t: Env, u: Env)
    requires m.intervalSeconds >= 1
  {
    u.now < t.now + Width(m) && Ready(t, u, m)
  }

  /** Two consecutive dispatches are less than an interval apart exactly if an early tick falls after the first. */
  lemma ShortGapIff(fleet: seq<Monitor>, ticks: seq<Env>, i: nat, a: nat, b: nat)
    requires IsFleet(fleet) && i < |fleet| && Climbing(ticks) && a < b < |ticks|
    requires Fires(fleet, ticks, fleet[i], a) && Fires(fleet, ticks, fleet[i], b)
    requires forall l :: a < l < b ==> !Fires(fleet, ticks, fleet[i], l)
    ensures ticks[b].now - ticks[a].now < 1000 * fleet[i].intervalSeconds
       <==> exists l :: a < l < |ticks| && Early(fleet[i], ticks[a], ticks[l])
  {
    FiresIff(fleet, ticks, i, a, b);
    if l :| a < l < |ticks| && Early(fleet[i], ticks[a], ticks[l]) {
      if l < b { FiresIff(fleet, ticks, i, a, l); }
      assert ticks[b].now <= ticks[l].now;
    }
    if ticks[b].now - ticks[a].now < 1000 * fleet[i].intervalSeconds { assert Early(fleet[i], ticks[a], ticks[b]); }
  }

  /** The half second is real: a 60 s monitor dispatched at 30.0 s is dispatched again at 89.5 s. */
  lemma RoundingShortensTheInterval()
    ensures var fleet, ticks := [Monitor(7, 60, [None])], [Env(30000, true, {}), Env(89500, true, {})];
            Fires(fleet, ticks, fleet[0], 0) && Fires(fleet, ticks, fleet[0], 1)
  {
    var fleet, ticks := [Monitor(7, 60, [None])], [Env(30000, true, {}), Env(89500, true, {})];
    FirstTickFires(fleet, ticks, 0);
    FiresIff(fleet, ticks, 0, 0, 1);
  }
}
