/** The scheduler's tick guard: what can be in flight together, and an alarm that doubles its distance. */
module TickGuard {

  const CRITICAL_FAILURE_THRESHOLD: nat := 3

  datatype Guard = Guard(isTicking: bool, consecutiveFailures: nat, lastEscalation: nat)

  const FRESH := Guard(false, 0, 0)

  /** The alarm condition, evaluated after the failure was counted. */
  predicate Alarms(failures: nat, lastEscalation: nat) {
    failures >= CRITICAL_FAILURE_THRESHOLD && (failures == lastEscalation * 2 || lastEscalation == 0)
  }

  function Finished(g: Guard, ok: bool): Guard {
    if ok then Guard(false, 0, if g.consecutiveFailures > 0 then 0 else g.lastEscalation)
    else
      var n := g.consecutiveFailures + 1;
      Guard(false, n, if Alarms(n, g.lastEscalation) then n else g.lastEscalation)
  }

  class Ticker {
    var isTicking: bool
    var consecutiveFailures: nat
    var lastEscalation: nat

    ghost function Contents(): Guard reads this {
      Guard(isTicking, consecutiveFailures, lastEscalation)
    }

    constructor ()
      ensures Contents() == FRESH
    {
      isTicking, consecutiveFailures, lastEscalation := false, 0, 0;
    }

    /** The timer fires: start a body unless one is still in flight. */
    method Fire() returns (started: bool)
      modifies this`isTicking
      ensures started == !old(isTicking)
      ensures isTicking
    {
      if isTicking { return false; }
      isTicking := true;
      started := true;
    }

    /** The body in flight ends, well or not. */
    method Finish(ok: bool) returns (stalled: bool)
      modifies this
      ensures Contents() == Finished(old(Contents()), ok)
      ensures stalled <==> !ok && Alarms(old(consecutiveFailures) + 1, old(lastEscalation))
    {
      stalled := false;
      if ok {
        if consecutiveFailures > 0 {
          consecutiveFailures := 0;
          lastEscalation := 0;
        }
      } else {
        consecutiveFailures := consecutiveFailures + 1;
        if consecutiveFailures >= CRITICAL_FAILURE_THRESHOLD {
          if consecutiveFailures == lastEscalation * 2 || lastEscalation == 0 {
            stalled := true;
            lastEscalation := consecutiveFailures;
          }
        }
      }
      isTicking := false;
    }
  }

  // ------------------------------------------------------------ escalation

  function After(outcomes: seq<bool>): Guard
    decreases |outcomes|
  {
    if outcomes == [] then FRESH else Finished(After(outcomes[..|outcomes| - 1]), outcomes[|outcomes| - 1])
  }

  /** The failures at the end of the history. */
  function Trailing(outcomes: seq<bool>): nat
    decreases |outcomes|
  {
    if outcomes == [] || outcomes[|outcomes| - 1] then 0 else Trailing(outcomes[..|outcomes| - 1]) + 1
  }

  function Doubling(k: nat): nat {
    if k == 0 then 3 else 2 * Doubling(k - 1)
  }

  /** The stalled message is logged when the last tick of `outcomes` ends. */
  predicate Logs(outcomes: seq<bool>)
    requires outcomes != []
  {
    var before := After(outcomes[..|outcomes| - 1]);
    !outcomes[|outcomes| - 1] && Alarms(before.consecutiveFailures + 1, before.lastEscalation)
  }

  /** `level` is the largest 3 * 2^k not above `n`, or 0 when there is none. */
  ghost predicate IsLevel(level: nat, n: nat) {
    if n < CRITICAL_FAILURE_THRESHOLD then level == 0
    else level <= n < 2 * level && exists k: nat :: Doubling(k) == level
  }

  lemma {:induction false} DoublingGrows(j: nat, k: nat)
    requires j < k
    ensures 2 * Doubling(j) <= Doubling(k)
    decreases k
  {
    if j < k - 1 { DoublingGrows(j, k - 1); }
  }

  lemma {:induction false} LevelIsKept(outcomes: seq<bool>)
    ensures After(outcomes).consecutiveFailures == Trailing(outcomes)
    ensures IsLevel(After(outcomes).lastEscalation, Trailing(outcomes))
    decreases |outcomes|
  {
    if outcomes != [] {
      var before := outcomes[..|outcomes| - 1];
      LevelIsKept(before);
      var g, n := After(before), Trailing(before) + 1;
      if !outcomes[|outcomes| - 1] && n >= CRITICAL_FAILURE_THRESHOLD {
        if n == CRITICAL_FAILURE_THRESHOLD {
          assert Doubling(0) == n;
        } else {
          var k: nat :| Doubling(k) == g.lastEscalation;
          assert Doubling(k + 1) == 2 * g.lastEscalation;
        }
      }
    }
  }

  lemma NextDoubling(j: nat, k: nat)
    requires Doubling(j) < Doubling(k) <= 2 * Doubling(j)
    ensures k == j + 1
  {
    AtLeastThreshold(j);
    if k < j { DoublingGrows(k, j); }
    if k > j + 1 { DoublingGrows(j + 1, k); }
  }

  lemma AlarmCondition(level: nat, n: nat)
    requires n > 0 && IsLevel(level, n - 1)
    ensures Alarms(n, level) <==> exists k: nat :: n == Doubling(k)
  {
    if n == CRITICAL_FAILURE_THRESHOLD { assert n == Doubling(0); }
    if n > CRITICAL_FAILURE_THRESHOLD {
      var j: nat :| Doubling(j) == level;
      assert Doubling(j + 1) == 2 * level;
      if k: nat :| n == Doubling(k) { NextDoubling(j, k); }
    }
    if k: nat :| n == Doubling(k) { AtLeastThreshold(k); }
  }

  /** The alarm sounds exactly at 3, 6, 12, 24, ... consecutive failures. */
  lemma AlarmsAtDoublings(outcomes: seq<bool>)
    requires outcomes != []
    ensures Logs(outcomes) <==> exists k: nat :: Trailing(outcomes) == Doubling(k)
    ensures IsLevel(After(outcomes).lastEscalation, Trailing(outcomes))
  {
    LevelIsKept(outcomes);
    var before := outcomes[..|outcomes| - 1];
    LevelIsKept(before);
    if outcomes[|outcomes| - 1] {
      if k: nat :| 0 == Doubling(k) { AtLeastThreshold(k); }
    } else {
      AlarmCondition(After(before).lastEscalation, Trailing(outcomes));
    }
  }

  lemma {:induction false} AtLeastThreshold(k: nat)
    ensures Doubling(k) >= CRITICAL_FAILURE_THRESHOLD
    decreases k
  {
    if k > 0 { AtLeastThreshold(k - 1); }
  }

  // ------------------------------------------------------------ what is in flight

  /** The sub-ticks a body starts together. */
  const PARTS: nat := 10

  datatype Beat = Fires | PartEnds(tick: nat, ok: bool)

  /**
   The guard, the latest tick, the sub-ticks each tick still has running, and the ticks whose
   body was awaited to a failure. `Promise.all` rejects on the first failing sub-tick and the
   others run on.
   */
  datatype Clock = Clock(guard: Guard, latest: nat, running: map<nat, nat>, failed: set<nat>)

  function Running(c: Clock, tick: nat): nat {
    if tick in c.running then c.running[tick] else 0
  }

  function Step(c: Clock, b: Beat): Clock {
    match b
    case Fires =>
      if c.guard.isTicking then c
      else Clock(c.guard.(isTicking := true), c.latest + 1, c.running[c.latest + 1 := PARTS], c.failed)
    case PartEnds(t, ok) =>
      if Running(c, t) == 0 then c else
        var d := c.(running := c.running[t := Running(c, t) - 1]);
        if t != c.latest || !c.guard.isTicking || (ok && Running(d, t) > 0) then d
        else d.(guard := Finished(c.guard, ok), failed := if ok then c.failed else c.failed + {t})
  }

  function Run(beats: seq<Beat>): Clock
    decreases |beats|
  {
    if beats == [] then Clock(FRESH, 0, map[], {}) else Step(Run(beats[..|beats| - 1]), beats[|beats| - 1])
  }

  /** Bodies are awaited one at a time; only a failed tick leaves sub-ticks running behind it. */
  ghost predicate OneBody(c: Clock) {
    && (c.guard.isTicking ==> Running(c, c.latest) > 0)
    && (forall t: nat :: Running(c, t) > 0 ==> t <= c.latest && (t in c.failed || (t == c.latest && c.guard.isTicking)))
    && (forall t :: t in c.failed ==> t <= c.latest && (t == c.latest ==> !c.guard.isTicking))
  }

  lemma StepKeepsOneBody(c: Clock, b: Beat)
    requires OneBody(c)
    ensures OneBody(Step(c, b))
  {
    var d := Step(c, b);
    forall t: nat | Running(d, t) > 0
      ensures t <= d.latest && (t in d.failed || (t == d.latest && d.guard.isTicking))
    {
      assert Running(c, t) > 0 || (b.Fires? && t == c.latest + 1);
    }
  }

  lemma {:induction false} AtMostOneBody(beats: seq<Beat>)
    ensures OneBody(Run(beats))
    decreases |beats|
  {
    if beats != [] {
      AtMostOneBody(beats[..|beats| - 1]);
      StepKeepsOneBody(Run(beats[..|beats| - 1]), beats[|beats| - 1]);
    }
  }

  /** Sub-ticks of a tick other than the one awaited are still running. */
  ghost predicate Overlaps(c: Clock) {
    c.guard.isTicking && exists t: nat :: t != c.latest && Running(c, t) > 0
  }

  /** Some failed tick still has sub-ticks running. */
  ghost predicate LeftBehind(c: Clock) {
    exists t: nat :: t in c.failed && Running(c, t) > 0
  }

  /** In every run, a tick that starts runs beside another exactly if some failed tick still has sub-ticks running. */
  lemma StartsBesideAnotherIff(beats: seq<Beat>)
    requires !Run(beats).guard.isTicking
    ensures Overlaps(Run(beats + [Fires])) <==> LeftBehind(Run(beats))
  {
    AtMostOneBody(beats);
    assert (beats + [Fires])[..|beats|] == beats;
    var c, d := Run(beats), Run(beats + [Fires]);
    if t: nat :| t in c.failed && Running(c, t) > 0 { assert t != d.latest && Running(d, t) > 0; }
    if t: nat :| t != d.latest && Running(d, t) > 0 { assert Running(c, t) > 0; }
  }

  /** At any moment, ticks overlap exactly while a tick is awaited and a failed one still has sub-ticks running. */
  lemma OverlapsIff(beats: seq<Beat>)
    ensures Overlaps(Run(beats)) <==> Run(beats).guard.isTicking && LeftBehind(Run(beats))
  {
    AtMostOneBody(beats);
    var c := Run(beats);
    if t: nat :| t in c.failed && Running(c, t) > 0 { assert c.guard.isTicking ==> t != c.latest; }
  }

  /** The failure that ends the awaited tick leaves sub-ticks behind exactly if it was not the last one running. */
  lemma FailureLeavesIff(beats: seq<Beat>)
    requires Run(beats).guard.isTicking
    ensures var c, t := Run(beats), Run(beats).latest;
            var d := Run(beats + [PartEnds(t, false)]);
            && t in d.failed && !d.guard.isTicking
            && (Running(d, t) > 0 <==> Running(c, t) > 1)
  {
    AtMostOneBody(beats);
    assert (beats + [PartEnds(Run(beats).latest, false)])[..|beats|] == beats;
  }

  /** While no tick has failed, everything in flight belongs to one tick, and only while `isTicking`. */
  lemma NoFailureNoOverlap(beats: seq<Beat>, t: nat, u: nat)
    requires Run(beats).failed == {}
    ensures Running(Run(beats), t) > 0 && Running(Run(beats), u) > 0 ==> t == u && Run(beats).guard.isTicking
  {
    AtMostOneBody(beats);
  }

  /** After a failure the guard reopens with nine sub-ticks running, and the next tick runs beside them. */
  lemma FailedTickOverlaps()
    ensures var c := Run([Fires, PartEnds(1, false), Fires]);
            c.guard.isTicking && Running(c, 1) == 9 && Running(c, 2) == 10
  {
    var beats := [Fires, PartEnds(1, false), Fires];
    assert beats[..2][..1] == beats[..1] && beats[..1][..0] == [];
    assert Run(beats[..0]) == Clock(FRESH, 0, map[], {});
    assert Run(beats[..1]) == Clock(Guard(true, 0, 0), 1, map[1 := PARTS], {});
    assert Run(beats[..2]) == Clock(Guard(false, 1, 0), 1, map[1 := PARTS - 1], {1});
  }
}
