/**
 Dispatch slots. Every scheduler claims `oo:scheduled:<type>:<id>:<bucket>:r<region>`
 with SET NX EX before dispatching. Any number of schedulers interleave: each prepares
 the claims of a due monitor with the bucket of that moment, and makes them one by one.
 Times are milliseconds, intervals whole seconds.
 */
module Slots {
  import opened Options
  import opened Arithmetic

  datatype Slot = Slot(kind: string, id: int, bucket: int, region: int)
  datatype Dispatch = Dispatch(slot: Slot, time: int)

  function Key(kind: string, id: int, bucket: int, region: Option<int>): Slot {
    Slot(kind, id, bucket, match region case None => 0 case Some(r) => r)
  }

  /** The TTL, and the width of a bucket. */
  function Ttl(intervalSeconds: int): int {
    1000 * if intervalSeconds < 1 then 1 else intervalSeconds
  }

  /** `SET key 1 EX ttl NX` finds the key: it was set and has not expired. */
  predicate Held(slots: map<Slot, int>, k: Slot, now: int) {
    k in slots && now < slots[k]
  }

  function Claimed(slots: map<Slot, int>, k: Slot, ttl: int, now: int): map<Slot, int> {
    if Held(slots, k, now) then slots else slots[k := now + ttl]
  }

  datatype State = State(
    intervals: map<(string, int), nat>,   // fixed interval per monitor
    now: int,
    slots: map<Slot, int>,
    pending: map<int, seq<Slot>>,          // claims a scheduler has prepared
    log: seq<Dispatch>                     // history: every dispatch, in order
  )

  datatype Action =
    | Wait(d: nat)
    | Prepare(scheduler: int, kind: string, id: int, regions: seq<Option<int>>)
    | ClaimNext(scheduler: int, redisUp: bool)

  function Initial(intervals: map<(string, int), nat>, now: int): State {
    State(intervals, now, map[], map[], [])
  }

  /** The width of the slot's buckets, which is also the TTL of its claim. */
  function Width(intervals: map<(string, int), nat>, k: Slot): int {
    Ttl(if (k.kind, k.id) in intervals then intervals[(k.kind, k.id)] else 0)
  }

  predicate Due(s: State, scheduler: int) {
    scheduler in s.pending && s.pending[scheduler] != []
  }

  /** The claim is granted: the slot is free, or Redis failed and the scheduler proceeds anyway. */
  predicate Grants(s: State, k: Slot, redisUp: bool) {
    !redisUp || !Held(s.slots, k, s.now)
  }

  function Apply(s: State, a: Action): State {
    match a
    case Wait(d) => s.(now := s.now + d)
    case Prepare(scheduler, kind, id, regions) =>
      if (kind, id) !in s.intervals || s.intervals[(kind, id)] == 0 then s else
        var bucket := s.now / (s.intervals[(kind, id)] * 1000);
        s.(pending := s.pending[scheduler :=
             seq(|regions|, i requires 0 <= i < |regions| => Key(kind, id, bucket, regions[i]))])
    case ClaimNext(scheduler, redisUp) =>
      if !Due(s, scheduler) then s else
        var k := s.pending[scheduler][0];
        s.(pending := s.pending[scheduler := s.pending[scheduler][1..]],
           slots := if redisUp then Claimed(s.slots, k, Width(s.intervals, k), s.now) else s.slots,
           log := if Grants(s, k, redisUp) then s.log + [Dispatch(k, s.now)] else s.log)
  }

  function After(s: State, actions: seq<Action>): State
    decreases |actions|
  {
    if actions == [] then s else Apply(After(s, actions[..|actions| - 1]), actions[|actions| - 1])
  }

  /** Redis answers every claim. */
  predicate RedisUp(actions: seq<Action>) {
    forall i :: 0 <= i < |actions| && actions[i].ClaimNext? ==> actions[i].redisUp
  }

  /** The claim this action makes, if any, falls inside its own bucket. */
  predicate IsCurrent(s: State, a: Action) {
    a.ClaimNext? && Due(s, a.scheduler) ==>
      var k := s.pending[a.scheduler][0];
      k.bucket * Width(s.intervals, k) <= s.now < k.bucket * Width(s.intervals, k) + Width(s.intervals, k)
  }

  /** What is prepared is one claim for each region, of the bucket of that moment; a claim made before the next bucket is current. */
  lemma PreparedIsCurrent(s: State, scheduler: int, kind: string, id: int, regions: seq<Option<int>>, d: nat, redisUp: bool)
    requires (kind, id) in s.intervals && s.intervals[(kind, id)] >= 1
    ensures var t := Apply(s, Prepare(scheduler, kind, id, regions));
            var width := 1000 * s.intervals[(kind, id)];
            && scheduler in t.pending && |t.pending[scheduler]| == |regions|
            && (forall i :: 0 <= i < |regions| ==>
                  t.pending[scheduler][i] == Slot(kind, id, s.now / width, if regions[i].Some? then regions[i].value else 0))
            && (s.now % width + d < width ==> IsCurrent(Apply(t, Wait(d)), ClaimNext(scheduler, redisUp)))
  {
    var interval := s.intervals[(kind, id)];
    assert Ttl(interval) == 1000 * interval == interval * 1000;
  }

  /** Every claim of the run is made while its bucket is current. */
  predicate Current(s: State, actions: seq<Action>)
    decreases |actions|
  {
    actions == [] ||
    (Current(s, actions[..|actions| - 1]) && IsCurrent(After(s, actions[..|actions| - 1]), actions[|actions| - 1]))
  }

  // ------------------------------------------------------------ invariants

  ghost predicate InOrder(s: State) {
    && (forall i :: 0 <= i < |s.log| ==> s.log[i].time <= s.now)
    && (forall i, j :: 0 <= i < j < |s.log| ==> s.log[i].time <= s.log[j].time)
  }

  /** When the slot was last dispatched. */
  function LastDispatch(log: seq<Dispatch>, k: Slot): Option<int>
    decreases |log|
  {
    if log == [] then None
    else if log[|log| - 1].slot == k then Some(log[|log| - 1].time)
    else LastDispatch(log[..|log| - 1], k)
  }

  /** A slot holds until one TTL after its latest dispatch. */
  ghost predicate Remembers(intervals: map<(string, int), nat>, slots: map<Slot, int>, log: seq<Dispatch>) {
    forall k :: (k in slots <==> LastDispatch(log, k).Some?)
             && (k in slots ==> slots[k] == LastDispatch(log, k).value + Width(intervals, k))
  }

  ghost predicate TtlApart(intervals: map<(string, int), nat>, log: seq<Dispatch>) {
    forall i, j :: 0 <= i < j < |log| && log[i].slot == log[j].slot ==>
      log[i].time + Width(intervals, log[i].slot) <= log[j].time
  }

  ghost predicate SlotsSafe(s: State) {
    InOrder(s) && Remembers(s.intervals, s.slots, s.log) && TtlApart(s.intervals, s.log)
  }

  ghost predicate InBucket(s: State) {
    forall i :: 0 <= i < |s.log| ==>
      var d := s.log[i];
      d.slot.bucket * Width(s.intervals, d.slot) <= d.time < d.slot.bucket * Width(s.intervals, d.slot) + Width(s.intervals, d.slot)
  }

  lemma {:induction false} LastIsLatest(log: seq<Dispatch>, i: nat)
    requires i < |log| && forall m, n :: 0 <= m < n < |log| ==> log[m].time <= log[n].time
    ensures LastDispatch(log, log[i].slot).Some? && log[i].time <= LastDispatch(log, log[i].slot).value
    decreases |log|
  {
    if log[|log| - 1].slot != log[i].slot { LastIsLatest(log[..|log| - 1], i); }
  }

  lemma {:induction false} LastIsThere(log: seq<Dispatch>, k: Slot)
    requires LastDispatch(log, k).Some?
    ensures exists i :: 0 <= i < |log| && log[i] == Dispatch(k, LastDispatch(log, k).value)
    decreases |log|
  {
    var n := |log| - 1;
    if log[n].slot != k {
      LastIsThere(log[..n], k);
      var i :| 0 <= i < n && log[..n][i] == Dispatch(k, LastDispatch(log[..n], k).value);
      assert log[i] == log[..n][i];
    }
  }

  lemma GrantRemembers(intervals: map<(string, int), nat>, slots: map<Slot, int>, log: seq<Dispatch>, k: Slot, now: int)
    requires Remembers(intervals, slots, log)
    ensures Remembers(intervals, slots[k := now + Width(intervals, k)], log + [Dispatch(k, now)])
  {
    assert (log + [Dispatch(k, now)])[..|log|] == log;
  }

  lemma GrantIsApart(intervals: map<(string, int), nat>, slots: map<Slot, int>, log: seq<Dispatch>, k: Slot, now: int, i: nat)
    requires Remembers(intervals, slots, log) && !Held(slots, k, now)
    requires i < |log| && log[i].slot == k && forall m, n :: 0 <= m < n < |log| ==> log[m].time <= log[n].time
    ensures log[i].time + Width(intervals, k) <= now
  {
    LastIsLatest(log, i);
  }

  lemma GrantKeepsApart(intervals: map<(string, int), nat>, log: seq<Dispatch>, k: Slot, now: int)
    requires TtlApart(intervals, log)
    requires forall i :: 0 <= i < |log| && log[i].slot == k ==> log[i].time + Width(intervals, k) <= now
    ensures TtlApart(intervals, log + [Dispatch(k, now)])
  {
  }

  lemma GrantKeepsSafe(s: State, k: Slot)
    requires SlotsSafe(s) && !Held(s.slots, k, s.now)
    ensures SlotsSafe(s.(slots := s.slots[k := s.now + Width(s.intervals, k)], log := s.log + [Dispatch(k, s.now)]))
  {
    GrantRemembers(s.intervals, s.slots, s.log, k, s.now);
    forall i | 0 <= i < |s.log| && s.log[i].slot == k ensures s.log[i].time + Width(s.intervals, k) <= s.now {
      GrantIsApart(s.intervals, s.slots, s.log, k, s.now, i);
    }
    GrantKeepsApart(s.intervals, s.log, k, s.now);
  }

  lemma KeepsSlotsSafe(s: State, a: Action)
    requires SlotsSafe(s)
    requires a.ClaimNext? ==> a.redisUp
    ensures SlotsSafe(Apply(s, a))
  {
    if a.ClaimNext? && Due(s, a.scheduler) && !Held(s.slots, s.pending[a.scheduler][0], s.now) {
      var k := s.pending[a.scheduler][0];
      GrantKeepsSafe(s, k);
      assert Apply(s, a).log == s.log + [Dispatch(k, s.now)];
    }
  }

  lemma {:induction false} AlwaysSlotsSafe(s0: State, actions: seq<Action>)
    requires s0 == Initial(s0.intervals, s0.now) && RedisUp(actions)
    ensures SlotsSafe(After(s0, actions))
    decreases |actions|
  {
    if actions != [] {
      AlwaysSlotsSafe(s0, actions[..|actions| - 1]);
      KeepsSlotsSafe(After(s0, actions[..|actions| - 1]), actions[|actions| - 1]);
    }
  }

  /** With Redis up, a claim is granted exactly when no dispatch of its slot is less than one TTL old. */
  lemma GrantedIffTtlPassed(s0: State, actions: seq<Action>, k: Slot)
    requires s0 == Initial(s0.intervals, s0.now) && RedisUp(actions)
    ensures var s := After(s0, actions);
            Grants(s, k, true) <==>
            forall i :: 0 <= i < |s.log| && s.log[i].slot == k ==> s.log[i].time + Width(s.intervals, k) <= s.now
  {
    AlwaysSlotsSafe(s0, actions);
    var s := After(s0, actions);
    if k in s.slots { LastIsThere(s.log, k); }
    forall i | 0 <= i < |s.log| && s.log[i].slot == k
      ensures k in s.slots && s.log[i].time + Width(s.intervals, k) <= s.slots[k]
    {
      LastIsLatest(s.log, i);
    }
  }

  lemma {:induction false} AlwaysInBucket(s0: State, actions: seq<Action>)
    requires s0 == Initial(s0.intervals, s0.now) && Current(s0, actions)
    ensures InBucket(After(s0, actions)) && After(s0, actions).intervals == s0.intervals
    decreases |actions|
  {
    if actions != [] { AlwaysInBucket(s0, actions[..|actions| - 1]); }
  }

  /** At most one dispatch per (type, monitor, region, bucket), across any number of schedulers. */
  lemma OneDispatchPerBucket(s0: State, actions: seq<Action>, i: nat, j: nat)
    requires s0 == Initial(s0.intervals, s0.now) && RedisUp(actions) && Current(s0, actions)
    requires i < j < |After(s0, actions).log|
    ensures After(s0, actions).log[i].slot != After(s0, actions).log[j].slot
  {
    AlwaysSlotsSafe(s0, actions);
    AlwaysInBucket(s0, actions);
  }

  ghost predicate DistinctSlots(log: seq<Dispatch>) {
    forall i, j :: 0 <= i < j < |log| ==> log[i].slot != log[j].slot
  }

  /** The claim runs a TTL or more after the latest dispatch of its slot. */
  predicate ClaimsAgain(s: State, a: Action) {
    && a.ClaimNext? && Due(s, a.scheduler)
    && var k := s.pending[a.scheduler][0];
       LastDispatch(s.log, k).Some? && LastDispatch(s.log, k).value + Width(s.intervals, k) <= s.now
  }

  lemma {:induction false} NotDispatchedYet(log: seq<Dispatch>, k: Slot)
    requires LastDispatch(log, k).None?
    ensures forall i :: 0 <= i < |log| ==> log[i].slot != k
    decreases |log|
  {
    if log != [] { NotDispatchedYet(log[..|log| - 1], k); }
  }

  lemma ClaimKeepsDistinctIff(s: State, a: Action)
    requires SlotsSafe(s) && DistinctSlots(s.log) && (a.ClaimNext? ==> a.redisUp)
    ensures DistinctSlots(Apply(s, a).log) <==> !ClaimsAgain(s, a)
  {
    if a.ClaimNext? && Due(s, a.scheduler) {
      var k := s.pending[a.scheduler][0];
      if LastDispatch(s.log, k).None? {
        NotDispatchedYet(s.log, k);
      } else if ClaimsAgain(s, a) {
        LastIsThere(s.log, k);
        var i :| 0 <= i < |s.log| && s.log[i] == Dispatch(k, LastDispatch(s.log, k).value);
        assert Apply(s, a).log[i].slot == Apply(s, a).log[|s.log|].slot;
      }
    }
  }

  lemma LogGrows(s: State, a: Action)
    ensures s.log <= Apply(s, a).log
  {
  }

  lemma NextState(s0: State, actions: seq<Action>, n: nat)
    requires n < |actions|
    ensures After(s0, actions[..n + 1]) == Apply(After(s0, actions[..n]), actions[n])
  {
    assert actions[..n + 1][..n] == actions[..n];
  }

  lemma DistinctNext(s0: State, actions: seq<Action>, n: nat)
    requires n < |actions| && s0 == Initial(s0.intervals, s0.now) && RedisUp(actions)
    ensures DistinctSlots(After(s0, actions[..n + 1]).log)
       <==> DistinctSlots(After(s0, actions[..n]).log) && !ClaimsAgain(After(s0, actions[..n]), actions[n])
  {
    var s, a := After(s0, actions[..n]), actions[n];
    NextState(s0, actions, n);
    AlwaysSlotsSafe(s0, actions[..n]);
    LogGrows(s, a);
    if DistinctSlots(s.log) { ClaimKeepsDistinctIff(s, a); } else { StaysRepeated(s.log, Apply(s, a).log); }
  }

  /** None of the first `n` actions claims a dispatched slot a TTL later. */
  ghost predicate NoneAgain(s0: State, actions: seq<Action>, n: nat)
    requires n <= |actions|
  {
    forall i :: 0 <= i < n ==> !ClaimsAgain(After(s0, actions[..i]), actions[i])
  }

  lemma NoneAgainNext(s0: State, actions: seq<Action>, n: nat)
    requires n < |actions|
    ensures NoneAgain(s0, actions, n + 1) <==> NoneAgain(s0, actions, n) && !ClaimsAgain(After(s0, actions[..n]), actions[n])
  {
  }

  ghost predicate DistinctIffNoneAgain(s0: State, actions: seq<Action>, n: nat)
    requires n <= |actions|
  {
    DistinctSlots(After(s0, actions[..n]).log) <==> NoneAgain(s0, actions, n)
  }

  lemma DistinctIffNext(s0: State, actions: seq<Action>, n: nat)
    requires n < |actions| && s0 == Initial(s0.intervals, s0.now) && RedisUp(actions) && DistinctIffNoneAgain(s0, actions, n)
    ensures DistinctIffNoneAgain(s0, actions, n + 1)
  {
    DistinctNext(s0, actions, n);
    NoneAgainNext(s0, actions, n);
  }

  lemma {:induction false} DistinctUpTo(s0: State, actions: seq<Action>, n: nat)
    requires n <= |actions| && s0 == Initial(s0.intervals, s0.now) && RedisUp(actions)
    ensures DistinctIffNoneAgain(s0, actions, n)
    decreases n
  {
    if n > 0 {
      DistinctUpTo(s0, actions, n - 1);
      DistinctIffNext(s0, actions, n - 1);
    }
  }

  lemma StaysRepeated(a: seq<Dispatch>, b: seq<Dispatch>)
    requires a <= b && !DistinctSlots(a)
    ensures !DistinctSlots(b)
  {
    var i, j :| 0 <= i < j < |a| && a[i].slot == a[j].slot;
    assert b[i] == a[i] && b[j] == a[j];
  }

  /** With Redis up, some slot is dispatched twice exactly if some claim of it runs a TTL or more after its latest dispatch. */
  lemma DispatchedOnceIff(s0: State, actions: seq<Action>)
    requires s0 == Initial(s0.intervals, s0.now) && RedisUp(actions)
    ensures DistinctSlots(After(s0, actions).log) <==> NoneAgain(s0, actions, |actions|)
  {
    DistinctUpTo(s0, actions, |actions|);
    assert actions[..|actions|] == actions;
  }

  // ------------------------------------------------------------ windows

  /** The dispatch times of one monitor in one region, in order. */
  function TimesOf(log: seq<Dispatch>, kind: string, id: int, region: int): seq<int>
    decreases |log|
  {
    if log == [] then [] else
      var before, d := TimesOf(log[..|log| - 1], kind, id, region), log[|log| - 1];
      if d.slot.kind == kind && d.slot.id == id && d.slot.region == region then before + [d.time] else before
  }

  ghost predicate BucketsClimb(times: seq<int>, width: int)
    requires width > 0
  {
    forall i, j :: 0 <= i < j < |times| ==> times[i] / width < times[j] / width
  }

  /** Each time in the extracted history comes from one log entry. */
  lemma {:induction false} TimeFromLog(log: seq<Dispatch>, kind: string, id: int, region: int, t: int)
    requires t in TimesOf(log, kind, id, region)
    ensures exists i :: 0 <= i < |log| && log[i].time == t
              && log[i].slot.kind == kind && log[i].slot.id == id && log[i].slot.region == region
    decreases |log|
  {
    var n := |log| - 1;
    if t in TimesOf(log[..n], kind, id, region) {
      TimeFromLog(log[..n], kind, id, region, t);
      var i :| 0 <= i < n && log[..n][i].time == t
               && log[..n][i].slot.kind == kind && log[..n][i].slot.id == id && log[..n][i].slot.region == region;
      assert log[i].time == t;
    } else {
      assert log[n].time == t;
    }
  }

  ghost predicate TimesInBuckets(log: seq<Dispatch>, kind: string, id: int, width: int)
    requires width > 0
  {
    && (forall i, j :: 0 <= i < j < |log| ==> log[i].time <= log[j].time)
    && (forall i :: 0 <= i < |log| && log[i].slot.kind == kind && log[i].slot.id == id ==> log[i].time / width == log[i].slot.bucket)
  }

  lemma {:induction false} ClimbingBuckets(log: seq<Dispatch>, kind: string, id: int, region: int, width: int)
    requires width > 0 && DistinctSlots(log) && TimesInBuckets(log, kind, id, width)
    ensures BucketsClimb(TimesOf(log, kind, id, region), width)
    decreases |log|
  {
    if log != [] {
      var n := |log| - 1;
      ClimbingBuckets(log[..n], kind, id, region, width);
      var before, d := TimesOf(log[..n], kind, id, region), log[n];
      if d.slot.kind == kind && d.slot.id == id && d.slot.region == region {
        forall i | 0 <= i < |before| ensures before[i] / width < d.time / width {
          TimeFromLog(log[..n], kind, id, region, before[i]);
          var m :| 0 <= m < n && log[..n][m].time == before[i]
                   && log[..n][m].slot.kind == kind && log[..n][m].slot.id == id && log[..n][m].slot.region == region;
          assert log[m].slot != log[n].slot;
          DivMonotone(log[m].time, log[n].time, width);
        }
      }
    }
  }

  lemma {:induction false} BucketGap(times: seq<int>, width: int, i: nat, j: nat)
    requires width > 0 && BucketsClimb(times, width) && i <= j < |times|
    ensures times[j] / width - times[i] / width >= j - i
    decreases j
  {
    if i < j { BucketGap(times, width, i, j - 1); }
  }

  lemma DispatchesInBuckets(s0: State, actions: seq<Action>, kind: string, id: int)
    requires s0 == Initial(s0.intervals, s0.now) && RedisUp(actions) && Current(s0, actions)
    requires (kind, id) in s0.intervals
    ensures DistinctSlots(After(s0, actions).log)
    ensures TimesInBuckets(After(s0, actions).log, kind, id, Ttl(s0.intervals[(kind, id)]))
  {
    AlwaysSlotsSafe(s0, actions);
    AlwaysInBucket(s0, actions);
    var s, width := After(s0, actions), Ttl(s0.intervals[(kind, id)]);
    forall m, n | 0 <= m < n < |s.log| ensures s.log[m].slot != s.log[n].slot {
      OneDispatchPerBucket(s0, actions, m, n);
    }
    forall m | 0 <= m < |s.log| && s.log[m].slot.kind == kind && s.log[m].slot.id == id
      ensures s.log[m].time / width == s.log[m].slot.bucket
    {
      BucketOf(s.log[m].time, s.log[m].slot.bucket, width);
    }
  }

  /**
   A window of k intervals holds at most k + 1 dispatches of a monitor in a region: any two
   of them inside it, the i-th and the j-th, are at most k apart in the dispatch order.
   No age check is used, so this holds for browser projects whose last run never moves.
   */
  lemma WindowHoldsAtMostOneMore(s0: State, actions: seq<Action>, kind: string, id: int, region: int,
                                 k: nat, start: int, i: nat, j: nat)
    requires s0 == Initial(s0.intervals, s0.now) && RedisUp(actions) && Current(s0, actions)
    requires (kind, id) in s0.intervals
    requires var times := TimesOf(After(s0, actions).log, kind, id, region);
             i <= j < |times| && start <= times[i] && times[j] < start + k * Ttl(s0.intervals[(kind, id)])
    ensures j - i + 1 <= k + 1
  {
    DispatchesInBuckets(s0, actions, kind, id);
    var s, width := After(s0, actions), Ttl(s0.intervals[(kind, id)]);
    ClimbingBuckets(s.log, kind, id, region, width);
    var times := TimesOf(s.log, kind, id, region);
    BucketGap(times, width, i, j);
    BucketStep(times[i], times[j], k, width);
  }

  // ------------------------------------------------------------ why the claim must be current

  lemma {:induction false} AppliedLast(s0: State, actions: seq<Action>, a: Action)
    ensures After(s0, actions + [a]) == Apply(After(s0, actions), a)
  {
    assert (actions + [a])[..|actions|] == actions;
  }

  /** Two schedulers prepare the same bucket; the second claim is held up for a whole TTL. */
  function HeldUp(): seq<Action> {
    [] + [Prepare(1, "url", 7, [None])] + [Prepare(2, "url", 7, [None])] + [ClaimNext(1, true)] + [Wait(60000)]
  }

  /** Currency is needed: the bucket's slot expires and the late claim dispatches it again. */
  lemma LateClaimDispatchesTwice()
    ensures var s0, c := Initial(map[("url", 7) := 60], 1000), HeldUp() + [ClaimNext(2, true)];
            && RedisUp(c) && !Current(s0, c)
            && |After(s0, c).log| == 2 && After(s0, c).log[0].slot == After(s0, c).log[1].slot
  {
    var s0, c, last := Initial(map[("url", 7) := 60], 1000), HeldUp(), ClaimNext(2, true);
    var p1, p2, c1, w := Prepare(1, "url", 7, [None]), Prepare(2, "url", 7, [None]), ClaimNext(1, true), Wait(60000);
    AppliedLast(s0, [], p1);
    AppliedLast(s0, [] + [p1], p2);
    AppliedLast(s0, [] + [p1] + [p2], c1);
    AppliedLast(s0, [] + [p1] + [p2] + [c1], w);
    AppliedLast(s0, c, last);
    var k, s2, s4 := Slot("url", 7, 0, 0), After(s0, [] + [p1] + [p2]), After(s0, c);
    assert s2.pending[1] == [k] && s2.pending[2] == [k];
    assert s4.slots == map[k := 61000] && s4.now == 61000 && s4.pending[2] == [k];
    assert !IsCurrent(s4, last);
    assert (c + [last])[..|c|] == c;
  }
}
