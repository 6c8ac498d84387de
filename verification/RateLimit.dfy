/**
 The login rate limiter: one counted window per key, in a map bounded by dropping its
 oldest key.
 */
module RateLimit {
  import opened Options
  import opened Sets

  const LIMIT: nat := 10
  const WINDOW_MS := 60_000
  const CACHE_MAX: nat := 2048

  datatype Bucket = Bucket(key: string, count: nat, resetAt: int)

  /** A JavaScript Map, in insertion order. */
  type Buckets = seq<Bucket>

  function Find(b: Buckets, key: string): (n: nat)
    ensures n <= |b|
    ensures n < |b| ==> b[n].key == key
    ensures forall i :: 0 <= i < n ==> b[i].key != key
  {
    if b == [] || b[0].key == key then 0 else Find(b[1..], key) + 1
  }

  predicate Distinct(b: Buckets) {
    forall i, j :: 0 <= i < j < |b| ==> b[i].key != b[j].key
  }

  /** Setting an existing key keeps its place. */
  function Set(b: Buckets, e: Bucket): Buckets {
    var n := Find(b, e.key);
    if n < |b| then b[n := e] else b + [e]
  }

  /** The key has a window that is not over: one ends after its last millisecond. */
  predicate Open(b: Buckets, key: string, now: int) {
    Find(b, key) < |b| && b[Find(b, key)].resetAt >= now
  }

  /** A full map drops its oldest key, unless that is the empty string, which is falsy. */
  function Room(b: Buckets): Buckets {
    if |b| >= CACHE_MAX && b[0].key != "" then b[1..] else b
  }

  function Opened(b: Buckets, key: string, now: int): Buckets {
    Set(Room(b), Bucket(key, 1, now + WINDOW_MS))
  }

  predicate Allows(b: Buckets, key: string, now: int) {
    Open(b, key, now) ==> b[Find(b, key)].count < LIMIT
  }

  function Counted(b: Buckets, key: string, now: int): Buckets {
    if !Open(b, key, now) then Opened(b, key, now)
    else if Allows(b, key, now) then
      var n := Find(b, key);
      b[n := b[n].(count := b[n].count + 1)]
    else b
  }

  class Limiter {
    var buckets: Buckets

    constructor ()
      ensures buckets == []
    {
      buckets := [];
    }

    method RateAllow(key: string, now: int) returns (allowed: bool)
      modifies this
      ensures allowed == Allows(old(buckets), key, now)
      ensures buckets == Counted(old(buckets), key, now)
    {
      var n := Find(buckets, key);
      if n == |buckets| || buckets[n].resetAt < now {
        if |buckets| >= CACHE_MAX {
          var oldest := buckets[0].key;
          if oldest != "" { buckets := buckets[1..]; }
        }
        buckets := Set(buckets, Bucket(key, 1, now + WINDOW_MS));
        return true;
      }
      if buckets[n].count >= LIMIT { return false; }
      buckets := buckets[n := buckets[n].(count := buckets[n].count + 1)];
      return true;
    }
  }

  // ------------------------------------------------------------ runs

  datatype Attempt = Attempt(key: string, at: int)

  predicate InOrder(attempts: seq<Attempt>) {
    forall i, j :: 0 <= i < j < |attempts| ==> attempts[i].at <= attempts[j].at
  }

  function After(attempts: seq<Attempt>): Buckets
    decreases |attempts|
  {
    if attempts == [] then [] else
      var last := attempts[|attempts| - 1];
      Counted(After(attempts[..|attempts| - 1]), last.key, last.at)
  }

  /** An accepted attempt, with the start of the window it was counted in. */
  datatype Accepted = Accepted(at: int, window: int)

  function WindowOf(b: Buckets, key: string, now: int): int {
    if Open(b, key, now) then b[Find(b, key)].resetAt - WINDOW_MS else now
  }

  /** The accepted attempts of one key, in order. */
  function AcceptedOf(attempts: seq<Attempt>, key: string): seq<Accepted>
    decreases |attempts|
  {
    if attempts == [] then [] else
      var init, last := attempts[..|attempts| - 1], attempts[|attempts| - 1];
      AcceptedOf(init, key) +
      if last.key == key && Allows(After(init), key, last.at) then [Accepted(last.at, WindowOf(After(init), key, last.at))] else []
  }

  lemma SetStaysBounded(b: Buckets, e: Bucket)
    requires Distinct(b)
    ensures Distinct(Set(b, e)) && |Set(b, e)| <= |b| + 1
    ensures Find(b, e.key) < |b| ==> |Set(b, e)| == |b|
  {
  }

  /** Keys are distinct, and only an empty oldest key lets the map past its bound. */
  ghost predicate Orderly(b: Buckets) {
    Distinct(b) && (|b| > CACHE_MAX ==> b[0].key == "")
  }

  lemma CountedStaysOrderly(b: Buckets, key: string, now: int)
    requires Orderly(b)
    ensures Orderly(Counted(b, key, now))
  {
    if Open(b, key, now) {
      var n := Find(b, key);
      SetStaysBounded(b, b[n].(count := b[n].count + 1));
    } else {
      SetStaysBounded(Room(b), Bucket(key, 1, now + WINDOW_MS));
    }
  }

  lemma {:induction false} AlwaysOrderly(attempts: seq<Attempt>)
    ensures Orderly(After(attempts))
    decreases |attempts|
  {
    if attempts != [] {
      var last := attempts[|attempts| - 1];
      AlwaysOrderly(attempts[..|attempts| - 1]);
      CountedStaysOrderly(After(attempts[..|attempts| - 1]), last.key, last.at);
    }
  }

  // ------------------------------------------------------------ the bound

  /** A new key is opened in a full map whose oldest key is the empty string. */
  predicate Overflows(b: Buckets, key: string) {
    |b| >= CACHE_MAX && b[0].key == "" && Find(b, key) == |b|
  }

  lemma StaysBoundedIff(b: Buckets, key: string, now: int)
    requires Distinct(b) && |b| <= CACHE_MAX
    ensures |Counted(b, key, now)| <= CACHE_MAX <==> !Overflows(b, key)
  {
    if !Open(b, key, now) { SetStaysBounded(Room(b), Bucket(key, 1, now + WINDOW_MS)); }
  }

  lemma NextAttempt(attempts: seq<Attempt>, n: nat)
    requires n < |attempts|
    ensures After(attempts[..n + 1]) == Counted(After(attempts[..n]), attempts[n].key, attempts[n].at)
  {
    assert attempts[..n + 1][..n] == attempts[..n];
  }

  predicate Bounded(b: Buckets) {
    |b| <= CACHE_MAX
  }

  lemma {:induction false} BoundedUpTo(attempts: seq<Attempt>, n: nat)
    requires n <= |attempts| && forall i :: 0 <= i < n ==> !Overflows(After(attempts[..i]), attempts[i].key)
    ensures Bounded(After(attempts[..n]))
    decreases n
  {
    if n > 0 {
      BoundedUpTo(attempts, n - 1);
      AlwaysOrderly(attempts[..n - 1]);
      NextAttempt(attempts, n - 1);
      StaysBoundedIff(After(attempts[..n - 1]), attempts[n - 1].key, attempts[n - 1].at);
    }
  }

  /** All through a run the map stays within its bound, exactly if no new key is opened in a full map whose oldest key is empty. */
  lemma AlwaysBoundedIff(attempts: seq<Attempt>)
    ensures (forall n :: 0 <= n <= |attempts| ==> Bounded(After(attempts[..n])))
       <==> (forall n :: 0 <= n < |attempts| ==> !Overflows(After(attempts[..n]), attempts[n].key))
  {
    if n :| 0 <= n < |attempts| && Overflows(After(attempts[..n]), attempts[n].key) {
      AlwaysOrderly(attempts[..n]);
      NextAttempt(attempts, n);
      OverflowGrows(After(attempts[..n]), attempts[n].key, attempts[n].at);
      assert !Bounded(After(attempts[..n + 1]));
    } else {
      forall n | 0 <= n <= |attempts| ensures Bounded(After(attempts[..n])) { BoundedUpTo(attempts, n); }
    }
  }

  /** An overflow adds an entry and drops none, and the empty key stays the oldest. */
  lemma OverflowGrows(b: Buckets, key: string, now: int)
    requires Overflows(b, key)
    ensures Counted(b, key, now) == b + [Bucket(key, 1, now + WINDOW_MS)]
  {
  }

  // ------------------------------------------------------------ one key

  function Lookup(b: Buckets, key: string): Option<Bucket> {
    if Find(b, key) < |b| then Some(b[Find(b, key)]) else None
  }

  lemma LookupAt(b: Buckets, key: string, i: nat)
    requires Distinct(b) && i < |b| && b[i].key == key
    ensures Lookup(b, key) == Some(b[i])
  {
  }

  lemma LookupSet(b: Buckets, e: Bucket, key: string)
    requires Distinct(b)
    ensures Distinct(Set(b, e))
    ensures Lookup(Set(b, e), key) == if e.key == key then Some(e) else Lookup(b, key)
  {
    var after := Set(b, e);
    var n := Find(b, key);
    if e.key == key {
      LookupAt(after, key, Find(b, key));
    } else if n < |b| {
      assert after[n] == b[n];
      LookupAt(after, key, n);
    }
  }

  lemma LookupDropped(b: Buckets, key: string)
    requires Distinct(b) && b != []
    ensures Distinct(b[1..]) && Lookup(b[1..], key) == if b[0].key == key then None else Lookup(b, key)
  {
    var n := Find(b, key);
    if b[0].key != key && n < |b| {
      assert b[1..][n - 1] == b[n];
      LookupAt(b[1..], key, n - 1);
    }
  }

  /** The attempt drops this key's bucket before its window is over. */
  predicate Forgets(b: Buckets, a: Attempt, key: string) {
    !Open(b, a.key, a.at) && |b| >= CACHE_MAX && b[0].key == key && key != "" && b[0].resetAt >= a.at
  }

  /** The key's bucket is the oldest of a full map, and may be dropped. */
  predicate IsDroppable(b: Buckets, key: string) {
    |b| >= CACHE_MAX && b[0].key == key && key != ""
  }

  predicate NeverForgets(attempts: seq<Attempt>, key: string)
    decreases |attempts|
  {
    attempts == [] || (NeverForgets(attempts[..|attempts| - 1], key)
                       && !Forgets(After(attempts[..|attempts| - 1]), attempts[|attempts| - 1], key))
  }

  function InWindow(acc: seq<Accepted>, w: int): nat
    decreases |acc|
  {
    if acc == [] then 0 else InWindow(acc[..|acc| - 1], w) + if acc[|acc| - 1].window == w then 1 else 0
  }

  /** Accepted attempts in the minute from `t`, both ends included. */
  function Within(acc: seq<Accepted>, t: int): nat
    decreases |acc|
  {
    if acc == [] then 0 else Within(acc[..|acc| - 1], t) + if t <= acc[|acc| - 1].at <= t + 60_000 then 1 else 0
  }

  predicate BeginsOrGoesOn(acc: seq<Accepted>, i: nat)
    requires i < |acc|
  {
    acc[i].window == acc[i].at || (i > 0 && acc[i].window == acc[i - 1].window)
  }

  /** A window begins with an accepted attempt and lasts a minute; the next begins when it is over. */
  ghost predicate Separate(acc: seq<Accepted>) {
    && (forall i :: 0 <= i < |acc| ==> acc[i].window <= acc[i].at <= acc[i].window + 60_000)
    && (forall i :: 0 <= i < |acc| ==> BeginsOrGoesOn(acc, i))
    && (forall i, j :: 0 <= i < j < |acc| ==> acc[i].window == acc[j].window || acc[i].window + 60_000 < acc[j].window)
  }

  /** And take at most the limit. */
  ghost predicate Windowed(acc: seq<Accepted>) {
    Separate(acc) && forall w :: InWindow(acc, w) <= LIMIT
  }

  /** The key's bucket is its latest window and that window's count; without one, the latest window is over. */
  ghost predicate Tracks(found: Option<Bucket>, acc: seq<Accepted>, now: int) {
    match found
    case None => acc == [] || acc[|acc| - 1].window + WINDOW_MS < now
    case Some(b) =>
      acc != [] && b.resetAt == acc[|acc| - 1].window + WINDOW_MS
      && b.count == InWindow(acc, acc[|acc| - 1].window) && b.count <= LIMIT
  }

  lemma LookupIncremented(b: Buckets, other: string, key: string)
    requires Distinct(b) && other != key && Find(b, other) < |b|
    ensures Lookup(b[Find(b, other) := b[Find(b, other)].(count := b[Find(b, other)].count + 1)], key) == Lookup(b, key)
  {
    var n := Find(b, other);
    LookupSet(b, b[n].(count := b[n].count + 1), key);
  }

  lemma LookupOpened(b: Buckets, other: string, key: string, now: int)
    requires Distinct(b) && other != key
    ensures Lookup(Opened(b, other, now), key) == if IsDroppable(b, key) then None else Lookup(b, key)
  {
    if |b| >= CACHE_MAX && b[0].key != "" { LookupDropped(b, key); }
    LookupSet(Room(b), Bucket(other, 1, now + WINDOW_MS), key);
  }

  /** Another key's attempt keeps or drops this key's bucket. */
  lemma LookupOther(b: Buckets, a: Attempt, key: string)
    requires Distinct(b) && a.key != key
    ensures Lookup(Counted(b, a.key, a.at), key)
         == if !Open(b, a.key, a.at) && IsDroppable(b, key) then None else Lookup(b, key)
  {
    if Open(b, a.key, a.at) { LookupIncremented(b, a.key, key); } else { LookupOpened(b, a.key, key, a.at); }
  }

  lemma OtherKey(b: Buckets, a: Attempt, key: string, acc: seq<Accepted>, now: int)
    requires Distinct(b) && a.key != key && now <= a.at && !Forgets(b, a, key)
    requires Tracks(Lookup(b, key), acc, now)
    ensures Tracks(Lookup(Counted(b, a.key, a.at), key), acc, a.at)
  {
    LookupOther(b, a, key);
  }

  lemma OneMore(acc: seq<Accepted>, x: Accepted)
    ensures forall w :: InWindow(acc + [x], w) == InWindow(acc, w) + if x.window == w then 1 else 0
  {
    assert (acc + [x])[..|acc|] == acc;
  }

  lemma {:induction false} NoneYet(acc: seq<Accepted>, w: int)
    requires forall i :: 0 <= i < |acc| ==> acc[i].window != w
    ensures InWindow(acc, w) == 0
    decreases |acc|
  {
    if acc != [] { NoneYet(acc[..|acc| - 1], w); }
  }

  /** The key's own accepted attempt, in its open window. */
  lemma SameWindow(b: Buckets, a: Attempt, acc: seq<Accepted>)
    requires Distinct(b) && Open(b, a.key, a.at) && Allows(b, a.key, a.at)
    requires Windowed(acc) && Tracks(Lookup(b, a.key), acc, a.at) && acc[|acc| - 1].at <= a.at
    ensures var more := acc + [Accepted(a.at, WindowOf(b, a.key, a.at))];
            Windowed(more) && Tracks(Lookup(Counted(b, a.key, a.at), a.key), more, a.at)
  {
    var n := Find(b, a.key);
    LookupSet(b, b[n].(count := b[n].count + 1), a.key);
    OneMore(acc, Accepted(a.at, WindowOf(b, a.key, a.at)));
    SeparateStill(acc, a.at);
  }

  lemma SeparateStill(acc: seq<Accepted>, now: int)
    requires Separate(acc) && acc != [] && acc[|acc| - 1].window <= now <= acc[|acc| - 1].window + 60_000
    ensures Separate(acc + [Accepted(now, acc[|acc| - 1].window)])
  {
    var more := acc + [Accepted(now, acc[|acc| - 1].window)];
    forall i | 0 <= i < |more| ensures BeginsOrGoesOn(more, i) {
      if i < |acc| { assert BeginsOrGoesOn(acc, i); }
    }
    forall i, j | 0 <= i < j < |more| ensures more[i].window == more[j].window || more[i].window + 60_000 < more[j].window {
      assert more[i] == acc[i] && (j < |acc| ==> more[j] == acc[j]);
    }
  }

  lemma LookupReopened(b: Buckets, key: string, now: int)
    requires Distinct(b)
    ensures Lookup(Opened(b, key, now), key) == Some(Bucket(key, 1, now + WINDOW_MS))
  {
    if |b| >= CACHE_MAX && b[0].key != "" { LookupDropped(b, key); }
    LookupSet(Room(b), Bucket(key, 1, now + WINDOW_MS), key);
  }

  lemma SeparateMore(acc: seq<Accepted>, now: int)
    requires Separate(acc) && forall i :: 0 <= i < |acc| ==> acc[i].window + WINDOW_MS < now
    ensures Separate(acc + [Accepted(now, now)])
  {
    var more := acc + [Accepted(now, now)];
    forall i | 0 <= i < |more| ensures BeginsOrGoesOn(more, i) {
      if i < |acc| { assert BeginsOrGoesOn(acc, i); }
    }
    forall i, j | 0 <= i < j < |more| ensures more[i].window == more[j].window || more[i].window + 60_000 < more[j].window {
      assert more[i] == acc[i] && (j < |acc| ==> more[j] == acc[j]);
    }
  }

  lemma WindowedMore(acc: seq<Accepted>, now: int)
    requires Windowed(acc) && forall i :: 0 <= i < |acc| ==> acc[i].window + WINDOW_MS < now
    ensures Windowed(acc + [Accepted(now, now)]) && InWindow(acc + [Accepted(now, now)], now) == 1
  {
    var more := acc + [Accepted(now, now)];
    SeparateMore(acc, now);
    NoneYet(acc, now);
    forall w ensures InWindow(more, w) == InWindow(acc, w) + if now == w then 1 else 0 { OneMore(acc, Accepted(now, now)); }
  }

  /** Its first attempt in a new window. */
  lemma NewWindow(b: Buckets, a: Attempt, acc: seq<Accepted>)
    requires Distinct(b) && !Open(b, a.key, a.at)
    requires Windowed(acc) && Tracks(Lookup(b, a.key), acc, a.at)
    ensures var more := acc + [Accepted(a.at, a.at)];
            Windowed(more) && Tracks(Lookup(Counted(b, a.key, a.at), a.key), more, a.at)
  {
    LookupReopened(b, a.key, a.at);
    LatestIsOver(acc, a.at);
    WindowedMore(acc, a.at);
  }

  lemma LatestIsOver(acc: seq<Accepted>, now: int)
    requires Windowed(acc) && (acc == [] || acc[|acc| - 1].window + WINDOW_MS < now)
    ensures forall i :: 0 <= i < |acc| ==> acc[i].window + WINDOW_MS < now
  {
  }

  /** What is known of a key after the latest attempt, at `now`. */
  ghost predicate Known(b: Buckets, acc: seq<Accepted>, key: string, now: int) {
    Windowed(acc) && (acc != [] ==> acc[|acc| - 1].at <= now) && Tracks(Lookup(b, key), acc, now)
  }

  function AcceptedAt(b: Buckets, a: Attempt, key: string): seq<Accepted> {
    if a.key == key && Allows(b, key, a.at) then [Accepted(a.at, WindowOf(b, key, a.at))] else []
  }

  /** The key's own attempt. */
  lemma OwnAttempt(b: Buckets, acc: seq<Accepted>, a: Attempt)
    requires Distinct(b) && Known(b, acc, a.key, a.at)
    ensures Known(Counted(b, a.key, a.at), acc + AcceptedAt(b, a, a.key), a.key, a.at)
  {
    if !Open(b, a.key, a.at) {
      NewWindow(b, a, acc);
    } else if Allows(b, a.key, a.at) {
      SameWindow(b, a, acc);
    } else {
      assert acc + [] == acc;
    }
  }

  lemma KnownLater(b: Buckets, acc: seq<Accepted>, key: string, now: int, later: int)
    requires Known(b, acc, key, now) && now <= later
    ensures Known(b, acc, key, later)
  {
  }

  lemma OneAttempt(b: Buckets, acc: seq<Accepted>, a: Attempt, key: string, now: int)
    requires Distinct(b) && Known(b, acc, key, now) && now <= a.at && !Forgets(b, a, key)
    ensures Known(Counted(b, a.key, a.at), acc + AcceptedAt(b, a, key), key, a.at)
  {
    if a.key != key {
      OtherKey(b, a, key, acc, now);
      assert acc + [] == acc;
    } else {
      KnownLater(b, acc, key, now, a.at);
      OwnAttempt(b, acc, a);
    }
  }

  lemma Unroll(attempts: seq<Attempt>, key: string)
    requires attempts != []
    ensures var init, a := attempts[..|attempts| - 1], attempts[|attempts| - 1];
            && After(attempts) == Counted(After(init), a.key, a.at)
            && AcceptedOf(attempts, key) == AcceptedOf(init, key) + AcceptedAt(After(init), a, key)
            && (NeverForgets(attempts, key) <==> NeverForgets(init, key) && !Forgets(After(init), a, key))
  {
  }

  lemma {:induction false} AlwaysWindowed(attempts: seq<Attempt>, key: string)
    requires InOrder(attempts) && NeverForgets(attempts, key) && attempts != []
    ensures Known(After(attempts), AcceptedOf(attempts, key), key, attempts[|attempts| - 1].at)
    decreases |attempts|
  {
    var init, a := attempts[..|attempts| - 1], attempts[|attempts| - 1];
    Unroll(attempts, key);
    AlwaysOrderly(init);
    if init != [] {
      AlwaysWindowed(init, key);
      OneAttempt(After(init), AcceptedOf(init, key), a, key, init[|init| - 1].at);
    } else {
      OneAttempt(After(init), AcceptedOf(init, key), a, key, a.at);
    }
  }

  lemma {:induction false} WithinTwo(acc: seq<Accepted>, t: int, v: int, w: int)
    requires forall i :: 0 <= i < |acc| && t <= acc[i].at <= t + WINDOW_MS ==> acc[i].window == v || acc[i].window == w
    ensures Within(acc, t) <= InWindow(acc, v) + InWindow(acc, w)
    decreases |acc|
  {
    if acc != [] { WithinTwo(acc[..|acc| - 1], t, v, w); }
  }

  /** An interval no longer than a window touches at most two windows. */
  lemma TwoWindows(acc: seq<Accepted>, t: int) returns (v: int, w: int)
    requires Windowed(acc)
    ensures forall i :: 0 <= i < |acc| && t <= acc[i].at <= t + WINDOW_MS ==> acc[i].window == v || acc[i].window == w
  {
    v, w := 0, 0;
    if i :| 0 <= i < |acc| && t <= acc[i].at <= t + WINDOW_MS {
      v, w := acc[i].window, acc[i].window;
      if j :| 0 <= j < |acc| && t <= acc[j].at <= t + WINDOW_MS && acc[j].window != v {
        w := acc[j].window;
      }
    }
  }

  /** While its bucket is not dropped, a key has at most ten accepted attempts a window, so at most twenty in any minute. */
  lemma TwentyAMinute(attempts: seq<Attempt>, key: string, t: int)
    requires InOrder(attempts) && NeverForgets(attempts, key)
    ensures Separate(AcceptedOf(attempts, key)) && forall w :: InWindow(AcceptedOf(attempts, key), w) <= 10
    ensures Within(AcceptedOf(attempts, key), t) <= 20
  {
    if attempts != [] {
      AlwaysWindowed(attempts, key);
      var v, w := TwoWindows(AcceptedOf(attempts, key), t);
      WithinTwo(AcceptedOf(attempts, key), t, v, w);
    }
  }

  /** The latest window, of the accepted attempts `acc`, is still open and full. */
  ghost predicate IsFull(acc: seq<Accepted>, now: int) {
    acc != [] && now <= acc[|acc| - 1].window + 60_000 && InWindow(acc, acc[|acc| - 1].window) == 10
  }

  lemma FullIff(b: Buckets, acc: seq<Accepted>, key: string, now: int)
    requires Tracks(Lookup(b, key), acc, now)
    ensures !Allows(b, key, now) <==> IsFull(acc, now)
  {
  }

  /**
   An attempt is refused exactly when ten were accepted in the latest window and that window,
   a minute from its first attempt, is not over.
   */
  lemma RefusedIffFull(attempts: seq<Attempt>, key: string, now: int)
    requires InOrder(attempts) && (attempts != [] ==> attempts[|attempts| - 1].at <= now) && NeverForgets(attempts, key)
    ensures !Allows(After(attempts), key, now) <==> IsFull(AcceptedOf(attempts, key), now)
  {
    if attempts != [] {
      AlwaysWindowed(attempts, key);
      KnownLater(After(attempts), AcceptedOf(attempts, key), key, attempts[|attempts| - 1].at, now);
    }
    FullIff(After(attempts), AcceptedOf(attempts, key), key, now);
  }

  // ------------------------------------------------------------ too few keys to forget

  function KeysOf(attempts: seq<Attempt>): set<string> {
    set i | 0 <= i < |attempts| :: attempts[i].key
  }

  function BucketKeys(b: Buckets): set<string> {
    set i | 0 <= i < |b| :: b[i].key
  }

  lemma {:induction false} DistinctSize(b: Buckets)
    requires Distinct(b)
    ensures |BucketKeys(b)| == |b|
    decreases |b|
  {
    if b != [] {
      var init := b[..|b| - 1];
      DistinctSize(init);
      assert BucketKeys(b) == BucketKeys(init) + {b[|b| - 1].key};
    }
  }

  lemma CountedKeys(b: Buckets, key: string, now: int, keys: set<string>)
    requires BucketKeys(b) <= keys && key in keys
    ensures BucketKeys(Counted(b, key, now)) <= keys
  {
    assert forall i :: 0 <= i < |b| ==> b[i].key in BucketKeys(b);
    forall i | 0 <= i < |Counted(b, key, now)| ensures Counted(b, key, now)[i].key in keys { }
  }

  lemma KeysOfLast(attempts: seq<Attempt>)
    requires attempts != []
    ensures KeysOf(attempts) == KeysOf(attempts[..|attempts| - 1]) + {attempts[|attempts| - 1].key}
  {
  }

  lemma {:induction false} OnlyAttemptedKeys(attempts: seq<Attempt>)
    ensures BucketKeys(After(attempts)) <= KeysOf(attempts)
    decreases |attempts|
  {
    if attempts != [] {
      OnlyAttemptedKeys(attempts[..|attempts| - 1]);
      KeysOfLast(attempts);
      var a := attempts[|attempts| - 1];
      CountedKeys(After(attempts[..|attempts| - 1]), a.key, a.at, KeysOf(attempts));
    }
  }

  /** With fewer keys than the map holds, nothing is ever dropped. */
  lemma {:induction false} FewKeysAreRemembered(attempts: seq<Attempt>, key: string)
    requires |KeysOf(attempts)| < CACHE_MAX
    ensures NeverForgets(attempts, key)
    decreases |attempts|
  {
    if attempts != [] {
      var init := attempts[..|attempts| - 1];
      KeysOfLast(attempts);
      SubsetSize(KeysOf(init), KeysOf(attempts));
      FewKeysAreRemembered(init, key);
      OnlyAttemptedKeys(init);
      AlwaysOrderly(init);
      DistinctSize(After(init));
      SubsetSize(BucketKeys(After(init)), KeysOf(attempts));
    }
  }

  // ------------------------------------------------------------ when a window is forgotten

  /** An attempt drops a key's open window exactly if it needs a new bucket in a full map where this key's is the oldest, and not empty. */
  lemma DroppedIff(b: Buckets, a: Attempt, key: string)
    requires Distinct(b) && Open(b, key, a.at)
    ensures Lookup(Counted(b, a.key, a.at), key).None? <==> Forgets(b, a, key)
  {
    if a.key == key {
      var n := Find(b, key);
      LookupSet(b, b[n].(count := b[n].count + 1), key);
    } else {
      LookupOther(b, a, key);
      if b[0].key == key { LookupAt(b, key, 0); }
    }
  }

  /** The empty key is never forgotten. */
  lemma {:induction false} EmptyKeyIsRemembered(attempts: seq<Attempt>)
    ensures NeverForgets(attempts, "")
    decreases |attempts|
  {
    if attempts != [] { EmptyKeyIsRemembered(attempts[..|attempts| - 1]); }
  }

  /** Each of these keys tries once, at the same moment. */
  function Flood(keys: seq<string>, now: int): seq<Attempt> {
    seq(|keys|, i requires 0 <= i < |keys| => Attempt(keys[i], now))
  }

  function FirstBuckets(keys: seq<string>, now: int): Buckets {
    seq(|keys|, i requires 0 <= i < |keys| => Bucket(keys[i], 1, now + WINDOW_MS))
  }

  /** How many of these keys in a row a full map drops: those over the bound, but none from an empty one on. */
  function Excess(b: Buckets): (n: nat)
    ensures n <= |b|
  {
    var over := if |b| > CACHE_MAX then |b| - CACHE_MAX else 0;
    if Find(b, "") < over then Find(b, "") else over
  }

  function Newest(b: Buckets): Buckets {
    b[Excess(b)..]
  }

  predicate AllNew(b: Buckets, keys: seq<string>) {
    && (forall i, j :: 0 <= i < j < |keys| ==> keys[i] != keys[j])
    && (forall i, j :: 0 <= i < |keys| && 0 <= j < |b| ==> keys[i] != b[j].key)
  }

  lemma Absent(b: Buckets, key: string)
    requires forall i :: 0 <= i < |b| ==> b[i].key != key
    ensures Find(b, key) == |b|
  {
  }

  lemma OneNewKey(b: Buckets, key: string, now: int)
    requires forall i :: 0 <= i < |b| ==> b[i].key != key
    ensures Counted(b, key, now) == Room(b) + [Bucket(key, 1, now + WINDOW_MS)]
  {
    Absent(b, key);
    Absent(Room(b), key);
  }

  lemma FindAppended(b: Buckets, e: Bucket, key: string)
    ensures Find(b + [e], key) == if Find(b, key) < |b| then Find(b, key) else if e.key == key then |b| else |b| + 1
  {
    FindIs(b + [e], key, if Find(b, key) < |b| then Find(b, key) else if e.key == key then |b| else |b| + 1);
  }

  lemma FindIs(b: Buckets, key: string, n: nat)
    requires n <= |b| && (n < |b| ==> b[n].key == key) && forall i :: 0 <= i < n ==> b[i].key != key
    ensures Find(b, key) == n
  {
  }

  /** Dropping as entries come is dropping at the end. */
  lemma NewestAgain(b: Buckets, e: Bucket)
    ensures Room(Newest(b)) + [e] == Newest(b + [e])
  {
    FindAppended(b, e, "");
    var n, m := Excess(b), Excess(b + [e]);
    assert Newest(b) != [] ==> Newest(b)[0] == b[n];
    if |Newest(b)| >= CACHE_MAX && Newest(b)[0].key != "" {
      assert m == n + 1;
      assert b[n..][1..] == b[n + 1..];
    } else {
      assert m == n;
    }
  }

  lemma FloodNext(attempts: seq<Attempt>, keys: seq<string>, now: int)
    requires keys != []
    ensures var init, last := keys[..|keys| - 1], keys[|keys| - 1];
            && attempts + Flood(keys, now) == (attempts + Flood(init, now)) + [Attempt(last, now)]
            && FirstBuckets(keys, now) == FirstBuckets(init, now) + [Bucket(last, 1, now + WINDOW_MS)]
  {
  }

  lemma NextNewKey(b: Buckets, keys: seq<string>, now: int)
    requires keys != [] && AllNew(b, keys)
    ensures var init, last := keys[..|keys| - 1], keys[|keys| - 1];
            Counted(Newest(b + FirstBuckets(init, now)), last, now) == Newest(b + FirstBuckets(keys, now))
  {
    var init, last := keys[..|keys| - 1], keys[|keys| - 1];
    var all, e := b + FirstBuckets(init, now), Bucket(last, 1, now + WINDOW_MS);
    assert forall i :: 0 <= i < |all| ==> all[i].key != last;
    OneNewKey(Newest(all), last, now);
    NewestAgain(all, e);
    FloodNext([], keys, now);
    assert b + FirstBuckets(keys, now) == all + [e];
  }

  /** A flood of new keys pushes out the oldest buckets, one for each key over the bound, as far as the empty key. */
  lemma {:induction false} AfterFlood(attempts: seq<Attempt>, keys: seq<string>, now: int)
    requires AllNew(After(attempts), keys)
    ensures After(attempts + Flood(keys, now)) == Newest(After(attempts) + FirstBuckets(keys, now))
    decreases |keys|
  {
    if keys == [] {
      AlwaysOrderly(attempts);
      assert attempts + Flood(keys, now) == attempts && After(attempts) + FirstBuckets(keys, now) == After(attempts);
    } else {
      AfterFlood(attempts, keys[..|keys| - 1], now);
      FloodNext(attempts, keys, now);
      NextNewKey(After(attempts), keys, now);
    }
  }

  predicate NoneEmpty(b: Buckets) {
    forall i :: 0 <= i < |b| ==> b[i].key != ""
  }

  /** As many new keys as the map holds leave no bucket of before, if no key is empty. */
  lemma FloodForgets(attempts: seq<Attempt>, keys: seq<string>, now: int, key: string)
    requires |keys| == CACHE_MAX && AllNew(After(attempts), keys) && key !in keys
    requires NoneEmpty(After(attempts)) && "" !in keys
    ensures Find(After(attempts + Flood(keys, now)), key) == |After(attempts + Flood(keys, now))|
  {
    var b, firsts := After(attempts), FirstBuckets(keys, now);
    AfterFlood(attempts, keys, now);
    var all: Buckets := b + firsts;
    assert forall i :: 0 <= i < |firsts| ==> firsts[i].key == keys[i];
    assert NoneEmpty(all);
    Absent(all, "");
    assert Newest(all) == firsts;
    Absent(firsts, key);
  }

  /** No attempt of the flood is the key's own. */
  lemma {:induction false} FloodAccepts(attempts: seq<Attempt>, keys: seq<string>, now: int, key: string)
    requires key !in keys
    ensures AcceptedOf(attempts + Flood(keys, now), key) == AcceptedOf(attempts, key)
    decreases |keys|
  {
    if keys == [] {
      assert attempts + Flood(keys, now) == attempts;
    } else {
      FloodAccepts(attempts, keys[..|keys| - 1], now, key);
      FloodNext(attempts, keys, now);
    }
  }

  lemma AcceptedAppend(attempts: seq<Attempt>, a: Attempt, key: string)
    ensures AcceptedOf(attempts + [a], key) == AcceptedOf(attempts, key) + AcceptedAt(After(attempts), a, key)
  {
    assert (attempts + [a])[..|attempts|] == attempts;
  }

  /** The key tries as often as one window allows, all at once. */
  function Burst(key: string, now: int, n: nat): seq<Attempt> {
    seq(n, i => Attempt(key, now))
  }

  /** What a burst of `n` leaves. */
  ghost predicate Bursted(attempts: seq<Attempt>, key: string, now: int, n: nat) {
    && After(attempts) == (if n == 0 then [] else [Bucket(key, n, now + WINDOW_MS)])
    && InWindow(AcceptedOf(attempts, key), now) == n
  }

  lemma BurstNext(attempts: seq<Attempt>, key: string, now: int, n: nat)
    requires n < LIMIT && Bursted(attempts, key, now, n)
    ensures Bursted(attempts + [Attempt(key, now)], key, now, n + 1)
  {
    AcceptedAppend(attempts, Attempt(key, now), key);
    BurstStep(key, now, n);
    OneMore(AcceptedOf(attempts, key), Accepted(now, now));
  }

  lemma {:induction false} BurstAccepted(key: string, now: int, n: nat)
    requires n <= LIMIT
    ensures Bursted(Burst(key, now, n), key, now, n)
    decreases n
  {
    if n > 0 {
      BurstAccepted(key, now, n - 1);
      BurstNext(Burst(key, now, n - 1), key, now, n - 1);
      assert Burst(key, now, n) == Burst(key, now, n - 1) + [Attempt(key, now)];
    }
  }

  lemma BurstStep(key: string, now: int, n: nat)
    requires n < LIMIT
    ensures var b := if n == 0 then [] else [Bucket(key, n, now + WINDOW_MS)];
            && Counted(b, key, now) == [Bucket(key, n + 1, now + WINDOW_MS)]
            && AcceptedAt(b, Attempt(key, now), key) == [Accepted(now, now)]
  {
  }

  /** Keys that differ in length from each other and from the given one. */
  function Longer(key: string, n: nat): seq<string> {
    seq(n, i requires 0 <= i < n => seq(|key| + 1 + i, _ => 'x'))
  }

  /** After a flood that forgets the key, its next attempt is accepted, in a window that starts now. */
  lemma ForgottenIsAccepted(attempts: seq<Attempt>, keys: seq<string>, now: int, key: string)
    requires |keys| == CACHE_MAX && AllNew(After(attempts), keys) && key !in keys
    requires NoneEmpty(After(attempts)) && "" !in keys
    ensures AcceptedOf(attempts + Flood(keys, now) + [Attempt(key, now)], key)
         == AcceptedOf(attempts, key) + [Accepted(now, now)]
  {
    FloodForgets(attempts, keys, now, key);
    FloodAccepts(attempts, keys, now, key);
    AcceptedAppend(attempts + Flood(keys, now), Attempt(key, now), key);
  }

  lemma LongerAreNew(key: string, now: int, b: Buckets)
    requires forall i :: 0 <= i < |b| ==> b[i].key == key
    ensures var keys := Longer(key, CACHE_MAX);
            |keys| == CACHE_MAX && AllNew(b, keys) && key !in keys && "" !in keys
  {
    var keys := Longer(key, CACHE_MAX);
    assert forall i :: 0 <= i < |keys| ==> |keys[i]| == |key| + 1 + i;
  }

  function Reopening(key: string, keys: seq<string>, now: int): seq<Attempt> {
    Burst(key, now, LIMIT) + Flood(keys, now) + [Attempt(key, now)]
  }

  lemma AllAtOnce(key: string, keys: seq<string>, now: int)
    ensures InOrder(Reopening(key, keys, now))
  {
    var attempts := Reopening(key, keys, now);
    assert forall i :: 0 <= i < |attempts| ==> attempts[i].at == now;
  }

  lemma ElevenInAWindow(key: string, keys: seq<string>, now: int)
    requires |keys| == CACHE_MAX && AllNew(After(Burst(key, now, LIMIT)), keys) && key !in keys
    requires key != "" && "" !in keys
    ensures InWindow(AcceptedOf(Reopening(key, keys, now), key), now) == LIMIT + 1
  {
    BurstAccepted(key, now, LIMIT);
    ForgottenIsAccepted(Burst(key, now, LIMIT), keys, now, key);
    OneMore(AcceptedOf(Burst(key, now, LIMIT), key), Accepted(now, now));
  }

  /**
   The bound needs its condition: for every key but the empty one, ten attempts, a flood of as
   many other keys as the map holds, and an eleventh attempt is accepted in the same window.
   */
  lemma FloodReopensTheWindow(key: string, now: int) returns (keys: seq<string>)
    requires key != ""
    ensures InOrder(Reopening(key, keys, now)) && |KeysOf(Reopening(key, keys, now))| == 2049
    ensures InWindow(AcceptedOf(Reopening(key, keys, now), key), now) == 11
  {
    keys := Longer(key, CACHE_MAX);
    BurstAccepted(key, now, LIMIT);
    LongerAreNew(key, now, After(Burst(key, now, LIMIT)));
    AllAtOnce(key, keys, now);
    ElevenInAWindow(key, keys, now);
    ManyKeys(Reopening(key, keys, now), key, keys, now);
  }

  lemma ManyKeys(attempts: seq<Attempt>, key: string, keys: seq<string>, now: int)
    requires attempts == Reopening(key, keys, now)
    requires |keys| == CACHE_MAX && key !in keys && forall i, j :: 0 <= i < j < |keys| ==> keys[i] != keys[j]
    ensures |KeysOf(attempts)| == CACHE_MAX + 1
  {
    var others := FirstBuckets(keys, now);
    DistinctSize(others);
    KeysAre(attempts, key, keys, now);
    assert key !in BucketKeys(others);
  }

  lemma KeysAre(attempts: seq<Attempt>, key: string, keys: seq<string>, now: int)
    requires attempts == Reopening(key, keys, now)
    ensures KeysOf(attempts) == BucketKeys(FirstBuckets(keys, now)) + {key}
  {
    var others := FirstBuckets(keys, now);
    forall k | k in BucketKeys(others) + {key} ensures k in KeysOf(attempts) {
      if k == key {
        assert attempts[|attempts| - 1].key == key;
      } else {
        var i :| 0 <= i < |others| && others[i].key == k;
        assert attempts[LIMIT + i] == Attempt(keys[i], now);
      }
    }
    forall i | 0 <= i < |attempts| ensures attempts[i].key in BucketKeys(others) + {key} {
      if LIMIT <= i < LIMIT + |keys| { assert others[i - LIMIT].key == attempts[i].key; }
    }
  }

  // ------------------------------------------------------------ which keys keep the bound

  lemma {:induction false} Listing(keys: set<string>) returns (list: seq<string>)
    ensures |list| == |keys| && forall k :: k in list <==> k in keys
    ensures forall i, j :: 0 <= i < j < |list| ==> list[i] != list[j]
    decreases keys
  {
    list := [];
    if keys != {} {
      var k :| k in keys;
      var rest := Listing(keys - {k});
      list := [k] + rest;
      assert forall i :: 0 <= i < |rest| ==> rest[i] in rest;
    }
  }

  /** With the empty key first, nothing that follows is ever dropped. */
  lemma EmptyKeyKeepsAll(keys: seq<string>, now: int)
    requires "" !in keys && forall i, j :: 0 <= i < j < |keys| ==> keys[i] != keys[j]
    ensures |After([Attempt("", now)] + Flood(keys, now))| == |keys| + 1
  {
    var first := [Attempt("", now)];
    assert first == [] + [Attempt("", now)];
    AfterFlood(first, keys, now);
    var all := After(first) + FirstBuckets(keys, now);
    FindIs(all, "", 0);
  }

  lemma {:induction false} FewOrNamedKeysAreBounded(attempts: seq<Attempt>, keys: set<string>)
    requires KeysOf(attempts) <= keys && ("" !in keys || |keys| <= CACHE_MAX)
    ensures Bounded(After(attempts))
  {
    AlwaysOrderly(attempts);
    OnlyAttemptedKeys(attempts);
    var b := After(attempts);
    DistinctSize(b);
    SubsetSize(BucketKeys(b), keys);
    assert |b| > 0 ==> b[0].key in BucketKeys(b);
  }

  lemma OverflowOf(keys: set<string>) returns (attempts: seq<Attempt>)
    requires "" in keys && |keys| > CACHE_MAX
    ensures KeysOf(attempts) <= keys && !Bounded(After(attempts))
  {
    var list := Listing(keys - {""});
    attempts := [Attempt("", 0)] + Flood(list, 0);
    EmptyKeyKeepsAll(list, 0);
    assert forall i :: 0 <= i < |list| ==> list[i] in list;
    forall i | 0 <= i < |attempts| ensures attempts[i].key in keys {
      assert i > 0 ==> attempts[i] == Attempt(list[i - 1], 0);
    }
  }

  /** The map stays within its bound whatever attempts these keys make, exactly if the empty key is not among them or they are no more than it holds. */
  lemma BoundedForKeysIff(keys: set<string>)
    ensures (forall attempts :: KeysOf(attempts) <= keys ==> Bounded(After(attempts))) <==> "" !in keys || |keys| <= CACHE_MAX
  {
    if "" !in keys || |keys| <= CACHE_MAX {
      forall attempts | KeysOf(attempts) <= keys ensures Bounded(After(attempts)) { FewOrNamedKeysAreBounded(attempts, keys); }
    } else {
      var attempts := OverflowOf(keys);
      assert KeysOf(attempts) <= keys;
    }
  }
}
