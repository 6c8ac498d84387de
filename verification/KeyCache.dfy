/**
 The validated-key cache in front of the key table, and when a revoked key stops being
 accepted. A validation looks its key up in one step and fills the cache in a later one.
 */
module KeyCache {
  import opened Options

  const TTL_MS := 30_000
  const CACHE_MAX: nat := 1024
  const PREFIX_LEN: nat := 11

  /** A key row. The secret stands for its hash: verification succeeds for that text only. */
  datatype KeyRow = KeyRow(id: int, secret: string, revokedAt: Option<int>)

  /** The key table, by id. */
  type Keys = map<int, KeyRow>

  datatype Entry = Entry(secret: string, row: KeyRow, expiresAt: int)

  /** A JavaScript Map: entries in insertion order, one per secret. */
  type Cache = seq<Entry>

  // ------------------------------------------------------------ the ordered map

  ghost predicate Distinct(cache: Cache) {
    forall i, j :: 0 <= i < j < |cache| ==> cache[i].secret != cache[j].secret
  }

  /** Position of a secret's entry, or the size. */
  function Find(cache: Cache, secret: string): (n: nat)
    ensures n <= |cache|
    ensures n < |cache| ==> cache[n].secret == secret
    ensures forall i :: 0 <= i < n ==> cache[i].secret != secret
  {
    if cache == [] || cache[0].secret == secret then 0 else Find(cache[1..], secret) + 1
  }

  function Without(cache: Cache, n: nat): Cache {
    if n < |cache| then cache[..n] + cache[n + 1..] else cache
  }

  /** Setting an existing key keeps its place; a new one goes last. */
  function Set(cache: Cache, e: Entry): Cache {
    var n := Find(cache, e.secret);
    if n < |cache| then cache[n := e] else cache + [e]
  }

  /** Make room, then set. */
  function Remembered(cache: Cache, e: Entry): Cache {
    Set(if |cache| >= CACHE_MAX then cache[1..] else cache, e)
  }

  /** Position of the first entry of a key id, or the size. */
  function FindId(cache: Cache, id: int): (n: nat)
    ensures n <= |cache|
    ensures n < |cache| ==> cache[n].row.id == id
    ensures forall i :: 0 <= i < n ==> cache[i].row.id != id
  {
    if cache == [] || cache[0].row.id == id then 0 else FindId(cache[1..], id) + 1
  }

  function Evicted(cache: Cache, id: int): Cache {
    Without(cache, FindId(cache, id))
  }

  predicate WellShaped(secret: string) {
    |secret| >= PREFIX_LEN + 1 && secret[..3] == "oo_"
  }

  // ------------------------------------------------------------ the middleware

  /** One entry per key: what lets an eviction stop at the first it finds. */
  ghost predicate OnePerKey(cache: Cache) {
    forall i, j :: 0 <= i < j < |cache| ==> cache[i].row.id != cache[j].row.id
  }

  predicate Holds(cache: Cache, id: int) {
    exists i :: 0 <= i < |cache| && cache[i].row.id == id
  }

  /** Bounded, each row under its own secret, once. */
  ghost predicate Sound(cache: Cache) {
    && Distinct(cache) && OnePerKey(cache) && |cache| <= CACHE_MAX
    && forall i :: 0 <= i < |cache| ==> cache[i].row.secret == cache[i].secret
  }

  /** A key id and its secret determine each other. */
  predicate SameKey(a: KeyRow, b: KeyRow) {
    a.id == b.id <==> a.secret == b.secret
  }

  ghost predicate Agrees(cache: Cache, row: KeyRow) {
    forall i :: 0 <= i < |cache| ==> SameKey(cache[i].row, row)
  }

  lemma SetIsSound(cache: Cache, e: Entry)
    requires Distinct(cache) && OnePerKey(cache) && Agrees(cache, e.row) && e.row.secret == e.secret
    requires forall i :: 0 <= i < |cache| ==> cache[i].row.secret == cache[i].secret
    ensures Distinct(Set(cache, e)) && OnePerKey(Set(cache, e))
    ensures forall i :: 0 <= i < |Set(cache, e)| ==> Set(cache, e)[i] == e || Set(cache, e)[i] in cache
    ensures |Set(cache, e)| <= |cache| + 1
  {
  }

  lemma RememberedIsSound(cache: Cache, e: Entry)
    requires Sound(cache) && Agrees(cache, e.row) && e.row.secret == e.secret
    ensures Sound(Remembered(cache, e))
    ensures forall i :: 0 <= i < |Remembered(cache, e)| ==>
              Remembered(cache, e)[i] == e || Remembered(cache, e)[i] in cache
  {
    SetIsSound(if |cache| >= CACHE_MAX then cache[1..] else cache, e);
  }

  lemma EvictedIsSound(cache: Cache, id: int)
    requires Sound(cache)
    ensures Sound(Evicted(cache, id)) && !Holds(Evicted(cache, id), id)
    ensures forall i :: 0 <= i < |Evicted(cache, id)| ==> Evicted(cache, id)[i] in cache
  {
    var n := FindId(cache, id);
    forall i | 0 <= i < |Evicted(cache, id)|
      ensures Evicted(cache, id)[i] == cache[if i < n then i else i + 1] && Evicted(cache, id)[i].row.id != id
    {
    }
  }

  class Middleware {
    var cache: Cache

    constructor ()
      ensures cache == []
    {
      cache := [];
    }

    /** Drops the first entry of the key and stops. */
    method EvictFromKeyCache(id: int)
      modifies this
      ensures cache == Evicted(old(cache), id)
      ensures Sound(old(cache)) ==> Sound(cache) && !Holds(cache, id)
    {
      if Sound(cache) { EvictedIsSound(cache, id); }
      for i := 0 to |cache|
        invariant cache == old(cache) && i <= FindId(cache, id)
      {
        if cache[i].row.id == id {
          cache := cache[..i] + cache[i + 1..];
          break;
        }
      }
    }

    /**
     One validation; `looked` is the active row the prefix query returned, at `now`, and the
     cache is filled at `later`. A live entry answers on its own; otherwise the row must be
     the secret's own.
     */
    method ValidateKey(secret: string, now: int, looked: Option<KeyRow>, later: int) returns (accepted: Option<KeyRow>)
      requires Sound(cache) && (looked.Some? ==> looked.value.revokedAt.None? && Agrees(cache, looked.value))
      modifies this
      ensures Sound(cache)
      ensures accepted.Some? ==> accepted.value.secret == secret && accepted.value.revokedAt.None?
      ensures WellShaped(secret) && Live(old(cache), secret, now) ==>
                var n := Find(old(cache), secret);
                if old(cache)[n].row.revokedAt.None? then cache == old(cache) && accepted == Some(old(cache)[n].row)
                else cache == Without(old(cache), n) && accepted == None
      ensures WellShaped(secret) && !Live(old(cache), secret, now) && looked.Some? && looked.value.secret == secret ==>
                accepted == looked && cache == Remembered(old(cache), Entry(secret, looked.value, later + TTL_MS))
      ensures !WellShaped(secret) || (!Live(old(cache), secret, now) && (looked.None? || looked.value.secret != secret)) ==>
                accepted == None && cache == old(cache)
    {
      if |secret| < PREFIX_LEN + 1 || secret[..3] != "oo_" { return None; }
      var n := Find(cache, secret);
      if n < |cache| && cache[n].expiresAt > now {
        if cache[n].row.revokedAt.Some? {
          cache := Without(cache, n);
          return None;
        }
        return Some(cache[n].row);
      }
      if looked.None? { return None; }
      if looked.value.secret != secret { return None; }
      RememberedIsSound(cache, Entry(secret, looked.value, later + TTL_MS));
      if |cache| >= CACHE_MAX { cache := cache[1..]; }
      cache := Set(cache, Entry(secret, looked.value, later + TTL_MS));
      return Some(looked.value);
    }
  }

  /** The cache alone answers for this secret. */
  predicate Live(cache: Cache, secret: string, now: int) {
    Find(cache, secret) < |cache| && cache[Find(cache, secret)].expiresAt > now
  }

  // ------------------------------------------------------------ every interleaving

  /** A validation between its lookup and its fill. */
  datatype Pending = Pending(process: int, row: KeyRow, lookedAt: int)

  datatype Acceptance = Acceptance(process: int, id: int, at: int)

  /** `died` remembers when each key was first revoked. */
  datatype State = State(now: int, keys: Keys, died: map<int, int>, caches: map<int, Cache>,
                         pending: map<int, Pending>, log: seq<Acceptance>)

  datatype Action =
    | Wait(ms: nat)
    | Create(id: int, secret: string)
    | Revoke(id: int)
    | Evict(process: int, id: int)
    | Check(process: int, secret: string, validation: int, picked: int)  // cache, then the prefix query's row
    | Fill(validation: int)

  function CacheOf(s: State, process: int): Cache {
    if process in s.caches then s.caches[process] else []
  }

  predicate SecretTaken(keys: Keys, secret: string) {
    exists k :: k in keys && keys[k].secret == secret
  }

  function Accept(s: State, process: int, id: int): State {
    s.(log := s.log + [Acceptance(process, id, s.now)])
  }

  /** A validation is still under way; `d` bounds how long a lookup with its verification takes. */
  predicate InTime(s: State, v: int, d: nat) {
    v in s.pending && s.now <= s.pending[v].lookedAt + d
  }

  function Refilled(cache: Cache, row: KeyRow, now: int): Cache {
    Remembered(cache, Entry(row.secret, row, now + TTL_MS))
  }

  function FillWith(s: State, v: int, cache: Cache): State
    requires v in s.pending
  {
    var p := s.pending[v];
    Accept(s.(caches := s.caches[p.process := cache], pending := s.pending - {v}), p.process, p.row.id)
  }

  function FillOne(s: State, v: int): State
    requires v in s.pending
  {
    FillWith(s, v, Refilled(CacheOf(s, s.pending[v].process), s.pending[v].row, s.now))
  }

  function CheckOne(s: State, process: int, secret: string, v: int, picked: int): State {
    var cache := CacheOf(s, process);
    if !WellShaped(secret) then s
    else if Live(cache, secret, s.now) then
      var row := cache[Find(cache, secret)].row;
      if row.revokedAt.Some? then s.(caches := s.caches[process := Without(cache, Find(cache, secret))])
      else Accept(s, process, row.id)
    else if v in s.pending || picked !in s.keys || s.keys[picked].revokedAt.Some? || s.keys[picked].secret != secret then s
    else s.(pending := s.pending[v := Pending(process, s.keys[picked], s.now)])
  }

  function Apply(d: nat, s: State, a: Action): State {
    match a
    case Wait(ms) => s.(now := s.now + ms)
    case Create(id, secret) =>
      if id in s.keys || SecretTaken(s.keys, secret) then s
      else s.(keys := s.keys[id := KeyRow(id, secret, None)])
    case Revoke(id) =>
      if id !in s.keys then s
      else s.(keys := s.keys[id := s.keys[id].(revokedAt := Some(s.now))],
              died := if id in s.died then s.died else s.died[id := s.now])
    case Evict(process, id) => s.(caches := s.caches[process := Evicted(CacheOf(s, process), id)])
    case Check(process, secret, v, picked) => CheckOne(s, process, secret, v, picked)
    case Fill(v) => if InTime(s, v, d) then FillOne(s, v) else s
  }

  function After(d: nat, start: int, actions: seq<Action>): State
    decreases |actions|
  {
    if actions == [] then State(start, map[], map[], map[], map[], [])
    else Apply(d, After(d, start, actions[..|actions| - 1]), actions[|actions| - 1])
  }

  // ------------------------------------------------------------ invariants

  ghost predicate KeysSound(s: State) {
    && (forall id :: id in s.keys ==> s.keys[id].id == id)
    && (forall a, b :: a in s.keys && b in s.keys && s.keys[a].secret == s.keys[b].secret ==> a == b)
    && (forall id :: id in s.keys ==> (id in s.died <==> s.keys[id].revokedAt.Some?))
    && (forall id :: id in s.died ==> id in s.keys && s.died[id] <= s.now)
  }

  /** A remembered row is a row of the table, as it was before any revocation. */
  predicate Known(s: State, row: KeyRow) {
    row.id in s.keys && s.keys[row.id].secret == row.secret && row.revokedAt.None?
  }

  ghost predicate EntriesSound(d: nat, s: State, cache: Cache) {
    && Sound(cache)
    && forall i :: 0 <= i < |cache| ==> EntrySound(d, s, cache[i])
  }

  /** An entry expires no later than its key's first revocation plus lookup time and TTL. */
  predicate EntrySound(d: nat, s: State, e: Entry) {
    Known(s, e.row) && (e.row.id in s.died ==> e.expiresAt <= s.died[e.row.id] + d + TTL_MS)
                    && e.expiresAt <= s.now + TTL_MS
  }

  predicate PendingSound(s: State, p: Pending) {
    Known(s, p.row) && p.lookedAt <= s.now && (p.row.id in s.died ==> p.lookedAt <= s.died[p.row.id])
  }

  predicate AcceptanceSound(d: nat, s: State, a: Acceptance) {
    a.at <= s.now && a.id in s.keys && (a.id in s.died ==> a.at < s.died[a.id] + d + TTL_MS)
  }

  ghost predicate Inv(d: nat, s: State) {
    && KeysSound(s)
    && (forall p :: p in s.caches ==> EntriesSound(d, s, s.caches[p]))
    && (forall v :: v in s.pending ==> PendingSound(s, s.pending[v]))
    && (forall i :: 0 <= i < |s.log| ==> AcceptanceSound(d, s, s.log[i]))
  }

  /** Time passes, keys stay, and a key that dies dies from now on. */
  predicate Later(s: State, t: State) {
    && s.now <= t.now
    && (forall id :: id in s.keys ==> id in t.keys && t.keys[id].secret == s.keys[id].secret)
    && (forall id :: id in s.died ==> id in t.died && t.died[id] == s.died[id])
    && (forall id :: id in t.died && id !in s.died ==> s.now <= t.died[id])
  }

  lemma CreateIsLater(d: nat, s: State, id: int, secret: string)
    requires KeysSound(s)
    ensures Later(s, Apply(d, s, Create(id, secret))) && KeysSound(Apply(d, s, Create(id, secret)))
  {
  }

  lemma RevokeIsLater(d: nat, s: State, id: int)
    requires KeysSound(s)
    ensures Later(s, Apply(d, s, Revoke(id))) && KeysSound(Apply(d, s, Revoke(id)))
  {
  }

  lemma StepsAreLater(d: nat, s: State, a: Action)
    requires KeysSound(s)
    ensures Later(s, Apply(d, s, a)) && KeysSound(Apply(d, s, a))
  {
    match a {
      case Create(id, secret) => CreateIsLater(d, s, id, secret);
      case Revoke(id) => RevokeIsLater(d, s, id);
      case _ => KeysUntouched(d, s, a);
    }
  }

  lemma KeysUntouched(d: nat, s: State, a: Action)
    requires !a.Create? && !a.Revoke?
    ensures Apply(d, s, a).keys == s.keys && Apply(d, s, a).died == s.died && s.now <= Apply(d, s, a).now
  {
  }

  lemma RefilledIsSound(cache: Cache, row: KeyRow, now: int)
    requires Sound(cache) && Agrees(cache, row)
    ensures Sound(Refilled(cache, row, now))
    ensures forall i :: 0 <= i < |Refilled(cache, row, now)| ==>
              Refilled(cache, row, now)[i] == Entry(row.secret, row, now + TTL_MS) || Refilled(cache, row, now)[i] in cache
  {
    RememberedIsSound(cache, Entry(row.secret, row, now + TTL_MS));
  }

  lemma FillKeeps(d: nat, s: State, v: int)
    requires Inv(d, s) && InTime(s, v, d)
    ensures Inv(d, FillOne(s, v))
  {
    var p := s.pending[v];
    assert PendingSound(s, p);
    RefilledIsSound(CacheOf(s, p.process), p.row, s.now);
  }

  lemma EvictKeeps(d: nat, s: State, p: int, id: int)
    requires Inv(d, s)
    ensures Inv(d, Apply(d, s, Evict(p, id)))
  {
    var cache := CacheOf(s, p);
    EvictedIsSound(cache, id);
    forall i | 0 <= i < |Evicted(cache, id)| ensures EntrySound(d, s, Evicted(cache, id)[i]) { }
  }

  /** A live entry answers for a key not revoked, or revoked less than its lifetime ago. */
  lemma CheckKeeps(d: nat, s: State, process: int, secret: string, v: int, picked: int)
    requires Inv(d, s)
    ensures Inv(d, CheckOne(s, process, secret, v, picked))
  {
    var cache := CacheOf(s, process);
    if Live(cache, secret, s.now) { assert EntrySound(d, s, cache[Find(cache, secret)]); }
  }

  lemma StepKeeps(d: nat, s: State, a: Action)
    requires Inv(d, s)
    ensures Inv(d, Apply(d, s, a))
  {
    StepsAreLater(d, s, a);
    match a {
      case Fill(v) => if InTime(s, v, d) { FillKeeps(d, s, v); }
      case Evict(p, id) => EvictKeeps(d, s, p, id);
      case Check(p, secret, v, picked) => CheckKeeps(d, s, p, secret, v, picked);
      case _ =>
    }
  }

  lemma {:induction false} AlwaysInv(d: nat, start: int, actions: seq<Action>)
    ensures Inv(d, After(d, start, actions))
    decreases |actions|
  {
    if actions != [] {
      AlwaysInv(d, start, actions[..|actions| - 1]);
      StepKeeps(d, After(d, start, actions[..|actions| - 1]), actions[|actions| - 1]);
    }
  }

  /**
   In every run, on any number of processes: a key accepted at t was active at some instant
   later than t less the TTL and one lookup, caches stay bounded, and each key has one entry.
   */
  lemma AcceptedWasActive(d: nat, start: int, actions: seq<Action>)
    ensures var s := After(d, start, actions);
            && (forall i :: 0 <= i < |s.log| && s.log[i].id in s.died ==> s.log[i].at < s.died[s.log[i].id] + d + 30_000)
            && (forall p :: p in s.caches ==> |s.caches[p]| <= 1024 && OnePerKey(s.caches[p]))
  {
    AlwaysInv(d, start, actions);
    var s := After(d, start, actions);
    forall i | 0 <= i < |s.log| && s.log[i].id in s.died ensures s.log[i].at < s.died[s.log[i].id] + d + TTL_MS {
      assert AcceptanceSound(d, s, s.log[i]);
    }
    forall p | p in s.caches ensures |s.caches[p]| <= CACHE_MAX && OnePerKey(s.caches[p]) {
      assert EntriesSound(d, s, s.caches[p]);
    }
  }

  // ------------------------------------------------------------ when a revoked key is finally rejected

  function Exec(d: nat, s: State, actions: seq<Action>): State
    decreases |actions|
  {
    if actions == [] then s else Apply(d, Exec(d, s, actions[..|actions| - 1]), actions[|actions| - 1])
  }

  function Times(log: seq<Acceptance>, process: int, id: int): nat
    decreases |log|
  {
    if log == [] then 0 else
      var last := log[|log| - 1];
      Times(log[..|log| - 1], process, id) + if last.process == process && last.id == id then 1 else 0
  }

  /** A live entry for the key, reachable by its secret. */
  predicate Remembers(s: State, process: int, id: int) {
    exists i :: 0 <= i < |CacheOf(s, process)| && AnswersFor(CacheOf(s, process)[i], id, s.now)
  }

  predicate AnswersFor(e: Entry, id: int, now: int) {
    e.row.id == id && e.expiresAt > now && WellShaped(e.secret)
  }

  /** A validation of the key that started before it was revoked and may still finish. */
  predicate InFlight(d: nat, s: State, process: int, id: int) {
    exists v :: v in s.pending && s.pending[v].process == process && s.pending[v].row.id == id && InTime(s, v, d)
  }

  predicate IsRevoked(s: State, id: int) {
    id in s.keys && s.keys[id].revokedAt.Some?
  }

  /** The key can still be accepted by the process. */
  predicate CanAccept(d: nat, s: State, process: int, id: int) {
    Remembers(s, process, id) || InFlight(d, s, process, id)
  }

  /** Removing or replacing entries of other keys brings no entry of this one back. */
  lemma NotRemembered(s: State, t: State, process: int, id: int)
    requires !Remembers(s, process, id) && s.now <= t.now
    requires forall i :: 0 <= i < |CacheOf(t, process)| && CacheOf(t, process)[i].row.id == id ==> CacheOf(t, process)[i] in CacheOf(s, process)
    ensures !Remembers(t, process, id)
  {
  }

  /** A step at which the key is not accepted and after which it still cannot be. */
  ghost predicate Barred(d: nat, s: State, t: State, process: int, id: int) {
    IsRevoked(t, id) && !CanAccept(d, t, process, id) && Times(t.log, process, id) == Times(s.log, process, id)
  }

  lemma FillBarred(d: nat, s: State, v: int, process: int, id: int)
    requires Inv(d, s) && IsRevoked(s, id) && !CanAccept(d, s, process, id) && InTime(s, v, d)
    ensures Barred(d, s, FillOne(s, v), process, id)
  {
    var p, t := s.pending[v], FillOne(s, v);
    assert PendingSound(s, p);
    assert !(p.process == process && p.row.id == id);
    RefilledIsSound(CacheOf(s, p.process), p.row, s.now);
    NotRemembered(s, t, process, id);
  }

  lemma EvictBarred(d: nat, s: State, p: int, k: int, process: int, id: int)
    requires Inv(d, s) && IsRevoked(s, id) && !CanAccept(d, s, process, id)
    ensures Barred(d, s, Apply(d, s, Evict(p, k)), process, id)
  {
    EvictedIsSound(CacheOf(s, p), k);
    NotRemembered(s, Apply(d, s, Evict(p, k)), process, id);
  }

  lemma CheckBarred(d: nat, s: State, p: int, secret: string, v: int, picked: int, process: int, id: int)
    requires Inv(d, s) && IsRevoked(s, id) && !CanAccept(d, s, process, id)
    ensures Barred(d, s, CheckOne(s, p, secret, v, picked), process, id)
  {
    var cache := CacheOf(s, p);
    if WellShaped(secret) && Live(cache, secret, s.now) {
      var e := cache[Find(cache, secret)];
      assert EntrySound(d, s, e);
      assert p == process && e.row.id == id ==> AnswersFor(e, id, s.now);
    }
    NotRemembered(s, CheckOne(s, p, secret, v, picked), process, id);
  }

  lemma StepBarred(d: nat, s: State, a: Action, process: int, id: int)
    requires Inv(d, s) && IsRevoked(s, id) && !CanAccept(d, s, process, id)
    ensures Barred(d, s, Apply(d, s, a), process, id)
  {
    match a {
      case Fill(v) => if InTime(s, v, d) { FillBarred(d, s, v, process, id); }
      case Evict(p, k) => EvictBarred(d, s, p, k, process, id);
      case Check(p, secret, v, picked) => CheckBarred(d, s, p, secret, v, picked, process, id);
      case _ => NotRemembered(s, Apply(d, s, a), process, id);
    }
  }

  lemma {:induction false} StaysBarred(d: nat, s: State, actions: seq<Action>, process: int, id: int)
    requires Inv(d, s) && IsRevoked(s, id) && !CanAccept(d, s, process, id)
    ensures Inv(d, Exec(d, s, actions)) && Barred(d, s, Exec(d, s, actions), process, id)
    decreases |actions|
  {
    if actions != [] {
      var t := Exec(d, s, actions[..|actions| - 1]);
      StaysBarred(d, s, actions[..|actions| - 1], process, id);
      StepKeeps(d, t, actions[|actions| - 1]);
      StepBarred(d, t, actions[|actions| - 1], process, id);
    }
  }

  /** Some continuation in which the process accepts the key once more. */
  ghost predicate AcceptedAgain(d: nat, s: State, process: int, id: int) {
    exists actions :: Times(Exec(d, s, actions).log, process, id) > Times(s.log, process, id)
  }

  lemma OneStepMore(d: nat, s: State, a: Action, process: int, id: int)
    requires Times(Apply(d, s, a).log, process, id) > Times(s.log, process, id)
    ensures AcceptedAgain(d, s, process, id)
  {
    assert [a][..0] == [] && Exec(d, s, []) == s;
    assert Exec(d, s, [a]) == Apply(d, s, a);
  }

  lemma RememberedIsAccepted(d: nat, s: State, process: int, id: int)
    requires Inv(d, s) && Remembers(s, process, id)
    ensures AcceptedAgain(d, s, process, id)
  {
    var cache := CacheOf(s, process);
    var i :| 0 <= i < |cache| && AnswersFor(cache[i], id, s.now);
    assert EntrySound(d, s, cache[i]);
    assert Find(cache, cache[i].secret) == i;
    OneStepMore(d, s, Check(process, cache[i].secret, 0, 0), process, id);
  }

  lemma InFlightIsAccepted(d: nat, s: State, process: int, id: int)
    requires InFlight(d, s, process, id)
    ensures AcceptedAgain(d, s, process, id)
  {
    var v :| v in s.pending && s.pending[v].process == process && s.pending[v].row.id == id && InTime(s, v, d);
    OneStepMore(d, s, Fill(v), process, id);
  }

  /** A revoked key is accepted again by a process exactly if a live entry or an unfinished validation of it is left there. */
  lemma AcceptedAgainIff(d: nat, s: State, process: int, id: int)
    requires Inv(d, s) && IsRevoked(s, id)
    ensures AcceptedAgain(d, s, process, id) <==> CanAccept(d, s, process, id)
  {
    if Remembers(s, process, id) {
      RememberedIsAccepted(d, s, process, id);
    } else if InFlight(d, s, process, id) {
      InFlightIsAccepted(d, s, process, id);
    } else {
      forall actions ensures Times(Exec(d, s, actions).log, process, id) == Times(s.log, process, id) {
        StaysBarred(d, s, actions, process, id);
      }
    }
  }

  /**
   The revoke route, then its eviction, on process `here`. From then on `here` never accepts
   the key exactly if no validation of it was under way; another process, exactly if it also
   had no live entry.
   */
  lemma RevocationIsInstantIff(d: nat, start: int, actions: seq<Action>, here: int, other: int, id: int)
    requires id in After(d, start, actions).keys && other != here
    ensures var s := After(d, start, actions);
            var t := Apply(d, Apply(d, s, Revoke(id)), Evict(here, id));
            && (AcceptedAgain(d, t, here, id) <==> InFlight(d, s, here, id))
            && (AcceptedAgain(d, t, other, id) <==> InFlight(d, s, other, id) || Remembers(s, other, id))
  {
    var s := After(d, start, actions);
    var r := Apply(d, s, Revoke(id));
    var t := Apply(d, r, Evict(here, id));
    AlwaysInv(d, start, actions);
    StepKeeps(d, s, Revoke(id));
    StepKeeps(d, r, Evict(here, id));
    EvictedIsSound(CacheOf(r, here), id);
    AcceptedAgainIff(d, t, here, id);
    AcceptedAgainIff(d, t, other, id);
    SameChances(d, s, t, here, id);
    SameChances(d, s, t, other, id);
  }

  lemma SameChances(d: nat, s: State, t: State, process: int, id: int)
    requires t.now == s.now && t.pending == s.pending
    ensures InFlight(d, t, process, id) <==> InFlight(d, s, process, id)
    ensures CacheOf(t, process) == CacheOf(s, process) ==> (Remembers(t, process, id) <==> Remembers(s, process, id))
  {
  }

  // ------------------------------------------------------------ an active key is accepted

  lemma SetIsFound(cache: Cache, e: Entry)
    ensures Find(Set(cache, e), e.secret) < |Set(cache, e)| && Set(cache, e)[Find(cache, e.secret)] == e
    ensures Find(Set(cache, e), e.secret) == Find(cache, e.secret)
  {
    var n := Find(cache, e.secret);
    FindIs(Set(cache, e), e.secret, n);
  }

  lemma {:induction false} FindIs(cache: Cache, secret: string, n: nat)
    requires n < |cache| && cache[n].secret == secret && forall i :: 0 <= i < n ==> cache[i].secret != secret
    ensures Find(cache, secret) == n
  {
  }

  /** The process remembers the row for half a minute. */
  predicate IsFresh(cache: Cache, row: KeyRow, now: int) {
    Find(cache, row.secret) < |cache| && cache[Find(cache, row.secret)] == Entry(row.secret, row, now + 30_000)
  }

  lemma RefilledIsFresh(cache: Cache, row: KeyRow, now: int)
    ensures IsFresh(Refilled(cache, row, now), row, now)
  {
    SetIsFound(if |cache| >= CACHE_MAX then cache[1..] else cache, Entry(row.secret, row, now + TTL_MS));
  }

  /** A new entry costs no other its place, unless the cache is full: then the oldest goes. */
  lemma OthersAreKept(cache: Cache, row: KeyRow, now: int, i: nat)
    requires i < |cache| && cache[i].secret != row.secret && (i > 0 || |cache| < 1024)
    ensures cache[i] in Refilled(cache, row, now)
  {
    var room := if |cache| >= CACHE_MAX then cache[1..] else cache;
    var e, k := Entry(row.secret, row, now + TTL_MS), if |cache| >= CACHE_MAX then i - 1 else i;
    assert room[k] == cache[i];
    assert Set(room, e)[k] == room[k];
  }

  lemma LiveEntryIsItsOwn(d: nat, s: State, process: int, id: int)
    requires Inv(d, s) && id in s.keys && Live(CacheOf(s, process), s.keys[id].secret, s.now)
    ensures var row := CacheOf(s, process)[Find(CacheOf(s, process), s.keys[id].secret)].row;
            row.id == id && row.revokedAt == None
  {
    var cache := CacheOf(s, process);
    assert EntrySound(d, s, cache[Find(cache, s.keys[id].secret)]);
  }

  /** The lookup's row is accepted when it is filled in. */
  lemma LookedUpIsAccepted(d: nat, s: State, process: int, v: int, row: KeyRow, ms: nat)
    requires ms <= d
    ensures var looked := s.(pending := s.pending[v := Pending(process, row, s.now)]);
            var filled := Apply(d, Apply(d, looked, Wait(ms)), Fill(v));
            filled.log == s.log + [Acceptance(process, row.id, s.now + ms)] && IsFresh(CacheOf(filled, process), row, s.now + ms)
  {
    RefilledIsFresh(CacheOf(s, process), row, s.now + ms);
  }

  predicate ShowsActive(s: State, secret: string, id: int) {
    id in s.keys && s.keys[id].revokedAt == None && s.keys[id].secret == secret && |secret| >= 12 && secret[..3] == "oo_"
  }

  lemma CheckAccepts(d: nat, s: State, process: int, secret: string, v: int, id: int)
    requires Inv(d, s) && ShowsActive(s, secret, id) && Live(CacheOf(s, process), secret, s.now)
    ensures Apply(d, s, Check(process, secret, v, id)) == Accept(s, process, id)
  {
    LiveEntryIsItsOwn(d, s, process, id);
  }

  lemma CheckLooksUp(d: nat, s: State, process: int, secret: string, v: int, id: int)
    requires ShowsActive(s, secret, id) && v !in s.pending && !Live(CacheOf(s, process), secret, s.now)
    ensures Apply(d, s, Check(process, secret, v, id)) == s.(pending := s.pending[v := Pending(process, s.keys[id], s.now)])
  {
  }

  /** The key is accepted by the cache at once, or when its lookup is done, and then remembered. */
  ghost predicate IsAccepted(d: nat, s: State, checked: State, process: int, v: int, id: int, ms: nat)
    requires id in s.keys
  {
    var filled := Apply(d, Apply(d, checked, Wait(ms)), Fill(v));
    || checked.log == s.log + [Acceptance(process, id, s.now)]
    || (filled.log == s.log + [Acceptance(process, id, s.now + ms)] && IsFresh(CacheOf(filled, process), s.keys[id], s.now + ms))
  }

  /** In every run, an active key that shows its own secret is accepted, however long within `d` its lookup takes. */
  lemma ActiveKeyIsAccepted(d: nat, start: int, actions: seq<Action>, process: int, secret: string, v: int, id: int, ms: nat)
    requires ShowsActive(After(d, start, actions), secret, id) && v !in After(d, start, actions).pending && ms <= d
    ensures var s := After(d, start, actions);
            IsAccepted(d, s, Apply(d, s, Check(process, secret, v, id)), process, v, id, ms)
  {
    AlwaysInv(d, start, actions);
    ShownIsAccepted(d, After(d, start, actions), process, secret, v, id, ms);
  }

  lemma ShownIsAccepted(d: nat, s: State, process: int, secret: string, v: int, id: int, ms: nat)
    requires Inv(d, s) && ShowsActive(s, secret, id) && v !in s.pending && ms <= d
    ensures IsAccepted(d, s, Apply(d, s, Check(process, secret, v, id)), process, v, id, ms)
  {
    if Live(CacheOf(s, process), secret, s.now) {
      CheckAccepts(d, s, process, secret, v, id);
    } else {
      CheckLooksUp(d, s, process, secret, v, id);
      LookedUpIsAccepted(d, s, process, v, s.keys[id], ms);
      assert s.keys[id].id == id;
    }
  }

  /** A fresh entry accepts its secret until half a minute has passed, and not after. */
  lemma FreshIsAccepted(d: nat, s: State, process: int, row: KeyRow, v: int, picked: int, ms: nat)
    requires IsFresh(CacheOf(s, process), row, s.now) && row.revokedAt == None && |row.secret| >= 12 && row.secret[..3] == "oo_"
    ensures var t := Apply(d, s, Wait(ms));
            Apply(d, t, Check(process, row.secret, v, picked)).log ==
            t.log + if ms < 30_000 then [Acceptance(process, row.id, s.now + ms)] else []
  {
  }

  /** Anything shorter than twelve characters or without the prefix is turned away before cache and table. */
  lemma MisshapenIsRefused(d: nat, s: State, process: int, secret: string, v: int, picked: int)
    requires |secret| < 12 || secret[..3] != "oo_"
    ensures Apply(d, s, Check(process, secret, v, picked)) == s
  {
  }
}
