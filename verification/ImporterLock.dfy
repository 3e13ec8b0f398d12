/**
 The importer's singleton lock: one Redis key with a time to live, set if absent, refreshed and released
 by token-checked scripts.  A process is one call of `HoldImporterSingletonLock`; tokens (host, process id,
 64 random bits) are taken as unique, so a process is named by its token.
 */
module ImporterLock {
  import opened Text

  const TTL: int := 90_000

  type Token = nat

  datatype Key = Free | Held(token: Token, expiry: int)

  /** GET: an expired key reads as absent. */
  predicate Owns(k: Key, now: int, tok: Token) {
    k.Held? && k.token == tok && now < k.expiry
  }

  predicate Absent(k: Key, now: int) {
    k.Free? || k.expiry <= now
  }

  /** SET with NX and a time to live. */
  function AfterSetNX(k: Key, now: int, tok: Token): Key {
    if Absent(k, now) then Held(tok, now + TTL) else k
  }

  /** The refresh script: PEXPIRE if the key holds the token. */
  function AfterRefresh(k: Key, now: int, tok: Token): Key {
    if Owns(k, now, tok) then Held(tok, now + TTL) else k
  }

  /** The release script: DEL if the key holds the token. */
  function AfterRelease(k: Key, now: int, tok: Token): Key {
    if Owns(k, now, tok) then Free else k
  }

  /** The Redis server, as far as one key goes. */
  class Redis {
    var key: Key
    var now: int

    constructor ()
      ensures key == Free && now == 0
    {
      key := Free;
      now := 0;
    }

    method SetNX(tok: Token) returns (ok: bool)
      modifies `key
      ensures ok == Absent(old(key), now) && key == AfterSetNX(old(key), now, tok)
      ensures ok <==> old(key).Free? || old(key).expiry <= now
      ensures key == if ok then Held(tok, now + TTL) else old(key)
    {
      if key.Held? && now < key.expiry {
        return false;
      }
      key := Held(tok, now + TTL);
      ok := true;
    }

    method RunRefresh(tok: Token) returns (n: int)
      modifies `key
      ensures n == (if Owns(old(key), now, tok) then 1 else 0) && key == AfterRefresh(old(key), now, tok)
      ensures n == 1 <==> old(key).Held? && old(key).token == tok && now < old(key).expiry
      ensures key == if n == 1 then Held(tok, now + TTL) else old(key)
    {
      if Owns(key, now, tok) {
        key := Held(tok, now + TTL);
        return 1;
      }
      n := 0;
    }

    method RunRelease(tok: Token) returns (n: int)
      modifies `key
      ensures n == (if Owns(old(key), now, tok) then 1 else 0) && key == AfterRelease(old(key), now, tok)
      ensures n == 1 <==> old(key).Held? && old(key).token == tok && now < old(key).expiry
      ensures key == if n == 1 then Free else old(key)
    {
      if Owns(key, now, tok) {
        key := Free;
        return 1;
      }
      n := 0;
    }
  }

  /** What a successful call leaves behind: the refresher goroutine and the release closure with its `sync.Once`. */
  class Holder {
    const redis: Redis
    const token: Token
    var refreshing: bool
    var released: bool

    constructor (redis: Redis, token: Token)
      ensures this.redis == redis && this.token == token && refreshing && !released
    {
      this.redis, this.token := redis, token;
      refreshing, released := true, false;
    }

    /** One tick of the refresher; `reached` says whether Redis answered.  An error is ignored. */
    method Tick(reached: bool)
      modifies redis`key
      ensures redis.key == if refreshing && reached then AfterRefresh(old(redis.key), redis.now, token) else old(redis.key)
    {
      if refreshing && reached {
        var n := redis.RunRefresh(token);
      }
    }

    /** The closure: stop the refresher, wait for it, run the release script; only the first call does anything. */
    method Release(reached: bool)
      modifies this, redis`key
      ensures released && (!old(released) ==> !refreshing)
      ensures old(released) ==> refreshing == old(refreshing)
      ensures redis.key ==
        if !old(released) && reached then AfterRelease(old(redis.key), redis.now, token) else old(redis.key)
      ensures !old(released) && reached && old(redis.key).Held? && old(redis.key).token == token ==> Absent(redis.key, redis.now)
    {
      if !released {
        released := true;
        refreshing := false;
        if reached {
          var n := redis.RunRelease(token);
        }
      }
    }
  }

  /** What becomes of the SetNX: it is not run, it is run but its reply is lost, or it is run and answered. */
  datatype Delivery = NotRun | ReplyLost | Replied

  datatype LockError = NoReply | AlreadyHeld

  /** When the reply is lost the caller holds nothing, but the key may be set, with nobody to refresh or release it. */
  method HoldImporterSingletonLock(redis: Redis, tok: Token, d: Delivery) returns (r: Result<Holder, LockError>)
    modifies redis`key
    ensures redis.key == if d.NotRun? then old(redis.key) else AfterSetNX(old(redis.key), redis.now, tok)
    ensures !d.Replied? ==> r == Err(NoReply)
    ensures d.Replied? ==> if Absent(old(redis.key), redis.now) then r.Ok? else r == Err(AlreadyHeld)
    ensures r.Ok? ==>
      var h := r.value;
      fresh(h) && h.redis == redis && h.token == tok && h.refreshing && !h.released
  {
    if d.NotRun? {
      return Err(NoReply);
    }
    var ok := redis.SetNX(tok);
    if d.ReplyLost? {
      return Err(NoReply);
    }
    if !ok {
      return Err(AlreadyHeld);
    }
    var h := new Holder(redis, tok);
    r := Ok(h);
  }

  /** A clean restart: once the owner has released the lock, the next caller gets it at once. */
  method Restart(redis: Redis, owner: Holder, tok: Token) returns (next: Holder)
    requires owner.redis == redis && !owner.released
    requires redis.key.Held? && redis.key.token == owner.token && redis.now < redis.key.expiry
    modifies owner, redis`key
    ensures owner.released && !owner.refreshing
    ensures fresh(next) && next.redis == redis && next.token == tok && next.refreshing && !next.released
    ensures redis.key == Held(tok, redis.now + TTL)
  {
    owner.Release(true);
    var r := HoldImporterSingletonLock(redis, tok, Replied);
    next := r.value;
  }

  // ---------------------------------------------------------------- all runs of all processes

  /**
   Idle, then Holding after a successful SetNX, or Refused if it failed or its reply was lost; Stopping once release was called, while the refresher may still
   tick; Stopped when it has returned; Done after the release script.
   */
  datatype Phase = Idle | Refused | Holding | Stopping | Stopped | Done | Crashed

  datatype State = State(key: Key, now: int, phases: map<Token, Phase>, beats: map<Token, int>) {
    function PhaseOf(p: Token): Phase {
      if p in phases then phases[p] else Idle
    }

    /** The time of the last SetNX or refresh of `p` that Redis accepted. */
    function BeatOf(p: Token): int {
      if p in beats then beats[p] else 0
    }

    /** Between the successful SetNX and the release of `p`. */
    predicate Active(p: Token) {
      PhaseOf(p).Holding? || PhaseOf(p).Stopping? || PhaseOf(p).Stopped?
    }

    predicate Refreshing(p: Token) {
      PhaseOf(p).Holding? || PhaseOf(p).Stopping?
    }
  }

  datatype Event =
    | Advance(ms: nat)
    | Acquire(p: Token)
    | AcquireUnheard(p: Token)
    | Refresh(p: Token, reached: bool)
    | StopRefresh(p: Token)
    | RefresherExit(p: Token)
    | Release(p: Token, reached: bool)
    | Crash(p: Token)

  /** One step; an event that is not enabled changes nothing. */
  function Apply(s: State, e: Event): State {
    match e
    case Advance(ms) => s.(now := s.now + ms)
    case Acquire(p) =>
      if s.PhaseOf(p).Idle? then
        if Absent(s.key, s.now) then
          s.(key := AfterSetNX(s.key, s.now, p), phases := s.phases[p := Holding], beats := s.beats[p := s.now])
        else s.(phases := s.phases[p := Refused])
      else s
    case AcquireUnheard(p) =>
      if s.PhaseOf(p).Idle? then s.(key := AfterSetNX(s.key, s.now, p), phases := s.phases[p := Refused]) else s
    case Refresh(p, reached) =>
      if s.Refreshing(p) && reached then
        s.(key := AfterRefresh(s.key, s.now, p), beats := if Owns(s.key, s.now, p) then s.beats[p := s.now] else s.beats)
      else s
    case StopRefresh(p) => if s.PhaseOf(p).Holding? then s.(phases := s.phases[p := Stopping]) else s
    case RefresherExit(p) => if s.PhaseOf(p).Stopping? then s.(phases := s.phases[p := Stopped]) else s
    case Release(p, reached) =>
      if s.PhaseOf(p).Stopped? then
        s.(key := if reached then AfterRelease(s.key, s.now, p) else s.key, phases := s.phases[p := Done])
      else s
    case Crash(p) => s.(phases := s.phases[p := Crashed])
  }

  const INIT: State := State(Free, 0, map[], map[])

  /** The state after the first `n` events. */
  function At(es: seq<Event>, n: nat): State
    requires n <= |es|
  {
    if n == 0 then INIT else Apply(At(es, n - 1), es[n - 1])
  }

  /** Every active process has been heard by Redis less than one TTL ago. */
  ghost predicate OnTime(s: State) {
    forall p :: s.Active(p) ==> s.now < s.BeatOf(p) + TTL
  }

  /** The key belongs to every active process, until one TTL after its last beat. */
  ghost predicate KeyIsTheirs(s: State) {
    forall p :: s.Active(p) ==> s.key == Held(p, s.BeatOf(p) + TTL)
  }

  lemma StepKeepsKey(s: State, e: Event)
    requires KeyIsTheirs(s) && OnTime(s)
    ensures KeyIsTheirs(Apply(s, e))
  {
    var s' := Apply(s, e);
    forall p | s'.Active(p) ensures s'.key == Held(p, s'.BeatOf(p) + TTL) {
      if s.Active(p) {
        assert Owns(s.key, s.now, p);
      }
    }
  }

  lemma {:induction false} KeyStaysTheirs(es: seq<Event>, n: nat)
    requires n <= |es| && forall k :: 0 <= k < n ==> OnTime(At(es, k))
    ensures KeyIsTheirs(At(es, n))
  {
    if n > 0 {
      KeyStaysTheirs(es, n - 1);
      StepKeepsKey(At(es, n - 1), es[n - 1]);
    }
  }

  /** Mutual exclusion: while every holder is on time, no two processes hold the lock. */
  lemma AtMostOneHolder(es: seq<Event>, n: nat, p: Token, q: Token)
    requires n <= |es| && forall k :: 0 <= k < n ==> OnTime(At(es, k))
    requires At(es, n).Active(p) && At(es, n).Active(q)
    ensures p == q
  {
    KeyStaysTheirs(es, n);
  }

  /** Being on time is needed: a holder that is silent for one TTL is joined by a second one. */
  lemma LateHolderIsJoined()
    ensures var es := [Acquire(1), Advance(TTL), Acquire(2)];
      At(es, 3).Active(1) && At(es, 3).Active(2) && !OnTime(At(es, 2))
  {
    var es := [Acquire(1), Advance(TTL), Acquire(2)];
    assert At(es, 1).PhaseOf(1) == Holding && At(es, 1).key == Held(1, TTL);
    assert At(es, 2).PhaseOf(1) == Holding && At(es, 2).now == TTL && At(es, 2).Active(1);
    assert At(es, 3).PhaseOf(2) == Holding;
  }

  // ---------------------------------------------------------------- whatever the timing

  /** A process touches the key only if its token is in it, or by its own successful SetNX. */
  lemma OnlyOwnersTouchKey(s: State, e: Event)
    ensures Apply(s, e).key != s.key ==>
      match e
      case Acquire(p) => s.PhaseOf(p).Idle? && Absent(s.key, s.now)
      case AcquireUnheard(p) => s.PhaseOf(p).Idle? && Absent(s.key, s.now)
      case Refresh(p, _) => Owns(s.key, s.now, p) && Apply(s, e).key == Held(p, s.now + TTL)
      case Release(p, _) => Owns(s.key, s.now, p) && Apply(s, e).key == Free
      case _ => false
  {
  }

  predicate Occupies(s: State, p: Token) {
    Owns(s.key, s.now, p)
  }

  /** A process whose token is in the key has left the idle phase. */
  lemma {:induction false} OccupierStarted(es: seq<Event>, n: nat, p: Token)
    requires n <= |es| && At(es, n).key.Held? && At(es, n).key.token == p
    ensures !At(es, n).PhaseOf(p).Idle?
  {
    if n > 0 && At(es, n - 1).key.Held? && At(es, n - 1).key.token == p {
      OccupierStarted(es, n - 1, p);
    }
  }

  lemma {:induction false} StartedStays(es: seq<Event>, m: nat, n: nat, p: Token)
    requires m <= n <= |es| && !At(es, m).PhaseOf(p).Idle?
    ensures !At(es, n).PhaseOf(p).Idle?
    decreases n
  {
    if m < n {
      StartedStays(es, m, n - 1, p);
    }
  }

  /** Once a started process has lost the key, it never has it again. */
  lemma {:induction false} LostStaysLost(es: seq<Event>, m: nat, n: nat, p: Token)
    requires m <= n <= |es| && !At(es, m).PhaseOf(p).Idle? && !Occupies(At(es, m), p)
    ensures !Occupies(At(es, n), p)
    decreases n
  {
    if m < n {
      LostStaysLost(es, m, n - 1, p);
      StartedStays(es, m, n - 1, p);
    }
  }

  /** Each token occupies the key for one contiguous stretch of the run. */
  lemma OneInterval(es: seq<Event>, i: nat, j: nat, k: nat, p: Token)
    requires i <= j <= k <= |es| && Occupies(At(es, i), p) && Occupies(At(es, k), p)
    ensures Occupies(At(es, j), p)
  {
    OccupierStarted(es, i, p);
    StartedStays(es, i, j, p);
    if !Occupies(At(es, j), p) {
      LostStaysLost(es, j, k, p);
    }
  }

  /** How far a process has come. */
  function Rank(ph: Phase): nat {
    match ph
    case Idle => 0
    case Holding => 1
    case Stopping => 2
    case Stopped => 3
    case _ => 4
  }

  lemma {:induction false} PhasesMoveForward(es: seq<Event>, m: nat, n: nat, p: Token)
    requires m <= n <= |es|
    ensures Rank(At(es, m).PhaseOf(p)) <= Rank(At(es, n).PhaseOf(p))
    decreases n
  {
    if m < n {
      PhasesMoveForward(es, m, n - 1, p);
    }
  }

  /** The process runs its release script at step `i`. */
  predicate RunsRelease(es: seq<Event>, i: nat, p: Token)
    requires i < |es|
  {
    es[i].Release? && es[i].p == p && At(es, i).PhaseOf(p).Stopped?
  }

  predicate RunsRefresh(es: seq<Event>, i: nat, p: Token)
    requires i < |es|
  {
    es[i].Refresh? && es[i].p == p && At(es, i).Refreshing(p)
  }

  /** The release script runs at most once, and no refresh of the process runs after it. */
  lemma ReleaseIsLast(es: seq<Event>, i: nat, j: nat, p: Token)
    requires i < j < |es| && RunsRelease(es, i, p)
    ensures !RunsRelease(es, j, p) && !RunsRefresh(es, j, p)
  {
    assert At(es, i + 1).PhaseOf(p) == Done;
    PhasesMoveForward(es, i + 1, j, p);
  }

  /** The key never outlives the present by more than one TTL. */
  lemma {:induction false} ExpiryWithinTTL(es: seq<Event>, n: nat)
    requires n <= |es|
    ensures At(es, n).key.Held? ==> At(es, n).key.expiry <= At(es, n).now + TTL
  {
    if n > 0 {
      ExpiryWithinTTL(es, n - 1);
    }
  }

  /** So a lock left behind is free for the next process after one TTL of silence. */
  lemma StaleLockExpires(es: seq<Event>, ms: nat, q: Token)
    requires ms >= TTL && At(es, |es|).PhaseOf(q).Idle?
    ensures var es' := es + [Advance(ms), Acquire(q)]; At(es', |es'|).PhaseOf(q) == Holding
  {
    var n := |es|;
    var es' := es + [Advance(ms), Acquire(q)];
    SamePrefix(es, es', n);
    ExpiryWithinTTL(es, n);
    assert At(es', n + 1) == Apply(At(es', n), Advance(ms));
  }

  /** After a clean release the next process has the lock at once, without waiting for the key to expire. */
  lemma ReleasedLockIsFree(es: seq<Event>, p: Token, q: Token)
    requires At(es, |es|).PhaseOf(p).Stopped? && At(es, |es|).PhaseOf(q).Idle?
    requires At(es, |es|).key.Held? && At(es, |es|).key.token == p
    ensures var es' := es + [Release(p, true), Acquire(q)];
      var s := At(es', |es'|);
      && s.PhaseOf(p) == Done && s.PhaseOf(q) == Holding
      && s.now == At(es, |es|).now && s.key == Held(q, s.now + TTL)
  {
    var n := |es|;
    var es' := es + [Release(p, true), Acquire(q)];
    SamePrefix(es, es', n);
    assert At(es', n + 1) == Apply(At(es', n), Release(p, true)) && At(es', n + 2) == Apply(At(es', n + 1), Acquire(q));
  }

  /** A release that does not reach Redis, or of a process that lost the key, leaves the key as it is: the next process waits. */
  lemma UnreleasedLockHolds(es: seq<Event>, p: Token, reached: bool, q: Token)
    requires At(es, |es|).PhaseOf(p).Stopped? && At(es, |es|).PhaseOf(q).Idle?
    requires At(es, |es|).key.Held? && At(es, |es|).now < At(es, |es|).key.expiry
    requires !reached || At(es, |es|).key.token != p
    ensures var es' := es + [Release(p, reached), Acquire(q)];
      At(es', |es'|).PhaseOf(q) == Refused && At(es', |es'|).key == At(es, |es|).key
  {
    var n := |es|;
    var es' := es + [Release(p, reached), Acquire(q)];
    SamePrefix(es, es', n);
    assert At(es', n + 1) == Apply(At(es', n), Release(p, reached)) && At(es', n + 2) == Apply(At(es', n + 1), Acquire(q));
  }

  /** After a refresh that reached Redis the owner is safe for one whole TTL: whoever comes within it is refused, and no one later. */
  lemma RefreshedLockHolds(es: seq<Event>, p: Token, ms: nat, q: Token)
    requires At(es, |es|).Refreshing(p) && At(es, |es|).PhaseOf(q).Idle?
    requires At(es, |es|).key.Held? && At(es, |es|).key.token == p && At(es, |es|).now < At(es, |es|).key.expiry
    ensures var es' := es + [Refresh(p, true), Advance(ms), Acquire(q)];
      At(es', |es'|).PhaseOf(q) == if ms < TTL then Refused else Holding
  {
    var n := |es|;
    var es' := es + [Refresh(p, true), Advance(ms), Acquire(q)];
    SamePrefix(es, es', n);
    assert At(es', n + 1) == Apply(At(es', n), Refresh(p, true));
    assert At(es', n + 2) == Apply(At(es', n + 1), Advance(ms)) && At(es', n + 3) == Apply(At(es', n + 2), Acquire(q));
  }

  lemma {:induction false} SamePrefix(es: seq<Event>, es': seq<Event>, n: nat)
    requires n <= |es| && es <= es'
    ensures At(es', n) == At(es, n)
  {
    if n > 0 {
      SamePrefix(es, es', n - 1);
    }
  }

  // ---------------------------------------------------------------- when exclusion fails

  /** Any holder that is silent for one whole TTL is joined by the next process that comes. */
  lemma SilentHolderIsJoined(es: seq<Event>, ms: nat, p: Token, q: Token)
    requires At(es, |es|).Active(p) && At(es, |es|).PhaseOf(q).Idle? && ms >= TTL
    ensures var es' := es + [Advance(ms), Acquire(q)];
      p != q && At(es', |es'|).Active(p) && At(es', |es'|).Active(q)
  {
    var n := |es|;
    var es' := es + [Advance(ms), Acquire(q)];
    StaleLockExpires(es, ms, q);
    SamePrefix(es, es', n);
    assert At(es', n + 1) == Apply(At(es', n), Advance(ms)) && At(es', n + 2) == Apply(At(es', n + 1), Acquire(q));
  }

  /**
   The exact condition: after a run that was on time so far, the next process is kept out if and only if every holder
   is on time now.
   */
  lemma ExclusionIffOnTime(es: seq<Event>, n: nat, q: Token)
    requires n <= |es| && (forall k :: 0 <= k < n ==> OnTime(At(es, k))) && At(es, n).PhaseOf(q).Idle?
    ensures OnTime(At(es, n)) <==> forall p :: At(es, n).Active(p) ==> !Apply(At(es, n), Acquire(q)).Active(q)
  {
    KeyStaysTheirs(es, n);
    hide At;
  }
}
