/**
 * The lock stack (rules/lock): a per-process map lock around a session lock in etcd, optionally
 * behind a cool-off lock. The step functions here are shared with the worker protocol.
 */
module Locks {
  import opened Base

  /** An etcd session and the process it belongs to. */
  datatype Session = Session(id: nat, process: nat)

  /** The etcd mutexes: each locked key and the session that owns it. */
  type Owners = map<string, Session>

  // ---------------------------------------------------------------------------
  // Steps

  /** A toggle of the map lock: what is locked afterwards, and whether the call was granted. */
  function Toggled(m: set<string>, key: string, lock: bool): (set<string>, bool) {
    (if lock then m + {key} else m - {key}, !(lock && key in m))
  }

  /** A session may take a free key, and a key that it owns already. */
  predicate CanAcquire(owners: Owners, key: string, s: Session) {
    key !in owners || owners[key] == s
  }

  function Release(owners: Owners, key: string, s: Session): Owners {
    if key in owners && owners[key] == s then owners - {key} else owners
  }

  /**
   * What a failed acquisition may leave behind: nothing, the key taken although the answer was
   * lost, or the key given back that the session owned before.
   */
  ghost predicate FailureOutcome(owners: Owners, live: set<Session>, key: string, s: Session, after: Owners) {
    || after == owners
    || (s in live && key !in owners && after == owners[key := s])
    || after == Release(owners, key, s)
  }

  /**
   * Acquiring and releasing restores the mutexes only for a key that was free. The session lock is
   * reentrant but does not count: releasing a key that the session owned already gives it away.
   */
  lemma ReentryLosesKey(owners: Owners, key: string, s: Session)
    requires CanAcquire(owners, key, s)
    ensures Release(owners[key := s], key, s) == owners <==> key !in owners
    ensures key !in Release(owners[key := s], key, s)
  {
    assert owners[key := s] - {key} == owners - {key};
  }

  // ---------------------------------------------------------------------------
  // rules/lock/map_locker.go

  datatype Call = Call(key: string, lock: bool)

  /** Whether the last call on a key was a lock. */
  ghost predicate LastLocks(calls: seq<Call>, key: string) {
    calls != [] && var n := |calls| - 1; if calls[n].key == key then calls[n].lock else LastLocks(calls[..n], key)
  }

  class MapLocker {
    var m: set<string>
    ghost var calls: seq<Call>

    /** A key is locked exactly if the last call on it was a lock, granted or refused. */
    ghost predicate Valid()
      reads this
    {
      forall key :: key in m <==> LastLocks(calls, key)
    }

    constructor ()
      ensures Valid() && m == {} && calls == []
    {
      m, calls := {}, [];
    }

    /** A lock is granted exactly if the last call on its key was not a lock; an unlock always is. */
    method Toggle(key: string, lock: bool) returns (ok: bool)
      requires Valid()
      modifies this
      ensures Valid() && calls == old(calls) + [Call(key, lock)]
      ensures ok <==> !(lock && LastLocks(old(calls), key))
      ensures m == if lock then old(m) + {key} else old(m) - {key}
    {
      calls := calls + [Call(key, lock)];
      assert calls[..|calls| - 1] == old(calls);
      if key in m {
        if !lock { m := m - {key}; }
        return !lock;
      }
      if lock { m := m + {key}; }
      return true;
    }
  }

  // ---------------------------------------------------------------------------
  // rules/lock/lock.go

  datatype CloseResult = Closed | LeaseNotFound | CloseFailed

  const UNLOCK_MAX_RETRIES: nat := 5

  class Etcd {
    var owners: Owners
    var live: set<Session>

    constructor (live: set<Session>)
      ensures owners == map[] && this.live == live
    {
      owners := map[];
      this.live := live;
    }

    /**
     * `lockWithTimeout`, given the session it obtained; answered says whether etcd's answer came in
     * time, and left what a failed call leaves behind.
     */
    method Lock(key: string, session: Option<Session>, answered: bool, left: Owners) returns (ok: bool)
      requires session.Some? ==> FailureOutcome(owners, live, key, session.value, left)
      modifies this`owners
      ensures ok <==>
        && session.Some? && answered && session.value in live
        && (key !in old(owners) || old(owners)[key] == session.value)
      ensures ok ==> owners == old(owners)[key := session.value]
      ensures !ok ==> owners == if session.Some? then left else old(owners)
      ensures forall k :: k != key ==>
        (k in owners <==> k in old(owners)) && (k in owners ==> owners[k] == old(owners)[k])
    {
      if session.None? { return false; }
      var s := session.value;
      if !answered || s !in live || !CanAcquire(owners, key, s) {
        owners := left;
        return false;
      }
      owners := owners[key := s];
      return true;
    }

    /**
     * `v3Lock.Unlock`: up to five attempts, each either reaching etcd or not, and then, when the
     * session is the lock's own, closing it whatever became of the attempts.
     */
    method Unlock(key: string, s: Session, attempts: seq<bool>, close: Option<CloseResult>) returns (ok: bool)
      requires |attempts| >= 5
      modifies this
      ensures var released := true in attempts[..5];
        && (ok <==> released && close != Some(CloseFailed))
        && (close == None ==>
              live == old(live) && owners == if released then Release(old(owners), key, s) else old(owners))
        && (close == Some(CloseFailed) ==> live == old(live))
        && (close == Some(Closed) || close == Some(LeaseNotFound) ==>
              live == old(live) - {s} && forall k :: k in owners <==> k in old(owners) && old(owners)[k] != s)
      ensures forall k :: k in owners ==> k in old(owners) && owners[k] == old(owners)[k]
    {
      var released := false;
      var i := 0;
      while i < UNLOCK_MAX_RETRIES && !released
        invariant 0 <= i <= UNLOCK_MAX_RETRIES
        invariant released <==> true in attempts[..i]
        invariant owners == if released then Release(old(owners), key, s) else old(owners)
        invariant live == old(live)
      {
        if attempts[i] {
          owners := Release(owners, key, s);
          released := true;
        }
        i := i + 1;
        assert attempts[..i] == attempts[..i - 1] + [attempts[i - 1]];
      }
      assert released <==> true in attempts[..UNLOCK_MAX_RETRIES] by {
        assert attempts[..i] == attempts[..UNLOCK_MAX_RETRIES][..i];
      }
      ok := released;
      match close {
        case None =>
        case Some(CloseFailed) => ok := false;
        case Some(_) =>
          // The lease is gone, and with it every key the session still owned.
          live := live - {s};
          owners := map k | k in owners && owners[k] != s :: owners[k];
      }
    }
  }

  // ---------------------------------------------------------------------------
  // rules/lock/nested_lock.go

  class NestedLocker {
    const own: MapLocker
    const nested: Etcd

    constructor (outer: MapLocker, inner: Etcd)
      ensures own == outer && nested == inner
    {
      own, nested := outer, inner;
    }

    /**
     * The outer lock first; a busy outer lock leaves etcd alone, and an inner failure gives the
     * outer lock back.
     */
    method Lock(key: string, session: Option<Session>, answered: bool, left: Owners) returns (ok: bool)
      requires own.Valid() && (session.Some? ==> FailureOutcome(nested.owners, nested.live, key, session.value, left))
      modifies own, nested`owners
      ensures own.Valid()
      ensures ok <==>
        && key !in old(own.m) && session.Some? && answered
        && session.value in nested.live && (key in old(nested.owners) ==> old(nested.owners)[key] == session.value)
      ensures ok ==> own.m == old(own.m) + {key} && nested.owners == old(nested.owners)[key := session.value]
      ensures !ok ==> own.m == old(own.m)
      ensures !ok ==> nested.owners == if key !in old(own.m) && session.Some? then left else old(nested.owners)
    {
      ok := own.Toggle(key, true);
      if !ok { return false; }
      ok := nested.Lock(key, session, answered, left);
      if !ok {
        var _ := own.Toggle(key, false);
        assert own.m == old(own.m);
      }
    }

    /** The inner lock first, then always the outer one; the inner error takes precedence. */
    method Unlock(key: string, s: Session, attempts: seq<bool>) returns (ok: bool)
      requires own.Valid() && |attempts| >= 5
      modifies own, nested
      ensures own.Valid() && own.m == old(own.m) - {key}
      ensures ok <==> true in attempts[..5]
      ensures nested.owners == if ok then Release(old(nested.owners), key, s) else old(nested.owners)
      ensures nested.live == old(nested.live)
    {
      ok := nested.Unlock(key, s, attempts, None);
      var _ := own.Toggle(key, false);
    }
  }

  // ---------------------------------------------------------------------------
  // rules/lock/cooloff_lock.go

  datatype Attempt = Attempt(key: string, at: int)

  ghost predicate Ordered(history: seq<Attempt>, clock: int) {
    && (forall i, j :: 0 <= i < j < |history| ==> history[i].at <= history[j].at)
    && forall i :: 0 <= i < |history| ==> history[i].at <= clock
  }

  /** The latest attempt on a key. */
  ghost function Latest(history: seq<Attempt>, key: string): Option<int> {
    if history == [] then None
    else
      var n := |history| - 1;
      if history[n].key == key then Some(history[n].at) else Latest(history[..n], key)
  }

  lemma {:induction false} LatestIsLatest(history: seq<Attempt>, clock: int, key: string)
    requires Ordered(history, clock)
    ensures Latest(history, key).None? <==> forall i :: 0 <= i < |history| ==> history[i].key != key
    ensures Latest(history, key).Some? ==>
      && (exists i :: 0 <= i < |history| && history[i] == Attempt(key, Latest(history, key).value))
      && forall i :: 0 <= i < |history| && history[i].key == key ==> history[i].at <= Latest(history, key).value
    decreases |history|
  {
    if history != [] {
      var n := |history| - 1;
      var init := history[..n];
      assert forall i :: 0 <= i < n ==> init[i] == history[i];
      LatestIsLatest(init, clock, key);
      if history[n].key == key { assert history[n] == Attempt(key, Latest(history, key).value); }
    }
  }

  lemma LatestAfter(history: seq<Attempt>, key: string, now: int)
    ensures forall k :: Latest(history + [Attempt(key, now)], k) == if k == key then Some(now) else Latest(history, k)
  {
    var after := history + [Attempt(key, now)];
    assert after[..|history|] == history;
  }

  class CoolOffLocker {
    const coolOffDuration: int
    var locks: map<string, int>
    ghost var history: seq<Attempt>
    ghost var clock: int

    /** An entry is the expiry of its key's latest attempt; a missing entry has expired. */
    ghost predicate Valid()
      reads this
    {
      && Ordered(history, clock)
      && (forall k :: k in locks ==> Latest(history, k).Some? && locks[k] == Latest(history, k).value + coolOffDuration)
      && (forall k :: k !in locks && Latest(history, k).Some? ==> Latest(history, k).value + coolOffDuration < clock)
    }

    constructor (expiration: int, now: int)
      ensures Valid() && history == [] && clock == now && coolOffDuration == expiration
    {
      coolOffDuration := expiration;
      locks, history, clock := map[], [], now;
    }

    /**
     * Succeeds exactly when every earlier attempt on the key, successful or not, has cooled off,
     * although expired entries of all keys are purged on every call.
     */
    method Lock(key: string, now: int) returns (ok: bool)
      requires Valid() && clock <= now
      modifies this
      ensures Valid() && clock == now && history == old(history) + [Attempt(key, now)]
      ensures ok <==>
        forall i :: 0 <= i < |old(history)| && old(history)[i].key == key ==> old(history)[i].at + coolOffDuration < now
    {
      hide Latest;
      var kept := Purge(locks, now);
      LatestIsLatest(history, clock, key);
      LatestAfter(history, key, now);
      ok := key !in kept;
      locks := kept[key := now + coolOffDuration];
      history, clock := history + [Attempt(key, now)], now;
    }
  }

  /** Collects the expired keys and then deletes them. */
  method Purge(locks: map<string, int>, now: int) returns (kept: map<string, int>)
    ensures kept == map k | k in locks && locks[k] >= now :: locks[k]
  {
    var toDelete, todo := {}, locks.Keys;
    while todo != {}
      invariant todo <= locks.Keys
      invariant toDelete == set k | k in locks && k !in todo && now > locks[k]
      decreases todo
    {
      var k :| k in todo;
      if now > locks[k] { toDelete := toDelete + {k}; }
      todo := todo - {k};
    }
    kept := locks - toDelete;
  }
}
