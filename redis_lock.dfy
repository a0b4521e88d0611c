/** The Redis lock primitive (dao/redis/lock.go): two Lua scripts over the key store, a
    set-if-absent that takes the lock and a compare-and-delete that frees it. The key's expiry
    is left out, so the store is a map from keys to values. Whether the script evaluation
    itself succeeds is a parameter (`scriptOk`). */
module RedisLock {
  import opened Wrappers

  /** The error AcquireLock and ReleaseLock wrap around a failed script evaluation. */
  datatype LockError = ScriptFailed

  /** The key store after a call, the boolean the call returns, and its error. */
  datatype LockReply = LockReply(store: map<string, string>, ok: bool, err: Option<LockError>)

  /** AcquireLock: SETNX the key to the caller's value; the lock is taken exactly when the
      key was absent. */
  function Acquire(kv: map<string, string>, key: string, value: string, scriptOk: bool): (r: LockReply)
    ensures !scriptOk ==> r == LockReply(kv, false, Some(ScriptFailed))
    ensures scriptOk ==> r.err == None && (r.ok <==> key !in kv)
    ensures r.ok ==> key in r.store && r.store[key] == value
    ensures !r.ok ==> r.store == kv
    ensures r.store - {key} == kv - {key}
  {
    if !scriptOk then LockReply(kv, false, Some(ScriptFailed))
    else if key !in kv then LockReply(kv[key := value], true, None)
    else LockReply(kv, false, None)
  }

  /** ReleaseLock: delete the key only when it holds the caller's value. */
  function Release(kv: map<string, string>, key: string, value: string, scriptOk: bool): (r: LockReply)
    ensures !scriptOk ==> r == LockReply(kv, false, Some(ScriptFailed))
    ensures scriptOk ==> r.err == None && (r.ok <==> key in kv && kv[key] == value)
    ensures r.ok ==> key !in r.store
    ensures !r.ok ==> r.store == kv
    ensures r.store - {key} == kv - {key}
  {
    if !scriptOk then LockReply(kv, false, Some(ScriptFailed))
    else if key in kv && kv[key] == value then LockReply(kv - {key}, true, None)
    else LockReply(kv, false, None)
  }

  /** Taking a free lock and releasing it with the same value gives back the store it started
      from, and a second release finds nothing to free. */
  lemma AcquireThenReleaseRestores(kv: map<string, string>, key: string, value: string)
    requires key !in kv
    ensures var taken := Acquire(kv, key, value, true);
      var freed := Release(taken.store, key, value, true);
      taken.ok && freed.ok && freed.store == kv && !Release(freed.store, key, value, true).ok
  {
  }

  /** While one caller holds the lock, a caller with another value can neither take it nor
      free it, and the holder's value stays in place. */
  lemma OnlyOwnerReleases(kv: map<string, string>, key: string, owner: string, other: string)
    requires key !in kv && other != owner
    ensures var held := Acquire(kv, key, owner, true).store;
      !Acquire(held, key, other, true).ok && Acquire(held, key, other, true).store == held &&
      !Release(held, key, other, true).ok && Release(held, key, other, true).store == held &&
      held[key] == owner
  {
  }

  /** The key store the two scripts run against. */
  class LockStore {
    var store: map<string, string>

    constructor ()
      ensures store == map[]
    {
      store := map[];
    }

    method AcquireLock(lockKey: string, lockValue: string, scriptOk: bool) returns (acquired: bool, err: Option<LockError>)
      modifies this
      ensures LockReply(store, acquired, err) == Acquire(old(store), lockKey, lockValue, scriptOk)
    {
      if !scriptOk {
        return false, Some(ScriptFailed);
      }
      var result: int;
      if lockKey !in store {
        store := store[lockKey := lockValue];
        // EXPIRE on the key just set answers 1
        result := 1;
      } else {
        result := 0;
      }
      acquired, err := result == 1, None;
    }

    method ReleaseLock(lockKey: string, lockValue: string, scriptOk: bool) returns (released: bool, err: Option<LockError>)
      modifies this
      ensures LockReply(store, released, err) == Release(old(store), lockKey, lockValue, scriptOk)
    {
      if !scriptOk {
        return false, Some(ScriptFailed);
      }
      var result: int;
      if lockKey in store && store[lockKey] == lockValue {
        store := store - {lockKey};
        result := 1;
      } else {
        result := 0;
      }
      released, err := result == 1, None;
    }
  }
}
