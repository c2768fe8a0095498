/** The lock table (pkg/concurrency/locking.go). The id is its primary key. */
module LocksService {

  /** `SELECT count(*) ... WHERE id = id AND expires > now` is positive. */
  predicate IsLocked(locks: map<string, int>, id: string, now: int) {
    id in locks && locks[id] > now
  }

  /** `DELETE ... WHERE expires < now`. */
  function Unexpired(locks: map<string, int>, now: int): map<string, int> {
    map id | id in locks && locks[id] >= now :: locks[id]
  }

  /** The table after `Lock`, and whether the lock was granted: look, perhaps clean up, insert. */
  function LockEffect(locks: map<string, int>, id: string, now: int, howLong: int, queryFails: bool, cleansUp: bool,
      insertFails: bool)
    : (map<string, int>, bool)
  {
    var left := if cleansUp then Unexpired(locks, now) else locks;
    if (!queryFails && IsLocked(locks, id, now)) || id in left || insertFails then (left, false)
    else (left[id := now + howLong], true)
  }

  class Locks {
    var locks: map<string, int>

    constructor ()
      ensures locks == map[]
    {
      locks := map[];
    }

    /** `isLockedAlready`: a failed query counts as not locked; the clean-up runs now and then. */
    method IsLockedAlready(id: string, now: int, queryFails: bool, cleansUp: bool, cleanUpNow: int)
        returns (result: bool)
      modifies this
      ensures result <==> !queryFails && IsLocked(old(locks), id, now)
      ensures locks == if cleansUp then Unexpired(old(locks), cleanUpNow) else old(locks)
    {
      result := !queryFails && IsLocked(locks, id, now);
      if cleansUp {
        locks := Unexpired(locks, cleanUpNow);
      }
    }

    /** `addLock`: the insert is refused when the id has a row, expired or not. */
    method AddLock(id: string, expiration: int, insertFails: bool) returns (ok: bool)
      modifies this
      ensures ok <==> id !in old(locks) && !insertFails
      ensures locks == if ok then old(locks)[id := expiration] else old(locks)
    {
      ok := id !in locks && !insertFails;
      if ok {
        locks := locks[id := expiration];
      }
    }

    /** `Lock`, undisturbed: granted exactly when the id has no row, or an expired one that this very call cleans up. */
    method Lock(id: string, now: int, howLong: int, queryFails: bool, cleansUp: bool, insertFails: bool)
        returns (granted: bool)
      modifies this
      ensures (locks, granted) == LockEffect(old(locks), id, now, howLong, queryFails, cleansUp, insertFails)
      ensures granted <==> !insertFails && (id in old(locks) ==> cleansUp && old(locks)[id] < now)
      ensures granted ==> id in locks && locks[id] == now + howLong
      ensures forall other :: other != id ==>
              (other in locks <==> other in old(locks) && (cleansUp ==> old(locks)[other] >= now))
      ensures forall other :: other != id && other in locks ==> locks[other] == old(locks)[other]
    {
      var already := IsLockedAlready(id, now, queryFails, cleansUp, now);
      if already {
        return false;
      }
      granted := AddLock(id, now + howLong, insertFails);
    }

    /** `unlock`. */
    method Unlock(id: string, deleteFails: bool)
      modifies this
      ensures locks == if deleteFails then old(locks) else old(locks) - {id}
    {
      if !deleteFails {
        locks := locks - {id};
      }
    }
  }
}
