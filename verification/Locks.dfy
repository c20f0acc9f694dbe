// Exclusive branch locks (pkg/server/registry/lock.go).
module Locks {
  import opened Wrappers
  import opened Text
  import opened Federation

  datatype BranchKey = BranchKey(repo: string, branch: string)

  datatype BranchLock = BranchLock(taskId: string, acquiredAt: int)

  datatype LockError = ErrBranchLocked | ErrLockNotOwned

  type Table = map<BranchKey, BranchLock>

  function MakeBranchKey(h: Host, repo: string, branch: string): BranchKey {
    BranchKey(NormalizeRepo(h, repo), TrimSpace(branch))
  }

  // Two spellings lock the same branch exactly when they name one repository, up to case, and one branch,
  // up to white space around it.
  lemma KeyMeaning(h: Host, r: Spelled, branch: string, q: Spelled, other: string, a: string, b: string)
    requires WellSpelled(r) && WellSpelled(q) && h.lower(Name(r)) != "" && h.lower(Name(q)) != ""
    requires Tight(branch) && Tight(other) && Blank(a) && Blank(b)
    ensures Lockable(MakeBranchKey(h, Written(r), branch))
    ensures MakeBranchKey(h, Written(r), branch) == MakeBranchKey(h, Written(q), a + other + b)
      <==> h.lower(Name(r)) == h.lower(Name(q)) && branch == other
  {
    KeySpelled(h, r, "", branch, "");
    assert "" + branch + "" == branch;
    KeySpelled(h, q, a, other, b);
  }

  lemma KeySpelled(h: Host, r: Spelled, a: string, branch: string, b: string)
    requires WellSpelled(r) && Tight(branch) && Blank(a) && Blank(b)
    ensures MakeBranchKey(h, Written(r), a + branch + b) == BranchKey(h.lower(Name(r)), branch)
  {
    SpellingNormalizes(h, r);
    TrimPadded(a, branch, b);
  }

  // Without a repository or a branch there is nothing to lock.
  lemma NothingToLock(h: Host, repo: string, branch: string)
    requires Blank(repo) || Blank(branch)
    ensures !Lockable(MakeBranchKey(h, repo, branch))
  {
    if Blank(repo) {
      NoRepository(h, repo, repo);
    } else {
      TrimPadded(branch, "", "");
      assert branch + "" + "" == branch;
    }
  }

  // A key with an empty half names nothing that can be locked.
  predicate Lockable(key: BranchKey) {
    key.repo != "" && key.branch != ""
  }

  predicate HeldBy(t: Table, key: BranchKey, taskId: string) {
    key in t && t[key].taskId == taskId
  }

  predicate HeldByOther(t: Table, key: BranchKey, taskId: string) {
    key in t && t[key].taskId != taskId
  }

  function Claimed(t: Table, key: BranchKey, taskId: string, now: int): Table {
    if Lockable(key) && !HeldByOther(t, key, taskId) then t[key := BranchLock(taskId, now)] else t
  }

  function Released(t: Table, key: BranchKey, taskId: string): Table {
    if Lockable(key) && HeldBy(t, key, taskId) then t - {key} else t
  }

  class BranchLockManager {
    const host: Host
    var locks: Table

    constructor (host: Host)
      ensures this.host == host && locks == map[]
    {
      this.host, locks := host, map[];
    }

    // Refused iff another task holds the key; otherwise the caller holds it (empty keys lock nothing).
    method ClaimLock(repo: string, branch: string, taskId: string, now: int) returns (err: Option<LockError>)
      modifies this`locks
      ensures var key := MakeBranchKey(host, repo, branch);
        && locks == Claimed(old(locks), key, taskId, now)
        && err == (if Lockable(key) && HeldByOther(old(locks), key, taskId) then Some(ErrBranchLocked) else None)
        && (err.None? && Lockable(key) ==> HeldBy(locks, key, taskId))
        && (forall k :: k != key ==> (k in locks <==> k in old(locks)) && (k in locks ==> locks[k] == old(locks)[k]))
      ensures var key := MakeBranchKey(host, repo, branch);
        && (err.None? && key.repo != "" && key.branch != "" ==> key in locks && locks[key] == BranchLock(taskId, now))
        && (err.Some? || key.repo == "" || key.branch == "" ==> locks == old(locks))
        && (err.Some? <==> key.repo != "" && key.branch != "" && key in old(locks) && old(locks)[key].taskId != taskId)
    {
      var key := MakeBranchKey(host, repo, branch);
      if key.repo == "" || key.branch == "" {
        return None;
      }
      if key in locks {
        if locks[key].taskId != taskId {
          return Some(ErrBranchLocked);
        }
        locks := locks[key := BranchLock(taskId, now)];
        return None;
      }
      locks := locks[key := BranchLock(taskId, now)];
      return None;
    }

    // Only the owner's release frees the key.
    method ReleaseLock(repo: string, branch: string, taskId: string) returns (err: Option<LockError>)
      modifies this`locks
      ensures var key := MakeBranchKey(host, repo, branch);
        && locks == Released(old(locks), key, taskId)
        && err == (if Lockable(key) && HeldByOther(old(locks), key, taskId) then Some(ErrLockNotOwned) else None)
        && (forall k, other :: other != taskId && HeldBy(old(locks), k, other) ==> HeldBy(locks, k, other))
      ensures var key := MakeBranchKey(host, repo, branch);
        && (err.None? && key.repo != "" && key.branch != "" ==> locks == old(locks) - {key})
        && (err.Some? || key.repo == "" || key.branch == "" ==> locks == old(locks))
        && (err.Some? <==> key.repo != "" && key.branch != "" && key in old(locks) && old(locks)[key].taskId != taskId)
    {
      var key := MakeBranchKey(host, repo, branch);
      if key.repo == "" || key.branch == "" {
        return None;
      }
      if key !in locks {
        return None;
      }
      if locks[key].taskId != taskId {
        return Some(ErrLockNotOwned);
      }
      locks := locks - {key};
      return None;
    }

    method GetLock(repo: string, branch: string) returns (lock: Option<BranchLock>)
      ensures var key := MakeBranchKey(host, repo, branch);
        lock == if key.repo != "" && key.branch != "" && key in locks then Some(locks[key]) else None
    {
      var key := MakeBranchKey(host, repo, branch);
      if key.repo == "" || key.branch == "" {
        return None;
      }
      return if key in locks then Some(locks[key]) else None;
    }
  }

  // A claim by one task on a free key, undone by its own release, restores the table; between the two every
  // other task's claim is refused and every other task's release changes nothing.
  lemma ClaimThenRelease(t: Table, key: BranchKey, taskId: string, other: string, now: int, later: int)
    requires Lockable(key) && key !in t && other != taskId
    ensures Released(Claimed(t, key, taskId, now), key, taskId) == t
    ensures Claimed(Claimed(t, key, taskId, now), key, other, later) == Claimed(t, key, taskId, now)
    ensures Released(Claimed(t, key, taskId, now), key, other) == Claimed(t, key, taskId, now)
  {
    assert t[key := BranchLock(taskId, now)] - {key} == t;
  }
}
