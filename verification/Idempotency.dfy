/** The cache of claimed packet hashes, with its timed eviction. */
module Idempotency {
  import opened Types

  const TTL_SECONDS := 86400

  type Cache = map<string, int> // hash -> epoch milliseconds of the claim

  function Claim(seen: Cache, hash: string, now: int): Cache {
    if hash in seen then seen else seen[hash := now]
  }

  /** Only entries strictly older than the cutoff go. */
  function Evict(seen: Cache, now: int): Cache {
    map h | h in seen && seen[h] >= now - TTL_SECONDS * 1000 :: seen[h]
  }

  class IdempotencyService {
    var seen: Cache

    constructor ()
      ensures seen == map[]
    {
      seen := map[];
    }

    method Claim(hash: string, now: int) returns (inserted: bool)
      modifies this
      ensures inserted <==> hash !in old(seen)
      ensures seen == if inserted then old(seen)[hash := now] else old(seen)
    {
      inserted := hash !in seen;
      if inserted {
        seen := seen[hash := now];
      }
    }

    method Size() returns (n: int)
      ensures n == |seen|
    {
      n := |seen|;
    }

    method Clear()
      modifies this
      ensures seen == map[]
    {
      seen := map[];
    }

    /** One pass of the evictor: visits the entries in any order and erases while it iterates. */
    method EvictExpired(now: int)
      modifies this
      ensures seen == Evict(old(seen), now)
    {
      var cutoffMillis := now - TTL_SECONDS * 1000;
      var ahead := seen.Keys;
      while ahead != {}
        invariant ahead <= seen.Keys <= old(seen).Keys
        invariant forall h :: h in seen ==> seen[h] == old(seen)[h]
        invariant forall h :: h in old(seen) && h !in ahead ==> (h in seen <==> old(seen)[h] >= cutoffMillis)
        decreases |ahead|
      {
        var h :| h in ahead;
        if seen[h] < cutoffMillis {
          seen := seen - {h};
        }
        ahead := ahead - {h};
      }
      assert seen.Keys == Evict(old(seen), now).Keys;
    }
  }
}
