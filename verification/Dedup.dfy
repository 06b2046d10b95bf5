/** The in-memory store of seen keys, with a time to live. */
module Dedup {
  import opened Schemas

  const DAY: int := 24 * HOUR

  /** A key counts as seen for less than `ttl` after it was recorded; a hit does not renew it. */
  function Check(seen: map<string, int>, ttl: int, key: string, now: int): (r: (bool, map<string, int>))
    ensures r.0 <==> key in seen && now < seen[key] + ttl
    ensures r.0 ==> r.1 == seen
    ensures !r.0 ==> r.1 == seen[key := now]
  {
    if key in seen && now - seen[key] < ttl then (true, seen) else (false, seen[key := now])
  }

  class MemoryStore {
    var seen: map<string, int>
    const ttl: int

    constructor (ttl: int)
      ensures seen == map[] && this.ttl == if ttl == 0 then DAY else ttl
    {
      seen := map[];
      this.ttl := if ttl == 0 then DAY else ttl;
    }

    method Seen(key: string, now: int) returns (dup: bool)
      modifies this
      ensures (dup, seen) == Check(old(seen), ttl, key, now)
    {
      if key in seen && now - seen[key] < ttl {
        return true;
      }
      seen := seen[key := now];
      dup := false;
    }
  }
}
