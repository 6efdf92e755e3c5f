/** The authentication middleware and its sweeper, over a table they update in place. */
module AuthMiddleware {
  import opened AuthSpec

  datatype Outcome = TooManyRequests | Accepted | Unauthorized

  const BEARER := "Bearer "

  function TrimPrefix(s: string, prefix: string): string {
    if prefix <= s then s[|prefix|..] else s
  }

  lemma KeyOfHeader(header: string, key: string)
    ensures TrimPrefix(header, BEARER) == key <==>
      header == "Bearer " + key || (header == key && !("Bearer " <= header))
  {
    if "Bearer " <= header {
      assert header == "Bearer " + header[|"Bearer "|..];
    }
  }

  class AuthLockouts {
    var lockouts: Table

    constructor ()
      ensures lockouts == map[]
    {
      lockouts := map[];
    }

    /** The first critical section of a request. */
    method CheckLockout(ip: string, now: int) returns (blocked: bool)
      modifies this
      ensures blocked == Blocked(old(lockouts), ip, now)
      ensures lockouts == Check(old(lockouts), ip, now)
    {
      if ip in lockouts && lockouts[ip].count >= MAX_FAILURES {
        if now - lockouts[ip].lockedAt < LOCKOUT {
          return true;
        }
        lockouts := lockouts - {ip};
      }
      return false;
    }

    /** The section after a valid key. */
    method ClearFailures(ip: string)
      modifies this
      ensures lockouts == Clear(old(lockouts), ip)
      ensures ip !in lockouts && lockouts == old(lockouts) - {ip}
    {
      lockouts := lockouts - {ip};
    }

    /** The section after an invalid key; the clock was read before it. */
    method RecordFailure(ip: string, now: int)
      modifies this
      ensures lockouts == Record(old(lockouts), ip, now)
    {
      if ip !in lockouts {
        lockouts := lockouts[ip := Entry(0, NO_TIME, NO_TIME)];
      }
      var e := lockouts[ip];
      e := e.(count := e.count + 1);
      e := e.(lastSeen := now);
      if e.count >= MAX_FAILURES {
        e := e.(lockedAt := now);
      }
      lockouts := lockouts[ip := e];
    }

    /** One pass of the sweeper, in any order of the table's keys. */
    method SweepOnce(now: int)
      modifies this
      ensures lockouts == Sweep(old(lockouts), now, true)
    {
      ghost var before := lockouts;
      var keys := lockouts.Keys;
      while keys != {}
        invariant keys <= before.Keys
        invariant forall ip :: ip in lockouts <==> ip in before && (ip in keys || ip in Sweep(before, now, true))
        invariant forall ip | ip in lockouts :: lockouts[ip] == before[ip]
        decreases |keys|
      {
        var ip :| ip in keys;
        keys := keys - {ip};
        var e := lockouts[ip];
        if e.count >= MAX_FAILURES && now - e.lockedAt >= LOCKOUT {
          lockouts := lockouts - {ip};
          continue;
        }
        if now - e.lastSeen >= ENTRY_TTL {
          lockouts := lockouts - {ip};
        }
      }
    }

    /** A request that no other request of the client overlaps: its sections in turn. */
    method Authenticate(ip: string, header: string, masterKey: string, checkedAt: int, failedAt: int) returns (outcome: Outcome)
      modifies this
      ensures outcome == TooManyRequests <==>
        ip in old(lockouts) && old(lockouts[ip]).count >= 10 && checkedAt - old(lockouts[ip]).lockedAt < 5 * MINUTE
      ensures outcome == Accepted <==>
        && outcome != TooManyRequests
        && (header == "Bearer " + masterKey || (header == masterKey && !("Bearer " <= header)))
      ensures outcome == Accepted ==> lockouts == old(lockouts) - {ip}
      ensures outcome == Unauthorized ==> ip in lockouts && lockouts[ip].lastSeen == failedAt && lockouts - {ip} == old(lockouts) - {ip}
      ensures lockouts ==
        match outcome
        case TooManyRequests => old(lockouts)
        case Accepted => Clear(old(lockouts), ip)
        case Unauthorized => Record(Check(old(lockouts), ip, checkedAt), ip, failedAt)
    {
      var blocked := CheckLockout(ip, checkedAt);
      if blocked {
        return TooManyRequests;
      }
      var key := TrimPrefix(header, BEARER);
      KeyOfHeader(header, masterKey);
      if key == masterKey {
        ClearFailures(ip);
        return Accepted;
      }
      RecordFailure(ip, failedAt);
      return Unauthorized;
    }
  }
}
