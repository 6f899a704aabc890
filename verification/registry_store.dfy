/** `Registry`: tables and cache updated in place, proved against `Registry`.  One method is one transaction. */
module RegistryStores {
  import opened Options
  import opened Registry

  class RegistryStore {
    var robots: map<string, Credential>
    var tokens: map<string, Token>
    var cache: map<string, Credential>
    var fetched: map<nat, map<string, Credential>>
    var issued: nat
    var redeemed: seq<nat>

    function Value(): Tables
      reads this
    {
      Tables(robots, tokens, cache, fetched, issued, redeemed)
    }

    constructor ()
      ensures Value() == EMPTY
    {
      robots, tokens, cache, fetched, issued, redeemed := map[], map[], map[], map[], 0, [];
    }

    method SpendTokens(robot: string)
      modifies `tokens
      ensures tokens == Spent(old(tokens), robot)
    {
      var todo := tokens.Keys;
      while todo != {}
        invariant todo <= tokens.Keys == old(tokens).Keys
        invariant forall t :: t in todo ==> tokens[t] == old(tokens)[t]
        invariant forall t :: t in tokens.Keys - todo ==> tokens[t] == Spent(old(tokens), robot)[t]
        decreases |todo|
      {
        var t :| t in todo;
        if tokens[t].robot == robot && !tokens[t].used {
          tokens := tokens[t := tokens[t].(used := true)];
        }
        todo := todo - {t};
      }
    }

    method CreateRobot(robot: string, token: string, expires: real) returns (o: Outcome)
      modifies this
      ensures (Value(), o) == Created(old(Value()), robot, token, expires)
    {
      if robot in robots || token in tokens {
        return Refused;
      }
      robots := robots[robot := Credential(None, false)];
      o := IssueToken(robot, token, expires);
    }

    /** Replaces any outstanding token of the robot. */
    method IssueToken(robot: string, token: string, expires: real) returns (o: Outcome)
      modifies `tokens, `issued
      ensures (Value(), o) == Issued(old(Value()), robot, token, expires)
    {
      if token in tokens {
        return Refused;
      }
      SpendTokens(robot);
      tokens := tokens[token := Token(robot, expires, false, issued)];
      issued := issued + 1;
      return Done;
    }

    method Enroll(typed: string, now: real, secret: string) returns (o: Outcome)
      modifies this
      ensures (Value(), o) == Enrolled(old(Value()), typed, now, secret)
    {
      hide Normalised;
      var token := Normalised(typed);
      if token !in tokens {
        return UnknownToken;
      }
      var row := tokens[token];
      if row.used {
        return AlreadyUsed;
      }
      if row.expires < now {
        return Expired;
      }
      if row.robot in robots {
        robots := robots[row.robot := Credential(Some(Hash(secret)), false)];
      }
      tokens := tokens[token := row.(used := true)];
      redeemed := redeemed + [row.serial];
      return Done;
    }

    method Revoke(robot: string)
      modifies this
      ensures Value() == Revoked(old(Value()), robot)
    {
      if robot in robots {
        robots := robots[robot := Credential(None, true)];
      }
      SpendTokens(robot);
    }

    method Delete(robot: string)
      modifies this
      ensures Value() == Deleted(old(Value()), robot)
    {
      tokens := map t | t in tokens && tokens[t].robot != robot :: tokens[t];
      robots := robots - {robot};
    }

    /** `refresh_cache` up to its query's result, under a number of its own. */
    method FetchRows(n: nat)
      modifies `fetched
      ensures Value() == Fetched(old(Value()), n)
    {
      fetched := fetched[n := robots];
    }

    /** The rest of that `refresh_cache`. */
    method InstallRows(n: nat)
      requires n in fetched
      modifies `cache, `fetched
      ensures Value() == Installed(old(Value()), n)
    {
      cache := fetched[n];
      fetched := fetched - {n};
    }

    /** The broker's check on CONNECT; reads the cache alone. */
    method VerifyCached(username: string, password: string) returns (ok: bool)
      ensures ok == Verified(cache, username, password)
    {
      if username !in cache {
        return false;
      }
      var entry := cache[username];
      if entry.revoked || entry.hash.None? {
        return false;
      }
      return Hash(password) == entry.hash.value;
    }
  }
}
