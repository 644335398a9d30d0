/**
 The server's single-flight leases, as the lock-protected table it keeps.

 A runner that misses the cache asks for the key's lease. The first one owns
 it and compiles; the others wait and ask again, and find the result if the
 owner published one before it gave the lease up. A lease that ran out of time
 no longer counts, and only its own token gives a lease up early.
 */
module LeaseTable {
  import opened Relay

  datatype LeaseReply = Wait(retryAfterMs: nat, expires: nat) | Owned(token: Token, expires: nat)

  class Leases {
    var table: map<Key, Lease>

    constructor ()
      ensures table == map[]
    {
      table := map[];
    }

    /** Leases past their time go first; a running one makes the caller wait
        and stays as it is. */
    method Acquire(client: string, key: Key, ttl: nat, now: nat) returns (reply: LeaseReply)
      modifies this
      ensures key in Running(old(table), now) ==> reply == Wait(150, old(table)[key].expires) && table == Running(old(table), now)
      ensures key !in Running(old(table), now) ==>
        reply.Owned? && table == Running(old(table), now)[key := Lease(reply.token, reply.expires)]
      ensures reply.Owned? ==> reply.token == Token(client, key, now) && reply.expires == now + Clamp(ttl) > now
    {
      Retain(now);
      if key in table {
        return Wait(150, table[key].expires);
      }
      var expires := now + Clamp(ttl);
      var token := Token(client, key, now);
      table := table[key := Lease(token, expires)];
      reply := Owned(token, expires);
    }

    method Retain(now: nat)
      modifies this
      ensures table == Running(old(table), now)
    {
      ghost var before := table;
      var keys := table.Keys;
      while keys != {}
        invariant keys <= table.Keys <= before.Keys
        invariant forall k :: k in table ==> table[k] == before[k]
        invariant forall k :: k in before && k !in keys ==> (k in table <==> before[k].expires > now)
        decreases |keys|
      {
        var k :| k in keys;
        if table[k].expires <= now {
          table := table - {k};
        }
        keys := keys - {k};
      }
    }

    /** Only the token that was given removes the lease. */
    method Release(token: Token) returns (found: bool)
      modifies this
      ensures table == Dropped(old(table), token)
      ensures found <==> token.key in old(table) && old(table)[token.key].token == token
    {
      found := token.key in table && table[token.key].token == token;
      if found {
        table := table - {token.key};
      }
    }
  }
}
