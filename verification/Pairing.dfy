/** The pairing manager and the token table as they change in place, proved
    against PairingSpec. */
module Pairing {
  import opened Text
  import opened PairingSpec

  class TokenTable {
    var rows: seq<Token>

    constructor ()
      ensures rows == []
    {
      rows := [];
    }

    method AddClientToken(device: string, hash: string, healthy: bool) returns (ok: bool)
      modifies this
      ensures (rows, ok) == AddToken(old(rows), device, hash, healthy)
    {
      if Blank(device) || ByteLen(device) > 64 || HasControl(device) {
        return false;
      }
      if !healthy {
        return false;
      }
      var i := 0;
      while i < |rows|
        invariant 0 <= i <= |rows|
        invariant forall j | 0 <= j < i :: rows[j].hash != hash
      {
        if rows[i].hash == hash {
          return false;  // UNIQUE constraint on token_hash
        }
        i := i + 1;
      }
      rows := rows + [Token(device, hash, false)];
      ok := true;
    }

    method ClientTokenValid(hash: string) returns (ok: bool)
      ensures ok == TokenValid(rows, hash)
    {
      ok := false;
      for i := 0 to |rows|
        invariant !ok && forall j | 0 <= j < i :: !(rows[j].hash == hash && !rows[j].revoked)
      {
        if rows[i].hash == hash && !rows[i].revoked {
          return true;
        }
      }
    }

    method RevokeClientToken(id: int) returns (changed: bool)
      modifies this
      ensures (rows, changed) == RevokeToken(old(rows), id)
    {
      changed := 1 <= id <= |rows| && !rows[id - 1].revoked;
      if changed {
        rows := rows[id - 1 := rows[id - 1].(revoked := true)];
      }
    }
  }

  class PairingManager {
    var requests: map<string, Request>
    const store: TokenTable
    ghost var issued: set<string>

    ghost function Now(): State
      reads this, store
    {
      State(requests, store.rows, issued)
    }

    constructor (table: TokenTable)
      requires table.rows == []
      ensures store == table && Now() == EMPTY
    {
      requests, store, issued := map[], table, {};
    }

    /** Forgets outcomes a lifetime after expiry and expires overdue requests. */
    method ExpirePass(now: int)
      modifies this`requests
      ensures requests == Expire(old(requests), now)
    {
      var all := requests;
      var ids := requests.Keys;
      while ids != {}
        invariant ids <= all.Keys
        invariant forall id | id in requests :: id in all
        invariant forall id | id in all && id in ids :: id in requests && requests[id] == all[id]
        invariant forall id | id in all && id !in ids :: id in requests <==> Stays(all[id], now)
        invariant forall id | id in all && id !in ids && id in requests :: requests[id] == Aged(all[id], now)
        decreases |ids|
      {
        var id :| id in ids;
        ids := ids - {id};
        var request := requests[id];
        if now >= request.expires + LIFETIME {
          requests := requests - {id};
        } else if now >= request.expires && request.status == Pending {
          requests := requests[id := request.(status := Expired)];
        }
      }
    }

    method CountPending() returns (pending: nat)
      ensures pending == |PendingIds(requests)|
    {
      pending := 0;
      var ids := requests.Keys;
      ghost var counted: set<string> := {};
      while ids != {}
        invariant ids <= requests.Keys
        invariant counted == set id | id in requests && id !in ids && requests[id].status.Pending?
        invariant pending == |counted|
        decreases |ids|
      {
        var id :| id in ids;
        ids := ids - {id};
        if requests[id].status == Pending {
          counted := counted + {id};
          pending := pending + 1;
        }
      }
      assert counted == PendingIds(requests);
    }

    method StartRequest(now: int, id: string, code: string, device: string, hash: string) returns (reply: Reply)
      modifies this
      ensures (Now(), reply) == Step(old(Now()), Start(now, id, code, device, hash))
    {
      hide Expire, PendingIds;
      if Blank(device) || ByteLen(device) > 64 || HasControl(device) {
        return BadRequest;
      }
      ExpirePass(now);
      var pending := CountPending();
      if pending >= MAX_PENDING {
        return TooMany;
      }
      requests := requests[id := Request(code, device, hash, now + LIFETIME, Pending)];
      issued := issued + {id};
      reply := Started;
    }

    method PollRequest(now: int, id: string) returns (reply: Reply)
      modifies this`requests
      ensures (Now(), reply) == Step(old(Now()), Poll(now, id))
    {
      hide Expire;
      ExpirePass(now);
      if id !in requests {
        return NotFound;
      }
      var status := requests[id].status;
      if status == Expired {
        return Gone;
      }
      if status == Denied {
        return Refused;
      }
      reply := if status == Approved then Ready else Waiting;
    }

    /** The owner's decision; the token is stored before the status changes, so
        a failed insert leaves the request pending. */
    method DecideRequest(now: int, id: string, code: string, approve: bool, healthy: bool) returns (reply: Reply)
      modifies this`requests, store
      ensures (Now(), reply) == Step(old(Now()), Decide(now, id, code, approve, healthy))
    {
      hide DeviceOk, HashKnown;
      if id !in requests || now >= requests[id].expires || requests[id].status != Pending {
        return Unavailable;
      }
      var request := requests[id];
      if request.code != code {
        return WrongCode;
      }
      if approve {
        var ok := store.AddClientToken(request.device, request.hash, healthy);
        if !ok {
          return Failed;
        }
        requests := requests[id := request.(status := Approved)];
      } else {
        requests := requests[id := request.(status := Denied)];
      }
      reply := Decided;
    }
  }
}
