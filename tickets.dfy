/**
 The one-time ticket store (`TicketService`): a ticket is a fresh identifier stored
 in a key/value store with the user id and client IP as its value; validating a
 ticket consumes it.

 The store is a map from ticket to value. The random identifier is an input, and
 the store's expiry time is not modelled.
 */
module Tickets {

  /** The value stored under a ticket: the user id, a colon, the client IP. */
  function TicketValue(userId: string, clientIp: string): (v: string)
    ensures |v| == |userId| + 1 + |clientIp|
    ensures v[..|userId|] == userId && v[|userId|] == ':' && v[|userId| + 1..] == clientIp
  {
    userId + ":" + clientIp
  }

  /** When user ids hold no colon, the stored value determines both the user and the IP. */
  lemma TicketValueDetermines(u1: string, ip1: string, u2: string, ip2: string)
    requires ':' !in u1 && ':' !in u2
    requires TicketValue(u1, ip1) == TicketValue(u2, ip2)
    ensures u1 == u2 && ip1 == ip2
  {
    var v := TicketValue(u1, ip1);
    assert forall i :: 0 <= i < |u1| ==> v[i] == u1[i] && v[i] != ':';
    assert forall i :: 0 <= i < |u2| ==> v[i] == u2[i] && v[i] != ':';
  }

  /** A store update together with the ticket it issued. */
  datatype Issued = Issued(ticket: string, store: map<string, string>)

  /** `generateTicket` over the store: the identifier `id` becomes the ticket and maps to
      the user's value; every other entry stays as it was. */
  function Generate(store: map<string, string>, userId: string, clientIp: string, id: string): (r: Issued)
    ensures r.ticket == id
    ensures r.store.Keys == store.Keys + {id}
    ensures r.store[id] == TicketValue(userId, clientIp)
    ensures forall k :: k in store && k != id ==> r.store[k] == store[k]
  {
    Issued(id, store[id := TicketValue(userId, clientIp)])
  }

  /** A validation verdict together with the store it leaves. */
  datatype Validation = Validation(valid: bool, store: map<string, string>)

  /** `validateTicket` over the store: a present ticket is valid, whatever its value and
      whatever the client IP, and is deleted; an absent one is invalid and nothing changes. */
  function Validate(store: map<string, string>, ticket: string, clientIp: string): (r: Validation)
    ensures r.valid <==> ticket in store
    ensures r.store.Keys == store.Keys - {ticket}
    ensures forall k :: k in r.store ==> r.store[k] == store[k]
  {
    if ticket !in store then Validation(false, store)
    else Validation(true, store - {ticket})
  }

  /** A ticket is good for one validation only. */
  lemma SingleUse(store: map<string, string>, ticket: string, ip1: string, ip2: string)
    ensures !Validate(Validate(store, ticket, ip1).store, ticket, ip2).valid
  {
  }

  /** Neither the client IP nor the stored value's format takes part in the verdict. */
  lemma ClientIpIgnored(store: map<string, string>, ticket: string, ip1: string, ip2: string)
    ensures Validate(store, ticket, ip1) == Validate(store, ticket, ip2)
  {
  }

  /** A freshly generated ticket validates once, from any address, and never again; afterwards
      the store is the original one without that identifier. */
  lemma GenerateThenValidate(store: map<string, string>, userId: string, clientIp: string,
                             id: string, anyIp: string, laterIp: string)
    ensures Validate(Generate(store, userId, clientIp, id).store, id, anyIp).valid
    ensures !Validate(Validate(Generate(store, userId, clientIp, id).store, id, anyIp).store, id, laterIp).valid
    ensures Validate(Generate(store, userId, clientIp, id).store, id, anyIp).store == store - {id}
  {
    var issued := Generate(store, userId, clientIp, id);
    assert issued.store - {id} == store - {id};
  }

  /** The service object over the key/value store. */
  class TicketService {
    var store: map<string, string>

    constructor (store: map<string, string>)
      ensures this.store == store
    {
      this.store := store;
    }

    /** Store `userId:clientIp` under the identifier `id` and return it as the ticket. */
    method GenerateTicket(userId: string, clientIp: string, id: string) returns (ticket: string)
      modifies this
      ensures ticket == Generate(old(store), userId, clientIp, id).ticket
      ensures store == Generate(old(store), userId, clientIp, id).store
    {
      ticket := id;
      var value := TicketValue(userId, clientIp);
      store := store[ticket := value];
    }

    /** Look the ticket up: absent means invalid; present means valid, and it is deleted. */
    method ValidateTicket(ticket: string, clientIp: string) returns (valid: bool)
      modifies this
      ensures valid == Validate(old(store), ticket, clientIp).valid
      ensures store == Validate(old(store), ticket, clientIp).store
    {
      if ticket !in store {
        return false;
      }
      store := store - {ticket};
      return true;
    }
  }

  /** A service over `initial` issues `id`, then checks it twice: the first check passes,
      the second fails, and the store ends as it started except that `id` is gone. */
  method IssueAndRedeemTwice(initial: map<string, string>, userId: string, clientIp: string,
                             id: string, anyIp: string)
    returns (ticket: string, first: bool, second: bool, final: map<string, string>)
    ensures ticket == id && first && !second
    ensures final == initial - {id}
  {
    var service := new TicketService(initial);
    ticket := service.GenerateTicket(userId, clientIp, id);
    first := service.ValidateTicket(ticket, anyIp);
    second := service.ValidateTicket(ticket, anyIp);
    final := service.store;
    GenerateThenValidate(initial, userId, clientIp, id, anyIp, anyIp);
  }
}
