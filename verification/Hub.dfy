/** The hub and its clients as objects: the registry, the queues, and the fan-out. */
module Hub {
  import opened Common
  import opened Channel

  class Client {
    const userID: UserId
    var sendCh: seq<Event>
    var done: bool

    constructor (userID: UserId)
      ensures this.userID == userID && sendCh == [] && !done
    {
      this.userID := userID;
      sendCh := [];
      done := false;
    }

    method Send(e: Event)
      modifies this
      ensures sendCh == Offer(old(sendCh), e) && done == old(done)
      ensures |old(sendCh)| < 256 ==> sendCh == old(sendCh) + [e]
      ensures |old(sendCh)| >= 256 ==> sendCh == old(sendCh)
    {
      if |sendCh| < QUEUE_CAPACITY {
        sendCh := sendCh + [e];
      }
    }

    method Close()
      modifies this
      ensures done && sendCh == old(sendCh)
    {
      if !done {
        done := true;
      }
    }
  }

  /** What registering and unregistering do to the registry. */
  function Registered<C>(clients: map<UserId, C>, user: UserId, client: C): map<UserId, C> {
    clients[user := client]
  }

  predicate IsCurrent<C(==)>(clients: map<UserId, C>, user: UserId, client: C) {
    user in clients && clients[user] == client
  }

  function Unregistered<C(==)>(clients: map<UserId, C>, user: UserId, client: C): map<UserId, C> {
    if IsCurrent(clients, user, client) then clients - {user} else clients
  }

  class Hub {
    var clients: map<UserId, Client>

    ghost predicate Valid()
      reads this
    {
      forall u :: u in clients ==> clients[u].userID == u
    }

    constructor ()
      ensures Valid() && clients == map[]
    {
      clients := map[];
    }

    /** The client becomes its user's connection; the one before it, if any, is closed. */
    method Register(client: Client)
      requires Valid()
      modifies this, if client.userID in clients then {clients[client.userID]} else {}
      ensures Valid()
      ensures clients == Registered(old(clients), client.userID, client)
      ensures client.userID in old(clients) ==>
                old(clients)[client.userID].done
                && old(clients)[client.userID].sendCh == old(clients[client.userID].sendCh)
    {
      if client.userID in clients {
        clients[client.userID].Close();
      }
      clients := clients[client.userID := client];
    }

    /** Removes the client if it is still its user's connection, and tells whether. */
    method Unregister(client: Client) returns (removed: bool)
      requires Valid()
      modifies this
      ensures Valid()
      ensures clients == Unregistered(old(clients), client.userID, client)
      ensures removed <==> IsCurrent(old(clients), client.userID, client)
      ensures removed ==> client.userID !in clients
    {
      if client.userID in clients && clients[client.userID] == client {
        clients := clients - {client.userID};
        return true;
      }
      removed := false;
    }

    method SendToUser(user: UserId, e: Event)
      requires Valid()
      modifies if user in clients then {clients[user]} else {}
      ensures user in clients ==>
                && clients[user].sendCh == Offer(old(clients[user].sendCh), e)
                && clients[user].done == old(clients[user].done)
    {
      if user !in clients {
        return;
      }
      clients[user].Send(e);
    }

    /** Delivers to the recipient only, and not across a block. */
    method FanOutToConversation(origin: UserId, recipient: UserId, e: Event, blocks: set<Block>)
      requires Valid()
      modifies if recipient in clients then {clients[recipient]} else {}
      ensures recipient in clients ==>
                clients[recipient].done == old(clients[recipient].done)
                && clients[recipient].sendCh
                   == if BlockedEitherWay(blocks, origin, recipient)
                      then old(clients[recipient].sendCh)
                      else Offer(old(clients[recipient].sendCh), e)
    {
      if BlockedEitherWay(blocks, origin, recipient) {
        return;
      }
      SendToUser(recipient, e);
    }

    /** Announces a user's presence to its conversation partners: each connected partner
        that is not blocked gets the event once, and nobody else does. */
    method FanOutPresence(user: UserId, partners: seq<UserId>, kind: EventType, blocks: set<Block>)
      requires Valid() && NoDuplicates(partners)
      modifies set u | u in clients :: clients[u]
      ensures forall u :: u in clients ==>
                            clients[u].sendCh
                            == if u in partners && u != user && !BlockedEitherWay(blocks, user, u)
                               then Offer(old(clients[u].sendCh), Event(user, kind))
                               else old(clients[u].sendCh)
    {
      var e := Event(user, kind);
      for i := 0 to |partners|
        invariant forall u :: u in clients ==>
                                clients[u].sendCh
                                == if u in partners[..i] && u != user && !BlockedEitherWay(blocks, user, u)
                                   then Offer(old(clients[u].sendCh), e)
                                   else old(clients[u].sendCh)
      {
        var partner := partners[i];
        assert partner !in partners[..i];
        assert forall u :: u in clients && u != partner ==> clients[u].userID != partner;
        if partner != user {
          FanOutToConversation(user, partner, e, blocks);
        }
        assert partners[..i + 1] == partners[..i] + [partner];
      }
      assert partners[..|partners|] == partners;
    }
  }
}
