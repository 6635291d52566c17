/** The hub's client map and the operations its lock guards. */
module Hubs {
  import opened BoundedQueues

  const SEND_BUFFER: nat := 256
  const BROADCAST_BUFFER: nat := 256
  const MSG_STATE := "state"

  /** A server message; `encodable` tells whether JSON can represent its payload. */
  datatype Message = Message(kind: string, clientId: string, payload: int, encodable: bool)

  /** What a client's send channel carries: the hub's n-th dispatch, or a reply of the read pump. */
  datatype Item = Broadcast(index: nat, message: Message) | Reply(payload: int)

  /** A client: its send channel, its subscriptions, and how often each channel was closed. */
  datatype ClientState = ClientState(
    queue: Queue<Item>,
    events: set<string>,
    sendCloses: nat,
    doneCloses: nat)

  const NEW_CLIENT := ClientState(EmptyQueue(), {}, 0, 0)

  /** State messages are stamped with the hub's own client id when they carry none. */
  function Stamped(m: Message, hubClientId: string): Message {
    if m.kind == MSG_STATE && m.clientId == "" then m.(clientId := hubClientId) else m
  }

  predicate Subscribed(c: ClientState, m: Message) {
    m.kind in c.events
  }

  /** The hub's send to one client of the map. */
  function Delivered(c: ClientState, index: nat, m: Message): ClientState {
    if Subscribed(c, m) then c.(queue := Offered(c.queue, Broadcast(index, m), SEND_BUFFER)) else c
  }

  /** A queue that has taken one more item. */
  function With(q: Queue<Item>, item: Item): (r: Queue<Item>)
    ensures r.items == q.items + [item] && r.taken == q.taken && r.log == q.log + [item]
  {
    Queue(q.items + [item], q.taken, q.log + [item])
  }

  function Replied(c: ClientState, payload: int): ClientState {
    c.(queue := Offered(c.queue, Reply(payload), SEND_BUFFER))
  }

  function Closed(c: ClientState): ClientState {
    c.(sendCloses := c.sendCloses + 1, doneCloses := c.doneCloses + 1)
  }

  class Client {
    const id: nat
    var queue: Queue<Item>
    var events: set<string>
    var sendCloses: nat
    var doneCloses: nat
    var connOpen: bool

    ghost function View(): ClientState
      reads this
    {
      ClientState(queue, events, sendCloses, doneCloses)
    }

    /** Both channels were closed once more than in `was`, and so was the connection. */
    ghost predicate Dismissed(was: ClientState)
      reads this
    {
      && View() == Closed(was) && !connOpen
      && sendCloses == was.sendCloses + 1 && doneCloses == was.doneCloses + 1
      && queue == was.queue && events == was.events
    }

    constructor (id: nat)
      ensures View() == NEW_CLIENT && this.id == id && connOpen
    {
      this.id := id;
      queue := EmptyQueue();
      events := {};
      sendCloses, doneCloses := 0, 0;
      connOpen := true;
    }

    method SendMessage(payload: int)
      modifies this
      ensures View() == Replied(old(View()), payload) && connOpen == old(connOpen)
      ensures queue == if |old(queue).items| < 256
                       then Queue(old(queue).items + [Reply(payload)], old(queue).taken,
                                  old(queue).log + [Reply(payload)])
                       else old(queue)
      ensures events == old(events) && sendCloses == old(sendCloses) && doneCloses == old(doneCloses)
    {
      if |queue.items| < SEND_BUFFER {
        queue := Queue(queue.items + [Reply(payload)], queue.taken, queue.log + [Reply(payload)]);
      }
    }

    method Subscribe(names: seq<string>)
      modifies this
      ensures View() == old(View()).(events := old(events) + set e | e in names) && connOpen == old(connOpen)
    {
      for i := 0 to |names|
        invariant View() == old(View()).(events := old(events) + set e | e in names[..i])
        invariant connOpen == old(connOpen)
      {
        events := events + {names[i]};
        assert names[..i + 1] == names[..i] + [names[i]];
      }
      assert names[..|names|] == names;
    }
  }

  class Hub {
    const clientId: string
    var clients: map<nat, Client>
    var dispatched: seq<Message>

    /** Every client is stored under its own id, so no client is stored twice. */
    ghost predicate Valid()
      reads this
    {
      forall id :: id in clients ==> clients[id].id == id
    }

    constructor (clientId: string)
      ensures Valid() && clients == map[] && dispatched == [] && this.clientId == clientId
    {
      this.clientId := clientId;
      clients := map[];
      dispatched := [];
    }

    /** The register branch. */
    method Add(client: Client)
      requires Valid()
      modifies this`clients
      ensures Valid() && clients == old(clients)[client.id := client]
    {
      clients := clients[client.id := client];
    }

    /** The unregister branch: a client that is still in the map leaves it with both channels closed. */
    method Remove(client: Client)
      requires Valid() && (client.id in clients ==> clients[client.id] == client)
      modifies this`clients, client
      ensures Valid() && clients == old(clients) - {client.id}
      ensures client.View() == if client.id in old(clients) then Closed(old(client.View())) else old(client.View())
      ensures var closes := if client.id in old(clients) then 1 else 0;
              && client.sendCloses == old(client.sendCloses) + closes
              && client.doneCloses == old(client.doneCloses) + closes
      ensures client.queue == old(client.queue) && client.events == old(client.events)
    {
      if client.id in clients {
        clients := clients - {client.id};
        client.sendCloses := client.sendCloses + 1;
        client.doneCloses := client.doneCloses + 1;
      }
    }

    /** The broadcast branch: every subscribed client of the map is offered the message, in any order. */
    method Dispatch(m: Message)
      requires Valid()
      modifies this`dispatched, clients.Values
      ensures Valid() && clients == old(clients)
      ensures dispatched == if m.encodable then old(dispatched) + [Stamped(m, clientId)] else old(dispatched)
      ensures forall id :: id in clients ==>
                clients[id].View()
                == if m.encodable
                   then Delivered(old(clients[id].View()), |old(dispatched)|, Stamped(m, clientId))
                   else old(clients[id].View())
      ensures var sent := if m.kind == "state" && m.clientId == "" then m.(clientId := clientId) else m;
              && dispatched == (if m.encodable then old(dispatched) + [sent] else old(dispatched))
              && forall id :: id in clients ==>
                   clients[id].queue
                   == if m.encodable && m.kind in old(clients[id].events) && |old(clients[id].queue).items| < 256
                      then With(old(clients[id].queue), Broadcast(|old(dispatched)|, sent))
                      else old(clients[id].queue)
    {
      var msg := m;
      if msg.kind == MSG_STATE && msg.clientId == "" {
        msg := msg.(clientId := clientId);
      }
      if !msg.encodable {
        return;
      }
      var index := |dispatched|;
      dispatched := dispatched + [msg];
      var todo := clients.Keys;
      while todo != {}
        invariant todo <= clients.Keys
        invariant Valid() && clients == old(clients) && dispatched == old(dispatched) + [msg]
        invariant forall id :: id in clients ==>
                    clients[id].View()
                    == if id in todo then old(clients[id].View())
                       else Delivered(old(clients[id].View()), index, msg)
        decreases todo
      {
        var id :| id in todo;
        var client := clients[id];
        if msg.kind in client.events && |client.queue.items| < SEND_BUFFER {
          var item := Broadcast(index, msg);
          client.queue := Queue(client.queue.items + [item], client.queue.taken, client.queue.log + [item]);
        }
        todo := todo - {id};
      }
    }

    /** One round of the loop below. */
    method CloseOne(id: nat)
      requires Valid() && id in clients
      modifies this`clients, clients[id]
      ensures Valid() && clients == old(clients) - {id}
      ensures old(clients)[id].Dismissed(old(clients[id].View()))
    {
      var client := clients[id];
      client.sendCloses := client.sendCloses + 1;
      client.doneCloses := client.doneCloses + 1;
      clients := clients - {id};
      client.connOpen := false;
    }

    /** Closes the channels and the connection of every client and empties the map. */
    method CloseAllClients()
      requires Valid()
      modifies this`clients, clients.Values
      ensures Valid() && clients == map[]
      ensures forall id :: id in old(clients) ==> old(clients)[id].Dismissed(old(clients[id].View()))
    {
      hide Client.Dismissed, Client.View;
      ghost var all := clients;
      ghost var was := map id | id in clients :: clients[id].View();
      var todo := clients.Keys;
      while todo != {}
        invariant todo <= all.Keys && clients.Keys == todo
        invariant forall id :: id in todo ==> clients[id] == all[id]
        invariant forall id :: id in todo ==> all[id].View() == was[id]
        invariant forall id :: id in all && id !in todo ==> all[id].Dismissed(was[id])
        decreases todo
      {
        var id :| id in todo;
        assert all[id] in all.Values;
        CloseOne(id);
        todo := todo - {id};
      }
    }
  }
}
