/** The code behind the action protocol: the client's table of futures, and the registered client. */
module ActionChannel {
  import opened Common
  import Json
  import P = ActionProtocol

  class Future {
    var outcome: P.Outcome

    constructor ()
      ensures outcome == P.Uncompleted
    {
      outcome := P.Uncompleted;
    }

    /** Completing a future that is done is an error, so callers ask first. */
    method Set(value: P.Outcome)
      requires outcome.Uncompleted? && !value.Uncompleted?
      modifies this
      ensures outcome == value
    {
      outcome := value;
    }
  }

  class ActionClient {
    var pending: map<string, Future>
    var closed: bool

    /** Two echoes never share a future, and a closed client has an empty table. */
    ghost predicate Valid()
      reads this
    {
      && (forall a, b :: a in pending && b in pending && pending[a] == pending[b] ==> a == b)
      && (closed ==> pending == map[])
    }

    ghost function Model(): P.Client
      reads this
    {
      P.Client(closed, pending.Keys)
    }

    constructor ()
      ensures Valid() && Model() == P.Client(false, {})
    {
      pending, closed := map[], false;
    }

    /** The first part of `call_action`: a new future enters the table, unless the channel is down. */
    method Begin(wsClosed: bool, echo: string) returns (future: Option<Future>)
      requires Valid() && echo !in pending
      modifies this
      ensures Valid() && (future.None? <==> old(closed) || wsClosed)
      ensures future.None? ==> pending == old(pending) && closed == old(closed)
      ensures future.Some? ==>
        && fresh(future.value) && future.value.outcome.Uncompleted?
        && pending == old(pending)[echo := future.value] && !closed
    {
      if closed || wsClosed {
        return None;
      }
      var created := new Future();
      pending := pending[echo := created];
      return Some(created);
    }

    /** The error paths of `call_action`: whatever the future is, its entry goes. */
    method Pop(echo: string)
      requires Valid()
      modifies this
      ensures Valid() && closed == old(closed) && pending == old(pending) - {echo}
    {
      pending := pending - {echo};
    }

    /** `consume_action_response` */
    method Consume(payload: Json.Object) returns (consumed: bool)
      requires Valid()
      modifies this, pending.Values
      ensures Valid() && closed == old(closed)
      ensures consumed <==> P.EchoOf(payload).Some? && P.EchoOf(payload).value in old(pending)
      ensures pending == if consumed then old(pending) - {P.EchoOf(payload).value} else old(pending)
      ensures forall echo :: echo in old(pending) ==>
        old(pending)[echo].outcome ==
          if P.EchoOf(payload) == Some(echo) then P.Complete(old(pending[echo].outcome), P.Result(payload))
          else old(pending[echo].outcome)
    {
      if P.EchoOf(payload).None? {
        return false;
      }
      var echo := payload["echo"].s;
      if echo !in pending {
        return false;
      }
      var future := pending[echo];
      pending := pending - {echo};
      if future.outcome.Uncompleted? {
        future.Set(P.Result(payload));
      }
      return true;
    }

    /** `close`: every future that is not done fails, in any order, and the table is emptied. */
    method Close(reason: string)
      requires Valid()
      modifies this, pending.Values
      ensures Valid() && Model() == P.Client(true, {})
      ensures forall echo :: echo in old(pending) ==>
        old(pending)[echo].outcome == P.Complete(old(pending[echo].outcome), P.Error(reason))
    {
      if closed {
        return;
      }
      closed := true;
      var left := pending.Keys;
      while left != {}
        invariant closed && left <= pending.Keys && pending == old(pending)
        invariant forall echo :: echo in pending ==>
          pending[echo].outcome ==
            if echo in left then old(pending[echo].outcome) else P.Complete(old(pending[echo].outcome), P.Error(reason))
      {
        var echo :| echo in left;
        var future := pending[echo];
        left := left - {echo};
        if future.outcome.Uncompleted? {
          future.Set(P.Error(reason));
        }
      }
      pending := map[];
    }
  }

  /** The process-wide registration, with every client that was ever connected. */
  class Registry {
    var current: ActionClient?
    ghost var connected: seq<ActionClient>

    /** At the boundaries of a connection handler: the registered client is the only open one. */
    ghost predicate Valid()
      reads this, connected
    {
      && (forall k :: 0 <= k < |connected| ==> connected[k].Valid())
      && (forall k, l :: 0 <= k < l < |connected| ==> connected[k] != connected[l])
      && (forall k :: 0 <= k < |connected| ==> (!connected[k].closed <==> current == connected[k]))
      && (current != null ==> current in connected)
    }

    constructor ()
      ensures Valid() && current == null && connected == []
    {
      current, connected := null, [];
    }

    /** The futures that closing the registered client may complete. */
    ghost function Held(): set<Future>
      reads this, current
    {
      if current == null then {} else current.pending.Values
    }

    /** `_set_action_client`: afterwards a client registered before, unless it is the same, is closed. */
    method SetActionClient(client: ActionClient?)
      requires current != null ==> current.Valid()
      modifies this`current, current, Held()
      ensures current == client
      ensures var was := old(current);
        was != null && was != client ==>
          && was.Valid() && was.Model() == P.Client(true, {})
          && forall echo :: echo in old(was.pending) ==>
               old(was.pending)[echo].outcome == P.Complete(old(was.pending[echo].outcome), P.Error(P.REPLACED))
      ensures old(current) != null && old(current) == client ==>
        && client.pending == old(client.pending) && client.closed == old(client.closed)
        && forall echo :: echo in client.pending ==> client.pending[echo].outcome == old(client.pending[echo].outcome)
    {
      var was := current;
      current := client;
      if was != null && was != client {
        was.Close(P.REPLACED);
      }
    }

    /** A new connection takes over: the client before it is closed, and its calls fail at once. */
    method Connect() returns (client: ActionClient)
      requires Valid()
      modifies this, current, Held()
      ensures Valid() && fresh(client) && current == client && client.Model() == P.Client(false, {})
      ensures connected == old(connected) + [client]
      ensures var was := old(current);
        was != null ==>
          && was.Model() == P.Client(true, {})
          && forall echo :: echo in old(was.pending) ==>
               old(was.pending)[echo].outcome == P.Complete(old(was.pending[echo].outcome), P.Error(P.REPLACED))
    {
      client := new ActionClient();
      SetActionClient(client);
      connected := connected + [client];
    }

    /** The end of a connection: its client is closed, and unregistered unless a newer one has taken over. */
    method Disconnect(client: ActionClient)
      requires Valid() && client in connected
      modifies this, client, client.pending.Values
      ensures Valid() && client.Model() == P.Client(true, {})
      ensures connected == old(connected)
      ensures current == if old(current) == client then null else old(current)
      ensures forall echo :: echo in old(client.pending) ==>
        old(client.pending)[echo].outcome == P.Complete(old(client.pending[echo].outcome), P.Error(P.DISCONNECTED))
    {
      client.Close(P.DISCONNECTED);
      if current == client {
        SetActionClient(null);
      }
    }
  }
}
