/**
 The action channel as a protocol: calls over reconnecting sockets, each waiting on a future that
 its client finds again by the echo of the response.

 Every step runs from one suspension point of the event loop to the next. Echoes are assumed never
 to repeat, as they are random 128-bit identifiers.
 */
module ActionProtocol {
  import opened Common
  import Json

  datatype Outcome = Uncompleted | Result(payload: Json.Object) | Error(reason: string) | Cancelled

  /** Where a call stands; `Aborted` is a call whose own task was cancelled. */
  datatype Phase = Sending | Waiting | Returned(payload: Json.Object) | Raised | SendFailed | Aborted

  /** A call is known by its echo; `since` counts the frames received before it. */
  datatype Call = Call(client: nat, outcome: Outcome, phase: Phase, since: nat)

  datatype Client = Client(closed: bool, pending: set<string>)

  datatype Frame = Frame(client: nat, payload: Json.Object)

  datatype State = State(
    clients: seq<Client>,
    current: Option<nat>,
    calls: map<string, Call>,
    frames: seq<Frame>)   // history: everything received

  datatype Step =
    | Connect
    | Disconnect(client: nat)
    | Begin(client: nat, echo: string)
    | Sent(echo: string)
    | SendFails(echo: string)
    | Receive(client: nat, payload: Json.Object)
    | Expire(echo: string)
    | Resume(echo: string, timedOut: bool)
    | Abort(echo: string)

  const REPLACED := "NapCat action channel replaced by newer connection"
  const DISCONNECTED := "NapCat action channel disconnected"

  function EchoOf(payload: Json.Object): Option<string> {
    if "echo" in payload && payload["echo"].Str? then Some(payload["echo"].s) else None
  }

  /** A future is completed only if it is not done yet. */
  function Complete(outcome: Outcome, value: Outcome): Outcome {
    if outcome.Uncompleted? then value else outcome
  }

  /** `close`: the futures in the table fail, and the table is emptied. */
  function Close(s: State, client: nat, reason: string): State
    requires client < |s.clients|
  {
    if s.clients[client].closed then s
    else
      s.(clients := s.clients[client := Client(true, {})],
         calls := map echo | echo in s.calls :: Broken(s.calls[echo], echo in s.clients[client].pending, reason))
  }

  function Broken(call: Call, tabled: bool, reason: string): Call {
    if tabled then call.(outcome := Complete(call.outcome, Error(reason))) else call
  }

  /** `_set_action_client`: the client registered before is closed unless it is the same. */
  function Register(s: State, client: Option<nat>): State
    requires s.current.Some? ==> s.current.value < |s.clients|
  {
    var registered := s.(current := client);
    if s.current.Some? && s.current != client then Close(registered, s.current.value, REPLACED) else registered
  }

  /** `pop`: the call leaves the table of its client. */
  function Pop(s: State, echo: string): State
    requires echo in s.calls && s.calls[echo].client < |s.clients|
  {
    var client := s.calls[echo].client;
    s.(clients := s.clients[client := s.clients[client].(pending := s.clients[client].pending - {echo})])
  }

  function SetPhase(s: State, echo: string, phase: Phase): State
    requires echo in s.calls
  {
    s.(calls := s.calls[echo := s.calls[echo].(phase := phase)])
  }

  /** A future is completed from outside: by a response, or by cancelling it. */
  function SetOutcome(s: State, echo: string, outcome: Outcome): State
    requires echo in s.calls
  {
    s.(calls := s.calls[echo := s.calls[echo].(outcome := Complete(s.calls[echo].outcome, outcome))])
  }

  /** `consume_action_response`; without a match the payload goes to the event handler instead. */
  function Received(s: State, client: nat, payload: Json.Object): State
    requires client < |s.clients|
    requires forall echo :: echo in s.clients[client].pending ==> echo in s.calls && s.calls[echo].client == client
  {
    var t := s.(frames := s.frames + [Frame(client, payload)]);
    match EchoOf(payload)
    case None => t
    case Some(echo) => if echo in s.clients[client].pending then SetOutcome(Pop(t, echo), echo, Result(payload)) else t
  }

  predicate Known(s: State, echo: string) {
    echo in s.calls && s.calls[echo].client < |s.clients|
  }

  predicate Enabled(s: State, step: Step) {
    match step
    case Connect => s.current.Some? ==> s.current.value < |s.clients|
    case Disconnect(client) => client < |s.clients| && (s.current.Some? ==> s.current.value < |s.clients|)
    case Begin(client, echo) => client < |s.clients| && !s.clients[client].closed && echo !in s.calls
    case Sent(echo) => Known(s, echo) && s.calls[echo].phase.Sending?
    case SendFails(echo) => Known(s, echo) && s.calls[echo].phase.Sending?
    case Receive(client, _) =>
      && client < |s.clients|
      && forall echo :: echo in s.clients[client].pending ==> echo in s.calls && s.calls[echo].client == client
    case Expire(echo) => Known(s, echo) && s.calls[echo].phase.Waiting?
    case Resume(echo, _) => Known(s, echo) && s.calls[echo].phase.Waiting? && !s.calls[echo].outcome.Uncompleted?
    case Abort(echo) => Known(s, echo) && (s.calls[echo].phase.Sending? || s.calls[echo].phase.Waiting?)
  }

  function Apply(s: State, step: Step): State
    requires Enabled(s, step)
  {
    match step
    case Connect => Register(s.(clients := s.clients + [Client(false, {})]), Some(|s.clients|))
    case Disconnect(client) =>
      var t := Close(s, client, DISCONNECTED);
      if t.current == Some(client) then Register(t, None) else t
    case Begin(client, echo) =>
      s.(clients := s.clients[client := Client(false, s.clients[client].pending + {echo})],
         calls := s.calls[echo := Call(client, Uncompleted, Sending, |s.frames|)])
    case Sent(echo) => SetPhase(s, echo, Waiting)
    case SendFails(echo) => SetPhase(Pop(s, echo), echo, SendFailed)
    case Receive(client, payload) => Received(s, client, payload)
    case Expire(echo) => SetOutcome(s, echo, Cancelled)
    case Resume(echo, timedOut) =>
      if s.calls[echo].outcome.Result? && !timedOut then SetPhase(s, echo, Returned(s.calls[echo].outcome.payload))
      else SetPhase(Pop(s, echo), echo, Raised)
    case Abort(echo) =>
      if s.calls[echo].phase.Sending? then SetPhase(s, echo, Aborted)
      else SetPhase(SetOutcome(s, echo, Cancelled), echo, Aborted)
  }

  ghost predicate Next(s: State, t: State) {
    exists step :: Enabled(s, step) && t == Apply(s, step)
  }

  const START := State([], None, map[], [])

  /** A run goes from its state before `i` to the one at `i` in one step. */
  ghost predicate Linked(trace: seq<State>, i: nat)
    requires 0 < i < |trace|
  {
    Next(trace[i - 1], trace[i])
  }

  ghost predicate Execution(trace: seq<State>) {
    trace != [] && trace[0] == START && forall i :: 0 < i < |trace| ==> Linked(trace, i)
  }

  // ------------------------------------------------------------------ the invariant

  /** A client is open exactly while it is the registered one. */
  predicate OnlyCurrentOpen(s: State) {
    && (s.current.Some? ==> s.current.value < |s.clients|)
    && forall i :: 0 <= i < |s.clients| ==> (!s.clients[i].closed <==> s.current == Some(i))
  }

  predicate Answers(frame: Frame, client: nat, echo: string) {
    frame.client == client && EchoOf(frame.payload) == Some(echo)
  }

  /** No response to the call has arrived on its connection. */
  predicate Unanswered(s: State, echo: string)
    requires echo in s.calls && s.calls[echo].since <= |s.frames|
  {
    forall k :: s.calls[echo].since <= k < |s.frames| ==> !Answers(s.frames[k], s.calls[echo].client, echo)
  }

  /** The payload is the first response to the call that arrived on its connection. */
  ghost predicate FirstAnswer(s: State, echo: string, payload: Json.Object)
    requires echo in s.calls
  {
    var call := s.calls[echo];
    exists k :: call.since <= k < |s.frames| && s.frames[k] == Frame(call.client, payload)
      && Answers(s.frames[k], call.client, echo)
      && forall l :: call.since <= l < k ==> !Answers(s.frames[l], call.client, echo)
  }

  /** An entry of the table: a call of this client that is under way or was aborted, and is unanswered. */
  predicate EntryOk(s: State, client: nat, echo: string)
    requires client < |s.clients|
  {
    && !s.clients[client].closed
    && echo in s.calls && s.calls[echo].client == client && s.calls[echo].since <= |s.frames|
    && (s.calls[echo].phase.Sending? || s.calls[echo].phase.Waiting? || s.calls[echo].phase.Aborted?)
    && (s.calls[echo].outcome.Uncompleted? || s.calls[echo].outcome.Cancelled?)
    && Unanswered(s, echo)
  }

  /** What holds of every call: above all, an uncompleted future is in the table unless its request was never sent. */
  ghost predicate CallOk(s: State, echo: string)
    requires echo in s.calls
  {
    var call := s.calls[echo];
    && call.client < |s.clients| && call.since <= |s.frames|
    && (call.outcome.Uncompleted? ==> (echo in s.clients[call.client].pending <==> !call.phase.SendFailed?))
    && (call.phase.Returned? ==> call.outcome == Result(call.phase.payload))
    && (call.phase.Raised? ==> !call.outcome.Uncompleted?)
    && (call.outcome.Result? ==> FirstAnswer(s, echo, call.outcome.payload))
  }

  ghost predicate Inv(s: State) {
    && OnlyCurrentOpen(s)
    && (forall i, echo :: 0 <= i < |s.clients| && echo in s.clients[i].pending ==> EntryOk(s, i, echo))
    && forall echo :: echo in s.calls ==> CallOk(s, echo)
  }

  lemma InvConnect(s: State)
    requires Inv(s) && Enabled(s, Connect)
    ensures Inv(Apply(s, Connect))
  {
  }

  lemma InvDisconnect(s: State, client: nat)
    requires Inv(s) && Enabled(s, Disconnect(client))
    ensures Inv(Apply(s, Disconnect(client)))
  {
  }

  lemma InvBegin(s: State, client: nat, echo: string)
    requires Inv(s) && Enabled(s, Begin(client, echo))
    ensures Inv(Apply(s, Begin(client, echo)))
  {
  }

  lemma InvSent(s: State, echo: string)
    requires Inv(s) && Enabled(s, Sent(echo))
    ensures Inv(Apply(s, Sent(echo)))
  {
  }

  lemma InvSendFails(s: State, echo: string)
    requires Inv(s) && Enabled(s, SendFails(echo))
    ensures Inv(Apply(s, SendFails(echo)))
  {
  }

  lemma InvReceive(s: State, client: nat, payload: Json.Object)
    requires Inv(s) && Enabled(s, Receive(client, payload))
    ensures Inv(Apply(s, Receive(client, payload)))
  {
    var t := Apply(s, Receive(client, payload));
    forall echo | echo in s.calls
      ensures CallOk(t, echo)
    {
      assert CallOk(s, echo);
      if s.calls[echo].outcome.Result? {
        AnswerStays(s, t, echo, s.calls[echo].outcome.payload);
      } else if t.calls[echo].outcome.Result? {
        assert EntryOk(s, client, echo);
        assert t.frames[|s.frames|] == Frame(client, payload);
      }
    }
  }

  lemma AnswerStays(s: State, t: State, echo: string, payload: Json.Object)
    requires echo in s.calls && echo in t.calls && FirstAnswer(s, echo, payload)
    requires s.frames <= t.frames && s.calls[echo].client == t.calls[echo].client && s.calls[echo].since == t.calls[echo].since
    ensures FirstAnswer(t, echo, payload)
  {
  }

  lemma InvExpire(s: State, echo: string)
    requires Inv(s) && Enabled(s, Expire(echo))
    ensures Inv(Apply(s, Expire(echo)))
  {
  }

  lemma InvResume(s: State, echo: string, timedOut: bool)
    requires Inv(s) && Enabled(s, Resume(echo, timedOut))
    ensures Inv(Apply(s, Resume(echo, timedOut)))
  {
  }

  lemma InvAbort(s: State, echo: string)
    requires Inv(s) && Enabled(s, Abort(echo))
    ensures Inv(Apply(s, Abort(echo)))
  {
  }

  lemma InvStep(s: State, step: Step)
    requires Inv(s) && Enabled(s, step)
    ensures Inv(Apply(s, step))
  {
    match step
    case Connect => InvConnect(s);
    case Disconnect(client) => InvDisconnect(s, client);
    case Begin(client, echo) => InvBegin(s, client, echo);
    case Sent(echo) => InvSent(s, echo);
    case SendFails(echo) => InvSendFails(s, echo);
    case Receive(client, payload) => InvReceive(s, client, payload);
    case Expire(echo) => InvExpire(s, echo);
    case Resume(echo, timedOut) => InvResume(s, echo, timedOut);
    case Abort(echo) => InvAbort(s, echo);
  }

  lemma {:induction false} InvAlways(trace: seq<State>, i: nat)
    requires Execution(trace) && i < |trace|
    ensures Inv(trace[i])
  {
    if i > 0 {
      InvAlways(trace, i - 1);
      assert Linked(trace, i);
      var step :| Enabled(trace[i - 1], step) && trace[i] == Apply(trace[i - 1], step);
      InvStep(trace[i - 1], step);
    }
  }

  // ------------------------------------------------------------------ the laws

  /**
   Over all interleavings: a call that has a result has the first response bearing its echo that arrived
   on its own connection after it was made, it returns nothing else, and no other call has that response.
   */
  lemma ResultsCorrelated(trace: seq<State>, i: nat, echo: string)
    requires Execution(trace) && i < |trace| && echo in trace[i].calls
    ensures var s := trace[i];
      && (s.calls[echo].phase.Returned? ==> s.calls[echo].outcome == Result(s.calls[echo].phase.payload))
      && (s.calls[echo].outcome.Result? ==>
           && FirstAnswer(s, echo, s.calls[echo].outcome.payload)
           && forall other :: other in s.calls && s.calls[other].outcome == s.calls[echo].outcome ==> other == echo)
  {
    InvAlways(trace, i);
    var s := trace[i];
    assert CallOk(s, echo);
    if s.calls[echo].outcome.Result? {
      forall other | other in s.calls && s.calls[other].outcome == s.calls[echo].outcome
        ensures other == echo
      {
        assert CallOk(s, other);
      }
    }
  }

  /** A call is settled once its future is done: nothing changes the outcome afterwards. */
  predicate Settled(s: State, t: State, echo: string) {
    echo in s.calls && !s.calls[echo].outcome.Uncompleted? ==> echo in t.calls && t.calls[echo].outcome == s.calls[echo].outcome
  }

  lemma {:induction false} CompletedOnce(trace: seq<State>, i: nat, j: nat, echo: string)
    requires Execution(trace) && i <= j < |trace|
    ensures Settled(trace[i], trace[j], echo)
    decreases j - i
  {
    if i < j {
      CompletedOnce(trace, i, j - 1, echo);
      assert Linked(trace, j);
      var step :| Enabled(trace[j - 1], step) && trace[j] == Apply(trace[j - 1], step);
      SettledStep(trace[j - 1], step, echo);
    }
  }

  lemma SettledStep(s: State, step: Step, echo: string)
    requires Enabled(s, step)
    ensures Settled(s, Apply(s, step), echo)
  {
  }

  /**
   Which uncompleted futures a close or a response can still reach: all of them, except exactly those
   whose request failed to be sent.
   */
  lemma UncompletedIsTabled(trace: seq<State>, i: nat, echo: string)
    requires Execution(trace) && i < |trace| && echo in trace[i].calls && trace[i].calls[echo].outcome.Uncompleted?
    ensures var call := trace[i].calls[echo];
      call.client < |trace[i].clients|
      && (echo in trace[i].clients[call.client].pending <==> !call.phase.SendFailed?)
  {
    InvAlways(trace, i);
    assert CallOk(trace[i], echo);
  }

  /** The exception happens: a run that ends with an uncompleted future in no table. */
  lemma SendFailureDropsFuture() returns (trace: seq<State>, echo: string)
    ensures Execution(trace)
    ensures var s := trace[|trace| - 1];
      && echo in s.calls && s.calls[echo].outcome.Uncompleted?
      && forall k :: 0 <= k < |s.clients| ==> echo !in s.clients[k].pending
  {
    echo := "rpc_1";
    var connected := Apply(START, Connect);
    var begun := Apply(connected, Begin(0, echo));
    var failed := Apply(begun, SendFails(echo));
    trace := [START, connected, begun, failed];
    assert Enabled(START, Connect) && Enabled(connected, Begin(0, echo)) && Enabled(begun, SendFails(echo));
  }

  /** After a close the table is empty and no call that was sent is left waiting: its future is done. */
  lemma ClosedIsDrained(trace: seq<State>, i: nat, client: nat)
    requires Execution(trace) && i < |trace| && client < |trace[i].clients| && trace[i].clients[client].closed
    ensures var s := trace[i];
      && s.clients[client].pending == {}
      && forall echo :: echo in s.calls && s.calls[echo].client == client && !s.calls[echo].phase.SendFailed? ==>
           !s.calls[echo].outcome.Uncompleted?
  {
    InvAlways(trace, i);
    var s := trace[i];
    forall echo | echo in s.calls && s.calls[echo].client == client && !s.calls[echo].phase.SendFailed?
      ensures !s.calls[echo].outcome.Uncompleted?
    {
      assert CallOk(s, echo);
    }
  }

  /** However connections come, go and replace each other, a client is open exactly while it is the registered one. */
  lemma RegisteredIsTheOpenOne(trace: seq<State>, i: nat, client: nat)
    requires Execution(trace) && i < |trace| && client < |trace[i].clients|
    ensures !trace[i].clients[client].closed <==> trace[i].current == Some(client)
  {
    InvAlways(trace, i);
  }

  /** What a table can hold besides calls under way: only calls whose own task was cancelled, until the client closes. */
  lemma TableHoldsLiveOrAborted(trace: seq<State>, i: nat, client: nat, echo: string)
    requires Execution(trace) && i < |trace| && client < |trace[i].clients| && echo in trace[i].clients[client].pending
    ensures EntryOk(trace[i], client, echo)
  {
    InvAlways(trace, i);
  }
}
