/**
 The processor's message handling on top of the queue protocol: deliveries and redeliveries, the
 enqueue, the acknowledgement that may be lost, and crashes anywhere in between.
 */
module WorkerProtocol {
  import opened Common
  import Q = QueueProtocol
  import QueueRounds
  import Contract
  import Json
  import Naming
  import Outbox = OutboxProtocol

  /** What stays fixed: configuration, the messages the broker may deliver, and path resolution. */
  datatype World = World(
    cfg: Q.Config,
    message: nat -> Option<Json.Value>,
    root: string,
    resolve: string -> string,
    parseInt: string -> Option<int>)

  /** A handler that is done returns whether to acknowledge. */
  datatype Phase = Received | Done(ok: bool)

  datatype Handler = Handler(msg: nat, phase: Phase)

  datatype State = State(
    queue: Q.State,
    handlers: map<nat, Handler>,
    acked: set<nat>)   // history: acknowledged messages

  datatype Step =
    | Deliver(handler: nat, msg: nat)
    | Undecodable(handler: nat)
    | Unresolved(handler: nat, host: Naming.Host)
    | Accept(handler: nat, host: Naming.Host, now: int)
    | EnqueueFails(handler: nat)
    | Ack(handler: nat)
    | AnswerLost(handler: nat)
    | Nak(handler: nat)
    | Queue(step: Q.Step)
    | Crash

  function Decoded(w: World, msg: nat): Result<Contract.Task> {
    Contract.DecodeTask(w.message(msg), w.parseInt)
  }

  /** The payload `_process_tagger_task_message` enqueues. */
  function Payload(path: string, task: Contract.Task): Json.Object {
    map["image_path" := Json.Str(path), "context" := Json.Obj(task.context)]
  }

  /** `Path.resolve()` gives absolute paths. */
  predicate Absolute(path: string) {
    path != "" && path[0] == '/'
  }

  /** The path a message is queued under on this host, when its file is found. */
  function QueuePath(w: World, msg: nat, host: Naming.Host): Option<string> {
    match Decoded(w, msg)
    case Err(_) => None
    case Ok(task) =>
      match Naming.ResolveTask(host, w.root, task)
      case None => None
      case Some(path) =>
        if Absolute(path) then QueueRounds.AcceptedPath(w.resolve, Payload(path, task)) else None
  }

  predicate Waiting(s: State, handler: nat) {
    handler in s.handlers && s.handlers[handler].phase.Received?
  }

  predicate Enabled(w: World, s: State, step: Step) {
    match step
    case Deliver(handler, _) => handler !in s.handlers
    case Undecodable(handler) => Waiting(s, handler) && Decoded(w, s.handlers[handler].msg).Err?
    case Unresolved(handler, host) =>
      && Waiting(s, handler)
      && var task := Decoded(w, s.handlers[handler].msg);
         task.Ok? && Naming.ResolveTask(host, w.root, task.value).None?
    case Accept(handler, host, _) =>
      Waiting(s, handler) && Q.LockFree(s.queue) && QueuePath(w, s.handlers[handler].msg, host).Some?
    case EnqueueFails(handler) => Waiting(s, handler)
    case Ack(handler) => handler in s.handlers && s.handlers[handler].phase.Done? && s.handlers[handler].phase.ok
    case AnswerLost(handler) => handler in s.handlers && s.handlers[handler].phase.Done?
    case Nak(handler) => handler in s.handlers && s.handlers[handler].phase.Done? && !s.handlers[handler].phase.ok
    case Queue(inner) => Q.Enabled(w.cfg, s.queue, inner)
    case Crash => true
  }

  function Finish(s: State, handler: nat, ok: bool): State
    requires handler in s.handlers
  {
    s.(handlers := s.handlers[handler := s.handlers[handler].(phase := Done(ok))])
  }

  function Apply(w: World, s: State, step: Step): State
    requires Enabled(w, s, step)
  {
    match step
    case Deliver(handler, msg) => s.(handlers := s.handlers[handler := Handler(msg, Received)])
    case Undecodable(handler) => Finish(s, handler, true)
    case Unresolved(handler, _) => Finish(s, handler, false)
    case Accept(handler, host, now) =>
      var msg := s.handlers[handler].msg;
      var path := QueuePath(w, msg, host).value;
      var enqueue := Q.Enqueue(path, Decoded(w, msg).value.context, now);
      Finish(s, handler, true).(queue := Q.Apply(w.cfg, s.queue, enqueue))
    case EnqueueFails(handler) => Finish(s, handler, false)
    case Ack(handler) =>
      s.(acked := s.acked + {s.handlers[handler].msg}, handlers := s.handlers - {handler})
    case AnswerLost(handler) => s.(handlers := s.handlers - {handler})
    case Nak(handler) => s.(handlers := s.handlers - {handler})
    case Queue(inner) => s.(queue := Q.Apply(w.cfg, s.queue, inner))
    case Crash => s.(queue := Q.Apply(w.cfg, s.queue, Q.Crash), handlers := map[])
  }

  /** A run with its steps; the k-th leads from its state at `k` to the one after it. */
  datatype Run = Run(states: seq<State>, steps: seq<Step>)

  ghost predicate Taken(w: World, run: Run, k: nat)
    requires k < |run.steps| && |run.states| == |run.steps| + 1
  {
    Enabled(w, run.states[k], run.steps[k]) && run.states[k + 1] == Apply(w, run.states[k], run.steps[k])
  }

  predicate Initial(s: State) {
    s.queue.pc.Idle? && s.queue.receipts == {} && s.handlers == map[] && s.acked == {}
  }

  ghost predicate Execution(w: World, run: Run) {
    && |run.states| == |run.steps| + 1 && Initial(run.states[0])
    && forall k :: 0 <= k < |run.steps| ==> Taken(w, run, k)
  }

  /** The queue's share of a step: one of its own steps, or none. */
  lemma QueueShare(w: World, s: State, step: Step)
    requires Q.Safe(w.cfg, s.queue) && Enabled(w, s, step)
    ensures Q.Safe(w.cfg, Apply(w, s, step).queue)
    ensures s.queue.receipts <= Apply(w, s, step).queue.receipts
  {
    match step
    case Accept(handler, host, now) =>
      var msg := s.handlers[handler].msg;
      Q.SafeStep(w.cfg, s.queue,
        Q.Enqueue(QueuePath(w, msg, host).value, Decoded(w, msg).value.context, now));
    case Queue(inner) => Q.SafeStep(w.cfg, s.queue, inner);
    case Crash => Q.SafeStep(w.cfg, s.queue, Q.Crash);
    case _ =>
  }

  lemma {:induction false} QueueAlways(w: World, run: Run, j: nat)
    requires Execution(w, run) && j <= |run.steps|
    ensures Q.Safe(w.cfg, run.states[j].queue)
    ensures forall i :: 0 <= i <= j ==> run.states[i].queue.receipts <= run.states[j].queue.receipts
  {
    if j > 0 {
      QueueAlways(w, run, j - 1);
      assert Taken(w, run, j - 1);
      QueueShare(w, run.states[j - 1], run.steps[j - 1]);
    }
  }

  /** The step enqueues the path that this message resolves to, on the host as it is at that moment. */
  predicate Accepts(s: State, step: Step, msg: nat) {
    step.Accept? && step.handler in s.handlers && s.handlers[step.handler].msg == msg
  }

  ghost predicate AcceptedAt(w: World, run: Run, k: nat, msg: nat)
    requires Execution(w, run)
  {
    k < |run.steps| && Accepts(run.states[k], run.steps[k], msg)
  }

  ghost predicate AcceptedBefore(w: World, run: Run, j: nat, msg: nat)
    requires Execution(w, run)
  {
    exists k: nat :: k < j && AcceptedAt(w, run, k, msg)
  }

  /** Acknowledged, or about to be. */
  predicate Settled(s: State, msg: nat) {
    msg in s.acked || exists h :: h in s.handlers && s.handlers[h] == Handler(msg, Done(true))
  }

  /** Only an undecodable message, or one that was accepted by an earlier step of the run, gets that far. */
  lemma {:induction false} SettledWasAccepted(w: World, run: Run, j: nat, msg: nat)
    requires Execution(w, run) && j <= |run.steps| && Settled(run.states[j], msg)
    ensures Decoded(w, msg).Err? || AcceptedBefore(w, run, j, msg)
  {
    if j > 0 {
      assert Taken(w, run, j - 1);
      if Settled(run.states[j - 1], msg) {
        SettledWasAccepted(w, run, j - 1, msg);
      } else {
        SettledByStep(w, run.states[j - 1], run.steps[j - 1], msg);
        assert Decoded(w, msg).Ok? ==> AcceptedAt(w, run, j - 1, msg);
      }
    }
  }

  lemma SettledByStep(w: World, s: State, step: Step, msg: nat)
    requires Enabled(w, s, step) && !Settled(s, msg) && Settled(Apply(w, s, step), msg)
    ensures Accepts(s, step, msg) || Decoded(w, msg).Err?
  {
    var t := Apply(w, s, step);
    if msg !in t.acked {
      var h :| h in t.handlers && t.handlers[h] == Handler(msg, Done(true));
    }
  }

  /** A path is safe in the processor's hands: waiting in a file, or finally audited at or after position `at`. */
  predicate InHand(queue: Q.State, path: string, at: nat) {
    Q.Pending(queue, path) || Q.SettledSince(queue.audit, path, at)
  }

  /** The path that the k-th step, which accepts the message, has put into the queue. */
  ghost function PathAt(w: World, run: Run, k: nat, msg: nat): string
    requires Execution(w, run) && AcceptedAt(w, run, k, msg)
  {
    assert Taken(w, run, k);
    QueuePath(w, msg, run.steps[k].host).value
  }

  /** From that step on, in every state of the run, this path is in hand. */
  ghost predicate InHandFrom(w: World, run: Run, k: nat, msg: nat)
    requires Execution(w, run) && AcceptedAt(w, run, k, msg)
  {
    forall j :: k < j <= |run.steps| ==>
      InHand(run.states[j].queue, PathAt(w, run, k, msg), |run.states[k].queue.audit|)
  }

  lemma AcceptedInHand(w: World, run: Run, k: nat, msg: nat)
    requires Execution(w, run) && AcceptedAt(w, run, k, msg)
    ensures InHandFrom(w, run, k, msg)
  {
    assert Taken(w, run, k);
    var r := Q.Receipt(PathAt(w, run, k, msg), |run.states[k].queue.audit|);
    assert r in run.states[k + 1].queue.receipts;
    forall j | k < j <= |run.steps|
      ensures InHand(run.states[j].queue, r.path, r.at)
    {
      QueueAlways(w, run, j);
      assert run.states[k + 1].queue.receipts <= run.states[j].queue.receipts;
      assert Q.Honoured(run.states[j].queue, r);
    }
  }

  /** A step before state `i` accepted the message, and the path it resolved to there is in hand ever since. */
  ghost predicate HandedOff(w: World, run: Run, i: nat, msg: nat)
    requires Execution(w, run)
  {
    exists k: nat :: k < i && AcceptedAt(w, run, k, msg) && InHandFrom(w, run, k, msg)
  }

  /**
   Ack implies durable hand-off. Over all deliveries, redeliveries, lost answers and crashes, a message that
   is acknowledged is undecodable, or a step before its acknowledgement resolved that very message to a path,
   on the host as it was then, and from that step on, in every state of the run, this path is in one of the
   queue's files or finally audited after the step.
   */
  lemma AckIsHandOff(w: World, run: Run, i: nat, msg: nat)
    requires Execution(w, run) && i <= |run.steps| && msg in run.states[i].acked
    ensures Decoded(w, msg).Err? || HandedOff(w, run, i, msg)
  {
    SettledWasAccepted(w, run, i, msg);
    if Decoded(w, msg).Ok? {
      var k: nat :| k < i && AcceptedAt(w, run, k, msg);
      AcceptedInHand(w, run, k, msg);
    }
  }

  // ------------------------------------------------------------- end to end

  /**
   From saved image to tagging queue. A row the logger marked published has its image's task in the
   stream; and once the processor has acknowledged that very message, the task is handed off. The
   excuse of an undecodable message does not arise.
   */
  lemma PublishedThenAcked(cfg: Outbox.Config, outbox: seq<Outbox.State>, n: nat, id: nat,
                           w: World, run: Run, i: nat) returns (msg: nat)
    requires Outbox.Execution(cfg, outbox) && n < |outbox| && id < |outbox[n].rows|
    requires outbox[n].rows[id].status == Outbox.Published
    requires forall image :: image in outbox[n].images ==> Contract.Built(image, outbox[n].images[image])
    requires forall k :: 0 <= k < |outbox[n].stream| ==> w.message(k) == Some(Json.Obj(outbox[n].stream[k].payload))
    requires Execution(w, run) && i <= |run.steps|
    ensures msg < |outbox[n].stream| && outbox[n].stream[msg].id == outbox[n].rows[id].image
    ensures var image := outbox[n].rows[id].image;
      image in outbox[n].images && outbox[n].stream[msg].payload == outbox[n].images[image]
    ensures Decoded(w, msg).Ok? && Decoded(w, msg).value.imageId == outbox[n].rows[id].image
    ensures msg in run.states[i].acked ==> HandedOff(w, run, i, msg)
  {
    var s := outbox[n];
    Outbox.SoundAlways(cfg, outbox, n);
    var m :| m in s.stream && m.id == s.rows[id].image;
    msg :| 0 <= msg < |s.stream| && s.stream[msg] == m;
    Contract.BuiltDecodes(m.id, m.payload, w.parseInt);
    if msg in run.states[i].acked {
      AckIsHandOff(w, run, i, msg);
    }
  }
}
