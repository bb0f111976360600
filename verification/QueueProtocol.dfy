/**
 The processor's durable tagging queue as a protocol over its two files and its audit log.

 Every step performs at most one file write, because each write replaces its file
 atomically. Between any two steps the runner may stop (a crash, a cancelled task or an
 exception): what it held in memory is gone and only the files remain. One runner drives
 the queue; enqueues interleave with it wherever it does not hold the queue lock.
 */
module QueueProtocol {
  import opened Common
  import Json

  datatype Config = Config(active: bool, batchSize: Positive, maxAttempts: Positive)

  datatype Item = Item(path: string, context: Json.Object, enqueuedAt: int, attempts: nat)

  datatype Status =
    | Success(tags: seq<string>)
    | Retrying(error: string)
    | Failed(error: string)

  datatype Entry = Entry(status: Status, path: string, attempts: nat, context: Json.Object)

  /** What the runner's answer means for one item of the batch. */
  datatype Verdict = Tagged(tags: seq<string>) | Rejected(error: string)

  /** Where the runner stands; `since` is the length of the audit log when the batch was taken. */
  datatype Pc =
    | Idle
    | Restored
    | Ready
    | Marked
    | Tagging(since: nat)
    | Settling(since: nat, verdicts: seq<Verdict>, done: nat, requeue: seq<Item>)
    | Requeued(since: nat)

  /** An enqueue that returned: its path, and the length of the audit log at that moment. */
  datatype Receipt = Receipt(path: string, at: nat)

  datatype State = State(
    queue: seq<Item>,
    inflight: seq<Item>,
    audit: seq<Entry>,
    pc: Pc,
    receipts: set<Receipt>)

  datatype Step =
    | Enqueue(path: string, context: Json.Object, now: int)
    | RestoreWrite
    | RestoreClear
    | FoundEmpty
    | Mark
    | Take
    | Answer(answers: seq<Verdict>)
    | Settle
    | RequeueWrite
    | Clear
    | Crash

  predicate Has(items: seq<Item>, path: string) {
    exists item :: item in items && item.path == path
  }

  function Min(a: nat, b: nat): nat {
    if a <= b then a else b
  }

  /** The in-flight items whose path is not queued, in order. */
  function Missing(inflight: seq<Item>, queue: seq<Item>): (r: seq<Item>)
    ensures forall item :: item in r <==> item in inflight && !Has(queue, item.path)
  {
    if inflight == [] then []
    else if Has(queue, inflight[0].path) then Missing(inflight[1..], queue)
    else [inflight[0]] + Missing(inflight[1..], queue)
  }

  function Enqueued(queue: seq<Item>, path: string, context: Json.Object, now: int): seq<Item> {
    if Has(queue, path) then queue else queue + [Item(path, context, now, 0)]
  }

  predicate Retries(cfg: Config, item: Item, verdict: Verdict) {
    verdict.Rejected? && item.attempts + 1 < cfg.maxAttempts
  }

  function Retry(item: Item): Item {
    item.(attempts := item.attempts + 1)
  }

  function EntryFor(cfg: Config, item: Item, verdict: Verdict): Entry {
    var status :=
      match verdict
      case Tagged(tags) => Success(tags)
      case Rejected(error) => if Retries(cfg, item, verdict) then Retrying(error) else Failed(error);
    Entry(status, item.path, item.attempts + 1, item.context)
  }

  /** The queue lock is held from the start of a restore until the batch has been taken. */
  predicate LockFree(s: State) {
    !s.pc.Restored? && !s.pc.Ready? && !s.pc.Marked?
  }

  predicate Enabled(cfg: Config, s: State, step: Step) {
    match step
    case Enqueue(_, _, _) => LockFree(s)
    case RestoreWrite => s.pc.Idle? && Missing(s.inflight, s.queue) != []
    case RestoreClear => s.pc.Restored? || (s.pc.Idle? && Missing(s.inflight, s.queue) == [])
    case FoundEmpty => s.pc.Ready? && s.queue == []
    case Mark => s.pc.Ready? && s.queue != []
    case Take => s.pc.Marked?
    case Answer(answers) => s.pc.Tagging? && |answers| == |s.inflight|
    case Settle => s.pc.Settling? && s.pc.done < |s.inflight| == |s.pc.verdicts|
    case RequeueWrite => s.pc.Settling? && s.pc.done == |s.inflight| && s.pc.requeue != []
    case Clear => s.pc.Requeued? || (s.pc.Settling? && s.pc.done == |s.inflight| && s.pc.requeue == [])
    case Crash => true
  }

  function Apply(cfg: Config, s: State, step: Step): State
    requires Enabled(cfg, s, step)
  {
    match step
    case Enqueue(path, context, now) =>
      s.(queue := Enqueued(s.queue, path, context, now),
         receipts := s.receipts + {Receipt(path, |s.audit|)})
    case RestoreWrite => s.(queue := Missing(s.inflight, s.queue) + s.queue, pc := Restored)
    case RestoreClear => s.(inflight := [], pc := Ready)
    case FoundEmpty => s.(pc := Idle)
    case Mark => s.(inflight := s.queue[..Min(cfg.batchSize, |s.queue|)], pc := Marked)
    case Take => s.(queue := s.queue[Min(cfg.batchSize, |s.queue|)..], pc := Tagging(|s.audit|))
    case Answer(answers) => s.(pc := Settling(s.pc.since, answers, 0, []))
    case Settle =>
      var item, verdict := s.inflight[s.pc.done], s.pc.verdicts[s.pc.done];
      var requeue := if Retries(cfg, item, verdict) then s.pc.requeue + [Retry(item)] else s.pc.requeue;
      s.(audit := s.audit + [EntryFor(cfg, item, verdict)],
         pc := s.pc.(done := s.pc.done + 1, requeue := requeue))
    case RequeueWrite => s.(queue := s.pc.requeue + s.queue, pc := Requeued(s.pc.since))
    case Clear => s.(inflight := [], pc := Idle)
    case Crash => s.(pc := Idle)
  }

  ghost predicate Next(cfg: Config, s: State, t: State) {
    exists step :: Enabled(cfg, s, step) && t == Apply(cfg, s, step)
  }

  /** A run goes from its state before `i` to the one at `i` in one step. */
  ghost predicate Linked(cfg: Config, trace: seq<State>, i: nat)
    requires 0 < i < |trace|
  {
    Next(cfg, trace[i - 1], trace[i])
  }

  /** A run from any files left behind by earlier processes. */
  ghost predicate Execution(cfg: Config, trace: seq<State>) {
    && trace != []
    && trace[0].pc.Idle? && trace[0].receipts == {}
    && forall i :: 0 < i < |trace| ==> Linked(cfg, trace, i)
  }

  // ---------------------------------------------------------------- no loss

  predicate Terminal(entry: Entry, path: string) {
    entry.path == path && !entry.status.Retrying?
  }

  /** The log settles `path` for good somewhere at or after position `at`. */
  predicate SettledSince(audit: seq<Entry>, path: string, at: nat) {
    exists k :: at <= k < |audit| && Terminal(audit[k], path)
  }

  predicate Pending(s: State, path: string) {
    Has(s.queue, path) || Has(s.inflight, path)
  }

  predicate HasBatch(pc: Pc) {
    pc.Tagging? || pc.Settling? || pc.Requeued?
  }

  /**
   How a receipt is honoured. An in-flight copy counts only for receipts that are not
   younger than the batch: a younger one must have its own queued copy, because clearing the
   in-flight file answers for the batch alone.
   */
  predicate Honoured(s: State, r: Receipt) {
    || Has(s.queue, r.path)
    || SettledSince(s.audit, r.path, r.at)
    || (Has(s.inflight, r.path) && (HasBatch(s.pc) ==> r.at <= s.pc.since))
  }

  /** A batch item is answered for once it is kept for a retry or settled since the batch was taken. */
  predicate AnsweredFor(keep: seq<Item>, audit: seq<Entry>, path: string, since: nat) {
    Has(keep, path) || SettledSince(audit, path, since)
  }

  predicate PcSound(cfg: Config, s: State) {
    match s.pc
    case Idle => true
    case Restored => forall item :: item in s.inflight ==> Has(s.queue, item.path)
    case Ready => s.inflight == []
    case Marked => s.inflight == s.queue[..Min(cfg.batchSize, |s.queue|)]
    case Tagging(since) => since <= |s.audit|
    case Settling(since, verdicts, done, requeue) =>
      && since <= |s.audit| && |verdicts| == |s.inflight| && done <= |s.inflight|
      && forall i :: 0 <= i < done ==> AnsweredFor(requeue, s.audit, s.inflight[i].path, since)
    case Requeued(since) =>
      && since <= |s.audit|
      && forall item :: item in s.inflight ==> AnsweredFor(s.queue, s.audit, item.path, since)
  }

  predicate Safe(cfg: Config, s: State) {
    && PcSound(cfg, s)
    && forall r :: r in s.receipts ==> r.at <= |s.audit| && Honoured(s, r)
  }

  lemma SettledSurvives(audit: seq<Entry>, more: seq<Entry>, path: string, at: nat, earlier: nat)
    requires SettledSince(audit, path, at) && earlier <= at
    ensures SettledSince(audit + more, path, earlier)
  {
    var k :| at <= k < |audit| && Terminal(audit[k], path);
    assert Terminal((audit + more)[k], path);
  }

  lemma SafeEnqueue(cfg: Config, s: State, step: Step)
    requires Safe(cfg, s) && step.Enqueue? && Enabled(cfg, s, step)
    ensures Safe(cfg, Apply(cfg, s, step))
  {
  }

  lemma SafeRestore(cfg: Config, s: State, step: Step)
    requires Safe(cfg, s) && (step.RestoreWrite? || step.RestoreClear?) && Enabled(cfg, s, step)
    ensures Safe(cfg, Apply(cfg, s, step))
  {
  }

  lemma SafeTake(cfg: Config, s: State, step: Step)
    requires Safe(cfg, s) && (step.Mark? || step.Take?) && Enabled(cfg, s, step)
    ensures Safe(cfg, Apply(cfg, s, step))
  {
  }

  lemma SafeSettle(cfg: Config, s: State, step: Step)
    requires Safe(cfg, s) && step.Settle? && Enabled(cfg, s, step)
    ensures Safe(cfg, Apply(cfg, s, step))
  {
    var t := Apply(cfg, s, step);
    var item, verdict := s.inflight[s.pc.done], s.pc.verdicts[s.pc.done];
    var entry := EntryFor(cfg, item, verdict);
    assert t.audit[|s.audit|] == entry;
    if Retries(cfg, item, verdict) {
      assert Retry(item) in t.pc.requeue;
    } else {
      assert Terminal(t.audit[|s.audit|], item.path);
    }
    forall i | 0 <= i < t.pc.done
      ensures AnsweredFor(t.pc.requeue, t.audit, t.inflight[i].path, t.pc.since)
    {
      var path := t.inflight[i].path;
      if i < s.pc.done && !Has(s.pc.requeue, path) {
        SettledSurvives(s.audit, [entry], path, s.pc.since, s.pc.since);
      } else if i < s.pc.done {
        assert forall kept :: kept in s.pc.requeue ==> kept in t.pc.requeue;
      }
    }
    forall r | r in s.receipts
      ensures Honoured(t, r)
    {
      if SettledSince(s.audit, r.path, r.at) {
        SettledSurvives(s.audit, [entry], r.path, r.at, r.at);
      }
    }
  }

  lemma SafeFinish(cfg: Config, s: State, step: Step)
    requires Safe(cfg, s) && (step.RequeueWrite? || step.Clear?) && Enabled(cfg, s, step)
    ensures Safe(cfg, Apply(cfg, s, step))
  {
  }

  /** Every step, a crash included, keeps the no-loss invariant. */
  lemma SafeStep(cfg: Config, s: State, step: Step)
    requires Safe(cfg, s) && Enabled(cfg, s, step)
    ensures Safe(cfg, Apply(cfg, s, step))
    ensures s.receipts <= Apply(cfg, s, step).receipts
  {
    match step
    case Enqueue(_, _, _) => SafeEnqueue(cfg, s, step);
    case RestoreWrite => SafeRestore(cfg, s, step);
    case RestoreClear => SafeRestore(cfg, s, step);
    case FoundEmpty =>
    case Mark => SafeTake(cfg, s, step);
    case Take => SafeTake(cfg, s, step);
    case Answer(_) =>
    case Settle => SafeSettle(cfg, s, step);
    case RequeueWrite => SafeFinish(cfg, s, step);
    case Clear => SafeFinish(cfg, s, step);
    case Crash =>
  }

  lemma {:induction false} SafeAlways(cfg: Config, trace: seq<State>, j: nat)
    requires Execution(cfg, trace) && j < |trace|
    ensures Safe(cfg, trace[j])
    ensures forall i :: 0 <= i <= j ==> trace[i].receipts <= trace[j].receipts
  {
    if j > 0 {
      SafeAlways(cfg, trace, j - 1);
      assert Linked(cfg, trace, j);
      var step :| Enabled(cfg, trace[j - 1], step) && trace[j] == Apply(cfg, trace[j - 1], step);
      SafeStep(cfg, trace[j - 1], step);
    }
  }

  /**
   No loss. Once an enqueue of `path` has returned, whether it wrote the file or found the path
   queued already, every later state of every run has the path in one of the two files, or has a
   final audit entry for it written after that enqueue.
   */
  lemma NoLoss(cfg: Config, trace: seq<State>, i: nat, j: nat, path: string, context: Json.Object, now: int)
    requires Execution(cfg, trace) && i < j < |trace|
    requires Enabled(cfg, trace[i], Enqueue(path, context, now))
    requires trace[i + 1] == Apply(cfg, trace[i], Enqueue(path, context, now))
    ensures Pending(trace[j], path) || SettledSince(trace[j].audit, path, |trace[i].audit|)
  {
    SafeAlways(cfg, trace, j);
    var r := Receipt(path, |trace[i].audit|);
    assert r in trace[i + 1].receipts;
    assert r in trace[j].receipts;
    assert Honoured(trace[j], r);
  }

  // ------------------------------------------------------- bounded duplication

  /** Copies of one path lose attempts from the front of the list to its back. */
  predicate Descending(items: seq<Item>) {
    forall i, j :: 0 <= i < j < |items| && items[i].path == items[j].path ==> items[i].attempts > items[j].attempts
  }

  predicate Below(items: seq<Item>, limit: nat) {
    forall item :: item in items ==> item.attempts < limit
  }

  /** No queued copy has been tried more often than the copy in the batch. */
  predicate Trails(queue: seq<Item>, batch: seq<Item>) {
    forall q, b :: q in queue && b in batch && q.path == b.path ==> q.attempts <= b.attempts
  }

  /** Everything kept for a retry is one of the first `done` batch items, tried once more. */
  predicate FromBatch(requeue: seq<Item>, batch: seq<Item>, done: nat)
    requires done <= |batch|
  {
    forall r :: r in requeue ==> exists i :: 0 <= i < done && r == Retry(batch[i])
  }

  predicate Ordered(cfg: Config, s: State) {
    && Descending(s.queue) && Below(s.queue, cfg.maxAttempts)
    && Descending(s.inflight) && Below(s.inflight, cfg.maxAttempts)
    && match s.pc
       case Tagging(_) => Trails(s.queue, s.inflight)
       case Settling(_, verdicts, done, requeue) =>
         && Trails(s.queue, s.inflight)
         && |verdicts| == |s.inflight| && done <= |s.inflight|
         && Descending(requeue) && Below(requeue, cfg.maxAttempts) && FromBatch(requeue, s.inflight, done)
       case _ => PcSound(cfg, s)
  }

  lemma DescendingParts(items: seq<Item>, n: nat)
    requires Descending(items) && n <= |items|
    ensures Descending(items[..n]) && Descending(items[n..])
  {
  }

  /** Gluing two lists keeps the order when every front copy has more attempts than every back copy. */
  lemma DescendingConcat(front: seq<Item>, back: seq<Item>)
    requires Descending(front) && Descending(back)
    requires forall f, b :: f in front && b in back && f.path == b.path ==> f.attempts > b.attempts
    ensures Descending(front + back)
  {
  }

  lemma {:induction false} MissingDescending(inflight: seq<Item>, queue: seq<Item>)
    requires Descending(inflight)
    ensures Descending(Missing(inflight, queue))
  {
    if inflight != [] {
      DescendingParts(inflight, 1);
      MissingDescending(inflight[1..], queue);
      if !Has(queue, inflight[0].path) {
        DescendingConcat([inflight[0]], Missing(inflight[1..], queue));
      }
    }
  }

  lemma KeptFromBatch(cfg: Config, s: State)
    requires Enabled(cfg, s, Settle) && FromBatch(s.pc.requeue, s.inflight, s.pc.done)
    ensures var t := Apply(cfg, s, Settle); FromBatch(t.pc.requeue, t.inflight, t.pc.done)
  {
    var t := Apply(cfg, s, Settle);
    forall r | r in t.pc.requeue
      ensures exists i :: 0 <= i < t.pc.done && r == Retry(t.inflight[i])
    {
      if r in s.pc.requeue {
        var i :| 0 <= i < s.pc.done && r == Retry(s.inflight[i]);
        assert r == Retry(t.inflight[i]);
      } else {
        assert r == Retry(t.inflight[s.pc.done]);
      }
    }
  }

  lemma OrderedSettle(cfg: Config, s: State)
    requires Ordered(cfg, s) && Enabled(cfg, s, Settle)
    ensures Ordered(cfg, Apply(cfg, s, Settle))
  {
    var t := Apply(cfg, s, Settle);
    var item, verdict := s.inflight[s.pc.done], s.pc.verdicts[s.pc.done];
    if Retries(cfg, item, verdict) {
      forall r | r in s.pc.requeue && r.path == item.path
        ensures r.attempts > Retry(item).attempts
      {
        var i :| 0 <= i < s.pc.done && r == Retry(s.inflight[i]);
      }
      DescendingConcat(s.pc.requeue, [Retry(item)]);
    }
    KeptFromBatch(cfg, s);
  }

  lemma OrderedTake(cfg: Config, s: State, step: Step)
    requires Ordered(cfg, s) && (step.Mark? || step.Take?) && Enabled(cfg, s, step)
    ensures Ordered(cfg, Apply(cfg, s, step))
  {
  }

  lemma OrderedRequeue(cfg: Config, s: State)
    requires Ordered(cfg, s) && Safe(cfg, s) && Enabled(cfg, s, RequeueWrite)
    ensures Ordered(cfg, Apply(cfg, s, RequeueWrite))
  {
    forall r, q | r in s.pc.requeue && q in s.queue && r.path == q.path
      ensures r.attempts > q.attempts
    {
      var i :| 0 <= i < s.pc.done && r == Retry(s.inflight[i]);
      assert s.inflight[i] in s.inflight;
    }
    DescendingConcat(s.pc.requeue, s.queue);
    SafeStep(cfg, s, RequeueWrite);
  }

  lemma OrderedRestore(cfg: Config, s: State, step: Step)
    requires Ordered(cfg, s) && Safe(cfg, s) && (step.RestoreWrite? || step.RestoreClear?) && Enabled(cfg, s, step)
    ensures Ordered(cfg, Apply(cfg, s, step))
  {
    SafeStep(cfg, s, step);
    if step.RestoreWrite? {
      MissingDescending(s.inflight, s.queue);
      DescendingConcat(Missing(s.inflight, s.queue), s.queue);
    }
  }

  lemma OrderedEnqueue(cfg: Config, s: State, step: Step)
    requires Ordered(cfg, s) && Safe(cfg, s) && step.Enqueue? && Enabled(cfg, s, step)
    ensures Ordered(cfg, Apply(cfg, s, step))
  {
  }

  lemma OrderedStep(cfg: Config, s: State, step: Step)
    requires Ordered(cfg, s) && Safe(cfg, s) && Enabled(cfg, s, step)
    ensures Ordered(cfg, Apply(cfg, s, step))
  {
    match step
    case Enqueue(_, _, _) => OrderedEnqueue(cfg, s, step);
    case RestoreWrite => OrderedRestore(cfg, s, step);
    case RestoreClear => OrderedRestore(cfg, s, step);
    case Mark => OrderedTake(cfg, s, step);
    case Take => OrderedTake(cfg, s, step);
    case Settle => OrderedSettle(cfg, s);
    case RequeueWrite => OrderedRequeue(cfg, s);
    case Answer(_) =>
    case FoundEmpty =>
    case Clear =>
    case Crash =>
  }

  lemma {:induction false} OrderedAlways(cfg: Config, trace: seq<State>, j: nat)
    requires Execution(cfg, trace) && j < |trace| && Ordered(cfg, trace[0])
    ensures Ordered(cfg, trace[j])
  {
    if j > 0 {
      OrderedAlways(cfg, trace, j - 1);
      SafeAlways(cfg, trace, j - 1);
      assert Linked(cfg, trace, j);
      var step :| Enabled(cfg, trace[j - 1], step) && trace[j] == Apply(cfg, trace[j - 1], step);
      OrderedStep(cfg, trace[j - 1], step);
    }
  }

  function Copies(items: seq<Item>, path: string): nat {
    if items == [] then 0
    else (if items[0].path == path then 1 else 0) + Copies(items[1..], path)
  }

  lemma {:induction false} CopiesAtMost(items: seq<Item>, path: string, limit: nat)
    requires Descending(items)
    requires forall item :: item in items && item.path == path ==> item.attempts < limit
    ensures Copies(items, path) <= limit
  {
    if items != [] {
      var rest := items[1..];
      forall item | item in rest && item.path == path && items[0].path == path
        ensures item.attempts < items[0].attempts
      {
        var j :| 0 <= j < |rest| && rest[j] == item;
        assert items[j + 1] == item;
      }
      CopiesAtMost(rest, path, if items[0].path == path then items[0].attempts else limit);
    }
  }

  /**
   Bounded duplication. A path can be queued more than once, because an enqueue looks at the
   queue file only and not at the batch in flight. From files in which the copies of each path have
   strictly falling attempt counts below the limit, as empty files do, this is so in every state of
   every run, and there are at most `maxAttempts` queued copies of a path.
   */
  lemma BoundedDuplication(cfg: Config, trace: seq<State>, j: nat, path: string)
    requires Execution(cfg, trace) && j < |trace|
    requires Descending(trace[0].queue) && Below(trace[0].queue, cfg.maxAttempts)
    requires Descending(trace[0].inflight) && Below(trace[0].inflight, cfg.maxAttempts)
    ensures Descending(trace[j].queue) && Below(trace[j].queue, cfg.maxAttempts)
    ensures Copies(trace[j].queue, path) <= cfg.maxAttempts
  {
    OrderedAlways(cfg, trace, j);
    CopiesAtMost(trace[j].queue, path, cfg.maxAttempts);
  }

  /** Two copies do occur, and with a limit of two attempts the bound is reached. */
  lemma DuplicatesOccur(context: Json.Object) returns (cfg: Config, trace: seq<State>)
    ensures Execution(cfg, trace)
    ensures trace[0].queue == [] && trace[0].inflight == []
    ensures Copies(trace[|trace| - 1].queue, "a") == cfg.maxAttempts == 2
  {
    cfg := Config(true, 1, 2);
    var first, second := Item("a", context, 0, 0), Item("a", context, 1, 0);
    trace := [State([], [], [], Idle, {})];
    trace := Extend(cfg, trace, Enqueue("a", context, 0));
    trace := Extend(cfg, trace, RestoreClear);
    trace := Extend(cfg, trace, Mark);
    assert trace[|trace| - 1].inflight == [first];
    trace := Extend(cfg, trace, Take);
    assert trace[|trace| - 1].queue == [];
    trace := Extend(cfg, trace, Enqueue("a", context, 1));
    trace := Extend(cfg, trace, Answer([Rejected("busy")]));
    trace := Extend(cfg, trace, Settle);
    trace := Extend(cfg, trace, RequeueWrite);
    var queue := trace[|trace| - 1].queue;
    assert queue == [Retry(first), second];
    assert queue[1..] == [second] && queue[1..][1..] == [];
    assert Copies(queue[1..], "a") == 1;
    assert queue[0].path == "a";
  }

  // --------------------------------------------- when a path is queued twice

  predicate Distinct(items: seq<Item>) {
    forall i, j :: 0 <= i < j < |items| ==> items[i].path != items[j].path
  }

  /** The batch copy of `path` may still be put back in front of the queue. */
  predicate MayRetry(cfg: Config, s: State, path: string) {
    match s.pc
    case Tagging(_) =>
      exists i :: 0 <= i < |s.inflight| && s.inflight[i].path == path && s.inflight[i].attempts + 1 < cfg.maxAttempts
    case Settling(_, verdicts, done, requeue) =>
      || Has(requeue, path)
      || exists i :: done <= i < |s.inflight| && i < |verdicts| && s.inflight[i].path == path
                     && Retries(cfg, s.inflight[i], verdicts[i])
    case _ => false
  }

  /** An enqueue that queues a path although its batch copy may still come back. */
  predicate Overtakes(cfg: Config, s: State, step: Step) {
    step.Enqueue? && MayRetry(cfg, s, step.path) && !Has(s.queue, step.path)
  }

  ghost predicate Overtaken(cfg: Config, s: State, t: State) {
    exists step :: Enabled(cfg, s, step) && Overtakes(cfg, s, step) && t == Apply(cfg, s, step)
  }

  /** Step `k` of the run is such an enqueue. */
  ghost predicate OvertakenAt(cfg: Config, trace: seq<State>, k: nat)
    requires 0 < k < |trace|
  {
    Overtaken(cfg, trace[k - 1], trace[k])
  }

  predicate Single(cfg: Config, s: State) {
    && Distinct(s.queue) && Distinct(s.inflight)
    && (forall q :: q in s.queue ==> !MayRetry(cfg, s, q.path))
    && match s.pc
       case Settling(_, verdicts, done, requeue) =>
         |verdicts| == |s.inflight| && done <= |s.inflight| && Distinct(requeue) && FromBatch(requeue, s.inflight, done)
       case _ => PcSound(cfg, s)
  }

  lemma DistinctConcat(front: seq<Item>, back: seq<Item>)
    requires Distinct(front) && Distinct(back) && forall b :: b in back ==> !Has(front, b.path)
    ensures Distinct(front + back)
  {
    var all := front + back;
    forall i, j | 0 <= i < j < |all|
      ensures all[i].path != all[j].path
    {
      if i < |front| <= j {
        assert all[i] in front && all[j] in back;
      }
    }
  }

  lemma {:induction false} MissingDistinct(inflight: seq<Item>, queue: seq<Item>)
    requires Distinct(inflight)
    ensures Distinct(Missing(inflight, queue))
  {
    if inflight != [] {
      var rest := Missing(inflight[1..], queue);
      MissingDistinct(inflight[1..], queue);
      forall item | item in rest
        ensures item.path != inflight[0].path
      {
        var j :| 0 <= j < |inflight[1..]| && inflight[1..][j] == item;
        assert inflight[j + 1] == item;
      }
      DistinctConcat([inflight[0]], rest);
    }
  }

  lemma SingleRestore(cfg: Config, s: State, step: Step)
    requires Single(cfg, s) && Safe(cfg, s) && (step.RestoreWrite? || step.RestoreClear?) && Enabled(cfg, s, step)
    ensures Single(cfg, Apply(cfg, s, step))
  {
    SafeStep(cfg, s, step);
    if step.RestoreWrite? {
      var missing := Missing(s.inflight, s.queue);
      MissingDistinct(s.inflight, s.queue);
      forall q | q in s.queue
        ensures !Has(missing, q.path)
      {
        assert Has(s.queue, q.path);
      }
      DistinctConcat(missing, s.queue);
    }
  }

  lemma SingleTake(cfg: Config, s: State, step: Step)
    requires Single(cfg, s) && Safe(cfg, s) && (step.Mark? || step.Take?) && Enabled(cfg, s, step)
    ensures Single(cfg, Apply(cfg, s, step))
  {
    SafeStep(cfg, s, step);
    DistinctSplit(s.queue, Min(cfg.batchSize, |s.queue|));
    if step.Take? {
      assert s.inflight == s.queue[..Min(cfg.batchSize, |s.queue|)];
    }
  }

  lemma DistinctSplit(items: seq<Item>, n: nat)
    requires Distinct(items) && n <= |items|
    ensures Distinct(items[..n]) && Distinct(items[n..])
    ensures forall i, q :: 0 <= i < n && q in items[n..] ==> items[..n][i].path != q.path
  {
    forall i, q | 0 <= i < n && q in items[n..]
      ensures items[i].path != q.path
    {
      var j :| n <= j < |items| && items[j] == q;
    }
  }

  lemma SingleSettle(cfg: Config, s: State)
    requires Single(cfg, s) && Enabled(cfg, s, Settle)
    ensures Single(cfg, Apply(cfg, s, Settle))
  {
    var t := Apply(cfg, s, Settle);
    var item, verdict := s.inflight[s.pc.done], s.pc.verdicts[s.pc.done];
    if Retries(cfg, item, verdict) {
      assert MayRetry(cfg, s, item.path);
      forall r | r in s.pc.requeue
        ensures r.path != item.path
      {
        var i :| 0 <= i < s.pc.done && r == Retry(s.inflight[i]);
      }
      assert [Retry(item)][0] == Retry(item);
      DistinctConcat(s.pc.requeue, [Retry(item)]);
    }
    KeptFromBatch(cfg, s);
    forall path | MayRetry(cfg, t, path)
      ensures MayRetry(cfg, s, path)
    {
      RetrySoFar(cfg, s, path);
    }
  }

  lemma RetrySoFar(cfg: Config, s: State, path: string)
    requires Enabled(cfg, s, Settle) && MayRetry(cfg, Apply(cfg, s, Settle), path)
    ensures MayRetry(cfg, s, path)
  {
    var t := Apply(cfg, s, Settle);
    var item := s.inflight[s.pc.done];
    if Has(t.pc.requeue, path) {
      var r :| r in t.pc.requeue && r.path == path;
      assert r in s.pc.requeue || (r == Retry(item) && Retries(cfg, item, s.pc.verdicts[s.pc.done]));
    }
  }

  lemma SingleRequeue(cfg: Config, s: State)
    requires Single(cfg, s) && Safe(cfg, s) && Enabled(cfg, s, RequeueWrite)
    ensures Single(cfg, Apply(cfg, s, RequeueWrite))
  {
    SafeStep(cfg, s, RequeueWrite);
    DistinctConcat(s.pc.requeue, s.queue);
  }

  lemma SingleEnqueue(cfg: Config, s: State, step: Step)
    requires Single(cfg, s) && Safe(cfg, s) && step.Enqueue? && Enabled(cfg, s, step) && !Overtakes(cfg, s, step)
    ensures Single(cfg, Apply(cfg, s, step))
  {
    SafeStep(cfg, s, step);
    if !Has(s.queue, step.path) {
      var added := Item(step.path, step.context, step.now, 0);
      DistinctConcat(s.queue, [added]);
      assert forall q :: q in s.queue + [added] ==> q in s.queue || q == added;
    }
  }

  lemma SingleStep(cfg: Config, s: State, step: Step)
    requires Single(cfg, s) && Safe(cfg, s) && Enabled(cfg, s, step) && !Overtakes(cfg, s, step)
    ensures Single(cfg, Apply(cfg, s, step))
  {
    match step
    case Enqueue(_, _, _) => SingleEnqueue(cfg, s, step);
    case RestoreWrite => SingleRestore(cfg, s, step);
    case RestoreClear => SingleRestore(cfg, s, step);
    case Mark => SingleTake(cfg, s, step);
    case Take => SingleTake(cfg, s, step);
    case Settle => SingleSettle(cfg, s);
    case RequeueWrite => SingleRequeue(cfg, s);
    case Answer(_) => SafeStep(cfg, s, step);
    case FoundEmpty => SafeStep(cfg, s, step);
    case Clear => SafeStep(cfg, s, step);
    case Crash => SafeStep(cfg, s, step);
  }

  /** No step of the run from `first` on overtakes. */
  ghost predicate NoOvertaking(cfg: Config, trace: seq<State>, first: nat) {
    forall k :: 0 < k < |trace| && first <= k ==> !OvertakenAt(cfg, trace, k)
  }

  lemma {:induction false} SingleAlways(cfg: Config, trace: seq<State>, i: nat, j: nat)
    requires Execution(cfg, trace) && i <= j < |trace| && Single(cfg, trace[i]) && NoOvertaking(cfg, trace, i + 1)
    ensures Single(cfg, trace[j])
    decreases j - i
  {
    if i < j {
      SingleAlways(cfg, trace, i, j - 1);
      SafeAlways(cfg, trace, j - 1);
      assert Linked(cfg, trace, j) && !OvertakenAt(cfg, trace, j);
      var step :| Enabled(cfg, trace[j - 1], step) && trace[j] == Apply(cfg, trace[j - 1], step);
      SingleStep(cfg, trace[j - 1], step);
    }
  }

  /** Settling the rest of the batch keeps what may be retried for the requeue; each step moves the runner on. */
  lemma {:induction false} SettleOut(cfg: Config, trace: seq<State>, path: string) returns (later: seq<State>)
    requires Execution(cfg, trace)
    requires var s := trace[|trace| - 1]; s.pc.Settling? && MayRetry(cfg, s, path)
    ensures Execution(cfg, later) && trace <= later && NoOvertaking(cfg, later, |trace|)
    ensures var s, t := trace[|trace| - 1], later[|later| - 1];
      t.queue == s.queue && Enabled(cfg, t, RequeueWrite) && Has(t.pc.requeue, path)
    decreases |trace[|trace| - 1].inflight| - trace[|trace| - 1].pc.done
  {
    var s := trace[|trace| - 1];
    SafeAlways(cfg, trace, |trace| - 1);
    if s.pc.done < |s.inflight| {
      var next := Extend(cfg, trace, Settle);
      MayRetrySettled(cfg, s, path);
      later := SettleOut(cfg, next, path);
      Onward(cfg, trace, next, later);
    } else {
      later := trace;
    }
  }

  lemma MayRetrySettled(cfg: Config, s: State, path: string)
    requires Enabled(cfg, s, Settle) && MayRetry(cfg, s, path)
    ensures MayRetry(cfg, Apply(cfg, s, Settle), path)
  {
    var t := Apply(cfg, s, Settle);
    if Has(s.pc.requeue, path) {
      var r :| r in s.pc.requeue && r.path == path;
      assert r in t.pc.requeue;
    } else {
      var i :| s.pc.done <= i < |s.inflight| && i < |s.pc.verdicts| && s.inflight[i].path == path
               && Retries(cfg, s.inflight[i], s.pc.verdicts[i]);
      if i == s.pc.done {
        assert Retry(s.inflight[i]) in t.pc.requeue;
      }
    }
  }

  /** A step that moves the runner is no enqueue. */
  lemma Onward(cfg: Config, trace: seq<State>, next: seq<State>, later: seq<State>)
    requires trace != [] && |next| == |trace| + 1 && trace <= next <= later
    requires next[|trace|].pc != trace[|trace| - 1].pc && NoOvertaking(cfg, later, |next|)
    ensures trace <= later && NoOvertaking(cfg, later, |trace|)
  {
    PrefixOn(trace, next, later);
    var k := |trace|;
    assert later[k] == next[k] && later[k - 1] == trace[k - 1];
    forall j | 0 < j < |later| && k <= j
      ensures !OvertakenAt(cfg, later, j)
    {
    }
  }

  /** Once a path is queued while its batch copy may be retried, the run can go on to queue it twice. */
  lemma DuplicateFollows(cfg: Config, trace: seq<State>, path: string) returns (later: seq<State>)
    requires Execution(cfg, trace)
    requires var s := trace[|trace| - 1]; MayRetry(cfg, s, path) && Has(s.queue, path)
    ensures Execution(cfg, later) && trace <= later && NoOvertaking(cfg, later, |trace|)
    ensures !Distinct(later[|later| - 1].queue)
  {
    var s := trace[|trace| - 1];
    var settling := trace;
    if s.pc.Tagging? {
      var answers := seq(|s.inflight|, _ => Rejected("busy"));
      settling := Extend(cfg, trace, Answer(answers));
      var i :| 0 <= i < |s.inflight| && s.inflight[i].path == path && s.inflight[i].attempts + 1 < cfg.maxAttempts;
      assert Retries(cfg, s.inflight[i], answers[i]);
    }
    var settled := SettleOut(cfg, settling, path);
    later := Extend(cfg, settled, RequeueWrite);
    TwiceQueued(settled[|settled| - 1].pc.requeue, s.queue, path);
    Onward(cfg, settled, later, later);
    if s.pc.Tagging? {
      PrefixOn(settling, settled, later);
      Joined(cfg, settling, settled, later);
      Onward(cfg, trace, settling, later);
    } else {
      Joined(cfg, settling, settled, later);
    }
  }

  lemma Joined(cfg: Config, a: seq<State>, b: seq<State>, c: seq<State>)
    requires a != [] && a <= b <= c && NoOvertaking(cfg, b, |a|) && NoOvertaking(cfg, c, |b|)
    ensures NoOvertaking(cfg, c, |a|)
  {
    forall k | 0 < k < |c| && |a| <= k
      ensures !OvertakenAt(cfg, c, k)
    {
      if k < |b| {
        assert c[k] == b[k] && c[k - 1] == b[k - 1] && !OvertakenAt(cfg, b, k);
      }
    }
  }

  lemma TwiceQueued(front: seq<Item>, back: seq<Item>, path: string)
    requires Has(front, path) && Has(back, path)
    ensures !Distinct(front + back)
  {
    var i :| 0 <= i < |front| && front[i].path == path;
    var j :| 0 <= j < |back| && back[j].path == path;
    assert (front + back)[i].path == (front + back)[|front| + j].path;
  }

  /** The run can go on, without any further overtaking, to a state with a path queued twice. */
  ghost predicate CanDuplicate(cfg: Config, trace: seq<State>) {
    exists later: seq<State> :: Execution(cfg, later) && trace <= later && NoOvertaking(cfg, later, |trace|)
                    && !Distinct(later[|later| - 1].queue)
  }

  /**
   When a path is queued once. From files without a repeated path, and as long as no enqueue overtakes a
   batch copy that may be retried, no path is queued twice in any state, crashes and restores included;
   and an enqueue opens the way to a second copy exactly if it overtakes.
   */
  lemma OvertakingExactly(cfg: Config, trace: seq<State>, step: Step)
    requires Execution(cfg, trace) && NoOvertaking(cfg, trace, 0)
    requires Distinct(trace[0].queue) && Distinct(trace[0].inflight)
    requires step.Enqueue? && Enabled(cfg, trace[|trace| - 1], step)
    ensures forall j :: 0 <= j < |trace| ==> Distinct(trace[j].queue)
    ensures CanDuplicate(cfg, Extend(cfg, trace, step)) <==> Overtakes(cfg, trace[|trace| - 1], step)
  {
    var s, next := trace[|trace| - 1], Extend(cfg, trace, step);
    forall j | 0 <= j < |trace|
      ensures Single(cfg, trace[j])
    {
      SingleAlways(cfg, trace, 0, j);
    }
    if Overtakes(cfg, s, step) {
      assert next[|next| - 1].queue[|s.queue|].path == step.path;
      assert MayRetry(cfg, next[|next| - 1], step.path);
      var later := DuplicateFollows(cfg, next, step.path);
    } else {
      SafeAlways(cfg, trace, |trace| - 1);
      SingleStep(cfg, s, step);
      forall later: seq<State> | Execution(cfg, later) && next <= later && NoOvertaking(cfg, later, |next|)
        ensures Distinct(later[|later| - 1].queue)
      {
        SingleAlways(cfg, later, |next| - 1, |later| - 1);
      }
    }
  }

  /** A run goes on by one enabled step. */
  function Extend(cfg: Config, trace: seq<State>, step: Step): (r: seq<State>)
    requires Execution(cfg, trace) && Enabled(cfg, trace[|trace| - 1], step)
    ensures Execution(cfg, r)
    ensures r == trace + [Apply(cfg, trace[|trace| - 1], step)]
  {
    var r := trace + [Apply(cfg, trace[|trace| - 1], step)];
    assert Execution(cfg, r) by {
      forall i | 0 < i < |r|
        ensures Linked(cfg, r, i)
      {
        if i == |trace| {
          assert Enabled(cfg, r[i - 1], step);
        } else {
          assert Linked(cfg, trace, i);
        }
      }
    }
    r
  }
}
