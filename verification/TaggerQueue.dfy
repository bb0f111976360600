/**
 The queue as the processor drives it: an object whose fields are the two files and the audit
 log. A ghost trace records the protocol state after every single write, and the fields are written
 only by methods that make one protocol step of each write; so each method is shown to walk through
 the protocol of `QueueProtocol`, and every crash point inside it is covered there.
 */
module TaggerQueue {
  import opened Common
  import opened QueueProtocol
  import opened QueueRounds
  import Json

  class Pipeline {
    const cfg: Config
    /** `str(Path(p).resolve())` on this host. */
    const resolve: string -> string
    var queueFile: seq<Item>
    var inflightFile: seq<Item>
    var auditLog: seq<Entry>
    ghost var trace: seq<State>

    ghost predicate Valid()
      reads this
    {
      && Execution(cfg, trace)
      && Now().queue == queueFile && Now().inflight == inflightFile && Now().audit == auditLog
    }

    ghost function Now(): State
      requires trace != []
      reads this
    {
      trace[|trace| - 1]
    }

    /** Opens whatever files an earlier process left behind. */
    constructor (cfg: Config, resolve: string -> string, queue: seq<Item>, inflight: seq<Item>, audit: seq<Entry>)
      ensures Valid() && Now().pc.Idle? && |trace| == 1
      ensures this.cfg == cfg && this.resolve == resolve
      ensures queueFile == queue && inflightFile == inflight && auditLog == audit
    {
      this.cfg, this.resolve := cfg, resolve;
      queueFile, inflightFile, auditLog := queue, inflight, audit;
      trace := [State(queue, inflight, audit, Idle, {})];
    }

    ghost method Log(step: Step)
      requires Execution(cfg, trace) && Enabled(cfg, Now(), step)
      modifies this`trace
      ensures Execution(cfg, trace) && trace == old(trace) + [Apply(cfg, old(Now()), step)]
    {
      trace := Extend(cfg, trace, step);
    }

    /** `_save_queue`: the write is one step of the protocol, and nothing else changes in that step. */
    method SaveQueue(items: seq<Item>, ghost step: Step)
      requires Valid() && Enabled(cfg, Now(), step)
      requires Apply(cfg, Now(), step).queue == items
      requires Apply(cfg, Now(), step).inflight == inflightFile && Apply(cfg, Now(), step).audit == auditLog
      modifies this`queueFile, this`trace
      ensures Valid() && queueFile == items && trace == old(trace) + [Apply(cfg, old(Now()), step)]
    {
      queueFile := items;
      Log(step);
    }

    /** `_save_inflight` and `_clear_inflight`; no file and an empty one read the same. */
    method SaveInflight(items: seq<Item>, ghost step: Step)
      requires Valid() && Enabled(cfg, Now(), step)
      requires Apply(cfg, Now(), step).inflight == items
      requires Apply(cfg, Now(), step).queue == queueFile && Apply(cfg, Now(), step).audit == auditLog
      modifies this`inflightFile, this`trace
      ensures Valid() && inflightFile == items && trace == old(trace) + [Apply(cfg, old(Now()), step)]
    {
      inflightFile := items;
      Log(step);
    }

    /** `_append_tagger_audit` */
    method AppendAudit(entry: Entry, ghost step: Step)
      requires Valid() && Enabled(cfg, Now(), step)
      requires Apply(cfg, Now(), step).audit == auditLog + [entry]
      requires Apply(cfg, Now(), step).queue == queueFile && Apply(cfg, Now(), step).inflight == inflightFile
      modifies this`auditLog, this`trace
      ensures Valid() && auditLog == old(auditLog) + [entry] && trace == old(trace) + [Apply(cfg, old(Now()), step)]
    {
      auditLog := auditLog + [entry];
      Log(step);
    }

    /** `_restore_inflight`: in-flight items whose path is not queued go back in front. */
    method RestoreInflight()
      requires Valid() && Now().pc.Idle?
      modifies this
      ensures Valid() && Now().pc.Ready? && old(trace) <= trace
      ensures inflightFile == [] && auditLog == old(auditLog)
      ensures queueFile == Missing(old(inflightFile), old(queueFile)) + old(queueFile)
    {
      var restored := Missing(inflightFile, queueFile);
      if restored != [] {
        SaveQueue(restored + queueFile, RestoreWrite);
      }
      SaveInflight([], RestoreClear);
    }

    /** The locked part of an enqueue. */
    method Append(path: string, context: Json.Object, now: int)
      requires Valid() && LockFree(Now())
      modifies this`queueFile, this`trace
      ensures Valid() && old(trace) <= trace && Now().pc == old(Now()).pc
      ensures queueFile == Enqueued(old(queueFile), path, context, now)
      ensures Receipt(path, |auditLog|) in Now().receipts
    {
      if Has(queueFile, path) {
        Log(Enqueue(path, context, now));
      } else {
        SaveQueue(queueFile + [Item(path, context, now, 0)], Enqueue(path, context, now));
      }
    }

    /** `enqueue_tagger_task_payload`: a payload without a usable path is dropped without a trace. */
    method EnqueueTask(payload: Json.Object, now: int) returns (accepted: Option<string>)
      requires Valid() && LockFree(Now())
      modifies this`queueFile, this`trace
      ensures Valid() && old(trace) <= trace && Now().pc == old(Now()).pc
      ensures accepted == AcceptedPath(resolve, payload)
      ensures accepted.None? ==> queueFile == old(queueFile) && trace == old(trace)
      ensures accepted.Some? ==>
        && queueFile == Enqueued(old(queueFile), accepted.value, ContextOf(payload), now)
        && Receipt(accepted.value, |auditLog|) in Now().receipts
    {
      var raw := Json.Get(payload, "image_path");
      if !raw.Str? || Strip(raw.s) == "" {
        return None;
      }
      var path := resolve(Strip(raw.s));
      Append(path, ContextOf(payload), now);
      return Some(path);
    }

    /** Enqueues that land while the runner is awaited. */
    method Receive(arrivals: seq<Arrival>)
      requires Valid() && LockFree(Now())
      modifies this`queueFile, this`trace
      ensures Valid() && old(trace) <= trace && Now().pc == old(Now()).pc
      ensures queueFile == Arrived(old(queueFile), arrivals)
    {
      for i := 0 to |arrivals|
        invariant Valid() && old(trace) <= trace && Now().pc == old(Now()).pc
        invariant Arrived(queueFile, arrivals[i..]) == Arrived(old(queueFile), arrivals)
      {
        assert arrivals[i..][0] == arrivals[i] && arrivals[i..][1..] == arrivals[i + 1..];
        Append(arrivals[i].path, arrivals[i].context, arrivals[i].now);
      }
    }

    /** The locked part of a run: restore, then move a prefix of the queue to the in-flight file. */
    method TakeBatch() returns (batch: seq<Item>)
      requires Valid() && Now().pc.Idle?
      modifies this
      ensures Valid() && old(trace) <= trace && auditLog == old(auditLog) && inflightFile == batch
      ensures var start := Missing(old(inflightFile), old(queueFile)) + old(queueFile);
        && batch == Batch(cfg, start) && queueFile == start[|batch|..]
        && Now().pc == (if start == [] then Idle else Tagging(|auditLog|))
    {
      RestoreInflight();
      if queueFile == [] {
        Log(FoundEmpty);
        return [];
      }
      batch := Batch(cfg, queueFile);
      SaveInflight(batch, Mark);
      SaveQueue(queueFile[|batch|..], Take);
    }

    /** One turn of the loop over the batch: the audit entry, and the item itself if it may be tried again. */
    method SettleItem(item: Item, verdict: Verdict, requeue: seq<Item>) returns (kept: seq<Item>)
      requires Valid() && Now().pc.Settling? && Now().pc.done < |inflightFile| == |Now().pc.verdicts|
      requires item == inflightFile[Now().pc.done] && verdict == Now().pc.verdicts[Now().pc.done]
      requires requeue == Now().pc.requeue
      modifies this`auditLog, this`trace
      ensures Valid() && old(trace) <= trace
      ensures Now().pc == old(Now()).pc.(done := old(Now()).pc.done + 1, requeue := kept)
      ensures auditLog == old(auditLog) + [EntryFor(cfg, item, verdict)]
      ensures kept == requeue + (if Retries(cfg, item, verdict) then [Retry(item)] else [])
    {
      kept := requeue;
      if Retries(cfg, item, verdict) {
        kept := kept + [Retry(item)];
      }
      AppendAudit(EntryFor(cfg, item, verdict), Settle);
    }

    /** The loop over the batch: one audit entry an item, and the items to try again. */
    method SettleBatch(batch: seq<Item>, results: map<string, RunnerResult>, ghost verdicts: seq<Verdict>)
      returns (requeue: seq<Item>, success: nat, failed: nat)
      requires Valid() && Now().pc.Settling? && Now().pc == Settling(Now().pc.since, verdicts, 0, [])
      requires batch == inflightFile && |verdicts| == |batch|
      requires forall i :: 0 <= i < |batch| ==> verdicts[i] == VerdictOf(Lookup(results, batch[i].path))
      modifies this`auditLog, this`trace
      ensures Valid() && old(trace) <= trace
      ensures Now().pc == Settling(old(Now()).pc.since, verdicts, |batch|, requeue)
      ensures requeue == Kept(cfg, batch, verdicts, |batch|)
      ensures auditLog == old(auditLog) + Entries(cfg, batch, verdicts, |batch|)
      ensures success == TaggedCount(verdicts) && success + failed == |batch|
    {
      requeue, success, failed := [], 0, 0;
      for i := 0 to |batch|
        invariant Valid() && old(trace) <= trace
        invariant Now().pc == Settling(old(Now()).pc.since, verdicts, i, requeue)
        invariant requeue == Kept(cfg, batch, verdicts, i)
        invariant auditLog == old(auditLog) + Entries(cfg, batch, verdicts, i)
        invariant success == TaggedCount(verdicts[..i]) && success + failed == i
      {
        var item := batch[i];
        var verdict := VerdictOf(Lookup(results, item.path));
        OneMore(cfg, batch, verdicts, i);
        requeue := SettleItem(item, verdict, requeue);
        if verdict.Tagged? {
          success := success + 1;
        } else {
          failed := failed + 1;
        }
      }
      assert verdicts[..|batch|] == verdicts;
    }

    /** Failed items that may be tried again go in front of the queue; then the in-flight file goes. */
    method FinishBatch(requeue: seq<Item>)
      requires Valid() && Now().pc.Settling? && Now().pc.done == |inflightFile| && Now().pc.requeue == requeue
      modifies this
      ensures Valid() && old(trace) <= trace && Now().pc.Idle?
      ensures inflightFile == [] && queueFile == requeue + old(queueFile) && auditLog == old(auditLog)
    {
      if requeue != [] {
        SaveQueue(requeue + queueFile, RequeueWrite);
      }
      SaveInflight([], Clear);
    }

    /** The rest of a run, from the runner's answer on; the arrivals came while it was awaited. */
    method ConcludeRun(batch: seq<Item>, outcome: Outcome, arrivals: seq<Arrival>) returns (summary: Summary)
      requires Valid() && Now().pc.Tagging? && batch == inflightFile
      modifies this
      ensures Valid() && Now().pc.Idle? && old(trace) <= trace && inflightFile == []
      ensures var verdicts := Verdicts(outcome, batch);
        var kept := Kept(cfg, batch, verdicts, |batch|);
        && queueFile == kept + Arrived(old(queueFile), arrivals)
        && auditLog == old(auditLog) + Entries(cfg, batch, verdicts, |batch|)
        && summary == Summary(|batch|, TaggedCount(verdicts), |batch| - TaggedCount(verdicts), |kept|)
    {
      Receive(arrivals);
      var results := IndexResults(ResultsOf(outcome, batch));
      ghost var verdicts := Verdicts(outcome, batch);
      Log(Answer(verdicts));
      var requeue, success, failed := SettleBatch(batch, results, verdicts);
      FinishBatch(requeue);
      return Summary(|batch|, success, failed, |requeue|);
    }

    /** `run_tagger_once`, with the runner as a function of the batch it is given. */
    method RunOnce(runner: seq<Item> -> Outcome, arrivals: seq<Arrival>) returns (summary: Summary)
      requires Valid() && Now().pc.Idle?
      modifies this
      ensures Valid() && Now().pc.Idle? && old(trace) <= trace
      ensures !cfg.active ==> summary == NOTHING && unchanged(this)
      ensures cfg.active ==> inflightFile == []
      ensures cfg.active ==>
        var start := Missing(old(inflightFile), old(queueFile)) + old(queueFile);
        var batch := Batch(cfg, start);
        var outcome := runner(batch);
        if start == [] then summary == NOTHING && queueFile == [] && auditLog == old(auditLog)
        else
          && queueFile == AfterRound(cfg, start, outcome, arrivals)
          && auditLog == old(auditLog) + Entries(cfg, batch, Verdicts(outcome, batch), |batch|)
          && summary == RoundSummary(cfg, start, outcome)
      ensures cfg.active && summary.picked > 0 ==>
        var start := Missing(old(inflightFile), old(queueFile)) + old(queueFile);
        var batch := start[..summary.picked];
        && summary.picked == Min(cfg.batchSize, |start|) && old(auditLog) <= auditLog
        && var entries := auditLog[|old(auditLog)|..];
           && RunRecorded(cfg, batch, runner(batch), entries, summary)
           && queueFile == Again(batch, entries) + Arrived(start[|batch|..], arrivals)
    {
      if !cfg.active {
        return NOTHING;
      }
      var batch := TakeBatch();
      if batch == [] {
        return NOTHING;
      }
      var outcome := runner(batch);
      ghost var start := Missing(old(inflightFile), old(queueFile)) + old(queueFile);
      RoundRecorded(cfg, start, outcome);
      summary := ConcludeRun(batch, outcome, arrivals);
      assert auditLog[|old(auditLog)|..] == Entries(cfg, batch, Verdicts(outcome, batch), |batch|);
    }

    /** One turn of the drain loop; `left` is what it finds in the two files. */
    method RunTurn(runner: seq<Item> -> Outcome, ghost left: seq<Item>) returns (summary: Summary)
      requires Valid() && Now().pc.Idle? && cfg.active && left == Missing(inflightFile, queueFile) + queueFile
      modifies this
      ensures Valid() && Now().pc.Idle? && old(trace) <= trace && inflightFile == []
      ensures left == [] ==> summary == NOTHING && queueFile == []
      ensures left != [] ==>
        var outcome := runner(Batch(cfg, left));
        queueFile == AfterRound(cfg, left, outcome, []) && summary == RoundSummary(cfg, left, outcome) && summary.picked > 0
      ensures |auditLog| == |old(auditLog)| + summary.picked
    {
      summary := RunOnce(runner, []);
    }

    /**
     `run_tagger_until_empty`. Without new enqueues it ends for every runner, even one that raises,
     leaves results out or makes some up; the counters then add up.
     */
    method RunUntilEmpty(runner: (nat, seq<Item>) -> Outcome) returns (total: Summary)
      requires Valid() && Now().pc.Idle? && cfg.active
      modifies this
      ensures Valid() && Now().pc.Idle? && old(trace) <= trace
      ensures queueFile == [] && inflightFile == []
      ensures var start := Missing(old(inflightFile), old(queueFile)) + old(queueFile);
        && total.picked <= Budget(cfg, start)
        && total.picked == total.success + total.failed
        && total.requeued <= total.failed
        && |start| == total.success + (total.failed - total.requeued)
      ensures |auditLog| == |old(auditLog)| + total.picked
    {
      total := NOTHING;
      ghost var start := Missing(inflightFile, queueFile) + queueFile;
      ghost var left := start;
      var round := 0;
      var going := true;
      while going
        invariant Valid() && Now().pc.Idle? && old(trace) <= trace
        invariant left == Missing(inflightFile, queueFile) + queueFile
        invariant !going ==> queueFile == [] && inflightFile == []
        invariant total.picked + Budget(cfg, left) <= Budget(cfg, start)
        invariant total.picked == total.success + total.failed && total.requeued <= total.failed
        invariant |left| + total.success + total.failed - total.requeued == |start|
        invariant |auditLog| == |old(auditLog)| + total.picked
        decreases going, Budget(cfg, left)
      {
        ghost var outcome := runner(round, Batch(cfg, left));
        RoundBudget(cfg, left, outcome);
        RoundSize(cfg, left, outcome);
        var summary := RunTurn(batch => runner(round, batch), left);
        left := queueFile;
        if summary.picked == 0 {
          going := false;
        } else {
          total := Summary(total.picked + summary.picked, total.success + summary.success,
                           total.failed + summary.failed, total.requeued + summary.requeued);
        }
        round := round + 1;
      }
    }
  }

  function Lookup(byPath: map<string, RunnerResult>, path: string): Option<RunnerResult> {
    if path in byPath then Some(byPath[path]) else None
  }

  /** The runner's results by path; of several for one path the last one stays. */
  method IndexResults(results: seq<RunnerResult>) returns (byPath: map<string, RunnerResult>)
    ensures forall path :: Lookup(byPath, path) == LastFor(results, path)
  {
    byPath := map[];
    for i := 0 to |results|
      invariant forall path ::
        Lookup(byPath, path) == LastFor(results[..i], path)
    {
      assert results[..i + 1][..i] == results[..i];
      var result := results[i];
      if result.item.Some? && result.item.value != "" {
        byPath := byPath[result.item.value := result];
      }
    }
    assert results[..|results|] == results;
  }
}
