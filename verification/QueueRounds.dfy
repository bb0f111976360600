/**
 What one run of the tagger makes of the queue, as functions of the queue, the runner's answer
 and the enqueues that arrive meanwhile; and the laws about whole sequences of such runs.
 */
module QueueRounds {
  import opened Common
  import opened QueueProtocol
  import Json

  /** A result the runner hands back: the path of its item if it names one, and its fields if present. */
  datatype RunnerResult = RunnerResult(
    item: Option<string>,
    success: bool,
    tags: Option<seq<string>>,
    error: Option<string>)

  datatype Outcome = Raised(error: string) | Returned(results: seq<RunnerResult>)

  datatype Arrival = Arrival(path: string, context: Json.Object, now: int)

  /** The path an enqueue payload is queued under, if it is accepted at all. */
  function AcceptedPath(resolve: string -> string, payload: Json.Object): Option<string> {
    match Json.Get(payload, "image_path")
    case Str(s) => if Strip(s) == "" then None else Some(resolve(Strip(s)))
    case _ => None
  }

  function ContextOf(payload: Json.Object): Json.Object {
    match Json.Get(payload, "context")
    case Obj(fields) => fields
    case _ => map[]
  }

  datatype Summary = Summary(picked: nat, success: nat, failed: nat, requeued: nat)

  const NOTHING := Summary(0, 0, 0, 0)

  /** A runner that raises counts as one that rejects every item of the batch. */
  function ResultsOf(outcome: Outcome, batch: seq<Item>): seq<RunnerResult> {
    match outcome
    case Returned(results) => results
    case Raised(error) =>
      seq(|batch|, i requires 0 <= i < |batch| => RunnerResult(Some(batch[i].path), false, None, Some(error)))
  }

  /** The last result that names `path`; an empty path never matches. */
  function LastFor(results: seq<RunnerResult>, path: string): Option<RunnerResult> {
    if results == [] then None
    else
      var last := results[|results| - 1];
      if path != "" && last.item == Some(path) then Some(last) else LastFor(results[..|results| - 1], path)
  }

  function VerdictOf(found: Option<RunnerResult>): Verdict {
    match found
    case None => Rejected("missing result from tagger runner")
    case Some(r) =>
      if r.success then Tagged(if r.tags.Some? then r.tags.value else [])
      else Rejected(if r.error.Some? then r.error.value else "unknown tagger error")
  }

  function Verdicts(outcome: Outcome, batch: seq<Item>): (r: seq<Verdict>)
    ensures |r| == |batch|
  {
    var results := ResultsOf(outcome, batch);
    seq(|batch|, i requires 0 <= i < |batch| => VerdictOf(LastFor(results, batch[i].path)))
  }

  /** What the first `n` items of the batch leave to be queued again, in order. */
  function Kept(cfg: Config, batch: seq<Item>, verdicts: seq<Verdict>, n: nat): seq<Item>
    requires n <= |batch| == |verdicts|
  {
    if n == 0 then []
    else
      Kept(cfg, batch, verdicts, n - 1)
      + (if Retries(cfg, batch[n - 1], verdicts[n - 1]) then [Retry(batch[n - 1])] else [])
  }

  function Entries(cfg: Config, batch: seq<Item>, verdicts: seq<Verdict>, n: nat): seq<Entry>
    requires n <= |batch| == |verdicts|
  {
    seq(n, i requires 0 <= i < n => EntryFor(cfg, batch[i], verdicts[i]))
  }

  function TaggedCount(verdicts: seq<Verdict>): (r: nat)
    ensures r <= |verdicts|
  {
    if verdicts == [] then 0
    else TaggedCount(verdicts[..|verdicts| - 1]) + (if verdicts[|verdicts| - 1].Tagged? then 1 else 0)
  }

  /** One more item of a batch, in terms of the items before it. */
  lemma OneMore(cfg: Config, batch: seq<Item>, verdicts: seq<Verdict>, n: nat)
    requires n < |batch| == |verdicts|
    ensures Entries(cfg, batch, verdicts, n + 1) == Entries(cfg, batch, verdicts, n) + [EntryFor(cfg, batch[n], verdicts[n])]
    ensures TaggedCount(verdicts[..n + 1]) == TaggedCount(verdicts[..n]) + (if verdicts[n].Tagged? then 1 else 0)
  {
    assert verdicts[..n + 1][..n] == verdicts[..n];
  }

  function Arrived(queue: seq<Item>, arrivals: seq<Arrival>): (r: seq<Item>)
    ensures queue <= r
    decreases |arrivals|
  {
    if arrivals == [] then queue
    else Arrived(Enqueued(queue, arrivals[0].path, arrivals[0].context, arrivals[0].now), arrivals[1..])
  }

  function Batch(cfg: Config, queue: seq<Item>): seq<Item> {
    queue[..Min(cfg.batchSize, |queue|)]
  }

  /** The queue after one run: what the batch leaves behind goes in front of everything else. */
  function AfterRound(cfg: Config, queue: seq<Item>, outcome: Outcome, arrivals: seq<Arrival>): seq<Item> {
    var batch := Batch(cfg, queue);
    Kept(cfg, batch, Verdicts(outcome, batch), |batch|) + Arrived(queue[|batch|..], arrivals)
  }

  function RoundSummary(cfg: Config, queue: seq<Item>, outcome: Outcome): (r: Summary)
  {
    var batch := Batch(cfg, queue);
    var verdicts := Verdicts(outcome, batch);
    var tagged := TaggedCount(verdicts);
    Summary(|batch|, tagged, |batch| - tagged, |Kept(cfg, batch, verdicts, |batch|)|)
  }

  // ------------------------------------------------------ what a run records

  predicate Names(result: RunnerResult, path: string) {
    path != "" && result.item == Some(path)
  }

  /** The k-th result is the last one that names the path. */
  predicate LastNames(results: seq<RunnerResult>, path: string, k: int) {
    0 <= k < |results| && Names(results[k], path) && forall l :: k < l < |results| ==> !Names(results[l], path)
  }

  /** The status of an item that was not tagged: to be tried again while it has attempts left. */
  predicate Unfinished(cfg: Config, item: Item, status: Status, error: string) {
    status == if item.attempts + 1 < cfg.maxAttempts then Retrying(error) else Failed(error)
  }

  /** What the audit log says about an item, in terms of what the runner did. */
  predicate Reported(cfg: Config, item: Item, outcome: Outcome, status: Status) {
    match outcome
    case Raised(error) =>
      Unfinished(cfg, item, status, if item.path != "" then error else "missing result from tagger runner")
    case Returned(results) =>
      && ((forall k :: 0 <= k < |results| ==> !Names(results[k], item.path)) ==>
            Unfinished(cfg, item, status, "missing result from tagger runner"))
      && forall k :: 0 <= k < |results| && LastNames(results, item.path, k) ==>
           if results[k].success then status == Success(if results[k].tags.Some? then results[k].tags.value else [])
           else Unfinished(cfg, item, status,
                           if results[k].error.Some? then results[k].error.value else "unknown tagger error")
  }

  function Successes(entries: seq<Entry>): (r: nat)
    ensures r <= |entries|
    ensures r == 0 <==> forall entry :: entry in entries ==> !entry.status.Success?
  {
    if entries == [] then 0
    else
      var front, last := entries[..|entries| - 1], entries[|entries| - 1];
      assert forall entry :: entry in entries <==> entry in front || entry == last;
      Successes(front) + (if last.status.Success? then 1 else 0)
  }

  /** The items with a `retrying` entry, in order, with the attempts recorded there. */
  function Again(batch: seq<Item>, entries: seq<Entry>): seq<Item>
    requires |entries| == |batch|
  {
    if batch == [] then []
    else
      var n := |batch| - 1;
      Again(batch[..n], entries[..n])
      + (if entries[n].status.Retrying? then [batch[n].(attempts := entries[n].attempts)] else [])
  }

  /** The whole record of a run: its audit entries say what the runner did, and the rest follows from them. */
  predicate RunRecorded(cfg: Config, batch: seq<Item>, outcome: Outcome, entries: seq<Entry>, summary: Summary) {
    && |entries| == |batch|
    && (forall i :: 0 <= i < |batch| ==> Reported(cfg, batch[i], outcome, entries[i].status))
    && (forall i :: 0 <= i < |batch| ==>
          entries[i] == Entry(entries[i].status, batch[i].path, batch[i].attempts + 1, batch[i].context))
    && summary == Summary(|batch|, Successes(entries), |batch| - Successes(entries), |Again(batch, entries)|)
    && (outcome.Raised? ==> summary.success == 0)
  }

  lemma {:induction false} LastForExactly(results: seq<RunnerResult>, path: string)
    ensures LastFor(results, path).None? <==> forall k :: 0 <= k < |results| ==> !Names(results[k], path)
    ensures forall k :: LastNames(results, path, k) ==> LastFor(results, path) == Some(results[k])
    ensures LastFor(results, path).Some? ==> LastFor(results, path).value in results
  {
    if results != [] {
      LastForExactly(results[..|results| - 1], path);
    }
  }

  lemma VerdictReported(cfg: Config, batch: seq<Item>, outcome: Outcome, i: nat)
    requires i < |batch|
    ensures Reported(cfg, batch[i], outcome, EntryFor(cfg, batch[i], Verdicts(outcome, batch)[i]).status)
    ensures outcome.Raised? ==> Verdicts(outcome, batch)[i].Rejected?
  {
    var results := ResultsOf(outcome, batch);
    LastForExactly(results, batch[i].path);
    if outcome.Raised? {
      assert batch[i].path != "" ==> Names(results[i], batch[i].path);
    }
  }

  lemma {:induction false} KeptAgain(cfg: Config, batch: seq<Item>, verdicts: seq<Verdict>, n: nat)
    requires n <= |batch| == |verdicts|
    ensures Again(batch[..n], Entries(cfg, batch, verdicts, n)) == Kept(cfg, batch, verdicts, n)
    ensures Successes(Entries(cfg, batch, verdicts, n)) == TaggedCount(verdicts[..n])
  {
    if n > 0 {
      KeptAgain(cfg, batch, verdicts, n - 1);
      OneMore(cfg, batch, verdicts, n - 1);
      assert batch[..n][..n - 1] == batch[..n - 1];
      var entries := Entries(cfg, batch, verdicts, n);
      assert entries[..n - 1] == Entries(cfg, batch, verdicts, n - 1);
    }
  }

  /** What a run leaves in the log, in the queue and in its counters, for every runner. */
  lemma RoundRecorded(cfg: Config, queue: seq<Item>, outcome: Outcome)
    ensures var batch := Batch(cfg, queue);
      var verdicts := Verdicts(outcome, batch);
      var entries := Entries(cfg, batch, verdicts, |batch|);
      && RunRecorded(cfg, batch, outcome, entries, RoundSummary(cfg, queue, outcome))
      && Again(batch, entries) == Kept(cfg, batch, verdicts, |batch|)
  {
    var batch := Batch(cfg, queue);
    var verdicts := Verdicts(outcome, batch);
    KeptAgain(cfg, batch, verdicts, |batch|);
    assert batch[..|batch|] == batch && verdicts[..|batch|] == verdicts;
    forall i | 0 <= i < |batch|
      ensures Reported(cfg, batch[i], outcome, EntryFor(cfg, batch[i], verdicts[i]).status)
      ensures outcome.Raised? ==> verdicts[i].Rejected?
    {
      VerdictReported(cfg, batch, outcome, i);
    }
  }

  // ------------------------------------------------------------------ budget

  /** How often an item can still be picked; an item at or over the limit gets one last pick. */
  function Weight(cfg: Config, item: Item): Positive {
    if item.attempts < cfg.maxAttempts then cfg.maxAttempts - item.attempts else 1
  }

  function Budget(cfg: Config, items: seq<Item>): (r: nat)
    ensures |items| <= r
  {
    if items == [] then 0
    else Budget(cfg, items[..|items| - 1]) + Weight(cfg, items[|items| - 1])
  }

  lemma {:induction false} BudgetConcat(cfg: Config, a: seq<Item>, b: seq<Item>)
    ensures Budget(cfg, a + b) == Budget(cfg, a) + Budget(cfg, b)
  {
    if b == [] {
      assert a + b == a;
    } else {
      var front := b[..|b| - 1];
      BudgetConcat(cfg, a, front);
      assert (a + b)[..|a + b| - 1] == a + front;
    }
  }

  lemma BudgetPush(cfg: Config, items: seq<Item>, item: Item)
    ensures Budget(cfg, items + [item]) == Budget(cfg, items) + Weight(cfg, item)
  {
  }

  /** One more batch item costs at least one pick, whether it is kept or not. */
  lemma KeptStep(cfg: Config, kept: seq<Item>, item: Item, verdict: Verdict)
    ensures Budget(cfg, kept + (if Retries(cfg, item, verdict) then [Retry(item)] else [])) + 1
         <= Budget(cfg, kept) + Weight(cfg, item)
  {
    if Retries(cfg, item, verdict) {
      BudgetPush(cfg, kept, Retry(item));
    } else {
      assert kept + [] == kept;
    }
  }

  /** Picking costs: whatever the verdicts, each picked item uses up at least one of its picks. */
  lemma {:induction false} KeptBudget(cfg: Config, batch: seq<Item>, verdicts: seq<Verdict>, n: nat)
    requires n <= |batch| == |verdicts|
    ensures Budget(cfg, Kept(cfg, batch, verdicts, n)) + n <= Budget(cfg, batch[..n])
  {
    if n > 0 {
      KeptBudget(cfg, batch, verdicts, n - 1);
      KeptStep(cfg, Kept(cfg, batch, verdicts, n - 1), batch[n - 1], verdicts[n - 1]);
      assert batch[..n] == batch[..n - 1] + [batch[n - 1]];
      BudgetPush(cfg, batch[..n - 1], batch[n - 1]);
    }
  }

  lemma PassedOver(cfg: Config, batch: seq<Item>, verdicts: seq<Verdict>, rest: seq<Item>, before: seq<Item>, after: seq<Item>)
    requires |batch| == |verdicts|
    requires before == batch + rest && after == Kept(cfg, batch, verdicts, |batch|) + rest
    ensures Budget(cfg, after) + |batch| <= Budget(cfg, before)
  {
    assert batch[..|batch|] == batch;
    KeptBudget(cfg, batch, verdicts, |batch|);
    BudgetWithRest(cfg, batch, Kept(cfg, batch, verdicts, |batch|), rest);
  }

  lemma BudgetWithRest(cfg: Config, a: seq<Item>, b: seq<Item>, rest: seq<Item>)
    ensures Budget(cfg, a + rest) - Budget(cfg, b + rest) == Budget(cfg, a) - Budget(cfg, b)
  {
    BudgetConcat(cfg, a, rest);
    BudgetConcat(cfg, b, rest);
  }

  lemma RoundBudget(cfg: Config, queue: seq<Item>, outcome: Outcome)
    ensures Budget(cfg, AfterRound(cfg, queue, outcome, [])) + |Batch(cfg, queue)| <= Budget(cfg, queue)
  {
    var batch := Batch(cfg, queue);
    var rest := queue[|batch|..];
    assert queue == batch + rest && Arrived(rest, []) == rest;
    PassedOver(cfg, batch, Verdicts(outcome, batch), rest, queue, AfterRound(cfg, queue, outcome, []));
  }

  lemma {:induction false} KeptWithinRejected(cfg: Config, batch: seq<Item>, verdicts: seq<Verdict>, n: nat)
    requires n <= |batch| == |verdicts|
    ensures |Kept(cfg, batch, verdicts, n)| + TaggedCount(verdicts[..n]) <= n
  {
    if n > 0 {
      KeptWithinRejected(cfg, batch, verdicts, n - 1);
      assert verdicts[..n][..n - 1] == verdicts[..n - 1];
    }
  }

  /** An item leaves the queue exactly when its last answer is final. */
  lemma RoundSize(cfg: Config, queue: seq<Item>, outcome: Outcome)
    ensures var round := RoundSummary(cfg, queue, outcome);
      && round.requeued <= round.failed
      && |AfterRound(cfg, queue, outcome, [])| == |queue| - round.success - (round.failed - round.requeued)
  {
    var batch := Batch(cfg, queue);
    var verdicts := Verdicts(outcome, batch);
    KeptWithinRejected(cfg, batch, verdicts, |batch|);
    assert verdicts[..|batch|] == verdicts;
  }

  // ---------------------------------------------------------- bounded bypass

  /** One turn of the drain loop: enqueues before the run, the run, and enqueues while it waits. */
  datatype Turn = Turn(before: seq<Arrival>, outcome: Outcome, during: seq<Arrival>)

  function AfterTurn(cfg: Config, queue: seq<Item>, turn: Turn): seq<Item> {
    AfterRound(cfg, Arrived(queue, turn.before), turn.outcome, turn.during)
  }

  /** The batch that a turn picks. */
  function Picked(cfg: Config, queue: seq<Item>, turn: Turn): seq<Item> {
    Batch(cfg, Arrived(queue, turn.before))
  }

  /** What a turn puts back in front of the queue. */
  function KeptByTurn(cfg: Config, queue: seq<Item>, turn: Turn): seq<Item> {
    var batch := Picked(cfg, queue, turn);
    Kept(cfg, batch, Verdicts(turn.outcome, batch), |batch|)
  }

  /** Where the item at `pos` stands after a turn that does not pick it. */
  function Moved(cfg: Config, queue: seq<Item>, pos: nat, turn: Turn): (r: nat)
    requires cfg.batchSize <= pos < |queue|
    ensures r < |AfterTurn(cfg, queue, turn)| && AfterTurn(cfg, queue, turn)[r] == queue[pos]
  {
    var kept := KeptByTurn(cfg, queue, turn);
    var rest := Arrived(Arrived(queue, turn.before)[cfg.batchSize..], turn.during);
    StaysBehind(cfg, queue, pos, turn);
    BehindKept(kept, rest, pos - cfg.batchSize);
    |kept| + pos - cfg.batchSize
  }

  lemma BehindKept(kept: seq<Item>, rest: seq<Item>, k: nat)
    requires k < |rest|
    ensures |kept| + k < |kept + rest| && (kept + rest)[|kept| + k] == rest[k]
  {
  }

  lemma StaysBehind(cfg: Config, queue: seq<Item>, pos: nat, turn: Turn)
    requires cfg.batchSize <= pos < |queue|
    ensures AfterTurn(cfg, queue, turn)
         == KeptByTurn(cfg, queue, turn) + Arrived(Arrived(queue, turn.before)[cfg.batchSize..], turn.during)
    ensures var rest := Arrived(Arrived(queue, turn.before)[cfg.batchSize..], turn.during);
      pos - cfg.batchSize < |rest| && rest[pos - cfg.batchSize] == queue[pos]
  {
    var rest := Arrived(queue, turn.before)[cfg.batchSize..];
    assert rest[pos - cfg.batchSize] == queue[pos];
  }

  /** `item`, now at `pos`, is in the batch of one of these turns. */
  predicate PickedWithin(cfg: Config, queue: seq<Item>, pos: nat, item: Item, turns: seq<Turn>)
    requires pos < |queue| && queue[pos] == item
    decreases |turns|
  {
    && turns != []
    && var batch := Picked(cfg, queue, turns[0]);
       if pos < |batch| then batch[pos] == item
       else
         && cfg.batchSize <= pos
         && PickedWithin(cfg, AfterTurn(cfg, queue, turns[0]), Moved(cfg, queue, pos, turns[0]), item, turns[1..])
  }

  /** Enqueues go to the back, so a turn picks the item at `pos` exactly if `pos` lies within the batch size. */
  lemma PickedAt(cfg: Config, queue: seq<Item>, pos: nat, turn: Turn)
    requires pos < |queue|
    ensures var batch := Picked(cfg, queue, turn);
      (pos < |batch| <==> pos < cfg.batchSize) && (pos < |batch| ==> batch[pos] == queue[pos])
  {
  }

  lemma MovedPrefix(cfg: Config, queue: seq<Item>, pos: nat, turn: Turn)
    requires cfg.batchSize <= pos < |queue|
    ensures AfterTurn(cfg, queue, turn)[..Moved(cfg, queue, pos, turn)]
         == Kept(cfg, queue[..cfg.batchSize], Verdicts(turn.outcome, queue[..cfg.batchSize]), cfg.batchSize)
            + queue[cfg.batchSize..pos]
  {
    var n := cfg.batchSize;
    var full := Arrived(queue, turn.before);
    assert Batch(cfg, full) == queue[..n];
    var rest := full[n..];
    assert rest[..pos - n] == queue[n..pos];
    assert Arrived(rest, turn.during)[..pos - n] == rest[..pos - n];
  }

  lemma PrefixPassedOver(cfg: Config, queue: seq<Item>, pos: nat, outcome: Outcome, after: seq<Item>)
    requires cfg.batchSize <= pos < |queue|
    requires after == Kept(cfg, queue[..cfg.batchSize], Verdicts(outcome, queue[..cfg.batchSize]), cfg.batchSize)
                      + queue[cfg.batchSize..pos]
    ensures Budget(cfg, after) + cfg.batchSize <= Budget(cfg, queue[..pos])
  {
    var batch, between := queue[..cfg.batchSize], queue[cfg.batchSize..pos];
    assert queue[..pos] == batch + between;
    PassedOver(cfg, batch, Verdicts(outcome, batch), between, queue[..pos], after);
  }

  /** Being passed over costs the items ahead at least one pick for every place in the batch. */
  lemma MovedBudget(cfg: Config, queue: seq<Item>, pos: nat, turn: Turn)
    requires cfg.batchSize <= pos < |queue|
    ensures Budget(cfg, AfterTurn(cfg, queue, turn)[..Moved(cfg, queue, pos, turn)]) + cfg.batchSize
         <= Budget(cfg, queue[..pos])
  {
    MovedPrefix(cfg, queue, pos, turn);
    PrefixPassedOver(cfg, queue, pos, turn.outcome, AfterTurn(cfg, queue, turn)[..Moved(cfg, queue, pos, turn)]);
  }

  lemma OneTurnLess(n: nat, d: Positive)
    requires n > 0
    ensures n * d == (n - 1) * d + d
  {
  }

  /**
   Bounded bypass. Failures go back to the front of the queue, yet whatever the runner answers and
   whatever is enqueued, an item waits only behind the picks that the items ahead of it have left.
   */
  lemma {:induction false} BoundedBypass(cfg: Config, queue: seq<Item>, pos: nat, turns: seq<Turn>)
    requires pos < |queue|
    requires Budget(cfg, queue[..pos]) < |turns| * cfg.batchSize
    ensures PickedWithin(cfg, queue, pos, queue[pos], turns)
    decreases |turns|
  {
    SomeTurn(|turns|, cfg.batchSize);
    PickedAt(cfg, queue, pos, turns[0]);
    if pos >= cfg.batchSize {
      var after, moved := AfterTurn(cfg, queue, turns[0]), Moved(cfg, queue, pos, turns[0]);
      MovedBudget(cfg, queue, pos, turns[0]);
      LessLeft(Budget(cfg, after[..moved]), Budget(cfg, queue[..pos]), |turns|, cfg.batchSize);
      BoundedBypass(cfg, after, moved, turns[1..]);
    }
  }

  lemma SomeTurn(n: nat, d: Positive)
    ensures 0 < n * d ==> 0 < n
  {
  }

  lemma LessLeft(after: nat, before: nat, n: nat, d: Positive)
    requires n > 0 && after + d <= before < n * d
    ensures after < (n - 1) * d
  {
    OneTurnLess(n, d);
  }

  /** The same bound as a number of turns: the budget ahead over the batch size, plus one. */
  lemma BypassTurns(cfg: Config, queue: seq<Item>, pos: nat, turns: seq<Turn>)
    requires pos < |queue|
    requires |turns| == Budget(cfg, queue[..pos]) / cfg.batchSize + 1
    ensures PickedWithin(cfg, queue, pos, queue[pos], turns)
  {
    BelowNextMultiple(Budget(cfg, queue[..pos]), cfg.batchSize, |turns|);
    BoundedBypass(cfg, queue, pos, turns);
  }

  lemma BelowNextMultiple(a: nat, d: Positive, n: nat)
    requires n == a / d + 1
    ensures a < n * d
  {
    OneTurnLess(n, d);
    DivisionBound(a, d);
  }

  lemma DivisionBound(a: nat, d: Positive)
    ensures a < (a / d) * d + d
  {
  }
}
