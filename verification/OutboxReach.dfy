/**
 What runs of the outbox protocol can go on to do: bring a kept hand-off into the stream, take a row over
 its limit, and drain the table.
 */
module OutboxReach {
  import opened Common
  import opened OutboxProtocol
  import Relay = OutboxRelay

  lemma {:induction false} OldestOf(rows: seq<Row>, ids: set<nat>) returns (oldest: nat)
    requires ids != {} && forall id :: id in ids ==> id < |rows|
    ensures oldest in ids && forall id :: id in ids ==> rows[oldest].createdAt <= rows[id].createdAt
    decreases |ids|
  {
    oldest :| oldest in ids;
    var others := ids - {oldest};
    if others != {} {
      var best := OldestOf(rows, others);
      if rows[best].createdAt < rows[oldest].createdAt {
        oldest := best;
      }
    }
  }

  /** The query always has an answer. */
  lemma {:induction false} PickOldest(cfg: Config, rows: seq<Row>, cutoff: int, n: nat) returns (ids: seq<nat>)
    ensures Oldest(cfg, rows, cutoff, ids, n)
  {
    ids := [];
    if n > 0 {
      ids := PickOldest(cfg, rows, cutoff, n - 1);
      var left := Relay.EligibleIds(cfg, rows, cutoff) - Relay.IdSet(ids);
      if left != {} {
        var next := OldestOf(rows, left);
        PickNext(cfg, rows, cutoff, ids, n - 1, next);
        ids := ids + [next];
      } else {
        assert forall id :: 0 <= id < |rows| && Eligible(cfg, rows[id], cutoff) ==> id !in left;
      }
    }
  }

  lemma PickNext(cfg: Config, rows: seq<Row>, cutoff: int, ids: seq<nat>, n: nat, next: nat)
    requires Oldest(cfg, rows, cutoff, ids, n)
    requires next < |rows| && Eligible(cfg, rows[next], cutoff) && next !in ids
    requires forall id :: id in Relay.EligibleIds(cfg, rows, cutoff) - Relay.IdSet(ids) ==> rows[next].createdAt <= rows[id].createdAt
    ensures Oldest(cfg, rows, cutoff, ids + [next], n + 1)
  {
    forall id | 0 <= id < |rows| && Eligible(cfg, rows[id], cutoff) && id !in ids + [next]
      ensures id in Relay.EligibleIds(cfg, rows, cutoff) - Relay.IdSet(ids)
    {
    }
  }

  /** The table after a pass whose publishes all work. */
  ghost predicate AllPublished(before: seq<Row>, after: seq<Row>, ids: seq<nat>) {
    && |after| == |before|
    && forall id :: 0 <= id < |before| ==>
         after[id] == if id in ids then before[id].(status := Published) else before[id]
  }

  /** A pass under way can go well to its end. */
  lemma {:induction false} PassCanSucceed(cfg: Config, trace: seq<State>, todo: seq<nat>) returns (later: seq<State>)
    requires Execution(cfg, trace) && trace[|trace| - 1].relay == Passing(todo)
    ensures Execution(cfg, later) && trace <= later && later[|later| - 1].relay == Passing([])
    ensures AllPublished(trace[|trace| - 1].rows, later[|later| - 1].rows, todo)
    ensures forall id :: id in todo && id < |trace[|trace| - 1].rows| ==>
      InStream(later[|later| - 1].stream, trace[|trace| - 1].rows[id].image)
    ensures later[|later| - 1].hot == trace[|trace| - 1].hot
    decreases |todo|
  {
    var s := trace[|trace| - 1];
    if todo == [] {
      later := trace;
    } else {
      SoundUntil(cfg, trace, |trace| - 1);
      var sent := Extend(cfg, trace, RelayPublish(Confirmed));
      var marked := Extend(cfg, sent, RelayMark);
      later := PassCanSucceed(cfg, marked, todo[1..]);
      PrefixOn(sent, marked, later);
      PrefixOn(trace, sent, later);
      HeadPublished(cfg, later, |marked| - 1, s, todo);
    }
  }

  /** The first row of a pass, seen from its end. */
  lemma HeadPublished(cfg: Config, later: seq<State>, m: nat, s: State, todo: seq<nat>)
    requires Execution(cfg, later) && m < |later| && todo != [] && todo[0] < |s.rows|
    requires later[m].rows == Marked(s.rows, todo[0], true)
    requires InStream(later[m].stream, s.rows[todo[0]].image)
    requires AllPublished(later[m].rows, later[|later| - 1].rows, todo[1..])
    requires forall id :: id in todo[1..] && id < |later[m].rows| ==>
      InStream(later[|later| - 1].stream, later[m].rows[id].image)
    ensures AllPublished(s.rows, later[|later| - 1].rows, todo)
    ensures forall id :: id in todo && id < |s.rows| ==> InStream(later[|later| - 1].stream, s.rows[id].image)
  {
    GrowsBetween(cfg, later, m, |later| - 1);
    assert forall id :: id in todo <==> id == todo[0] || id in todo[1..];
    var message :| message in later[m].stream && message.id == s.rows[todo[0]].image;
    assert message in later[|later| - 1].stream;
  }

  /** From any state between passes, working passes lead to one that has just fetched a given row the relay may fetch. */
  lemma {:induction false} FetchRow(cfg: Config, trace: seq<State>, id: nat) returns (later: seq<State>, ids: seq<nat>)
    requires Execution(cfg, trace) && trace[|trace| - 1].relay.Resting?
    requires var rows := trace[|trace| - 1].rows;
      id < |rows| && rows[id].status != Published && !AtLimit(cfg, rows[id])
    ensures Execution(cfg, later) && trace <= later
    ensures var s, t := trace[|trace| - 1], later[|later| - 1];
      && t.relay == Passing(ids) && id in ids && t.hot == s.hot && |t.rows| == |s.rows| && t.rows[id] == s.rows[id]
    decreases var rows := trace[|trace| - 1].rows; |Relay.EligibleIds(cfg, rows, rows[id].createdAt + 1)|
  {
    var rows := trace[|trace| - 1].rows;
    var cutoff := rows[id].createdAt + 1;
    assert id in Relay.EligibleIds(cfg, rows, cutoff);
    ids := PickOldest(cfg, rows, cutoff, cfg.batchSize);
    later := Extend(cfg, trace, Fetch(ids, cutoff));
    if id !in ids {
      var passed := PassCanSucceed(cfg, later, ids);
      var resting := Extend(cfg, passed, RelayAborts);
      PrefixOn(trace, later, passed);
      PrefixOn(trace, passed, resting);
      FewerLeft(cfg, rows, resting[|resting| - 1].rows, ids, cutoff);
      later, ids := FetchRow(cfg, resting, id);
      PrefixOn(trace, resting, later);
    }
  }

  lemma FewerLeft(cfg: Config, rows: seq<Row>, after: seq<Row>, ids: seq<nat>, cutoff: int)
    requires Fetched(cfg, rows, cutoff, ids) && AllPublished(rows, after, ids) && Relay.EligibleIds(cfg, rows, cutoff) != {}
    ensures |Relay.EligibleIds(cfg, after, cutoff)| < |Relay.EligibleIds(cfg, rows, cutoff)|
  {
    Relay.PublishedRows(rows, ids);
    assert after == Relay.Published(rows, ids);
    Relay.PassDrains(cfg, rows, cutoff, ids);
  }

  /** Passes that go well reach every row that is not at its limit. */
  lemma RowCanArrive(cfg: Config, trace: seq<State>, id: nat) returns (later: seq<State>)
    requires Execution(cfg, trace) && trace[|trace| - 1].relay.Resting?
    requires var rows := trace[|trace| - 1].rows;
      id < |rows| && rows[id].status != Published && !AtLimit(cfg, rows[id])
    ensures Execution(cfg, later) && trace <= later
    ensures InStream(later[|later| - 1].stream, trace[|trace| - 1].rows[id].image)
  {
    var fetched, ids := FetchRow(cfg, trace, id);
    later := PassCanSucceed(cfg, fetched, ids);
    PrefixOn(trace, fetched, later);
  }

  /** The run can go on to a state in which the image's task is in the stream. */
  ghost predicate CanArrive(cfg: Config, trace: seq<State>, image: int) {
    exists later: seq<State> :: Execution(cfg, later) && trace <= later && InStream(later[|later| - 1].stream, image)
  }

  /**
   What keeping a hand-off means. Between two passes of the relay, for an image whose hot path is over, the
   run can go on to bring its task into the stream exactly if the hand-off is kept.
   */
  lemma KeptCanArrive(cfg: Config, trace: seq<State>, image: int)
    requires Execution(cfg, trace) && trace[|trace| - 1].relay.Resting?
    requires image in trace[|trace| - 1].images && image !in trace[|trace| - 1].hot
    ensures CanArrive(cfg, trace, image) <==> Kept(cfg, trace[|trace| - 1], image)
  {
    var s := trace[|trace| - 1];
    if InStream(s.stream, image) {
      assert Execution(cfg, trace) && trace <= trace;
    } else if Kept(cfg, s, image) {
      var id :| 0 <= id < |s.rows| && s.rows[id].image == image
                && s.rows[id].status != Published && !Stranded(cfg, s.rows[id]);
      StrandedAtLimit(cfg, s.rows[id]);
      var later := RowCanArrive(cfg, trace, id);
    } else {
      forall later: seq<State> | Execution(cfg, later) && trace <= later
        ensures !InStream(later[|later| - 1].stream, image)
      {
        GoneForGood(cfg, later, |trace| - 1, |later| - 1, image);
      }
    }
  }

  // -------------------------------------------------- when the limit is passed

  /** Some continuation of the run records more failures on the row than the limit. */
  ghost predicate CanPass(cfg: Config, trace: seq<State>, id: nat) {
    exists later: seq<State> ::
      && Execution(cfg, later) && trace <= later
      && id < |later[|later| - 1].rows| && later[|later| - 1].rows[id].attempts > cfg.maxAttempts
  }

  /** The relay fails the row as often as it can, and then its hot path fails it once more. */
  lemma {:induction false} HotPathPasses(cfg: Config, trace: seq<State>, id: nat) returns (later: seq<State>)
    requires cfg.maxAttempts > 0 && Execution(cfg, trace)
    requires var s := trace[|trace| - 1];
      && id < |s.rows| && HotMayFail(s, id)
      && (RelayHolds(s.relay, id) || s.rows[id].status != Published || s.rows[id].attempts >= cfg.maxAttempts)
    ensures Execution(cfg, later) && trace <= later
    ensures id < |later[|later| - 1].rows| && later[|later| - 1].rows[id].attempts > cfg.maxAttempts
    decreases cfg.maxAttempts - trace[|trace| - 1].rows[id].attempts
  {
    var s := trace[|trace| - 1];
    if s.rows[id].attempts >= cfg.maxAttempts {
      var image :| image in s.hot && (s.hot[image] == Intended(Some(id)) || s.hot[image] == Told(Some(id), false));
      later := HotCanFail(cfg, trace, id, image);
    } else {
      var held := trace;
      if !RelayHolds(s.relay, id) {
        var resting := Extend(cfg, trace, RelayAborts);
        var ids;
        held, ids := FetchRow(cfg, resting, id);
        PrefixOn(trace, resting, held);
      }
      var failed := RelayCanFail(cfg, held, id);
      PrefixOn(trace, held, failed);
      later := HotPathPasses(cfg, failed, id);
      PrefixOn(trace, failed, later);
    }
  }

  /**
   When the limit is passed. Neither writer re-checks it, so a row can be failed once too often; some
   continuation of the run does so exactly if the row is at risk: over the limit already, or on it with a
   writer that may still fail it, or below it with a hot path that may still fail it after the relay has
   failed it up to the limit.
   */
  lemma LimitPassedExactly(cfg: Config, trace: seq<State>, id: nat)
    requires cfg.maxAttempts > 0 && Execution(cfg, trace) && id < |trace[|trace| - 1].rows|
    ensures CanPass(cfg, trace, id) <==> AtRisk(cfg, trace[|trace| - 1], id)
  {
    var s := trace[|trace| - 1];
    if AtRisk(cfg, s, id) {
      if s.rows[id].attempts > cfg.maxAttempts {
        assert Execution(cfg, trace) && trace <= trace;
      } else if HotMayFail(s, id) && (RelayHolds(s.relay, id) || s.rows[id].status != Published
                                      || s.rows[id].attempts == cfg.maxAttempts) {
        var later := HotPathPasses(cfg, trace, id);
      } else {
        var later := RelayCanFail(cfg, trace, id);
      }
    } else {
      forall later: seq<State> | Execution(cfg, later) && trace <= later && id < |later[|later| - 1].rows|
        ensures later[|later| - 1].rows[id].attempts <= cfg.maxAttempts
      {
        NoRiskStays(cfg, later, |trace| - 1, |later| - 1, id);
      }
    }
  }

  // ------------------------------------------------------------------ draining

  /** These steps lead from `s` to `t`. */
  ghost predicate Runs(cfg: Config, s: State, steps: seq<Step>, t: State)
    decreases |steps|
  {
    if steps == [] then s == t
    else Enabled(cfg, s, steps[0]) && Runs(cfg, Apply(cfg, s, steps[0]), steps[1..], t)
  }

  lemma {:induction false} RunsOn(cfg: Config, trace: seq<State>, steps: seq<Step>, t: State) returns (later: seq<State>)
    requires Execution(cfg, trace) && Runs(cfg, trace[|trace| - 1], steps, t)
    ensures Execution(cfg, later) && trace <= later && later[|later| - 1] == t
    decreases |steps|
  {
    later := trace;
    if steps != [] {
      var next := Extend(cfg, trace, steps[0]);
      later := RunsOn(cfg, next, steps[1..], t);
      PrefixOn(trace, next, later);
    }
  }

  /** The rest of a pass whose publishes all work, with `n` rows to go. */
  function RestOfPass(n: nat): seq<Step> {
    if n == 0 then [RelayAborts] else [RelayPublish(Confirmed), RelayMark] + RestOfPass(n - 1)
  }

  function GoodPass(ids: seq<nat>, cutoff: int): seq<Step> {
    [Fetch(ids, cutoff)] + RestOfPass(|ids|)
  }

  lemma {:induction false} RestPublishes(cfg: Config, s: State, todo: seq<nat>, t: State)
    requires Sound(s) && s.relay == Passing(todo) && Runs(cfg, s, RestOfPass(|todo|), t)
    ensures Sound(t) && t.relay.Resting? && AllPublished(s.rows, t.rows, todo)
    decreases |todo|
  {
    var steps := RestOfPass(|todo|);
    if todo == [] {
      assert steps[1..] == [];
      SoundStep(cfg, s, RelayAborts);
    } else {
      var sent := Apply(cfg, s, RelayPublish(Confirmed));
      assert steps[1..] == [RelayMark] + RestOfPass(|todo| - 1) && steps[1..][1..] == RestOfPass(|todo| - 1);
      SoundStep(cfg, s, RelayPublish(Confirmed));
      SoundStep(cfg, sent, RelayMark);
      var marked := Apply(cfg, sent, RelayMark);
      RestPublishes(cfg, marked, todo[1..], t);
      assert forall id :: id in todo <==> id == todo[0] || id in todo[1..];
    }
  }

  lemma PassPublishes(cfg: Config, s: State, ids: seq<nat>, cutoff: int, t: State)
    requires Sound(s) && Runs(cfg, s, GoodPass(ids, cutoff), t)
    ensures Fetched(cfg, s.rows, cutoff, ids) && Sound(t) && t.rows == Relay.Published(s.rows, ids)
  {
    var fetched := Apply(cfg, s, Fetch(ids, cutoff));
    assert GoodPass(ids, cutoff)[1..] == RestOfPass(|ids|);
    SoundStep(cfg, s, Fetch(ids, cutoff));
    RestPublishes(cfg, fetched, ids, t);
    Relay.PublishedRows(s.rows, ids);
  }

  /** The states between working passes of a run: pass `k` leads from state `k` to the next. */
  ghost predicate GoodPasses(cfg: Config, states: seq<State>, picks: seq<seq<nat>>, cutoffs: seq<int>) {
    && |states| == |picks| + 1 && |cutoffs| == |picks|
    && forall k :: 0 <= k < |picks| ==> Runs(cfg, states[k], GoodPass(picks[k], cutoffs[k]), states[k + 1])
  }

  function TablesOf(states: seq<State>): seq<seq<Row>> {
    seq(|states|, k requires 0 <= k < |states| => states[k].rows)
  }

  lemma {:induction false} PassesLink(cfg: Config, states: seq<State>, picks: seq<seq<nat>>, cutoffs: seq<int>, n: nat)
    requires GoodPasses(cfg, states, picks, cutoffs) && n <= |picks| && Sound(states[0])
    ensures Sound(states[n])
    ensures forall k :: 0 <= k < n ==>
      Fetched(cfg, states[k].rows, cutoffs[k], picks[k]) && states[k + 1].rows == Relay.Published(states[k].rows, picks[k])
  {
    if n > 0 {
      PassesLink(cfg, states, picks, cutoffs, n - 1);
      PassPublishes(cfg, states[n - 1], picks[n - 1], cutoffs[n - 1], states[n]);
    }
  }

  lemma {:induction false} PassesGoOn(cfg: Config, trace: seq<State>, states: seq<State>, picks: seq<seq<nat>>,
                                      cutoffs: seq<int>, n: nat) returns (later: seq<State>)
    requires Execution(cfg, trace) && GoodPasses(cfg, states, picks, cutoffs) && n <= |picks|
    requires states[0] == trace[|trace| - 1]
    ensures Execution(cfg, later) && trace <= later && later[|later| - 1] == states[n]
  {
    later := trace;
    if n > 0 {
      var before := PassesGoOn(cfg, trace, states, picks, cutoffs, n - 1);
      later := RunsOn(cfg, before, GoodPass(picks[n - 1], cutoffs[n - 1]), states[n]);
      PrefixOn(trace, before, later);
    }
  }

  /**
   The relay drains, over runs: however a run has gone so far, if it goes on with relay passes alone whose
   publishes work and for which every row is old enough, then no row is left to publish exactly once the
   passes reach the number of rows over the batch size, rounded up.
   */
  lemma RunDrains(cfg: Config, trace: seq<State>, states: seq<State>, picks: seq<seq<nat>>, cutoffs: seq<int>, cutoff: int)
    returns (later: seq<State>)
    requires Execution(cfg, trace) && GoodPasses(cfg, states, picks, cutoffs) && states[0] == trace[|trace| - 1]
    requires forall id :: 0 <= id < |states[0].rows| ==>
      states[0].rows[id].createdAt < cutoff && forall k :: 0 <= k < |cutoffs| ==> states[0].rows[id].createdAt < cutoffs[k]
    ensures Execution(cfg, later) && trace <= later && later[|later| - 1] == states[|picks|]
    ensures var n := |Relay.EligibleIds(cfg, states[0].rows, cutoff)|;
      Relay.EligibleIds(cfg, states[|picks|].rows, cutoff) == {} <==> (n + cfg.batchSize - 1) / cfg.batchSize <= |picks|
  {
    SoundUntil(cfg, trace, |trace| - 1);
    PassesLink(cfg, states, picks, cutoffs, |picks|);
    later := PassesGoOn(cfg, trace, states, picks, cutoffs, |picks|);
    Relay.PassesToEmpty(cfg, TablesOf(states), picks, cutoffs, cutoff);
  }
}
