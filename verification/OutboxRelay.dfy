/**
 The two writers of the outbox as code: the hand-off at the end of `_process_image` and one pass of
 the relay, over a table and a stream they update in place. A ghost trace shows that each of them
 walks through the protocol of `OutboxProtocol`, one step for every table update and publish.
 */
module OutboxRelay {
  import opened Common
  import opened OutboxProtocol
  import Json

  datatype Summary = Summary(picked: nat, published: nat, failed: nat)

  class Outbox {
    const cfg: Config
    var rows: seq<Row>
    var stream: seq<Message>
    ghost var trace: seq<State>

    ghost predicate Valid()
      reads this
    {
      Execution(cfg, trace) && Now().rows == rows && Now().stream == stream
    }

    ghost function Now(): State
      requires trace != []
      reads this
    {
      trace[|trace| - 1]
    }

    constructor (cfg: Config)
      ensures Valid() && this.cfg == cfg && rows == [] && stream == [] && trace == [INIT]
    {
      this.cfg := cfg;
      rows, stream := [], [];
      trace := [INIT];
    }

    ghost method Log(step: Step)
      requires Execution(cfg, trace) && Enabled(cfg, Now(), step)
      modifies this`trace
      ensures Execution(cfg, trace) && trace == old(trace) + [Apply(cfg, old(Now()), step)]
    {
      trace := Extend(cfg, trace, step);
    }

    /** A new process over the same table and stream: what hot paths and relay held in memory is gone. */
    method Restart()
      requires Valid()
      modifies this
      ensures Valid() && old(trace) <= trace && rows == old(rows) && stream == old(stream)
      ensures Now() == Apply(cfg, old(Now()), Crash)
    {
      Log(Crash);
    }

    /** One INSERT or UPDATE of the table, as one step of the protocol. */
    method WriteRows(after: seq<Row>, ghost step: Step)
      requires Valid() && Enabled(cfg, Now(), step)
      requires Apply(cfg, Now(), step).rows == after && Apply(cfg, Now(), step).stream == stream
      modifies this`rows, this`trace
      ensures Valid() && rows == after && trace == old(trace) + [Apply(cfg, old(Now()), step)]
    {
      rows := after;
      Log(step);
    }

    /** One publish, as one step of the protocol. */
    method Send(message: Message, delivery: Delivery, ghost step: Step)
      requires Valid() && Enabled(cfg, Now(), step)
      requires Apply(cfg, Now(), step).stream == Publish(stream, message, delivery) && Apply(cfg, Now(), step).rows == rows
      modifies this`stream, this`trace
      ensures Valid() && stream == Publish(old(stream), message, delivery)
      ensures trace == old(trace) + [Apply(cfg, old(Now()), step)]
    {
      stream := Publish(stream, message, delivery);
      Log(step);
    }

    /**
     The hand-off of a freshly saved image: record the intent, publish, record the result. A failed
     insert does not stop the publish, but without its row id nothing is recorded of the result; and a
     refused status update leaves the row as it is.
     */
    method HandOff(image: int, payload: Json.Object, now: int, inserts: Commit, delivery: Delivery, marks: Commit)
      requires Valid() && image !in Now().images
      modifies this
      ensures Valid() && old(trace) <= trace
      ensures Now().hot == old(Now()).hot - {image} && Now().relay == old(Now()).relay
      ensures Now().images == old(Now()).images[image := payload]
      ensures stream == Publish(old(stream), Message(image, payload), delivery)
      ensures rows == if inserts == Refused then old(rows)
                      else old(rows) + [HandedOffRow(image, payload, now, delivery, inserts == Stored && marks != Refused)]
      ensures |old(trace)| < |trace| && trace[|old(trace)|] == Apply(cfg, old(Now()), Begin(image, payload))
    {
      Log(Begin(image, payload));
      var dispatch := RecordIntent(image, payload, now, inserts);
      PublishTask(image, payload, delivery);
      RecordResult(image, dispatch, delivery.Confirmed?, marks);
    }

    method RecordIntent(image: int, payload: Json.Object, now: int, inserts: Commit) returns (dispatch: Option<nat>)
      requires Valid() && image in Now().hot && Now().hot[image].Saved?
      requires image in Now().images && Now().images[image] == payload
      modifies this`rows, this`trace
      ensures Valid() && old(trace) <= trace
      ensures Now().hot == old(Now()).hot[image := Intended(dispatch)]
      ensures Now().relay == old(Now()).relay && Now().images == old(Now()).images
      ensures dispatch == if inserts == Stored then Some(|old(rows)|) else None
      ensures rows == if inserts == Refused then old(rows) else old(rows) + [InsertedRow(image, payload, now)]
    {
      if inserts == Stored {
        dispatch := Some(|rows|);
        WriteRows(rows + [InsertedRow(image, payload, now)], Insert(image, now));
      } else if inserts == Unseen {
        dispatch := None;
        WriteRows(rows + [InsertedRow(image, payload, now)], InsertUnseen(image, now));
      } else {
        dispatch := None;
        Log(InsertFails(image));
      }
    }

    method PublishTask(image: int, payload: Json.Object, delivery: Delivery)
      requires Valid() && image in Now().hot && Now().hot[image].Intended?
      requires image in Now().images && Now().images[image] == payload
      modifies this`stream, this`trace
      ensures Valid() && old(trace) <= trace
      ensures Now().hot == old(Now()).hot[image := Told(old(Now()).hot[image].row, delivery.Confirmed?)]
      ensures Now().relay == old(Now()).relay && Now().images == old(Now()).images
      ensures stream == Publish(old(stream), Message(image, payload), delivery)
    {
      Send(Message(image, payload), delivery, HotPublish(image, delivery));
    }

    method RecordResult(image: int, dispatch: Option<nat>, ok: bool, marks: Commit)
      requires Valid() && image in Now().hot && Now().hot[image] == Told(dispatch, ok)
      requires dispatch.Some? ==> dispatch.value < |rows|
      modifies this`rows, this`trace
      ensures Valid() && old(trace) <= trace
      ensures Now().hot == old(Now()).hot - {image} && Now().relay == old(Now()).relay
      ensures Now().images == old(Now()).images
      ensures rows == if dispatch.Some? && marks != Refused then Marked(old(rows), dispatch.value, ok) else old(rows)
    {
      if dispatch.Some? && marks != Refused {
        WriteRows(Marked(rows, dispatch.value, ok), HotMark(image));
      } else {
        Log(HotMarkFails(image));
      }
    }

    /** The relay's work on the row it has reached: publish its task again and mark it. */
    method RelayRow(id: nat, delivery: Delivery)
      requires Valid() && Now().relay.Passing? && Now().relay.todo != [] && Now().relay.todo[0] == id
      requires id < |rows|
      modifies this
      ensures Valid() && old(trace) <= trace
      ensures Now().relay == Passing(old(Now()).relay.todo[1..]) && Now().hot == old(Now()).hot
      ensures Now().images == old(Now()).images
      ensures rows == Marked(old(rows), id, delivery.Confirmed?)
      ensures stream == StreamAfterRow(old(rows)[id], old(stream), delivery)
      ensures rows[id].image == old(rows)[id].image && rows[id].payload == old(rows)[id].payload
    {
      SoundAlways(cfg, trace, |trace| - 1);
      var payload := DecodePayload(rows[id].payload);
      if payload.None? {
        // Not reached: a row always holds the task its image was handed off with.
        assert false;
      } else {
        Send(Message(rows[id].image, payload.value), delivery, RelayPublish(delivery));
        WriteRows(Marked(rows, id, delivery.Confirmed?), RelayMark);
      }
    }

    /** `relay_once`: `ids` is what the query returned, `deliveries` what the publishes came to. */
    method RelayOnce(ids: seq<nat>, deliveries: seq<Delivery>, ghost cutoff: int) returns (summary: Summary)
      requires Valid() && Now().relay.Resting?
      requires Fetched(cfg, rows, cutoff, ids) && |deliveries| == |ids|
      modifies this
      ensures Valid() && Now().relay.Resting? && old(trace) <= trace && Now().hot == old(Now()).hot
      ensures Now().images == old(Now()).images
      ensures rows == AfterPass(old(rows), ids, deliveries)
      ensures stream == StreamAfter(old(rows), old(stream), ids, deliveries)
      ensures summary == Summary(|ids|, Confirmations(deliveries), |ids| - Confirmations(deliveries))
    {
      if ids == [] {
        return Summary(0, 0, 0);
      }
      Log(Fetch(ids, cutoff));
      var published, failed := RelayRows(ids, deliveries);
      Log(RelayAborts);
      return Summary(|ids|, published, failed);
    }

    method RelayRows(ids: seq<nat>, deliveries: seq<Delivery>) returns (published: nat, failed: nat)
      requires Valid() && Now().relay == Passing(ids) && |deliveries| == |ids|
      requires forall k :: 0 <= k < |ids| ==> ids[k] < |rows|
      modifies this
      ensures Valid() && old(trace) <= trace && Now().hot == old(Now()).hot && Now().images == old(Now()).images
      ensures rows == AfterPass(old(rows), ids, deliveries)
      ensures stream == StreamAfter(old(rows), old(stream), ids, deliveries)
      ensures published == Confirmations(deliveries) && published + failed == |ids|
    {
      ghost var rows0, stream0 := rows, stream;
      published, failed := 0, 0;
      for i := 0 to |ids|
        invariant Valid() && old(trace) <= trace && Now().relay == Passing(ids[i..]) && Now().hot == old(Now()).hot
        invariant Now().images == old(Now()).images
        invariant rows == AfterPass(rows0, ids[..i], deliveries[..i])
        invariant stream == StreamAfter(rows0, stream0, ids[..i], deliveries[..i])
        invariant published == Confirmations(deliveries[..i]) && published + failed == i
      {
        PassStep(rows0, stream0, ids, deliveries, i);
        assert ids[i..][0] == ids[i] && ids[i..][1..] == ids[i + 1..];
        RelayRow(ids[i], deliveries[i]);
        if deliveries[i].Confirmed? {
          published := published + 1;
        } else {
          failed := failed + 1;
        }
      }
      assert ids[..|ids|] == ids && deliveries[..|ids|] == deliveries;
    }
  }

  /** The dispatch row of a hand-off that ran to its end. */
  function HandedOffRow(image: int, payload: Json.Object, now: int, delivery: Delivery, marks: bool): Row {
    var row := InsertedRow(image, payload, now);
    if !marks then row
    else if delivery.Confirmed? then row.(status := OutboxProtocol.Published)
    else row.(status := Failed, attempts := 1)
  }

  /** The row of a hand-off holds its own task; it is published exactly if that was confirmed and could be marked. */
  lemma HandOffRecorded(image: int, payload: Json.Object, now: int, delivery: Delivery, marks: bool)
    ensures var row := HandedOffRow(image, payload, now, delivery, marks);
      && row.image == image && DecodePayload(row.payload) == Some(payload) && row.createdAt == now
      && (row.status == OutboxProtocol.Published <==> marks && delivery == Confirmed)
      && (row.status == Failed <==> marks && delivery != Confirmed)
      && row.attempts == if row.status == Failed then 1 else 0
  {
  }

  function Confirmations(deliveries: seq<Delivery>): (r: nat)
    ensures r <= |deliveries|
  {
    if deliveries == [] then 0
    else Confirmations(deliveries[..|deliveries| - 1]) + (if deliveries[|deliveries| - 1].Confirmed? then 1 else 0)
  }

  /** The table after a pass: every fetched row marked by how its publish went. */
  function AfterPass(rows: seq<Row>, ids: seq<nat>, deliveries: seq<Delivery>): (r: seq<Row>)
    requires |ids| == |deliveries| && forall k :: 0 <= k < |ids| ==> ids[k] < |rows|
    ensures |r| == |rows|
    ensures forall k :: 0 <= k < |rows| ==> r[k].image == rows[k].image && r[k].payload == rows[k].payload
  {
    if ids == [] then rows
    else
      var n := |ids| - 1;
      Marked(AfterPass(rows, ids[..n], deliveries[..n]), ids[n], deliveries[n].Confirmed?)
  }

  function StreamAfterRow(row: Row, stream: seq<Message>, delivery: Delivery): seq<Message> {
    match DecodePayload(row.payload)
    case Some(payload) => Publish(stream, Message(row.image, payload), delivery)
    case None => stream
  }

  function StreamAfter(rows: seq<Row>, stream: seq<Message>, ids: seq<nat>, deliveries: seq<Delivery>): seq<Message>
    requires |ids| == |deliveries| && forall k :: 0 <= k < |ids| ==> ids[k] < |rows|
  {
    if ids == [] then stream
    else
      var n := |ids| - 1;
      var before := StreamAfter(rows, stream, ids[..n], deliveries[..n]);
      StreamAfterRow(rows[ids[n]], before, deliveries[n])
  }

  /** One more row of a pass, in terms of the rows before it. */
  lemma PassStep(rows: seq<Row>, stream: seq<Message>, ids: seq<nat>, deliveries: seq<Delivery>, i: nat)
    requires i < |ids| == |deliveries| && forall k :: 0 <= k < |ids| ==> ids[k] < |rows|
    ensures AfterPass(rows, ids[..i + 1], deliveries[..i + 1])
         == Marked(AfterPass(rows, ids[..i], deliveries[..i]), ids[i], deliveries[i].Confirmed?)
    ensures StreamAfter(rows, stream, ids[..i + 1], deliveries[..i + 1])
         == StreamAfterRow(rows[ids[i]], StreamAfter(rows, stream, ids[..i], deliveries[..i]), deliveries[i])
    ensures Confirmations(deliveries[..i + 1])
         == Confirmations(deliveries[..i]) + (if deliveries[i].Confirmed? then 1 else 0)
  {
    assert ids[..i + 1][..i] == ids[..i] && deliveries[..i + 1][..i] == deliveries[..i];
  }

  /** Every row of a pass is marked once, by its own publish, and no other row changes. */
  lemma {:induction false} PassMarks(rows: seq<Row>, ids: seq<nat>, deliveries: seq<Delivery>, id: nat)
    requires |ids| == |deliveries| && id < |rows| && forall k :: 0 <= k < |ids| ==> ids[k] < |rows|
    requires forall k, l :: 0 <= k < l < |ids| ==> ids[k] != ids[l]
    ensures id !in ids ==> AfterPass(rows, ids, deliveries)[id] == rows[id]
    ensures forall k :: 0 <= k < |ids| && ids[k] == id ==>
      AfterPass(rows, ids, deliveries)[id] ==
        if deliveries[k] == Confirmed then rows[id].(status := OutboxProtocol.Published)
        else rows[id].(status := Failed, attempts := rows[id].attempts + 1)
  {
    if ids != [] {
      var n := |ids| - 1;
      PassMarks(rows, ids[..n], deliveries[..n], id);
      assert ids == ids[..n] + [ids[n]];
    }
  }

  /** Every task of a pass whose publish was not lost is in the stream, and nothing else has come into it. */
  lemma {:induction false} PassSends(rows: seq<Row>, stream: seq<Message>, ids: seq<nat>, deliveries: seq<Delivery>)
    requires |ids| == |deliveries| && forall k :: 0 <= k < |ids| ==> ids[k] < |rows| && DecodePayload(rows[ids[k]].payload).Some?
    ensures var after := StreamAfter(rows, stream, ids, deliveries);
      && stream <= after
      && (forall k :: 0 <= k < |ids| && deliveries[k] != Lost ==> InStream(after, rows[ids[k]].image))
      && forall m :: m in after && m !in stream ==>
           exists k :: 0 <= k < |ids| && deliveries[k] != Lost
                       && m == Message(rows[ids[k]].image, DecodePayload(rows[ids[k]].payload).value)
  {
    if ids != [] {
      var n := |ids| - 1;
      PassSends(rows, stream, ids[..n], deliveries[..n]);
      var before, after := StreamAfter(rows, stream, ids[..n], deliveries[..n]), StreamAfter(rows, stream, ids, deliveries);
      var message := Message(rows[ids[n]].image, DecodePayload(rows[ids[n]].payload).value);
      StillInStream(before, after, message, deliveries[n]);
      forall k | 0 <= k < n && deliveries[k] != Lost
        ensures InStream(after, rows[ids[k]].image)
      {
        assert ids[..n][k] == ids[k] && deliveries[..n][k] == deliveries[k];
        var m :| m in before && m.id == rows[ids[k]].image;
      }
      forall m | m in after && m !in stream
        ensures exists k :: 0 <= k < |ids| && deliveries[k] != Lost
                            && m == Message(rows[ids[k]].image, DecodePayload(rows[ids[k]].payload).value)
      {
        if m in before {
          var k :| 0 <= k < |ids[..n]| && deliveries[..n][k] != Lost
                   && m == Message(rows[ids[..n][k]].image, DecodePayload(rows[ids[..n][k]].payload).value);
          assert ids[..n][k] == ids[k] && deliveries[..n][k] == deliveries[k];
        }
      }
    }
  }

  lemma StillInStream(before: seq<Message>, after: seq<Message>, message: Message, delivery: Delivery)
    requires after == Publish(before, message, delivery)
    ensures before <= after && (delivery != Lost ==> InStream(after, message.id))
    ensures forall m :: m in after && m !in before ==> m == message && delivery != Lost
  {
    if delivery != Lost && !InStream(before, message.id) {
      assert message in after;
    }
  }

  // ------------------------------------------------------------------ draining

  function IdSet(ids: seq<nat>): set<nat> {
    set id | id in ids
  }

  function EligibleIds(cfg: Config, rows: seq<Row>, cutoff: int): set<nat> {
    set id: nat | id < |rows| && Eligible(cfg, rows[id], cutoff)
  }

  function AllConfirmed(n: nat): seq<Delivery> {
    seq(n, _ => Confirmed)
  }

  function Published(rows: seq<Row>, ids: seq<nat>): seq<Row>
    requires forall k :: 0 <= k < |ids| ==> ids[k] < |rows|
  {
    AfterPass(rows, ids, AllConfirmed(|ids|))
  }

  lemma {:induction false} PublishedRows(rows: seq<Row>, ids: seq<nat>)
    requires forall k :: 0 <= k < |ids| ==> ids[k] < |rows|
    ensures forall id :: 0 <= id < |rows| ==>
      Published(rows, ids)[id] == (if id in ids then rows[id].(status := OutboxProtocol.Published) else rows[id])
  {
    if ids != [] {
      var n := |ids| - 1;
      PublishedRows(rows, ids[..n]);
      assert AllConfirmed(n + 1)[..n] == AllConfirmed(n);
      assert ids == ids[..n] + [ids[n]];
    }
  }

  lemma {:induction false} DistinctSize(ids: seq<nat>)
    requires forall k, l :: 0 <= k < l < |ids| ==> ids[k] != ids[l]
    ensures |IdSet(ids)| == |ids|
  {
    if ids != [] {
      var n := |ids| - 1;
      DistinctSize(ids[..n]);
      assert ids == ids[..n] + [ids[n]];
      assert ids[n] !in IdSet(ids[..n]);
      assert IdSet(ids) == IdSet(ids[..n]) + {ids[n]};
    }
  }

  /** One pass with working publishes takes as many eligible rows as fit, and they stop being eligible. */
  lemma PassDrains(cfg: Config, rows: seq<Row>, cutoff: int, ids: seq<nat>)
    requires Fetched(cfg, rows, cutoff, ids)
    ensures var before, after := EligibleIds(cfg, rows, cutoff), EligibleIds(cfg, Published(rows, ids), cutoff);
      && |ids| == (if |before| <= cfg.batchSize then |before| else cfg.batchSize)
      && |after| == |before| - |ids|
  {
    var before := EligibleIds(cfg, rows, cutoff);
    var taken := IdSet(ids);
    PublishedRows(rows, ids);
    DistinctSize(ids);
    assert taken <= before;
    SubsetSize(taken, before);
    assert EligibleIds(cfg, Published(rows, ids), cutoff) == before - taken;
    if taken != before {
      assert before - taken != {};
      var left :| left in before - taken;
      assert Eligible(cfg, rows[left], cutoff) && left !in ids;
      assert |ids| == cfg.batchSize;
      assert |before - taken| > 0;
    }
  }

  lemma SubsetSize(a: set<nat>, b: set<nat>)
    requires a <= b
    ensures |b - a| == |b| - |a|
  {
  }

  /** Tables as successive passes leave them; every row is old enough for every pass. */
  ghost predicate Passes(cfg: Config, tables: seq<seq<Row>>, picks: seq<seq<nat>>, cutoffs: seq<int>) {
    && |tables| == |picks| + 1 && |cutoffs| == |picks|
    && (forall k :: 0 <= k < |picks| ==>
          && Fetched(cfg, tables[k], cutoffs[k], picks[k])
          && tables[k + 1] == Published(tables[k], picks[k]))
    && forall k, id :: 0 <= k < |picks| && 0 <= id < |tables[0]| ==> tables[0][id].createdAt < cutoffs[k]
  }

  lemma EligibleAnytime(cfg: Config, rows: seq<Row>, a: int, b: int)
    requires forall id :: 0 <= id < |rows| ==> rows[id].createdAt < a && rows[id].createdAt < b
    ensures EligibleIds(cfg, rows, a) == EligibleIds(cfg, rows, b)
  {
  }

  /** What is left of `n` rows when up to `done` of them are taken. */
  function Left(n: nat, done: nat): nat {
    if done <= n then n - done else 0
  }

  lemma OneMoreBatch(n: nat, k: nat, d: Positive)
    ensures Left(Left(n, k * d), d) == Left(n, (k + 1) * d)
  {
  }

  lemma DrainStep(cfg: Config, rows: seq<Row>, ids: seq<nat>, passCutoff: int, cutoff: int)
    requires Fetched(cfg, rows, passCutoff, ids)
    requires forall id :: 0 <= id < |rows| ==> rows[id].createdAt < passCutoff && rows[id].createdAt < cutoff
    ensures |EligibleIds(cfg, Published(rows, ids), cutoff)| == Left(|EligibleIds(cfg, rows, cutoff)|, cfg.batchSize)
    ensures forall id :: 0 <= id < |rows| ==> Published(rows, ids)[id].createdAt == rows[id].createdAt
  {
    PublishedRows(rows, ids);
    EligibleAnytime(cfg, rows, passCutoff, cutoff);
    EligibleAnytime(cfg, Published(rows, ids), passCutoff, cutoff);
    PassDrains(cfg, rows, passCutoff, ids);
  }

  /**
   The relay drains. While publishes succeed and no row is added, the rows to publish shrink by a full
   batch every pass until none is left, so passes leave nothing exactly when the batches add up.
   */
  lemma {:induction false} RelayDrains(cfg: Config, tables: seq<seq<Row>>, picks: seq<seq<nat>>, cutoffs: seq<int>, cutoff: int)
    requires Passes(cfg, tables, picks, cutoffs)
    requires forall id :: 0 <= id < |tables[0]| ==> tables[0][id].createdAt < cutoff
    ensures |tables[|picks|]| == |tables[0]|
    ensures forall id :: 0 <= id < |tables[0]| ==> tables[|picks|][id].createdAt == tables[0][id].createdAt
    ensures |EligibleIds(cfg, tables[|picks|], cutoff)| ==
      Left(|EligibleIds(cfg, tables[0], cutoff)|, |picks| * cfg.batchSize)
  {
    if picks != [] {
      var k := |picks| - 1;
      RelayDrains(cfg, tables[..|picks|], picks[..k], cutoffs[..k], cutoff);
      assert tables[|picks|] == Published(tables[k], picks[k]);
      DrainStep(cfg, tables[k], picks[k], cutoffs[k], cutoff);
      OneMoreBatch(|EligibleIds(cfg, tables[0], cutoff)|, k, cfg.batchSize);
    }
  }

  /** In passes: the outbox is empty after k of them iff k is at least the number of rows over the batch size, rounded up. */
  lemma PassesToEmpty(cfg: Config, tables: seq<seq<Row>>, picks: seq<seq<nat>>, cutoffs: seq<int>, cutoff: int)
    requires Passes(cfg, tables, picks, cutoffs)
    requires forall id :: 0 <= id < |tables[0]| ==> tables[0][id].createdAt < cutoff
    ensures var n := |EligibleIds(cfg, tables[0], cutoff)|;
      EligibleIds(cfg, tables[|picks|], cutoff) == {} <==> (n + cfg.batchSize - 1) / cfg.batchSize <= |picks|
  {
    RelayDrains(cfg, tables, picks, cutoffs, cutoff);
    CeilingAtMost(|EligibleIds(cfg, tables[0], cutoff)|, cfg.batchSize, |picks|);
  }

  lemma CeilingAtMost(n: nat, d: Positive, k: nat)
    ensures (n + d - 1) / d <= k <==> n <= k * d
  {
    var q := (n + d - 1) / d;
    assert n + d - 1 == q * d + (n + d - 1) % d;
    if q <= k {
      assert q * d <= k * d;
    } else {
      assert (k + 1) * d <= q * d;
      assert (k + 1) * d == k * d + d;
    }
  }
}
