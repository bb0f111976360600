/**
 The logger's outbox as a protocol: the hot path that saves an image writes a dispatch row, tries to
 publish and records the result; the relay re-publishes rows that are not marked published. Both
 update the same row without looking at its status, a publish may fail after the message was stored,
 and the process may crash between any two steps.

 The broker is a JetStream stream with an unbounded de-duplication window on the message id.
 */
module OutboxProtocol {
  import opened Common
  import Json

  datatype Status = Pending | Published | Failed

  /** What the driver hands back for the `jsonb` payload: a dictionary, JSON text, or something else. */
  datatype Column = Dict(o: Json.Object) | Text(parsed: Option<Json.Value>) | Other

  datatype Row = Row(image: int, payload: Column, status: Status, attempts: nat, createdAt: int)

  datatype Message = Message(id: int, payload: Json.Object)

  /** The result of a publish: stored and confirmed, not stored, or stored without the caller learning it. */
  datatype Delivery = Confirmed | Lost | Unconfirmed

  /** The hot path of one image, after its file and its `saved` status were written. */
  datatype Hot =
    | Saved
    | Intended(row: Option<nat>)
    | Told(row: Option<nat>, ok: bool)

  datatype Relay =
    | Resting
    | Passing(todo: seq<nat>)
    | Relayed(todo: seq<nat>, ok: bool)

  datatype State = State(
    rows: seq<Row>,                     // the dispatch table; the index is the serial id
    stream: seq<Message>,
    images: map<int, Json.Object>,      // every image whose hand-off began, with its task payload
    hot: map<int, Hot>,
    relay: Relay,
    hotFailed: set<nat>,                // history: rows whose hot path recorded a failure
    unrecorded: set<int>)               // history: images whose insert stored nothing, or crashed before it

  const INIT := State([], [], map[], map[], Resting, {}, {})

  datatype Config = Config(batchSize: Positive, maxAttempts: int)

  datatype Step =
    | Begin(image: int, payload: Json.Object)
    | Insert(image: int, now: int)
    | InsertUnseen(image: int, now: int)
    | InsertFails(image: int)
    | HotPublish(image: int, delivery: Delivery)
    | HotMark(image: int)
    | HotMarkFails(image: int)
    | Fetch(ids: seq<nat>, cutoff: int)
    | RelayPublish(delivery: Delivery)
    | RelayInvalid
    | RelayMark
    | RelayAborts
    | Crash

  /** `_decode_payload`. */
  function DecodePayload(column: Column): Option<Json.Object> {
    match column
    case Dict(o) => Some(o)
    case Text(Some(Obj(o))) => Some(o)
    case Text(_) => None
    case Other => None
  }

  function InsertedRow(image: int, payload: Json.Object, now: int): Row {
    Row(image, Text(Some(Json.Obj(payload))), Pending, 0, now)
  }

  /** The WHERE clause of `fetch_unpublished_nats_dispatches`. */
  predicate Eligible(cfg: Config, row: Row, cutoff: int) {
    && row.status != Published
    && row.createdAt < cutoff
    && (cfg.maxAttempts <= 0 || row.attempts < cfg.maxAttempts)
  }

  /** The oldest eligible rows, `n` of them or all, oldest first. */
  ghost predicate Oldest(cfg: Config, rows: seq<Row>, cutoff: int, ids: seq<nat>, n: nat) {
    && (forall k :: 0 <= k < |ids| ==> ids[k] < |rows| && Eligible(cfg, rows[ids[k]], cutoff))
    && (forall k, l :: 0 <= k < l < |ids| ==> ids[k] != ids[l] && rows[ids[k]].createdAt <= rows[ids[l]].createdAt)
    && (forall id :: 0 <= id < |rows| && Eligible(cfg, rows[id], cutoff) && id !in ids ==>
          |ids| == n && forall k :: 0 <= k < |ids| ==> rows[ids[k]].createdAt <= rows[id].createdAt)
    && |ids| <= n
  }

  /** What the query may return. */
  ghost predicate Fetched(cfg: Config, rows: seq<Row>, cutoff: int, ids: seq<nat>) {
    Oldest(cfg, rows, cutoff, ids, cfg.batchSize)
  }

  /**
   What a pass takes: rows that are old enough, not published and below the limit, without gaps in age, and no
   fewer than the batch size while one is left; a row that is too young is not taken.
   */
  lemma TakenRows(cfg: Config, rows: seq<Row>, cutoff: int, ids: seq<nat>)
    requires Fetched(cfg, rows, cutoff, ids)
    ensures forall id :: id in ids ==> id < |rows|
    ensures forall id :: id in ids ==>
      && rows[id].createdAt < cutoff && rows[id].status != Published
      && (cfg.maxAttempts > 0 ==> rows[id].attempts < cfg.maxAttempts)
    ensures forall id, other: nat ::
      && id in ids && other < |rows| && other !in ids
      && rows[other].createdAt < cutoff && rows[other].status != Published
      && (cfg.maxAttempts > 0 ==> rows[other].attempts < cfg.maxAttempts)
      ==> |ids| == cfg.batchSize && rows[id].createdAt <= rows[other].createdAt
  {
  }

  predicate InStream(stream: seq<Message>, id: int) {
    exists m :: m in stream && m.id == id
  }

  function Publish(stream: seq<Message>, message: Message, delivery: Delivery): seq<Message> {
    if delivery.Lost? || InStream(stream, message.id) then stream else stream + [message]
  }

  function Marked(rows: seq<Row>, id: nat, ok: bool): (r: seq<Row>)
    requires id < |rows|
    ensures |r| == |rows|
    ensures forall i :: 0 <= i < |rows| && i != id ==> r[i] == rows[i]
  {
    if ok then rows[id := rows[id].(status := Published)]
    else rows[id := rows[id].(status := Failed, attempts := rows[id].attempts + 1)]
  }

  ghost predicate Enabled(cfg: Config, s: State, step: Step) {
    match step
    case Begin(image, _) => image !in s.images
    case Insert(image, _) => image in s.hot && s.hot[image].Saved? && image in s.images
    case InsertUnseen(image, _) => image in s.hot && s.hot[image].Saved? && image in s.images
    case InsertFails(image) => image in s.hot && s.hot[image].Saved?
    case HotPublish(image, _) => image in s.hot && s.hot[image].Intended? && image in s.images
    case HotMark(image) =>
      && image in s.hot && s.hot[image].Told?
      && s.hot[image].row.Some? && s.hot[image].row.value < |s.rows|
    case HotMarkFails(image) => image in s.hot && s.hot[image].Told?
    case Fetch(ids, cutoff) => s.relay.Resting? && Fetched(cfg, s.rows, cutoff, ids)
    case RelayPublish(_) =>
      && s.relay.Passing? && s.relay.todo != [] && s.relay.todo[0] < |s.rows|
      && DecodePayload(s.rows[s.relay.todo[0]].payload).Some?
    case RelayInvalid =>
      && s.relay.Passing? && s.relay.todo != [] && s.relay.todo[0] < |s.rows|
      && DecodePayload(s.rows[s.relay.todo[0]].payload).None?
    case RelayMark => s.relay.Relayed? && s.relay.todo != [] && s.relay.todo[0] < |s.rows|
    case RelayAborts => true
    case Crash => true
  }

  function Apply(cfg: Config, s: State, step: Step): State
    requires Enabled(cfg, s, step)
  {
    match step
    case Begin(image, payload) => s.(images := s.images[image := payload], hot := s.hot[image := Saved])
    case Insert(image, now) =>
      s.(rows := s.rows + [InsertedRow(image, s.images[image], now)], hot := s.hot[image := Intended(Some(|s.rows|))])
    case InsertUnseen(image, now) =>
      s.(rows := s.rows + [InsertedRow(image, s.images[image], now)], hot := s.hot[image := Intended(None)])
    case InsertFails(image) =>
      s.(hot := s.hot[image := Intended(None)], unrecorded := s.unrecorded + {image})
    case HotPublish(image, delivery) =>
      s.(stream := Publish(s.stream, Message(image, s.images[image]), delivery),
         hot := s.hot[image := Told(s.hot[image].row, delivery.Confirmed?)])
    case HotMark(image) =>
      var row, ok := s.hot[image].row.value, s.hot[image].ok;
      s.(rows := Marked(s.rows, row, ok), hot := s.hot - {image},
         hotFailed := if ok then s.hotFailed else s.hotFailed + {row})
    case HotMarkFails(image) => s.(hot := s.hot - {image})
    case Fetch(ids, _) => s.(relay := Passing(ids))
    case RelayPublish(delivery) =>
      var row := s.rows[s.relay.todo[0]];
      s.(stream := Publish(s.stream, Message(row.image, DecodePayload(row.payload).value), delivery),
         relay := Relayed(s.relay.todo, delivery.Confirmed?))
    case RelayInvalid => s.(rows := Marked(s.rows, s.relay.todo[0], false), relay := Passing(s.relay.todo[1..]))
    case RelayMark => s.(rows := Marked(s.rows, s.relay.todo[0], s.relay.ok), relay := Passing(s.relay.todo[1..]))
    case RelayAborts => s.(relay := Resting)
    case Crash =>
      var cut := set image | image in s.hot && s.hot[image].Saved?;
      s.(hot := map[], relay := Resting, unrecorded := s.unrecorded + cut)
  }

  ghost predicate Next(cfg: Config, s: State, t: State) {
    exists step :: Enabled(cfg, s, step) && t == Apply(cfg, s, step)
  }

  /** A run goes from its state before `i` to the one at `i` in one step. */
  ghost predicate Linked(cfg: Config, trace: seq<State>, i: nat)
    requires 0 < i < |trace|
  {
    Next(cfg, trace[i - 1], trace[i])
  }

  ghost predicate Execution(cfg: Config, trace: seq<State>) {
    && trace != [] && trace[0] == INIT
    && forall i :: 0 < i < |trace| ==> Linked(cfg, trace, i)
  }

  // -------------------------------------------------------------- invariants

  /** A row belongs to an image whose hand-off began, and holds that image's payload. */
  predicate RowsSound(s: State) {
    && (forall i :: 0 <= i < |s.rows| ==>
          s.rows[i].image in s.images && DecodePayload(s.rows[i].payload) == Some(s.images[s.rows[i].image]))
    && (forall i, j :: 0 <= i < j < |s.rows| ==> s.rows[i].image != s.rows[j].image)
    && (forall i :: 0 <= i < |s.rows| && s.rows[i].status == Published ==> InStream(s.stream, s.rows[i].image))
  }

  predicate StreamSound(s: State) {
    && (forall m :: m in s.stream ==> m.id in s.images && m.payload == s.images[m.id])
    && (forall i, j :: 0 <= i < j < |s.stream| ==> s.stream[i].id != s.stream[j].id)
  }

  predicate HotSound(s: State) {
    forall image :: image in s.hot ==>
      && image in s.images
      && match s.hot[image]
         case Saved => forall i :: 0 <= i < |s.rows| ==> s.rows[i].image != image
         case Intended(row) => row.Some? ==> row.value < |s.rows| && s.rows[row.value].image == image
         case Told(row, ok) =>
           && (row.Some? ==> row.value < |s.rows| && s.rows[row.value].image == image)
           && (ok ==> InStream(s.stream, image))
  }

  predicate RelaySound(s: State) {
    match s.relay
    case Resting => true
    case Passing(todo) => forall k :: 0 <= k < |todo| ==> todo[k] < |s.rows|
    case Relayed(todo, ok) =>
      && (forall k :: 0 <= k < |todo| ==> todo[k] < |s.rows|)
      && (ok && todo != [] ==> InStream(s.stream, s.rows[todo[0]].image))
  }

  predicate Sound(s: State) {
    RowsSound(s) && StreamSound(s) && HotSound(s) && RelaySound(s)
  }

  /** Rows keep their image and payload, attempts only grow, and nothing is lost. */
  predicate Grows(s: State, t: State) {
    && |s.rows| <= |t.rows|
    && (forall i :: 0 <= i < |s.rows| ==> t.rows[i].image == s.rows[i].image && t.rows[i].payload == s.rows[i].payload)
    && (forall i :: 0 <= i < |s.rows| ==> s.rows[i].attempts <= t.rows[i].attempts)
    && s.stream <= t.stream
    && (forall image :: image in s.images ==> image in t.images && t.images[image] == s.images[image])
  }

  lemma SoundPublish(stream: seq<Message>, message: Message, delivery: Delivery)
    requires forall i, j :: 0 <= i < j < |stream| ==> stream[i].id != stream[j].id
    ensures var after := Publish(stream, message, delivery);
      && stream <= after
      && (forall i, j :: 0 <= i < j < |after| ==> after[i].id != after[j].id)
      && (forall id :: InStream(stream, id) ==> InStream(after, id))
      && (delivery.Confirmed? ==> InStream(after, message.id))
  {
  }

  lemma SoundHot(cfg: Config, s: State, step: Step)
    requires Sound(s) && Enabled(cfg, s, step)
    requires step.Begin? || step.InsertFails?
    ensures Sound(Apply(cfg, s, step)) && Grows(s, Apply(cfg, s, step))
  {
  }

  lemma SoundInsert(cfg: Config, s: State, step: Step)
    requires Sound(s) && Enabled(cfg, s, step) && (step.Insert? || step.InsertUnseen?)
    ensures Sound(Apply(cfg, s, step)) && Grows(s, Apply(cfg, s, step))
  {
  }

  lemma SoundHotMark(cfg: Config, s: State, step: Step)
    requires Sound(s) && Enabled(cfg, s, step) && (step.HotMark? || step.HotMarkFails?)
    ensures Sound(Apply(cfg, s, step)) && Grows(s, Apply(cfg, s, step))
  {
  }

  lemma SoundHotPublish(cfg: Config, s: State, step: Step)
    requires Sound(s) && Enabled(cfg, s, step) && step.HotPublish?
    ensures Sound(Apply(cfg, s, step)) && Grows(s, Apply(cfg, s, step))
  {
  }

  lemma SoundRelay(cfg: Config, s: State, step: Step)
    requires Sound(s) && Enabled(cfg, s, step)
    requires step.Fetch? || step.RelayPublish? || step.RelayInvalid? || step.RelayMark? || step.RelayAborts?
    ensures Sound(Apply(cfg, s, step)) && Grows(s, Apply(cfg, s, step))
    ensures !step.RelayInvalid?
  {
    if step.RelayPublish? {
      var row := s.rows[s.relay.todo[0]];
      SoundPublish(s.stream, Message(row.image, DecodePayload(row.payload).value), step.delivery);
    }
  }

  lemma SoundStep(cfg: Config, s: State, step: Step)
    requires Sound(s) && Enabled(cfg, s, step)
    ensures Sound(Apply(cfg, s, step)) && Grows(s, Apply(cfg, s, step))
    ensures !step.RelayInvalid?
  {
    match step
    case Insert(_, _) => SoundInsert(cfg, s, step);
    case InsertUnseen(_, _) => SoundInsert(cfg, s, step);
    case HotPublish(_, _) => SoundHotPublish(cfg, s, step);
    case HotMark(_) => SoundHotMark(cfg, s, step);
    case HotMarkFails(_) => SoundHotMark(cfg, s, step);
    case Crash =>
    case Fetch(_, _) => SoundRelay(cfg, s, step);
    case RelayPublish(_) => SoundRelay(cfg, s, step);
    case RelayInvalid => SoundRelay(cfg, s, step);
    case RelayMark => SoundRelay(cfg, s, step);
    case RelayAborts => SoundRelay(cfg, s, step);
    case _ => SoundHot(cfg, s, step);
  }

  lemma GrowsOn(s: State, t: State, u: State)
    requires Grows(s, t) && Grows(t, u)
    ensures Grows(s, u)
  {
  }

  lemma {:induction false} SoundUntil(cfg: Config, trace: seq<State>, j: nat)
    requires Execution(cfg, trace) && j < |trace|
    ensures Sound(trace[j])
    ensures j > 0 ==> Grows(trace[j - 1], trace[j])
  {
    if j > 0 {
      SoundUntil(cfg, trace, j - 1);
      assert Linked(cfg, trace, j);
      var step :| Enabled(cfg, trace[j - 1], step) && trace[j] == Apply(cfg, trace[j - 1], step);
      SoundStep(cfg, trace[j - 1], step);
    }
  }

  lemma {:induction false} GrowsBetween(cfg: Config, trace: seq<State>, i: nat, j: nat)
    requires Execution(cfg, trace) && i <= j < |trace|
    ensures Grows(trace[i], trace[j])
    decreases j - i
  {
    if i < j {
      GrowsBetween(cfg, trace, i, j - 1);
      SoundUntil(cfg, trace, j);
      GrowsOn(trace[i], trace[j - 1], trace[j]);
    }
  }

  lemma SoundAlways(cfg: Config, trace: seq<State>, j: nat)
    requires Execution(cfg, trace) && j < |trace|
    ensures Sound(trace[j])
    ensures forall i :: 0 <= i <= j ==> Grows(trace[i], trace[j])
  {
    SoundUntil(cfg, trace, j);
    forall i | 0 <= i <= j
      ensures Grows(trace[i], trace[j])
    {
      GrowsBetween(cfg, trace, i, j);
    }
  }

  /**
   Outbox safety, over every interleaving of hot paths and relay with lost, unconfirmed and confirmed
   publishes, failed table updates and crashes. A row marked published has its own image's task in
   the stream, in that state and in every later one; the stream holds at most one message an image;
   and a row once inserted stays with its image and payload.
   */
  lemma OutboxSafety(cfg: Config, trace: seq<State>, i: nat, j: nat, id: nat)
    requires Execution(cfg, trace) && i <= j < |trace| && id < |trace[i].rows|
    ensures trace[i].rows[id].status == Published ==>
      exists m :: m in trace[j].stream && m.id == trace[i].rows[id].image
                  && DecodePayload(trace[i].rows[id].payload) == Some(m.payload)
    ensures forall k, l :: 0 <= k < l < |trace[j].stream| ==> trace[j].stream[k].id != trace[j].stream[l].id
    ensures id < |trace[j].rows| && trace[j].rows[id].image == trace[i].rows[id].image
            && trace[j].rows[id].payload == trace[i].rows[id].payload
  {
    SoundAlways(cfg, trace, i);
    SoundAlways(cfg, trace, j);
    if trace[i].rows[id].status == Published {
      var m :| m in trace[i].stream && m.id == trace[i].rows[id].image;
      assert m in trace[j].stream;
    }
  }

  /** No run ever reaches the relay's branch for payloads it cannot decode. */
  lemma RelayAlwaysDecodes(cfg: Config, trace: seq<State>, j: nat)
    requires Execution(cfg, trace) && j < |trace|
    ensures !Enabled(cfg, trace[j], RelayInvalid)
  {
    SoundAlways(cfg, trace, j);
  }

  // -------------------------------------------------- what the outbox catches

  predicate HasRow(rows: seq<Row>, image: int) {
    exists i :: 0 <= i < |rows| && rows[i].image == image
  }

  /** An image has a dispatch row once its insert returned, and only then. */
  predicate RecordedExactly(s: State, image: int)
    requires image in s.images
  {
    HasRow(s.rows, image) <==> image !in s.unrecorded && !(image in s.hot && s.hot[image].Saved?)
  }

  predicate Recorded(s: State) {
    && (forall image :: image in s.images ==> RecordedExactly(s, image))
    && (forall image :: image in s.hot ==> image in s.images && (s.hot[image].Saved? ==> image !in s.unrecorded))
    && (forall image :: image in s.unrecorded ==> image in s.images)
    && (forall i :: 0 <= i < |s.rows| ==> s.rows[i].image in s.images)
  }

  lemma SameImages(a: seq<Row>, b: seq<Row>)
    requires |a| == |b| && forall i :: 0 <= i < |a| ==> a[i].image == b[i].image
    ensures forall image :: HasRow(a, image) <==> HasRow(b, image)
  {
  }

  lemma RecordedStep(cfg: Config, s: State, step: Step)
    requires Recorded(s) && Enabled(cfg, s, step)
    ensures Recorded(Apply(cfg, s, step))
  {
    var t := Apply(cfg, s, step);
    if step.Insert? || step.InsertUnseen? {
      assert t.rows[|s.rows|].image == step.image;
      forall image | HasRow(s.rows, image)
        ensures HasRow(t.rows, image)
      {
        var i :| 0 <= i < |s.rows| && s.rows[i].image == image;
        assert t.rows[i].image == image;
      }
    } else {
      SameImages(s.rows, t.rows);
    }
  }

  lemma {:induction false} RecordedAlways(cfg: Config, trace: seq<State>, j: nat)
    requires Execution(cfg, trace) && j < |trace|
    ensures Recorded(trace[j])
  {
    if j > 0 {
      RecordedAlways(cfg, trace, j - 1);
      assert Linked(cfg, trace, j);
      var step :| Enabled(cfg, trace[j - 1], step) && trace[j] == Apply(cfg, trace[j - 1], step);
      RecordedStep(cfg, trace[j - 1], step);
    }
  }

  /** A row that is not published, and that the query will not return at any time. */
  ghost predicate Stranded(cfg: Config, row: Row) {
    row.status != Published && forall cutoff :: !Eligible(cfg, row, cutoff)
  }

  predicate AtLimit(cfg: Config, row: Row) {
    0 < cfg.maxAttempts <= row.attempts
  }

  lemma StrandedAtLimit(cfg: Config, row: Row)
    requires row.status != Published
    ensures Stranded(cfg, row) <==> AtLimit(cfg, row)
  {
    if !AtLimit(cfg, row) {
      assert Eligible(cfg, row, row.createdAt + 1);
    }
  }

  /** The hand-off of an image is not lost: its task is in the stream, or a row is left that the relay will fetch. */
  ghost predicate Kept(cfg: Config, s: State, image: int) {
    || InStream(s.stream, image)
    || exists i :: 0 <= i < |s.rows| && s.rows[i].image == image
                   && s.rows[i].status != Published && !Stranded(cfg, s.rows[i])
  }

  /** What decides that: the insert did not fail or come after a crash, and the row is not at its limit. */
  predicate RowLeft(cfg: Config, s: State, image: int) {
    image !in s.unrecorded && forall i :: 0 <= i < |s.rows| && s.rows[i].image == image ==> !AtLimit(cfg, s.rows[i])
  }

  /**
   What the outbox promises for an image whose hand-off began. Once its hot path is over it has a row exactly
   if its insert stored one, seen or not; and its hand-off is kept exactly if the task is in the stream, or it
   has a row and the row is not at a limit.
   */
  lemma HandOffKept(cfg: Config, trace: seq<State>, j: nat, image: int)
    requires Execution(cfg, trace) && j < |trace| && image in trace[j].images && image !in trace[j].hot
    ensures HasRow(trace[j].rows, image) <==> image !in trace[j].unrecorded
    ensures Kept(cfg, trace[j], image) <==> InStream(trace[j].stream, image) || RowLeft(cfg, trace[j], image)
  {
    RecordedAlways(cfg, trace, j);
    SoundUntil(cfg, trace, j);
    KeptExactly(cfg, trace[j], image);
  }

  lemma KeptExactly(cfg: Config, s: State, image: int)
    requires Sound(s) && Recorded(s) && image in s.images && image !in s.hot
    ensures HasRow(s.rows, image) <==> image !in s.unrecorded
    ensures Kept(cfg, s, image) <==> InStream(s.stream, image) || RowLeft(cfg, s, image)
  {
    assert RecordedExactly(s, image);
    if HasRow(s.rows, image) && !InStream(s.stream, image) {
      var i :| 0 <= i < |s.rows| && s.rows[i].image == image;
      StrandedAtLimit(cfg, s.rows[i]);
      assert forall k :: 0 <= k < |s.rows| && s.rows[k].image == image ==> k == i;
    }
  }

  /** A hand-off that is not kept, with nobody at work on it any more. */
  predicate Gone(cfg: Config, s: State, image: int) {
    && image in s.images && image !in s.hot && !InStream(s.stream, image)
    && forall i :: 0 <= i < |s.rows| && s.rows[i].image == image ==> AtLimit(cfg, s.rows[i]) && i !in Todo(s.relay)
  }

  lemma GoneStep(cfg: Config, s: State, step: Step, image: int)
    requires Sound(s) && Gone(cfg, s, image) && Enabled(cfg, s, step)
    ensures Gone(cfg, Apply(cfg, s, step), image)
  {
  }

  lemma NotKeptIsGone(cfg: Config, s: State, image: int)
    requires Sound(s) && image in s.images && image !in s.hot && !Kept(cfg, s, image)
    requires forall id :: id in Todo(s.relay) ==> id < |s.rows| && s.rows[id].image != image
    ensures Gone(cfg, s, image)
  {
    forall id | 0 <= id < |s.rows| && s.rows[id].image == image
      ensures AtLimit(cfg, s.rows[id])
    {
      StrandedAtLimit(cfg, s.rows[id]);
    }
  }

  /** What is not kept is gone for good: no later step of any kind brings the task into the stream. */
  lemma {:induction false} GoneForGood(cfg: Config, trace: seq<State>, i: nat, j: nat, image: int)
    requires Execution(cfg, trace) && i <= j < |trace|
    requires image in trace[i].images && image !in trace[i].hot && !Kept(cfg, trace[i], image)
    requires forall id :: id in Todo(trace[i].relay) ==> id < |trace[i].rows| && trace[i].rows[id].image != image
    ensures Gone(cfg, trace[j], image)
    decreases j - i
  {
    if i == j {
      SoundUntil(cfg, trace, i);
      NotKeptIsGone(cfg, trace[i], image);
    } else {
      GoneForGood(cfg, trace, i, j - 1, image);
      SoundUntil(cfg, trace, j - 1);
      assert Linked(cfg, trace, j);
      var step :| Enabled(cfg, trace[j - 1], step) && trace[j] == Apply(cfg, trace[j - 1], step);
      GoneStep(cfg, trace[j - 1], step, image);
    }
  }

  /** Without a row it can be lost: the insert fails, the publish goes on all the same, and fails too. */
  lemma HandOffCanBeLost(payload: Json.Object) returns (cfg: Config, trace: seq<State>)
    ensures Execution(cfg, trace)
    ensures var s := trace[|trace| - 1]; 7 in s.images && s.hot == map[] && s.rows == [] && s.stream == []
  {
    cfg := Config(1, 0);
    trace := [INIT];
    trace := Extend(cfg, trace, Begin(7, payload));
    trace := Extend(cfg, trace, InsertFails(7));
    trace := Extend(cfg, trace, HotPublish(7, Lost));
    trace := Extend(cfg, trace, HotMarkFails(7));
  }

  /** With a limit it can be lost as well: nothing fails but one publish, and the row is at its limit. */
  lemma LimitCanLose(payload: Json.Object) returns (cfg: Config, trace: seq<State>)
    ensures Execution(cfg, trace) && cfg.maxAttempts == 1
    ensures var s := trace[|trace| - 1];
      7 in s.images && s.hot == map[] && s.relay == Resting && s.unrecorded == {} && |s.rows| == 1 && !Kept(cfg, s, 7)
  {
    cfg := Config(1, 1);
    trace := [INIT];
    trace := Extend(cfg, trace, Begin(7, payload));
    trace := Extend(cfg, trace, Insert(7, 0));
    trace := Extend(cfg, trace, HotPublish(7, Lost));
    trace := Extend(cfg, trace, HotMark(7));
    StrandedAtLimit(cfg, trace[|trace| - 1].rows[0]);
  }

  /** No pass from state `i` on fetches the row, however long it waits. */
  ghost predicate NeverFetched(cfg: Config, trace: seq<State>, i: nat, id: nat) {
    forall j, cutoff :: i <= j < |trace| && id < |trace[j].rows| ==> !Eligible(cfg, trace[j].rows[id], cutoff)
  }

  /** Over every run: a row that is not published is out of the relay's reach for good iff it is at a limit. */
  lemma StrandedExactly(cfg: Config, trace: seq<State>, i: nat, id: nat)
    requires Execution(cfg, trace) && i < |trace| && id < |trace[i].rows| && trace[i].rows[id].status != Published
    ensures NeverFetched(cfg, trace, i, id) <==> AtLimit(cfg, trace[i].rows[id])
  {
    if AtLimit(cfg, trace[i].rows[id]) {
      forall j, cutoff | i <= j < |trace| && id < |trace[j].rows|
        ensures !Eligible(cfg, trace[j].rows[id], cutoff)
      {
        SoundAlways(cfg, trace, j);
        assert Grows(trace[i], trace[j]);
      }
    } else {
      assert Eligible(cfg, trace[i].rows[id], trace[i].rows[id].createdAt + 1);
    }
  }

  // ------------------------------------------------- when published is final

  /** A writer is at work on the row that has not been told, or may not be told, that its publish was stored. */
  predicate Held(s: State, id: nat) {
    HotMayFail(s, id) || RelayHolds(s.relay, id)
  }

  predicate HotMayFail(s: State, id: nat) {
    exists image :: image in s.hot && (s.hot[image] == Intended(Some(id)) || s.hot[image] == Told(Some(id), false))
  }

  predicate RelayHolds(relay: Relay, id: nat) {
    match relay
    case Resting => false
    case Passing(todo) => id in todo
    case Relayed(todo, ok) => todo != [] && ((todo[0] == id && !ok) || id in todo[1..])
  }

  predicate IsPublished(s: State, id: nat) {
    id < |s.rows| && s.rows[id].status == Published
  }

  lemma FinalStep(cfg: Config, s: State, step: Step, id: nat)
    requires IsPublished(s, id) && !Held(s, id) && Enabled(cfg, s, step)
    ensures IsPublished(Apply(cfg, s, step), id) && !Held(Apply(cfg, s, step), id)
  {
  }

  /** Once published with nobody at work on it, a row is published for good. */
  lemma {:induction false} PublishedStays(cfg: Config, trace: seq<State>, i: nat, j: nat, id: nat)
    requires Execution(cfg, trace) && i <= j < |trace| && IsPublished(trace[i], id) && !Held(trace[i], id)
    ensures IsPublished(trace[j], id) && !Held(trace[j], id)
    decreases j - i
  {
    if i < j {
      PublishedStays(cfg, trace, i, j - 1, id);
      assert Linked(cfg, trace, j);
      var step :| Enabled(cfg, trace[j - 1], step) && trace[j] == Apply(cfg, trace[j - 1], step);
      FinalStep(cfg, trace[j - 1], step, id);
    }
  }

  /** A hot path at work on the row can still mark it failed. */
  lemma HotCanFail(cfg: Config, trace: seq<State>, id: nat, image: int) returns (later: seq<State>)
    requires Execution(cfg, trace)
    requires var s := trace[|trace| - 1];
      image in s.hot && (s.hot[image] == Intended(Some(id)) || s.hot[image] == Told(Some(id), false))
    ensures Execution(cfg, later) && trace <= later
    ensures var s, t := trace[|trace| - 1], later[|later| - 1];
      && id < |s.rows| && |t.rows| == |s.rows|
      && t.rows[id].status == Failed && t.rows[id].attempts == s.rows[id].attempts + 1
  {
    SoundUntil(cfg, trace, |trace| - 1);
    later := trace;
    if trace[|trace| - 1].hot[image].Intended? {
      later := Extend(cfg, later, HotPublish(image, Lost));
    }
    later := Extend(cfg, later, HotMark(image));
  }

  /** So can a relay pass that has still to come to the row. */
  lemma {:induction false} RelayCanFail(cfg: Config, trace: seq<State>, id: nat) returns (later: seq<State>)
    requires Execution(cfg, trace) && RelayHolds(trace[|trace| - 1].relay, id)
    ensures Execution(cfg, later) && trace <= later
    ensures var s, t := trace[|trace| - 1], later[|later| - 1];
      && t.hot == s.hot && id < |s.rows| && |t.rows| == |s.rows|
      && t.rows[id].status == Failed && t.rows[id].attempts > s.rows[id].attempts
    decreases |Todo(trace[|trace| - 1].relay)|
  {
    var relayed := FailHead(cfg, trace, id);
    var s := relayed[|relayed| - 1];
    SoundUntil(cfg, relayed, |relayed| - 1);
    later := Extend(cfg, relayed, RelayMark);
    if s.relay.todo[0] != id || s.relay.ok {
      later := RelayCanFail(cfg, later, id);
    }
    PrefixOn(trace, relayed, later);
  }

  /** The relay's next publish, unless it is done already, fails. */
  lemma FailHead(cfg: Config, trace: seq<State>, id: nat) returns (relayed: seq<State>)
    requires Execution(cfg, trace) && RelayHolds(trace[|trace| - 1].relay, id)
    ensures Execution(cfg, relayed) && trace <= relayed
    ensures relayed[|relayed| - 1].relay.Relayed? && RelayHolds(relayed[|relayed| - 1].relay, id)
    ensures Todo(relayed[|relayed| - 1].relay) == Todo(trace[|trace| - 1].relay)
    ensures relayed[|relayed| - 1].hot == trace[|trace| - 1].hot && relayed[|relayed| - 1].rows == trace[|trace| - 1].rows
  {
    SoundUntil(cfg, trace, |trace| - 1);
    relayed := trace;
    if trace[|trace| - 1].relay.Passing? {
      relayed := Extend(cfg, trace, RelayPublish(Lost));
    }
  }

  /** Every way on from a run leaves the row published. */
  ghost predicate StaysPublished(cfg: Config, trace: seq<State>, id: nat) {
    forall later :: Execution(cfg, later) && trace <= later ==> IsPublished(later[|later| - 1], id)
  }

  /**
   When published is final. Neither update looks at the status, so a published row can be marked failed; it
   stays published in every continuation of the run exactly if no writer is still at work on it that could
   yet find its own publish failed.
   */
  lemma PublishedStaysExactly(cfg: Config, trace: seq<State>, id: nat)
    requires Execution(cfg, trace) && IsPublished(trace[|trace| - 1], id)
    ensures StaysPublished(cfg, trace, id) <==> !Held(trace[|trace| - 1], id)
  {
    var s := trace[|trace| - 1];
    if Held(s, id) {
      ghost var later;
      if image :| image in s.hot && (s.hot[image] == Intended(Some(id)) || s.hot[image] == Told(Some(id), false)) {
        later := HotCanFail(cfg, trace, id, image);
      } else {
        later := RelayCanFail(cfg, trace, id);
      }
      assert !IsPublished(later[|later| - 1], id);
    } else {
      forall later | Execution(cfg, later) && trace <= later
        ensures IsPublished(later[|later| - 1], id)
      {
        PublishedStays(cfg, later, |trace| - 1, |later| - 1, id);
      }
    }
  }

  // ------------------------------------------------------------ attempt bound

  function HotShare(s: State, id: nat): nat {
    if id in s.hotFailed then 1 else 0
  }

  function Todo(relay: Relay): seq<nat> {
    if relay.Resting? then [] else relay.todo
  }

  /**
   The hot path adds at most one failure to a row. Without it a row never passes the limit, and a
   row the relay still has to mark is strictly below it.
   */
  predicate Bounded(cfg: Config, s: State) {
    var todo := Todo(s.relay);
    && (forall id :: 0 <= id < |s.rows| ==> s.rows[id].attempts <= cfg.maxAttempts + HotShare(s, id))
    && (forall id :: id in todo ==> id < |s.rows| && s.rows[id].attempts < cfg.maxAttempts + HotShare(s, id))
    && (forall k, l :: 0 <= k < l < |todo| ==> todo[k] != todo[l])
    && (forall id :: id in s.hotFailed ==> id < |s.rows|)
    && (forall image :: image in s.hot && !s.hot[image].Saved? && s.hot[image].row.Some? ==>
          s.hot[image].row.value !in s.hotFailed)
  }

  lemma BoundedHot(cfg: Config, s: State, step: Step)
    requires cfg.maxAttempts > 0
    requires Sound(s) && Bounded(cfg, s) && Enabled(cfg, s, step) && (step.Insert? || step.InsertUnseen? || step.HotMark?)
    ensures Bounded(cfg, Apply(cfg, s, step))
  {
  }

  lemma BoundedFetch(cfg: Config, s: State, ids: seq<nat>, cutoff: int)
    requires cfg.maxAttempts > 0
    requires Bounded(cfg, s) && Enabled(cfg, s, Fetch(ids, cutoff))
    ensures Bounded(cfg, Apply(cfg, s, Fetch(ids, cutoff)))
  {
    forall id | id in ids
      ensures id < |s.rows| && s.rows[id].attempts < cfg.maxAttempts
    {
      var k :| 0 <= k < |ids| && ids[k] == id;
      assert Eligible(cfg, s.rows[ids[k]], cutoff);
    }
  }

  lemma BoundedRelayMark(cfg: Config, s: State)
    requires cfg.maxAttempts > 0
    requires Bounded(cfg, s) && Enabled(cfg, s, RelayMark)
    ensures Bounded(cfg, Apply(cfg, s, RelayMark))
  {
    var todo := Todo(s.relay);
    assert todo[0] in todo;
    forall id | id in todo[1..]
      ensures id in todo && id != todo[0]
    {
      var k :| 0 <= k < |todo[1..]| && todo[1..][k] == id;
      assert todo[0] != todo[k + 1] == id;
    }
  }

  lemma BoundedStep(cfg: Config, s: State, step: Step)
    requires cfg.maxAttempts > 0
    requires Sound(s) && Bounded(cfg, s) && Enabled(cfg, s, step)
    ensures Bounded(cfg, Apply(cfg, s, step))
  {
    SoundStep(cfg, s, step);
    match step
    case Insert(_, _) => BoundedHot(cfg, s, step);
    case InsertUnseen(_, _) => BoundedHot(cfg, s, step);
    case HotMark(_) => BoundedHot(cfg, s, step);
    case Fetch(ids, cutoff) => BoundedFetch(cfg, s, ids, cutoff);
    case RelayMark => BoundedRelayMark(cfg, s);
    case _ =>
  }

  lemma {:induction false} BoundedAlways(cfg: Config, trace: seq<State>, j: nat)
    requires cfg.maxAttempts > 0
    requires Execution(cfg, trace) && j < |trace|
    ensures Bounded(cfg, trace[j])
  {
    if j > 0 {
      BoundedAlways(cfg, trace, j - 1);
      SoundAlways(cfg, trace, j - 1);
      assert Linked(cfg, trace, j);
      var step :| Enabled(cfg, trace[j - 1], step) && trace[j] == Apply(cfg, trace[j - 1], step);
      BoundedStep(cfg, trace[j - 1], step);
    }
  }

  /**
   Attempt bound. Neither update re-checks the limit and the hot path may settle its row at any
   moment between the relay's fetch and its mark; still no row is tried more than once over it, and
   none at all unless its own hot path recorded a failure.
   */
  lemma AttemptBound(cfg: Config, trace: seq<State>, j: nat, id: nat)
    requires cfg.maxAttempts > 0
    requires Execution(cfg, trace) && j < |trace| && id < |trace[j].rows|
    ensures trace[j].rows[id].attempts <= cfg.maxAttempts + if id in trace[j].hotFailed then 1 else 0
  {
    BoundedAlways(cfg, trace, j);
  }

  /** The row is over the limit, or one failure away from it in a way that some writer can still bring about. */
  predicate AtRisk(cfg: Config, s: State, id: nat)
    requires id < |s.rows|
  {
    var row := s.rows[id];
    || row.attempts > cfg.maxAttempts
    || (HotMayFail(s, id) && (RelayHolds(s.relay, id) || row.status != Published || row.attempts == cfg.maxAttempts))
    || (RelayHolds(s.relay, id) && row.attempts == cfg.maxAttempts)
  }

  lemma NoRiskStep(cfg: Config, s: State, step: Step, id: nat)
    requires cfg.maxAttempts > 0 && id < |s.rows|
    requires Sound(s) && Bounded(cfg, s) && Enabled(cfg, s, step) && !AtRisk(cfg, s, id)
    ensures id < |Apply(cfg, s, step).rows| && !AtRisk(cfg, Apply(cfg, s, step), id)
  {
  }

  lemma {:induction false} NoRiskStays(cfg: Config, trace: seq<State>, i: nat, j: nat, id: nat)
    requires cfg.maxAttempts > 0
    requires Execution(cfg, trace) && i <= j < |trace| && id < |trace[i].rows| && !AtRisk(cfg, trace[i], id)
    ensures id < |trace[j].rows| && !AtRisk(cfg, trace[j], id)
    decreases j - i
  {
    if i < j {
      NoRiskStays(cfg, trace, i, j - 1, id);
      SoundUntil(cfg, trace, j - 1);
      BoundedAlways(cfg, trace, j - 1);
      assert Linked(cfg, trace, j);
      var step :| Enabled(cfg, trace[j - 1], step) && trace[j] == Apply(cfg, trace[j - 1], step);
      NoRiskStep(cfg, trace[j - 1], step, id);
    }
  }

  // ---------------------------------------------------------------- witnesses

  ghost function Extend(cfg: Config, trace: seq<State>, step: Step): (r: seq<State>)
    requires Execution(cfg, trace) && Enabled(cfg, trace[|trace| - 1], step)
    ensures Execution(cfg, r)
    ensures r == trace + [Apply(cfg, trace[|trace| - 1], step)]
  {
    var r := trace + [Apply(cfg, trace[|trace| - 1], step)];
    assert Execution(cfg, r) by {
      forall i | 0 < i < |r|
        ensures Linked(cfg, r, i)
      {
        if i == |trace| {
          assert Enabled(cfg, r[i - 1], step);
        } else {
          assert Linked(cfg, trace, i);
        }
      }
    }
    r
  }

  /** A run in which the relay has fetched the row of an image whose hot path has not published yet. */
  lemma RacingRun(cfg: Config, payload: Json.Object) returns (trace: seq<State>)
    requires cfg.maxAttempts == 1
    ensures Execution(cfg, trace)
    ensures trace[|trace| - 1] == State([InsertedRow(7, payload, 0)], [], map[7 := payload],
                                        map[7 := Intended(Some(0))], Passing([0]), {}, {})
  {
    trace := [INIT];
    trace := Extend(cfg, trace, Begin(7, payload));
    trace := Extend(cfg, trace, Insert(7, 0));
    trace := Extend(cfg, trace, Fetch([0], 1));
    assert map[7 := Saved][7 := Intended(Some(0))] == map[7 := Intended(Some(0))];
  }

  /** The bound is reached: with a limit of one, a race leaves two recorded attempts. */
  lemma BoundReached(payload: Json.Object) returns (cfg: Config, trace: seq<State>)
    ensures Execution(cfg, trace) && cfg.maxAttempts == 1
    ensures |trace[|trace| - 1].rows| == 1 && trace[|trace| - 1].rows[0].attempts == 2
  {
    cfg := Config(1, 1);
    trace := RacingRun(cfg, payload);
    trace := Extend(cfg, trace, HotPublish(7, Lost));
    trace := Extend(cfg, trace, HotMark(7));
    trace := Extend(cfg, trace, RelayPublish(Lost));
    trace := Extend(cfg, trace, RelayMark);
  }

  /** A row marked published can be marked failed afterwards, although its message is in the stream. */
  lemma PublishedCanRevert(payload: Json.Object) returns (cfg: Config, trace: seq<State>, i: nat)
    ensures Execution(cfg, trace) && i < |trace|
    ensures |trace[i].rows| == 1 && trace[i].rows[0].status == Published
    ensures |trace[|trace| - 1].rows| == 1 && trace[|trace| - 1].rows[0].status == Failed
    ensures InStream(trace[|trace| - 1].stream, 7)
  {
    cfg := Config(1, 1);
    trace := RacingRun(cfg, payload);
    trace := Extend(cfg, trace, HotPublish(7, Confirmed));
    assert trace[|trace| - 1].stream == [Message(7, payload)];
    trace := Extend(cfg, trace, HotMark(7));
    i := |trace| - 1;
    ghost var settled := trace;
    trace := Extend(cfg, trace, RelayPublish(Lost));
    trace := Extend(cfg, trace, RelayMark);
    assert trace[i] == settled[i];
    assert Message(7, payload) in trace[|trace| - 1].stream;
  }
}
