/**
 The logger's image table beside its outbox as a protocol: one image at a time is inserted, settled and,
 if it was saved, handed off; exceptions and crashes may end its processing between any two writes.
 */
module ImageProtocol {
  import opened Common
  import Contract
  import Json
  import Outbox = OutboxProtocol

  datatype Status = Pending | Saved | Duplicate | Failed

  /** A row of the image table; its id is its index plus one. */
  datatype Row = Row(status: Status, hash: Option<string>, attempts: nat, refreshAttempts: nat, path: Option<string>)

  const NEW_ROW := Row(Pending, None, 0, 0, None)

  predicate Holds(row: Row, hash: string) {
    row.status == Saved && row.hash == Some(hash)
  }

  predicate HasSaved(rows: seq<Row>, hash: string) {
    exists i :: 0 <= i < |rows| && Holds(rows[i], hash)
  }

  predicate IsSaved(rows: seq<Row>, imageId: int) {
    1 <= imageId <= |rows| && rows[imageId - 1].status == Saved
  }

  /** What the code makes sure of before an update: new content is saved, known content is a duplicate. */
  predicate Fits(rows: seq<Row>, row: Row) {
    && (row.status == Saved ==> row.hash.Some? && !HasSaved(rows, row.hash.value))
    && (row.status == Duplicate ==> row.hash.Some? && HasSaved(rows, row.hash.value))
  }

  datatype State = State(
    rows: seq<Row>,
    outbox: Outbox.State,
    working: Option<nat>,     // the image that is being processed
    abandoned: set<nat>)      // history: images saved whose processing ended before their hand-off began

  const START := State([], Outbox.INIT, None, {})

  datatype Step =
    | InsertRow
    | InsertUnseen
    | Update(row: Row)
    | Begin(payload: Json.Object)
    | OutboxStep(step: Outbox.Step)
    | Finish
    | Crash

  ghost predicate Enabled(cfg: Outbox.Config, s: State, step: Step) {
    match step
    case InsertRow => s.working.None?
    case InsertUnseen => s.working.None?
    case Update(row) =>
      && s.working.Some? && 1 <= s.working.value <= |s.rows|
      && s.rows[s.working.value - 1].status.Pending? && Fits(s.rows, row)
    case Begin(payload) =>
      && s.working.Some? && IsSaved(s.rows, s.working.value) && s.working.value !in s.outbox.images
      && Contract.Built(s.working.value, payload)
    case OutboxStep(step) => Outbox.Enabled(cfg, s.outbox, step) && !step.Begin?
    case Finish => s.working.Some? && s.working.value !in s.outbox.hot
    case Crash => true
  }

  /** The image in progress is given up if it is saved and its hand-off has not begun. */
  function GivenUp(s: State): set<nat> {
    if s.working.Some? && IsSaved(s.rows, s.working.value) && s.working.value !in s.outbox.images
    then s.abandoned + {s.working.value} else s.abandoned
  }

  function Apply(cfg: Outbox.Config, s: State, step: Step): State
    requires Enabled(cfg, s, step)
  {
    match step
    case InsertRow => s.(rows := s.rows + [NEW_ROW], working := Some(|s.rows| + 1))
    case InsertUnseen => s.(rows := s.rows + [NEW_ROW])
    case Update(row) => s.(rows := s.rows[s.working.value - 1 := row])
    case Begin(payload) => s.(outbox := Outbox.Apply(cfg, s.outbox, Outbox.Begin(s.working.value, payload)))
    case OutboxStep(step) => s.(outbox := Outbox.Apply(cfg, s.outbox, step))
    case Finish => s.(working := None, abandoned := GivenUp(s))
    case Crash =>
      s.(outbox := Outbox.Apply(cfg, s.outbox, Outbox.Crash), working := None, abandoned := GivenUp(s))
  }

  ghost predicate Next(cfg: Outbox.Config, s: State, t: State) {
    exists step :: Enabled(cfg, s, step) && t == Apply(cfg, s, step)
  }

  /** A run goes from its state before `i` to the one at `i` in one step. */
  ghost predicate Linked(cfg: Outbox.Config, trace: seq<State>, i: nat)
    requires 0 < i < |trace|
  {
    Next(cfg, trace[i - 1], trace[i])
  }

  ghost predicate Execution(cfg: Outbox.Config, trace: seq<State>) {
    trace != [] && trace[0] == START && forall i :: 0 < i < |trace| ==> Linked(cfg, trace, i)
  }

  ghost function Extend(cfg: Outbox.Config, trace: seq<State>, step: Step): (r: seq<State>)
    requires Execution(cfg, trace) && Enabled(cfg, trace[|trace| - 1], step)
    ensures Execution(cfg, r)
    ensures r == trace + [Apply(cfg, trace[|trace| - 1], step)]
  {
    var r := trace + [Apply(cfg, trace[|trace| - 1], step)];
    assert Execution(cfg, r) by {
      forall i | 0 < i < |r|
        ensures Linked(cfg, r, i)
      {
        if i == |trace| {
          assert Enabled(cfg, r[i - 1], step);
        } else {
          assert Linked(cfg, trace, i);
        }
      }
    }
    r
  }

  // -------------------------------------------------------------- invariants

  /** At most one saved row a content hash, and every duplicate points at content that is saved. */
  predicate Deduplicated(rows: seq<Row>) {
    && (forall i :: 0 <= i < |rows| && rows[i].status == Saved ==> rows[i].hash.Some?)
    && (forall i, j :: 0 <= i < j < |rows| && rows[i].status == Saved && rows[j].status == Saved ==>
          rows[i].hash != rows[j].hash)
    && (forall i :: 0 <= i < |rows| && rows[i].status == Duplicate ==>
          rows[i].hash.Some? && HasSaved(rows, rows[i].hash.value))
  }

  /** Hand-offs are of saved images only, with the payload built for them. */
  ghost predicate HandsOffSaved(s: State) {
    forall image :: image in s.outbox.images ==> IsSaved(s.rows, image) && Contract.Built(image, s.outbox.images[image])
  }

  /** Every saved image that is not in progress was either handed off or abandoned. */
  ghost predicate Accounted(s: State) {
    && (s.working.Some? ==> 1 <= s.working.value <= |s.rows|)
    && (forall id: nat :: id in s.abandoned ==>
          IsSaved(s.rows, id) && id !in s.outbox.images && s.working != Some(id))
    && (forall id: nat :: IsSaved(s.rows, id) && s.working != Some(id) && id !in s.outbox.images ==> id in s.abandoned)
  }

  ghost predicate Consistent(s: State) {
    && Deduplicated(s.rows) && HandsOffSaved(s) && Accounted(s)
    && Outbox.Sound(s.outbox) && Outbox.Recorded(s.outbox)
  }

  /** Saved rows stay as they are, and neither hand-offs nor abandoned images are taken back. */
  ghost predicate Succeeds(s: State, t: State) {
    && |s.rows| <= |t.rows|
    && (forall id: nat :: IsSaved(s.rows, id) ==> t.rows[id - 1] == s.rows[id - 1])
    && s.abandoned <= t.abandoned
    && (forall image :: image in s.outbox.images ==> image in t.outbox.images)
  }

  lemma UpdateKeepsDedup(rows: seq<Row>, id: nat, row: Row)
    requires Deduplicated(rows) && id < |rows| && rows[id].status == Pending && Fits(rows, row)
    ensures Deduplicated(rows[id := row])
  {
    var after := rows[id := row];
    forall i | 0 <= i < |after| && after[i].status == Duplicate
      ensures after[i].hash.Some? && HasSaved(after, after[i].hash.value)
    {
      var hash := after[i].hash.value;
      var k :| 0 <= k < |rows| && Holds(rows[k], hash);
      assert Holds(after[k], hash);
    }
    forall i | 0 <= i < |rows| && rows[i].status == Saved && row.status == Saved
      ensures rows[i].hash != row.hash
    {
      assert Holds(rows[i], rows[i].hash.value);
    }
  }

  lemma InsertKeepsDedup(rows: seq<Row>)
    requires Deduplicated(rows)
    ensures Deduplicated(rows + [NEW_ROW])
  {
    var after := rows + [NEW_ROW];
    forall i | 0 <= i < |after| && after[i].status == Duplicate
      ensures HasSaved(after, after[i].hash.value)
    {
      var k :| 0 <= k < |rows| && Holds(rows[k], rows[i].hash.value);
      assert Holds(after[k], after[i].hash.value);
    }
  }

  lemma ConsistentRows(cfg: Outbox.Config, s: State, step: Step)
    requires Consistent(s) && Enabled(cfg, s, step) && (step.InsertRow? || step.InsertUnseen? || step.Update?)
    ensures Consistent(Apply(cfg, s, step)) && Succeeds(s, Apply(cfg, s, step))
  {
    if step.Update? {
      UpdateKeepsDedup(s.rows, s.working.value - 1, step.row);
    } else {
      InsertKeepsDedup(s.rows);
    }
  }

  lemma ConsistentOutbox(cfg: Outbox.Config, s: State, step: Outbox.Step)
    requires Consistent(s) && Outbox.Enabled(cfg, s.outbox, step) && !step.Begin?
    ensures var t := s.(outbox := Outbox.Apply(cfg, s.outbox, step));
      Consistent(t) && Succeeds(s, t) && t.outbox.images == s.outbox.images
  {
    Outbox.SoundStep(cfg, s.outbox, step);
    Outbox.RecordedStep(cfg, s.outbox, step);
    ImagesStay(cfg, s.outbox, step);
  }

  lemma ImagesStay(cfg: Outbox.Config, s: Outbox.State, step: Outbox.Step)
    requires Outbox.Enabled(cfg, s, step) && !step.Begin?
    ensures Outbox.Apply(cfg, s, step).images == s.images
  {
  }

  lemma ConsistentBegin(cfg: Outbox.Config, s: State, payload: Json.Object)
    requires Consistent(s) && Enabled(cfg, s, Begin(payload))
    ensures Consistent(Apply(cfg, s, Begin(payload))) && Succeeds(s, Apply(cfg, s, Begin(payload)))
  {
    var step := Outbox.Begin(s.working.value, payload);
    Outbox.SoundStep(cfg, s.outbox, step);
    Outbox.RecordedStep(cfg, s.outbox, step);
  }

  lemma ConsistentStep(cfg: Outbox.Config, s: State, step: Step)
    requires Consistent(s) && Enabled(cfg, s, step)
    ensures Consistent(Apply(cfg, s, step)) && Succeeds(s, Apply(cfg, s, step))
  {
    match step
    case Begin(payload) => ConsistentBegin(cfg, s, payload);
    case OutboxStep(inner) => ConsistentOutbox(cfg, s, inner);
    case Finish =>
    case Crash => ConsistentOutbox(cfg, s, Outbox.Crash);
    case _ => ConsistentRows(cfg, s, step);
  }

  lemma {:induction false} ConsistentAlways(cfg: Outbox.Config, trace: seq<State>, j: nat)
    requires Execution(cfg, trace) && j < |trace|
    ensures Consistent(trace[j]) && (j > 0 ==> Succeeds(trace[j - 1], trace[j]))
  {
    if j > 0 {
      ConsistentAlways(cfg, trace, j - 1);
      assert Linked(cfg, trace, j);
      var step :| Enabled(cfg, trace[j - 1], step) && trace[j] == Apply(cfg, trace[j - 1], step);
      ConsistentStep(cfg, trace[j - 1], step);
    }
  }

  lemma {:induction false} SucceedsBetween(cfg: Outbox.Config, trace: seq<State>, i: nat, j: nat)
    requires Execution(cfg, trace) && i <= j < |trace|
    ensures Succeeds(trace[i], trace[j])
    decreases j - i
  {
    if i < j {
      SucceedsBetween(cfg, trace, i, j - 1);
      ConsistentAlways(cfg, trace, j);
      SucceedsOn(trace[i], trace[j - 1], trace[j]);
    }
  }

  lemma SucceedsOn(s: State, t: State, u: State)
    requires Succeeds(s, t) && Succeeds(t, u)
    ensures Succeeds(s, u)
  {
    forall id: nat | IsSaved(s.rows, id)
      ensures u.rows[id - 1] == s.rows[id - 1]
    {
      assert IsSaved(t.rows, id);
    }
  }

  // ------------------------------------------------------------------ the laws

  /** Over every run, crashes anywhere included: content is saved once, and dispatched at most once. */
  lemma OneDispatchPerContent(cfg: Outbox.Config, trace: seq<State>, j: nat, a: nat, b: nat)
    requires Execution(cfg, trace) && j < |trace| && a < b < |trace[j].outbox.rows|
    ensures var s := trace[j];
      && Deduplicated(s.rows)
      && IsSaved(s.rows, s.outbox.rows[a].image) && IsSaved(s.rows, s.outbox.rows[b].image)
      && s.rows[s.outbox.rows[a].image - 1].hash != s.rows[s.outbox.rows[b].image - 1].hash
  {
    ConsistentAlways(cfg, trace, j);
    var s := trace[j];
    assert s.outbox.rows[a].image in s.outbox.images && s.outbox.rows[b].image in s.outbox.images;
    assert s.outbox.rows[a].image != s.outbox.rows[b].image;
  }

  /**
   What is promised for a saved image, exactly. Over every run, for an image that is saved and no longer in
   progress: its hand-off began iff it was not abandoned; and its hand-off is kept iff it was not abandoned and
   the task is in the stream, or there is a dispatch row that is not at a limit.
   */
  lemma SavedHandOffExactly(cfg: Outbox.Config, trace: seq<State>, j: nat, id: nat)
    requires Execution(cfg, trace) && j < |trace|
    requires var s := trace[j]; IsSaved(s.rows, id) && s.working != Some(id) && id !in s.outbox.hot
    ensures var s := trace[j];
      && (id in s.outbox.images <==> id !in s.abandoned)
      && (Outbox.Kept(cfg, s.outbox, id) <==>
            id !in s.abandoned && (Outbox.InStream(s.outbox.stream, id) || Outbox.RowLeft(cfg, s.outbox, id)))
  {
    ConsistentAlways(cfg, trace, j);
    var s := trace[j];
    if id in s.outbox.images {
      Outbox.KeptExactly(cfg, s.outbox, id);
    } else {
      NothingSent(s, id);
    }
  }

  /** An image whose hand-off did not begin has neither message nor row. */
  lemma NothingSent(s: State, id: int)
    requires Outbox.Sound(s.outbox) && id !in s.outbox.images
    ensures !Outbox.InStream(s.outbox.stream, id) && !Outbox.HasRow(s.outbox.rows, id)
  {
  }

  /** Neither the image nor any other with its content is handed off. */
  predicate ContentUnsent(s: State, id: nat)
    requires IsSaved(s.rows, id)
  {
    && id !in s.outbox.images && !Outbox.InStream(s.outbox.stream, id) && !Outbox.HasRow(s.outbox.rows, id)
    && forall other :: other in s.outbox.images ==>
         1 <= other <= |s.rows| && s.rows[other - 1].hash != s.rows[id - 1].hash
  }

  /**
   Abandoned for good. Once a saved image is abandoned, in every later state of the run, whatever images,
   relay passes, restarts and crashes follow, its row is as it was, and neither it nor any image with its
   content is ever handed off: every later copy of the content can only become a duplicate.
   */
  lemma AbandonedForGood(cfg: Outbox.Config, trace: seq<State>, i: nat, j: nat, id: nat)
    requires Execution(cfg, trace) && i <= j < |trace| && id in trace[i].abandoned
    ensures IsSaved(trace[i].rows, id) && IsSaved(trace[j].rows, id)
    ensures trace[j].rows[id - 1] == trace[i].rows[id - 1]
    ensures id in trace[j].abandoned && ContentUnsent(trace[j], id)
  {
    ConsistentAlways(cfg, trace, i);
    ConsistentAlways(cfg, trace, j);
    SucceedsBetween(cfg, trace, i, j);
    AbandonedUnsent(trace[j], id);
  }

  lemma AbandonedUnsent(s: State, id: nat)
    requires Consistent(s) && id in s.abandoned
    ensures IsSaved(s.rows, id) && ContentUnsent(s, id)
  {
    NothingSent(s, id);
    forall other | other in s.outbox.images
      ensures 1 <= other <= |s.rows| && s.rows[other - 1].hash != s.rows[id - 1].hash
    {
      assert IsSaved(s.rows, other);
    }
  }

  /** It happens without a crash: an exception right after the image was saved. */
  lemma SavedCanBeAbandoned(hash: string) returns (cfg: Outbox.Config, trace: seq<State>)
    ensures Execution(cfg, trace)
    ensures var s := trace[|trace| - 1];
      s.working.None? && IsSaved(s.rows, 1) && 1 in s.abandoned && s.outbox == Outbox.INIT
  {
    cfg := Outbox.Config(1, 0);
    trace := [START];
    trace := Extend(cfg, trace, InsertRow);
    trace := Extend(cfg, trace, Update(Row(Saved, Some(hash), 1, 0, Some("file"))));
    trace := Extend(cfg, trace, Finish);
  }

  /** The steps of an outbox run that begins nothing are steps of the whole. */
  lemma {:induction false} Follow(cfg: Outbox.Config, trace: seq<State>, steps: seq<Outbox.State>, from: nat)
    returns (later: seq<State>)
    requires Execution(cfg, trace) && Outbox.Execution(cfg, steps)
    requires from < |steps| && steps[from] == trace[|trace| - 1].outbox
    requires steps[|steps| - 1].images == steps[from].images
    ensures Execution(cfg, later) && trace <= later
    ensures later[|later| - 1] == trace[|trace| - 1].(outbox := steps[|steps| - 1])
    decreases |steps| - from
  {
    later := trace;
    if from < |steps| - 1 {
      assert Outbox.Linked(cfg, steps, from + 1);
      var step :| Outbox.Enabled(cfg, steps[from], step) && steps[from + 1] == Outbox.Apply(cfg, steps[from], step);
      Outbox.GrowsBetween(cfg, steps, from + 1, |steps| - 1);
      assert !step.Begin?;
      ImagesStay(cfg, steps[from], step);
      var next := Extend(cfg, trace, OutboxStep(step));
      later := Follow(cfg, next, steps, from + 1);
      PrefixOn(trace, next, later);
    }
  }
}
