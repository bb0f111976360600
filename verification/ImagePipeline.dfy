/**
 The logger's per-image pipeline: insert the row, download (with one refresh of an expired URL),
 de-duplicate by content, save, and hand off through the outbox. Images are processed one at a time.
 */
module ImagePipeline {
  import opened Common
  import opened ImageProtocol
  import Contract
  import Downloader
  import Json
  import Naming
  import OutboxProtocol
  import OutboxRelay
  import RefreshChain

  /** The event an image came with. */
  datatype Event = Event(
    id: int,
    postType: string,
    messageType: Option<string>,
    userId: Option<int>,
    groupId: Option<int>,
    messageId: Option<string>)

  datatype Image = Image(seqNo: int, url: Option<string>, fileName: Option<string>)

  /** What the network, the database and the file system answer while one image is processed. */
  datatype World = World(
    inserts: Commit,
    firstTries: nat -> Downloader.Try,
    client: Option<RefreshChain.Client>,
    secondTries: nat -> Downloader.Try,
    tracesRefresh: Commit,
    finds: bool,
    writes: bool,
    updates: Commit,
    audits: bool,
    recordsIntent: Commit,
    delivery: OutboxProtocol.Delivery,
    recordsResult: Commit,
    stamp: string,
    now: int)

  /** A hexadecimal digest: not empty, and without white space around it. */
  type Digest = s: string | Naming.Plain(s) witness "0"

  datatype Setup = Setup(
    root: string,
    retryCount: int,
    sha256: string -> Digest,
    urlName: string -> Option<string>)

  function NonEmpty(text: Option<string>, default: string): string {
    if text.Some? && text.value != "" then text.value else default
  }

  function ChatId(event: Event): string {
    if event.groupId.Some? && event.groupId.value != 0 then Naming.Decimal(event.groupId.value)
    else if event.userId.Some? && event.userId.value != 0 then Naming.Decimal(event.userId.value)
    else "unknown"
  }

  function ChatDir(root: string, event: Event): string {
    Naming.ImageDir(root, NonEmpty(event.messageType, "unknown"), ChatId(event))
  }

  function FileName(setup: Setup, event: Event, image: Image, url: string, stamp: string): string {
    Naming.SavedName(stamp, NonEmpty(event.messageId, "unknown"), image.seqNo,
                     Naming.ChooseFilename(image.fileName, image.seqNo, setup.urlName(url)))
  }

  function SavePath(setup: Setup, event: Event, image: Image, url: string, stamp: string): string {
    Naming.Join(ChatDir(setup.root, event), FileName(setup, event, image, url, stamp))
  }

  function TextOrNull(text: Option<string>): Json.Value {
    if text.Some? then Json.Str(text.value) else Json.Null
  }

  function IntOrNull(n: Option<int>): Json.Value {
    if n.Some? then Json.Int(n.value) else Json.Null
  }

  function TagContext(event: Event, image: Image, imageId: int, url: string): Json.Object {
    map[
      "event_id" := Json.Int(event.id),
      "image_id" := Json.Int(imageId),
      "post_type" := Json.Str(event.postType),
      "message_type" := TextOrNull(event.messageType),
      "chat_type" := Json.Str(NonEmpty(event.messageType, "unknown")),
      "chat_id" := Json.Str(ChatId(event)),
      "user_id" := IntOrNull(event.userId),
      "group_id" := IntOrNull(event.groupId),
      "message_id" := Json.Str(NonEmpty(event.messageId, "unknown")),
      "seq" := Json.Int(image.seqNo),
      "source_url" := Json.Str(url),
      "original_url" := TextOrNull(image.url)]
  }

  // ------------------------------------------------ what becomes of an image

  /** How one image ended, as the code sees it; only an exception keeps the event's remaining images from being processed. */
  datatype Outcome = NotInserted | Aborted | Recorded(status: Status) | NotRecorded

  /** What the download part of an image comes to: a body if there is one, the URL used last, and the tries. */
  datatype Fetch = Fetch(body: Option<string>, url: string, tried: nat)

  /** The refresh that follows a download whose error looks like an expired link. */
  function RefreshOf(event: Event, image: Image, world: World): RefreshChain.RefreshResult {
    RefreshChain.Refreshed(world.client, image.fileName, event.messageId)
  }

  function Fetched(setup: Setup, event: Event, image: Image, url: string, world: World): Fetch {
    var limit := Downloader.AttemptLimit(setup.retryCount);
    match Downloader.From(world.firstTries, 1, limit)
    case Downloaded(body, attempt) => Fetch(Some(body), url, attempt)
    case DownloadError(attempts, lastError) =>
      if RefreshChain.IsProbablyExpired(lastError) then Again(setup, RefreshOf(event, image, world), url, attempts, world)
      else Fetch(None, url, attempts)
  }

  /** After a refresh: one more download if it found a URL. */
  function Again(setup: Setup, refreshed: RefreshChain.RefreshResult, url: string, tried: nat, world: World): Fetch {
    if refreshed.url.None? then Fetch(None, url, tried)
    else
      match Downloader.From(world.secondTries, 1, Downloader.AttemptLimit(setup.retryCount))
      case Downloaded(body, more) => Fetch(Some(body), refreshed.url.value, tried + more)
      case DownloadError(more, _) => Fetch(None, refreshed.url.value, tried + more)
  }

  /** The refresh calls recorded on the row of an image with this URL. */
  function Traced(setup: Setup, event: Event, image: Image, world: World): nat {
    var first := Downloader.From(world.firstTries, 1, Downloader.AttemptLimit(setup.retryCount));
    if first.DownloadError? && RefreshChain.IsProbablyExpired(first.lastError) && world.tracesRefresh != Refused
    then |RefreshOf(event, image, world).attempts| else 0
  }

  function Settled(world: World, status: Status): Outcome {
    if !world.audits then Aborted else if world.updates == Stored then Recorded(status) else NotRecorded
  }

  /** How an image is settled once its download is over, given the content saved so far. */
  function StoreOutcome(setup: Setup, rows: seq<Row>, fetch: Fetch, world: World): Outcome {
    if fetch.body.None? then Settled(world, Failed)
    else if !world.finds then Aborted
    else if HasSaved(rows, setup.sha256(fetch.body.value)) then Settled(world, Duplicate)
    else if !world.writes then Settled(world, Failed)
    else Settled(world, Saved)
  }

  /** Its row afterwards; a refused update leaves the row as it was, an unseen one does not. */
  function StoredRow(setup: Setup, rows: seq<Row>, row: Row, event: Event, image: Image, fetch: Fetch, world: World): Row {
    if world.updates == Refused then row
    else if fetch.body.None? then row.(status := Failed, attempts := fetch.tried)
    else
      var hash := setup.sha256(fetch.body.value);
      if !world.finds then row
      else if HasSaved(rows, hash) then row.(status := Duplicate, hash := Some(hash), attempts := fetch.tried)
      else if !world.writes then row.(status := Failed, attempts := fetch.tried)
      else row.(status := Saved, hash := Some(hash), attempts := fetch.tried,
                path := Some(SavePath(setup, event, image, fetch.url, world.stamp)))
  }

  /** The file tree afterwards: content that is not known yet is written before its row is updated. */
  function StoredFiles(setup: Setup, rows: seq<Row>, files: map<string, string>, event: Event, image: Image,
                       fetch: Fetch, world: World): map<string, string> {
    if fetch.body.None? || !world.finds || HasSaved(rows, setup.sha256(fetch.body.value)) || !world.writes then files
    else files[SavePath(setup, event, image, fetch.url, world.stamp) := fetch.body.value]
  }

  /** What the download part comes to; without a URL there is nothing to download. */
  function FetchOf(setup: Setup, event: Event, image: Image, world: World): Fetch {
    if NonEmpty(image.url, "") == "" then Fetch(None, "", 0) else Fetched(setup, event, image, image.url.value, world)
  }

  function RefreshesOf(setup: Setup, event: Event, image: Image, world: World): nat {
    if NonEmpty(image.url, "") == "" then 0 else Traced(setup, event, image, world)
  }

  function ImageOutcome(setup: Setup, rows: seq<Row>, event: Event, image: Image, world: World): Outcome {
    if world.inserts == Stored then StoreOutcome(setup, rows, FetchOf(setup, event, image, world), world) else NotInserted
  }

  /** The row `_process_image` leaves behind. */
  function ImageRow(setup: Setup, rows: seq<Row>, event: Event, image: Image, world: World): Row {
    var started := NEW_ROW.(refreshAttempts := RefreshesOf(setup, event, image, world));
    StoredRow(setup, rows, started, event, image, FetchOf(setup, event, image, world), world)
  }

  /** Everything the logger has stored. */
  datatype Store = Store(
    rows: seq<Row>,
    files: map<string, string>,
    dispatches: seq<OutboxProtocol.Row>,
    stream: seq<OutboxProtocol.Message>)

  /** What a hand-off adds: the task in the stream unless its publish was lost, and a dispatch row if one was stored. */
  function HandedOff(s: Store, imageId: int, payload: Json.Object, world: World): Store {
    var marks := world.recordsIntent == Stored && world.recordsResult != Refused;
    s.(stream := OutboxProtocol.Publish(s.stream, OutboxProtocol.Message(imageId, payload), world.delivery),
       dispatches :=
         if world.recordsIntent == Refused then s.dispatches
         else s.dispatches + [OutboxRelay.HandedOffRow(imageId, payload, world.now, world.delivery, marks)])
  }

  /** What is stored after one image. */
  function AfterImage(setup: Setup, s: Store, event: Event, image: Image, world: World): Store {
    match world.inserts
    case Refused => s
    case Unseen => s.(rows := s.rows + [NEW_ROW])
    case Stored =>
      var fetch, id := FetchOf(setup, event, image, world), |s.rows| + 1;
      var settled := s.(rows := s.rows + [ImageRow(setup, s.rows, event, image, world)],
                        files := StoredFiles(setup, s.rows, s.files, event, image, fetch, world));
      if StoreOutcome(setup, s.rows, fetch, world) == Recorded(Saved)
      then HandedOff(settled, id, HandOffPayload(setup, event, image, id, fetch.url, fetch.body.value), world)
      else settled
  }

  /** The image is saved, but the update that says so seemed to fail, or the audit line raised: nothing is handed off. */
  predicate GivesUp(setup: Setup, rows: seq<Row>, event: Event, image: Image, world: World) {
    && world.inserts == Stored && ImageRow(setup, rows, event, image, world).status == Saved
    && !(world.updates == Stored && world.audits)
  }

  /** What is stored after the images of an event from the k-th on; an exception ends the event. */
  function AfterImages(setup: Setup, s: Store, event: Event, images: seq<Image>, worlds: nat -> World, k: nat): Store
    requires k <= |images|
    decreases |images| - k
  {
    if k == |images| then s
    else
      var after := AfterImage(setup, s, event, images[k], worlds(k));
      if ImageOutcome(setup, s.rows, event, images[k], worlds(k)).Aborted? then after
      else AfterImages(setup, after, event, images, worlds, k + 1)
  }

  /** A pending row at the end of the table does not change how an image is settled. */
  lemma SameContent(setup: Setup, rows: seq<Row>, others: seq<Row>, id: nat, event: Event, image: Image,
                    fetch: Fetch, world: World)
    requires id <= |rows| && |others| == id + 1 && |rows| <= id + 1
    requires forall i :: 0 <= i < id ==> rows[i] == others[i]
    requires others[id].status == Pending && (id < |rows| ==> rows[id].status == Pending)
    ensures StoreOutcome(setup, rows, fetch, world) == StoreOutcome(setup, others, fetch, world)
    ensures forall row :: StoredRow(setup, rows, row, event, image, fetch, world) ==
                          StoredRow(setup, others, row, event, image, fetch, world)
    ensures forall files :: StoredFiles(setup, rows, files, event, image, fetch, world) ==
                            StoredFiles(setup, others, files, event, image, fetch, world)
    ensures fetch.body.Some? ==>
      (HasSaved(rows, setup.sha256(fetch.body.value)) <==> HasSaved(others, setup.sha256(fetch.body.value)))
  {
  }

  /** A processed image is given up exactly if it gives up. */
  lemma WhenGivenUp(setup: Setup, before: seq<Row>, s: State, event: Event, image: Image, world: World)
    requires world.inserts == Stored && s.working == Some(|before| + 1)
    requires s.rows == before + [ImageRow(setup, before, event, image, world)]
    requires |before| + 1 in s.outbox.images <==> ImageOutcome(setup, before, event, image, world) == Recorded(Saved)
    ensures GivenUp(s) == s.abandoned + if GivesUp(setup, before, event, image, world) then {|before| + 1} else {}
  {
  }

  // ------------------------------------------- the same, from what happened

  /** What comes of an expired link: the refresh, and a second download if it found a URL. */
  ghost predicate Refetches(setup: Setup, event: Event, image: Image, world: World, tried: nat, fetch: Fetch, refreshes: nat) {
    var refreshed := RefreshChain.Refreshed(world.client, image.fileName, event.messageId);
    && refreshes == (if world.tracesRefresh == Refused then 0 else |refreshed.attempts|)
    && match refreshed.url
       case None => fetch.body.None? && Some(fetch.url) == image.url && fetch.tried == tried
       case Some(link) =>
         || (exists j: nat :: Downloader.WorksFirst(world.secondTries, setup.retryCount, j)
                              && fetch == Fetch(Some(world.secondTries(j).body), link, tried + j))
         || (exists more: nat, error :: Downloader.BreaksOff(world.secondTries, setup.retryCount, more, error)
                                        && fetch == Fetch(None, link, tried + more))
  }

  /**
   The download part, from the tries and the client alone: the first round's body, if it has one, without a
   refresh; one round and no refresh for an error that is no expired link; else the refresh decides.
   */
  ghost predicate Fetches(setup: Setup, event: Event, image: Image, world: World, fetch: Fetch, refreshes: nat) {
    if image.url.None? || image.url.value == "" then fetch == Fetch(None, "", 0) && refreshes == 0
    else
      || (exists j: nat :: Downloader.WorksFirst(world.firstTries, setup.retryCount, j)
                           && fetch == Fetch(Some(world.firstTries(j).body), image.url.value, j) && refreshes == 0)
      || (exists last: nat, error :: Downloader.BreaksOff(world.firstTries, setup.retryCount, last, error)
            && if RefreshChain.IsProbablyExpired(error) then Refetches(setup, event, image, world, last, fetch, refreshes)
               else fetch == Fetch(None, image.url.value, last) && refreshes == 0)
  }

  lemma FetchesExactly(setup: Setup, event: Event, image: Image, world: World)
    ensures Fetches(setup, event, image, world, FetchOf(setup, event, image, world), RefreshesOf(setup, event, image, world))
  {
    var limit := Downloader.AttemptLimit(setup.retryCount);
    Downloader.FromExactly(world.firstTries, setup.retryCount, 1);
    Downloader.FromExactly(world.secondTries, setup.retryCount, 1);
  }

  /** How an image is settled: what its row says, and what is in its file. */
  predicate SettledAs(setup: Setup, before: Store, event: Event, image: Image, world: World, fetch: Fetch, row: Row,
                      files: map<string, string>) {
    var known := fetch.body.Some? && world.finds && HasSaved(before.rows, setup.sha256(fetch.body.value));
    var written := fetch.body.Some? && world.finds && !known && world.writes;
    var path := SavePath(setup, event, image, fetch.url, world.stamp);
    && files == (if written then before.files[path := fetch.body.value] else before.files)
    && if world.updates == Refused || (fetch.body.Some? && !world.finds) then
         row == NEW_ROW.(refreshAttempts := row.refreshAttempts)
       else
         && row.attempts == fetch.tried
         && (row.status == Saved <==> written) && (row.status == Duplicate <==> known)
         && (row.status == Failed <==> !written && !known)
         && row.hash == (if written || known then Some(setup.sha256(fetch.body.value)) else None)
         && row.path == if written then Some(path) else None
  }

  /** What processing an image leaves behind, told from what happened meanwhile. */
  ghost predicate Explained(setup: Setup, before: Store, event: Event, image: Image, world: World, after: Store) {
    var id := |before.rows| + 1;
    && |after.rows| == id && before.rows <= after.rows
    && var row := after.rows[id - 1];
       && (exists fetch :: && Fetches(setup, event, image, world, fetch, row.refreshAttempts)
                           && SettledAs(setup, before, event, image, world, fetch, row, after.files))
       && if row.status == Saved && world.updates == Stored && world.audits then
            && (world.delivery != OutboxProtocol.Lost ==> OutboxProtocol.InStream(after.stream, id))
            && (world.recordsIntent != Refused ==> OutboxProtocol.HasRow(after.dispatches, id))
          else after.stream == before.stream && after.dispatches == before.dispatches
  }

  lemma SettledExactly(setup: Setup, before: Store, event: Event, image: Image, world: World)
    ensures var fetch, row := FetchOf(setup, event, image, world), ImageRow(setup, before.rows, event, image, world);
      && Fetches(setup, event, image, world, fetch, row.refreshAttempts)
      && SettledAs(setup, before, event, image, world, fetch, row,
                   StoredFiles(setup, before.rows, before.files, event, image, fetch, world))
      && (StoreOutcome(setup, before.rows, fetch, world) == Recorded(Saved)
          <==> row.status == Saved && world.updates == Stored && world.audits)
  {
    FetchesExactly(setup, event, image, world);
  }

  lemma HandedOffExactly(s: Store, imageId: int, payload: Json.Object, world: World)
    ensures var after := HandedOff(s, imageId, payload, world);
      && after.rows == s.rows && after.files == s.files
      && (world.delivery != OutboxProtocol.Lost ==> OutboxProtocol.InStream(after.stream, imageId))
      && (world.recordsIntent != Refused ==> OutboxProtocol.HasRow(after.dispatches, imageId))
  {
    var after := HandedOff(s, imageId, payload, world);
    if world.delivery != OutboxProtocol.Lost && !OutboxProtocol.InStream(s.stream, imageId) {
      assert OutboxProtocol.Message(imageId, payload) in after.stream;
    }
    if world.recordsIntent != Refused {
      assert after.dispatches[|s.dispatches|].image == imageId;
    }
  }

  lemma ImageExplained(setup: Setup, before: Store, event: Event, image: Image, world: World)
    requires world.inserts == Stored
    ensures Explained(setup, before, event, image, world, AfterImage(setup, before, event, image, world))
  {
    var after, row := AfterImage(setup, before, event, image, world), ImageRow(setup, before.rows, event, image, world);
    var fetch, id := FetchOf(setup, event, image, world), |before.rows| + 1;
    SettledExactly(setup, before, event, image, world);
    var settled := before.(rows := before.rows + [row],
                           files := StoredFiles(setup, before.rows, before.files, event, image, fetch, world));
    if row.status == Saved && world.updates == Stored && world.audits {
      var payload := HandOffPayload(setup, event, image, id, fetch.url, fetch.body.value);
      HandedOffExactly(settled, id, payload, world);
      assert after == HandedOff(settled, id, payload, world);
    } else {
      assert after == settled;
    }
  }

  class Logger {
    const setup: Setup
    const outbox: OutboxRelay.Outbox
    var rows: seq<Row>
    var files: map<string, string>
    /** The run of the protocol so far: a state for every single write to the table or the outbox. */
    ghost var trace: seq<State>

    ghost predicate Valid()
      reads this, outbox
    {
      outbox.Valid() && Execution(outbox.cfg, trace) && Now().rows == rows && Now().outbox == outbox.Now()
    }

    ghost function Now(): State
      requires trace != []
      reads this
    {
      trace[|trace| - 1]
    }

    ghost function Contents(): Store
      reads this, outbox
    {
      Store(rows, files, outbox.rows, outbox.stream)
    }

    /** Opens the tables that some run of the protocol, crashed or not, left behind. */
    constructor (setup: Setup, outbox: OutboxRelay.Outbox, rows: seq<Row>, files: map<string, string>, ghost trace: seq<State>)
      requires outbox.Valid() && Execution(outbox.cfg, trace)
      requires trace[|trace| - 1].rows == rows && trace[|trace| - 1].outbox == outbox.Now()
      ensures Valid() && this.setup == setup && this.outbox == outbox && this.trace == trace
      ensures this.rows == rows && this.files == files
    {
      this.setup, this.outbox := setup, outbox;
      this.rows, this.files, this.trace := rows, files, trace;
    }

    /** The promise for saved images, on the logger's own tables. */
    lemma HandOffExactly(id: nat)
      requires Valid() && IsSaved(rows, id) && Now().working != Some(id) && id !in outbox.Now().hot
      ensures id in outbox.Now().images <==> id !in Now().abandoned
      ensures OutboxProtocol.Kept(outbox.cfg, outbox.Now(), id) <==>
        && id !in Now().abandoned
        && (OutboxProtocol.InStream(outbox.stream, id) || OutboxProtocol.RowLeft(outbox.cfg, outbox.Now(), id))
    {
      SavedHandOffExactly(outbox.cfg, trace, |trace| - 1, id);
    }

    /** What was abandoned before any number of images, relay passes and restarts still is, with all its content. */
    lemma StillAbandoned(past: seq<State>, id: nat)
      requires Valid() && past != [] && past <= trace && id in past[|past| - 1].abandoned
      ensures id in Now().abandoned && IsSaved(rows, id) && ContentUnsent(Now(), id)
    {
      AbandonedForGood(outbox.cfg, trace, |past| - 1, |trace| - 1, id);
    }

    ghost method Log(step: Step)
      requires Execution(outbox.cfg, trace) && Enabled(outbox.cfg, Now(), step)
      modifies this`trace
      ensures Execution(outbox.cfg, trace) && trace == old(trace) + [Apply(outbox.cfg, old(Now()), step)]
    {
      trace := Extend(outbox.cfg, trace, step);
    }

    /** Takes over the steps the outbox has made since it had run through `from + 1` states. */
    ghost method LogOutbox(from: nat)
      requires outbox.Valid() && Execution(outbox.cfg, trace) && from < |outbox.trace|
      requires outbox.trace[from] == Now().outbox && outbox.trace[from].images == outbox.Now().images
      modifies this`trace
      ensures Execution(outbox.cfg, trace) && old(trace) <= trace
      ensures Now() == old(Now()).(outbox := outbox.Now())
    {
      trace := Follow(outbox.cfg, trace, outbox.trace, from);
    }

    /** A pass of the relay over this logger's outbox, between two images or while one is processed. */
    method RelayPass(ids: seq<nat>, deliveries: seq<OutboxProtocol.Delivery>, ghost cutoff: int)
      requires Valid() && outbox.Now().relay.Resting?
      requires OutboxProtocol.Fetched(outbox.cfg, outbox.rows, cutoff, ids) && |deliveries| == |ids|
      modifies this`trace, outbox
      ensures Valid() && old(trace) <= trace && outbox.Now().relay.Resting?
      ensures Now().working == old(Now()).working && Now().abandoned == old(Now()).abandoned
      ensures outbox.Now().images == old(outbox.Now()).images && outbox.Now().hot == old(outbox.Now()).hot
      ensures outbox.rows == OutboxRelay.AfterPass(old(outbox.rows), ids, deliveries)
      ensures outbox.stream == OutboxRelay.StreamAfter(old(outbox.rows), old(outbox.stream), ids, deliveries)
    {
      ghost var from := |outbox.trace| - 1;
      var summary := outbox.RelayOnce(ids, deliveries, cutoff);
      LogOutbox(from);
    }

    /** A crash and a restart: the image in progress, if any, is over. */
    method Restart()
      requires Valid()
      modifies this`trace, outbox
      ensures Valid() && old(trace) <= trace && Now().working == None
      ensures outbox.Now().relay.Resting? && outbox.Now().hot == map[]
      ensures Now().abandoned == GivenUp(old(Now()))
      ensures outbox.rows == old(outbox.rows) && outbox.stream == old(outbox.stream)
    {
      outbox.Restart();
      Log(Crash);
    }

    /** `insert_image`. */
    method InsertImage() returns (id: nat)
      requires Valid() && Now().working == None
      modifies this`rows, this`trace
      ensures Valid() && old(trace) <= trace && Now() == old(Now()).(rows := rows, working := Some(id + 1))
      ensures id == |old(rows)| && rows == old(rows) + [NEW_ROW] && id + 1 !in outbox.Now().images
    {
      ConsistentAlways(outbox.cfg, trace, |trace| - 1);
      id := |rows|;
      rows := rows + [NEW_ROW];
      Log(InsertRow);
    }

    /** An INSERT that seems to fail: there may be a row, but the image is not processed. */
    method InsertFails(seen: Commit)
      requires Valid() && Now().working == None && seen != Stored
      modifies this`rows, this`trace
      ensures Valid() && old(trace) <= trace && Now() == old(Now()).(rows := rows)
      ensures rows == old(rows) + if seen == Unseen then [NEW_ROW] else []
    {
      if seen == Unseen {
        rows := rows + [NEW_ROW];
        Log(InsertUnseen);
      }
    }

    /** One UPDATE of the row that is being processed. */
    method UpdateImage(id: nat, row: Row)
      requires Valid() && Now().working == Some(id + 1) && id < |rows| && rows[id].status == Pending && Fits(rows, row)
      modifies this`rows, this`trace
      ensures Valid() && old(trace) <= trace && rows == old(rows)[id := row] && Now() == old(Now()).(rows := rows)
    {
      rows := rows[id := row];
      Log(Update(row));
    }

    /** `_mark_failed`: a refused update leaves the row pending. */
    method MarkFailed(id: nat, attempts: nat, world: World) returns (outcome: Outcome)
      requires Valid() && Now().working == Some(id + 1) && id < |rows| && rows[id].status == Pending
      modifies this`rows, this`trace
      ensures Valid() && old(trace) <= trace && Now() == old(Now()).(rows := rows)
      ensures rows == if world.updates == Refused then old(rows)
                      else old(rows)[id := old(rows)[id].(status := Failed, attempts := attempts)]
      ensures outcome == Settled(world, Failed)
    {
      if world.updates != Refused {
        UpdateImage(id, rows[id].(status := Failed, attempts := attempts));
      }
      return Settled(world, Failed);
    }

    /** The download part; an image without a URL fails without a request. */
    method DownloadPart(id: nat, event: Event, image: Image, world: World) returns (fetch: Fetch, ghost issued: nat)
      requires Valid() && Now().working == Some(id + 1) && id < |rows| && rows[id] == NEW_ROW
      modifies this`rows, this`trace
      ensures Valid() && old(trace) <= trace && Now() == old(Now()).(rows := rows)
      ensures rows == old(rows)[id := NEW_ROW.(refreshAttempts := RefreshesOf(setup, event, image, world))]
      ensures fetch == FetchOf(setup, event, image, world)
      ensures Fetches(setup, event, image, world, fetch, rows[id].refreshAttempts)
      ensures fetch.tried == issued <= 2 * Downloader.AttemptLimit(setup.retryCount)
    {
      FetchesExactly(setup, event, image, world);
      if image.url.None? || image.url.value == "" {
        return Fetch(None, "", 0), 0;
      }
      fetch, issued := Download(id, event, image, image.url.value, world);
    }

    /**
     The download part of an image with a URL: the original URL, and once more with a refreshed URL if the
     error looks like an expired link. `tried` is what will be recorded, `issued` the requests really made.
     */
    method Download(id: nat, event: Event, image: Image, url: string, world: World) returns (fetch: Fetch, ghost issued: nat)
      requires Valid() && Now().working == Some(id + 1) && id < |rows| && rows[id] == NEW_ROW
      modifies this`rows, this`trace
      ensures Valid() && old(trace) <= trace && Now() == old(Now()).(rows := rows)
      ensures rows == old(rows)[id := NEW_ROW.(refreshAttempts := Traced(setup, event, image, world))]
      ensures fetch == Fetched(setup, event, image, url, world)
      ensures fetch.tried == issued <= 2 * Downloader.AttemptLimit(setup.retryCount)
    {
      var first, issuedFirst := Downloader.DownloadWithRetry(setup.retryCount, world.firstTries);
      match first {
        case Downloaded(body, attempt) => return Fetch(Some(body), url, attempt), issuedFirst;
        case DownloadError(attempts, lastError) =>
          if !RefreshChain.IsProbablyExpired(lastError) {
            return Fetch(None, url, attempts), issuedFirst;
          }
          var refreshed := RefreshChain.RefreshImageUrl(world.client, image.fileName, event.messageId);
          if refreshed.attempts != [] && world.tracesRefresh != Refused {
            UpdateImage(id, rows[id].(refreshAttempts := |refreshed.attempts|));
          }
          fetch, issued := DownloadAgain(refreshed, url, attempts, world);
          issued := issuedFirst + issued;
      }
    }

    method DownloadAgain(refreshed: RefreshChain.RefreshResult, url: string, tried: nat, world: World)
      returns (fetch: Fetch, ghost issued: nat)
      ensures fetch == Again(setup, refreshed, url, tried, world)
      ensures fetch.tried == tried + issued && issued <= Downloader.AttemptLimit(setup.retryCount)
    {
      if refreshed.url.None? {
        return Fetch(None, url, tried), 0;
      }
      var second, issuedSecond := Downloader.DownloadWithRetry(setup.retryCount, world.secondTries);
      match second {
        case Downloaded(body, attempt) => return Fetch(Some(body), refreshed.url.value, tried + attempt), issuedSecond;
        case DownloadError(attempts, _) => return Fetch(None, refreshed.url.value, tried + attempts), issuedSecond;
      }
    }

    /** From the end of the download on: de-duplicate, write the file, update the row, hand off. */
    method Settle(id: nat, event: Event, image: Image, fetch: Fetch, world: World) returns (outcome: Outcome)
      requires Valid() && Now().working == Some(id + 1) && id < |rows| && rows[id].status == Pending
      modifies this, outbox
      ensures Valid() && old(trace) <= trace && Now() == old(Now()).(rows := rows, outbox := outbox.Now())
      ensures rows == old(rows)[id := StoredRow(setup, old(rows), old(rows)[id], event, image, fetch, world)]
      ensures files == StoredFiles(setup, old(rows), old(files), event, image, fetch, world)
      ensures outcome == StoreOutcome(setup, old(rows), fetch, world)
      ensures outcome == Recorded(Saved) ==>
        var payload := HandOffPayload(setup, event, image, id + 1, fetch.url, fetch.body.value);
        && Begun(old(outbox.Now()), id + 1, payload)
        && Contents() == HandedOff(old(Contents()).(rows := rows, files := files), id + 1, payload, world)
      ensures outcome != Recorded(Saved) ==> unchanged(outbox)
    {
      if fetch.body.None? {
        outcome := MarkFailed(id, fetch.tried, world);
        return;
      }
      var hash := setup.sha256(fetch.body.value);
      if !world.finds {
        outcome := Aborted;
      } else if HasSaved(rows, hash) {
        outcome := StoreDuplicate(id, hash, fetch.tried, world);
      } else if !world.writes {
        outcome := MarkFailed(id, fetch.tried, world);
      } else {
        var path := SavePath(setup, event, image, fetch.url, world.stamp);
        outcome := StoreNew(id, event, image, fetch.url, path, fetch.body.value, fetch.tried, world);
      }
    }

    method StoreDuplicate(id: nat, hash: string, tried: nat, world: World) returns (outcome: Outcome)
      requires Valid() && Now().working == Some(id + 1) && id < |rows| && rows[id].status == Pending && HasSaved(rows, hash)
      modifies this`rows, this`trace
      ensures Valid() && old(trace) <= trace && Now() == old(Now()).(rows := rows)
      ensures rows == if world.updates == Refused then old(rows)
        else old(rows)[id := old(rows)[id].(status := Duplicate, hash := Some(hash), attempts := tried)]
      ensures outcome == Settled(world, Duplicate)
    {
      if world.updates != Refused {
        UpdateImage(id, rows[id].(status := Duplicate, hash := Some(hash), attempts := tried));
      }
      return Settled(world, Duplicate);
    }

    /** The hand-off of the image has begun, with this payload. */
    ghost predicate Begun(before: OutboxProtocol.State, imageId: int, payload: Json.Object)
      requires outbox.trace != []
      reads this, outbox
    {
      && outbox.Now().images == before.images[imageId := payload]
      && outbox.Now().hot == before.hot - {imageId} && outbox.Now().relay == before.relay
    }

    /** New content: the file first, then the row, then the hand-off. */
    method StoreNew(id: nat, event: Event, image: Image, url: string, path: string, body: string, tried: nat, world: World)
      returns (outcome: Outcome)
      requires Valid() && Now().working == Some(id + 1) && id < |rows| && rows[id].status == Pending
      requires !HasSaved(rows, setup.sha256(body))
      modifies this, outbox
      ensures Valid() && old(trace) <= trace && Now() == old(Now()).(rows := rows, outbox := outbox.Now())
      ensures rows == if world.updates == Refused then old(rows)
        else old(rows)[id := old(rows)[id].(
          status := Saved, hash := Some(setup.sha256(body)), attempts := tried, path := Some(path))]
      ensures files == old(files)[path := body]
      ensures outcome == Settled(world, Saved)
      ensures outcome.Recorded? ==>
        var payload := HandOffPayload(setup, event, image, id + 1, url, body);
        && Begun(old(outbox.Now()), id + 1, payload)
        && Contents() == HandedOff(old(Contents()).(rows := rows, files := files), id + 1, payload, world)
      ensures !outcome.Recorded? ==> unchanged(outbox)
    {
      ConsistentAlways(outbox.cfg, trace, |trace| - 1);
      assert id + 1 !in outbox.Now().images;
      files := files[path := body];
      if world.updates != Refused {
        UpdateImage(id, rows[id].(
          status := Saved, hash := Some(setup.sha256(body)), attempts := tried, path := Some(path)));
      }
      if world.updates != Stored || !world.audits {
        return Settled(world, Saved);
      }
      HandOffImage(id, event, image, url, body, world);
      return Recorded(Saved);
    }

    method HandOffImage(id: nat, event: Event, image: Image, url: string, body: string, world: World)
      requires Valid() && Now().working == Some(id + 1) && IsSaved(rows, id + 1) && id + 1 !in outbox.Now().images
      modifies this`trace, outbox
      ensures Valid() && old(trace) <= trace && Now() == old(Now()).(outbox := outbox.Now())
      ensures var payload := HandOffPayload(setup, event, image, id + 1, url, body);
        Begun(old(outbox.Now()), id + 1, payload) && Contents() == HandedOff(old(Contents()), id + 1, payload, world)
    {
      var payload := HandOffPayload(setup, event, image, id + 1, url, body);
      assert Contract.Built(id + 1, payload);
      ghost var from := |outbox.trace|;
      outbox.HandOff(id + 1, payload, world.now, world.recordsIntent, world.delivery, world.recordsResult);
      Log(Begin(payload));
      LogOutbox(from);
    }

    /** The processing of the image in progress is over, normally or by an exception. */
    ghost method End()
      requires Valid() && Now().working.Some? && Now().working.value !in outbox.Now().hot
      modifies this`trace
      ensures Valid() && old(trace) <= trace
      ensures Now() == old(Now()).(working := None, abandoned := GivenUp(old(Now())))
    {
      Log(Finish);
    }

    /** `_process_image` from the inserted row on; `before` is the table without that row. */
    method ProcessRow(ghost before: seq<Row>, id: nat, event: Event, image: Image, world: World)
      returns (outcome: Outcome, ghost issued: nat)
      requires Valid() && id == |before| && rows == before + [NEW_ROW] && Now().working == Some(id + 1)
      requires world.inserts == Stored
      modifies this, outbox
      ensures Valid() && old(trace) <= trace && Now() == old(Now()).(rows := rows, outbox := outbox.Now())
      ensures Contents() == AfterImage(setup, old(Contents()).(rows := before), event, image, world)
      ensures outcome == ImageOutcome(setup, before, event, image, world)
      ensures id + 1 in outbox.Now().images <==> id + 1 in old(outbox.Now()).images || outcome == Recorded(Saved)
      ensures outbox.Now().relay == old(outbox.Now()).relay
      ensures outbox.Now().hot.Keys <= old(outbox.Now()).hot.Keys
      ensures FetchOf(setup, event, image, world).tried == issued <= 2 * Downloader.AttemptLimit(setup.retryCount)
    {
      var fetch;
      fetch, issued := DownloadPart(id, event, image, world);
      SameContent(setup, before, rows, id, event, image, fetch, world);
      outcome := Settle(id, event, image, fetch, world);
      assert rows == before + [rows[id]];
    }

    /** `_process_image` when the insert works. */
    method ProcessInserted(event: Event, image: Image, world: World) returns (outcome: Outcome, ghost issued: nat)
      requires Valid() && Now().working == None && outbox.Now().hot == map[] && world.inserts == Stored
      modifies this, outbox
      ensures Valid() && old(trace) <= trace && Now().working == None
      ensures outbox.Now().hot == map[] && outbox.Now().relay == old(outbox.Now()).relay
      ensures Contents() == AfterImage(setup, old(Contents()), event, image, world)
      ensures outcome == ImageOutcome(setup, old(rows), event, image, world)
      ensures Now().abandoned ==
        old(Now()).abandoned + (if GivesUp(setup, old(rows), event, image, world) then {|old(rows)| + 1} else {})
      ensures issued == FetchOf(setup, event, image, world).tried <= 2 * Downloader.AttemptLimit(setup.retryCount)
    {
      var id := InsertImage();
      outcome, issued := ProcessRow(old(rows), id, event, image, world);
      WhenGivenUp(setup, old(rows), Now(), event, image, world);
      End();
    }

    /**
     `_process_image`. `issued` counts the download requests that are really made. The image is abandoned exactly
     if it gives up; otherwise a saved image's hand-off has begun.
     */
    method ProcessImage(event: Event, image: Image, world: World) returns (outcome: Outcome, ghost issued: nat)
      requires Valid() && Now().working == None && outbox.Now().hot == map[]
      modifies this, outbox
      ensures Valid() && old(trace) <= trace && Now().working == None
      ensures outbox.Now().hot == map[] && outbox.Now().relay == old(outbox.Now()).relay
      ensures Contents() == AfterImage(setup, old(Contents()), event, image, world)
      ensures outcome == ImageOutcome(setup, old(rows), event, image, world)
      ensures world.inserts == Stored ==> Explained(setup, old(Contents()), event, image, world, Contents())
      ensures Now().abandoned ==
        old(Now()).abandoned + (if GivesUp(setup, old(rows), event, image, world) then {|old(rows)| + 1} else {})
      ensures issued == if world.inserts == Stored then FetchOf(setup, event, image, world).tried else 0
      ensures issued <= 2 * Downloader.AttemptLimit(setup.retryCount)
    {
      if world.inserts != Stored {
        InsertFails(world.inserts);
        return NotInserted, 0;
      }
      ImageExplained(setup, Contents(), event, image, world);
      outcome, issued := ProcessInserted(event, image, world);
    }

    /** The image loop of `persist_event`: an exception ends it. */
    method ProcessImages(event: Event, images: seq<Image>, worlds: nat -> World)
      requires Valid() && Now().working == None && outbox.Now().hot == map[]
      modifies this, outbox
      ensures Valid() && old(trace) <= trace && Now().working == None && outbox.Now().hot == map[]
      ensures Contents() == AfterImages(setup, old(Contents()), event, images, worlds, 0)
    {
      for i := 0 to |images|
        invariant Valid() && old(trace) <= trace && Now().working == None && outbox.Now().hot == map[]
        invariant AfterImages(setup, Contents(), event, images, worlds, i) ==
                  AfterImages(setup, old(Contents()), event, images, worlds, 0)
      {
        ghost var before := trace;
        var outcome, issued := ProcessImage(event, images[i], worlds(i));
        PrefixOn(old(trace), before, trace);
        if outcome.Aborted? {
          return;
        }
      }
    }
  }

  /**
   An image that ends as saved: its content was not saved before, and row, file and hash agree on it. An
   image that ends as a duplicate: the very content it brought is saved already.
   */
  lemma SavedOrKnown(setup: Setup, rows: seq<Row>, files: map<string, string>, event: Event, image: Image, world: World)
    requires ImageOutcome(setup, rows, event, image, world).Recorded?
    ensures var row, fetch := ImageRow(setup, rows, event, image, world), FetchOf(setup, event, image, world);
      && row.status == ImageOutcome(setup, rows, event, image, world).status != Pending && row.attempts == fetch.tried
      && (row.status == Failed ==> row.hash.None? && row.path.None?)
      && (row.status != Failed ==> fetch.body.Some? && row.hash == Some(setup.sha256(fetch.body.value)))
      && (row.status == Duplicate ==> HasSaved(rows, row.hash.value) && row.path.None?)
      && (row.status == Saved ==>
            && !HasSaved(rows, row.hash.value) && row.path.Some?
            && var after := StoredFiles(setup, rows, files, event, image, fetch, world);
               row.path.value in after && after[row.path.value] == fetch.body.value)
  {
  }

  lemma RowKeepsDedup(setup: Setup, rows: seq<Row>, event: Event, image: Image, world: World)
    requires Deduplicated(rows)
    ensures Deduplicated(rows + [ImageRow(setup, rows, event, image, world)])
  {
    var row, started := ImageRow(setup, rows, event, image, world), rows + [NEW_ROW];
    InsertKeepsDedup(rows);
    SameContent(setup, rows, started, |rows|, event, image, FetchOf(setup, event, image, world), world);
    UpdateKeepsDedup(started, |rows|, row);
    assert started[|rows| := row] == rows + [row];
  }

  /** Whatever happens to the images of an event, content is saved at most once and duplicates are of saved content. */
  lemma {:induction false} EventKeepsDedup(setup: Setup, s: Store, event: Event, images: seq<Image>,
                                           worlds: nat -> World, k: nat)
    requires Deduplicated(s.rows) && k <= |images|
    ensures Deduplicated(AfterImages(setup, s, event, images, worlds, k).rows)
    decreases |images| - k
  {
    if k < |images| {
      RowKeepsDedup(setup, s.rows, event, images[k], worlds(k));
      InsertKeepsDedup(s.rows);
      var after := AfterImage(setup, s, event, images[k], worlds(k));
      assert after.rows == s.rows || after.rows == s.rows + [NEW_ROW]
             || after.rows == s.rows + [ImageRow(setup, s.rows, event, images[k], worlds(k))];
      EventKeepsDedup(setup, after, event, images, worlds, k + 1);
    }
  }

  function HandOffPayload(setup: Setup, event: Event, image: Image, imageId: int, url: string, body: string): Json.Object {
    Contract.BuildPayload(imageId, setup.sha256(body), url, image.url, TagContext(event, image, imageId, url))
  }

  /** The hand-off gives the worker what its lookup needs. */
  lemma ContextServesLookup(event: Event, image: Image, imageId: int, url: string)
    ensures Naming.ContextOf(TagContext(event, image, imageId, url), NonEmpty(event.messageType, "unknown"),
                             ChatId(event), NonEmpty(event.messageId, "unknown"), image.seqNo)
    ensures Naming.Plain(ChatId(event))
  {
    var id := ChatId(event);
    assert id != "" && forall c :: c in id ==> !IsSpace(c);
    assert id[0] in id && id[|id| - 1] in id;
  }

  /** The path of a group message's image, spelled out; the sender's own name for it is kept if it is safe. */
  lemma SavePathSpelled(setup: Setup, event: Event, image: Image, url: string, stamp: string)
    requires event.messageType.Some? && event.messageType.value != "" && event.messageType.value[0] != '/'
    requires event.groupId.Some? && event.groupId.value != 0 && event.messageId.Some? && event.messageId.value != ""
    requires image.fileName.Some? && Naming.Safe(image.fileName.value) && stamp != "" && stamp[0] != '/'
    ensures SavePath(setup, event, image, url, stamp) ==
      (setup.root + "/" + event.messageType.value + "/" + Naming.Decimal(event.groupId.value)) + "/"
      + (stamp + "_" + event.messageId.value + "_" + Naming.Decimal(image.seqNo) + "_" + image.fileName.value)
  {
    Naming.NameChosen(image.fileName, image.seqNo, setup.urlName(url));
    var chat := Naming.Decimal(event.groupId.value);
    assert chat[0] in chat;
  }

  /** On the worker's host, under its own root, the file saved for the image is there with the same content. */
  predicate StillThere(setup: Setup, event: Event, image: Image, url: string, stamp: string, body: string,
                       host: Naming.Host, root: string) {
    var dir, name := ChatDir(root, event), FileName(setup, event, image, url, stamp);
    && host.list(dir).Some? && name in host.list(dir).value
    && host.read(Naming.Join(dir, name)) == Some(body) && host.sha256(body) == setup.sha256(body)
  }

  /** Chat type and message id are as the lookup needs them. */
  predicate Findable(event: Event) {
    && Naming.Plain(NonEmpty(event.messageType, "unknown"))
    && Naming.Plain(NonEmpty(event.messageId, "unknown")) && Naming.GlobSafe(NonEmpty(event.messageId, "unknown"))
  }

  /** A file in the chat's directory that has the content's hash, and the task resolves to it. */
  ghost predicate Found(setup: Setup, event: Event, body: string, host: Naming.Host, root: string, task: Contract.Task) {
    && host.list(ChatDir(root, event)).Some? && task.sha256 == setup.sha256(body)
    && exists name :: name in host.list(ChatDir(root, event)).value
                      && Naming.ResolvesTo(host, root, task, Naming.Join(ChatDir(root, event), name))
  }

  /** The payload of a hand-off decodes to the image's own task. */
  lemma PayloadDecodes(setup: Setup, event: Event, image: Image, imageId: int, url: string, body: string,
                       parseInt: string -> Option<int>)
    requires imageId > 0
    ensures var decoded := Contract.DecodeTask(
        Some(Json.Obj(HandOffPayload(setup, event, image, imageId, url, body))), parseInt);
      && decoded.Ok? && decoded.value.imageId == imageId && decoded.value.sha256 == setup.sha256(body)
      && decoded.value.context == TagContext(event, image, imageId, url) && decoded.value.imagePath == None
  {
    StripKeepsExactlyTrimmed(setup.sha256(body));
    Contract.ReplayFidelity(imageId, setup.sha256(body), url, image.url, TagContext(event, image, imageId, url), 0,
                            OutboxProtocol.Dict(HandOffPayload(setup, event, image, imageId, url, body)), parseInt);
  }

  /**
   From saved file to tagging, across the two services: the task handed off for a saved image decodes, and
   the worker, under its own root, resolves it to a file with the content's hash while the saved file is there.
   */
  lemma SavedImageIsFound(setup: Setup, event: Event, image: Image, imageId: int, url: string, stamp: string,
                          body: string, host: Naming.Host, root: string, parseInt: string -> Option<int>)
    requires imageId > 0 && Findable(event) && StillThere(setup, event, image, url, stamp, body, host, root)
    ensures var decoded := Contract.DecodeTask(
        Some(Json.Obj(HandOffPayload(setup, event, image, imageId, url, body))), parseInt);
      decoded.Ok? && Found(setup, event, body, host, root, decoded.value)
  {
    PayloadDecodes(setup, event, image, imageId, url, body, parseInt);
    ContextServesLookup(event, image, imageId, url);
    var task := Contract.DecodeTask(
      Some(Json.Obj(HandOffPayload(setup, event, image, imageId, url, body))), parseInt).value;
    Naming.LookupFindsSaved(host, root, task, host.list(ChatDir(root, event)).value,
                            NonEmpty(event.messageType, "unknown"), ChatId(event),
                            NonEmpty(event.messageId, "unknown"), image.seqNo, stamp,
                            Naming.ChooseFilename(image.fileName, image.seqNo, setup.urlName(url)));
  }

  /** The recorded attempts: none without a URL, else at least one and at most two full rounds of retries. */
  lemma AttemptsAccounted(setup: Setup, event: Event, image: Image, world: World)
    ensures var fetch := FetchOf(setup, event, image, world);
      && fetch.tried <= 2 * Downloader.AttemptLimit(setup.retryCount)
      && (fetch.tried == 0 <==> NonEmpty(image.url, "") == "")
      && (fetch.body.Some? ==> 1 <= fetch.tried)
  {
    var limit := Downloader.AttemptLimit(setup.retryCount);
    Downloader.AttemptsInRange(world.firstTries, 1, limit);
    Downloader.AttemptsInRange(world.secondTries, 1, limit);
  }

  /** However the client behaves, at most seven refresh calls are recorded on a row. */
  lemma AtMostSevenRefreshes(setup: Setup, event: Event, image: Image, world: World)
    ensures RefreshesOf(setup, event, image, world) <= 7
  {
    if world.client.Some? {
      RefreshChain.RefreshTrace(world.client.value, image.fileName, event.messageId);
    }
  }
}
