/**
 The task message the two services share, at the level of JSON values: building, encoding and
 decoding it, and its replay through the outbox.
 */
module Contract {
  import opened Common
  import Json
  import OutboxProtocol

  const TASK_VERSION := 2

  datatype Task = Task(
    version: int,
    imageId: int,
    sha256: string,
    sourceUrl: string,
    originalUrl: string,
    context: Json.Object,
    imagePath: Option<string>)

  function Max(a: int, b: int): int {
    if a < b then b else a
  }

  function EncodeTask(t: Task): Json.Object {
    var o := map[
      "version" := Json.Int(Max(TASK_VERSION, t.version)),
      "image_id" := Json.Int(t.imageId),
      "sha256" := Json.Str(t.sha256),
      "source_url" := Json.Str(t.sourceUrl),
      "original_url" := Json.Str(t.originalUrl),
      "context" := Json.Obj(t.context)];
    if t.imagePath.Some? && t.imagePath.value != "" then o["image_path" := Json.Str(t.imagePath.value)] else o
  }

  /** `isinstance(v, int)`: Python counts true and false as 1 and 0. */
  function AsInt(v: Json.Value): Option<int> {
    match v
    case Int(n) => Some(n)
    case Bool(b) => Some(if b then 1 else 0)
    case _ => None
  }

  predicate IsV1(o: Json.Object) {
    "version" !in o && Json.Get(o, "image_path").Str?
  }

  /** `decode_task`; `None` is a message that is not JSON text, and `parseInt` is `int()` on text. */
  function DecodeTask(message: Option<Json.Value>, parseInt: string -> Option<int>): Result<Task> {
    match message
    case None => Err("payload is not JSON")
    case Some(Obj(o)) => if IsV1(o) then DecodeV1(o, parseInt) else DecodeV2(o)
    case Some(_) => Err("payload is not an object")
  }

  function DecodeV2(o: Json.Object): Result<Task> {
    var version, imageId := AsInt(Json.Get(o, "version")), AsInt(Json.Get(o, "image_id"));
    var sha, source, original := Json.Get(o, "sha256"), Json.Get(o, "source_url"), Json.Get(o, "original_url");
    var context, path := Json.Get(o, "context"), Json.Get(o, "image_path");
    if version.None? || version.value < TASK_VERSION then Err("payload.version is invalid")
    else if imageId.None? || imageId.value <= 0 then Err("payload.image_id is invalid")
    else if !sha.Str? || Strip(sha.s) == "" then Err("payload.sha256 is empty")
    else if !source.Str? then Err("payload.source_url is invalid")
    else if !original.Str? then Err("payload.original_url is invalid")
    else if !context.Obj? then Err("payload.context is not an object")
    else if path != Json.Null && !path.Str? then Err("payload.image_path is invalid")
    else Ok(Task(version.value, imageId.value, Strip(sha.s), source.s, original.s, context.fields,
                 if path.Str? then Some(Strip(path.s)) else None))
  }

  function DecodeV1(o: Json.Object, parseInt: string -> Option<int>): Result<Task> {
    var path, context := Json.Get(o, "image_path"), Json.Get(o, "context");
    if !path.Str? || Strip(path.s) == "" then Err("payload.image_path is empty")
    else if !context.Obj? then Err("payload.context is not an object")
    else
      var c := context.fields;
      var imageId := CoercePositiveInt(Json.Get(c, "image_id"), parseInt);
      if imageId.None? then Err("context.image_id is invalid")
      else
        var source := TextOr(Json.Get(c, "source_url"), "");
        Ok(Task(1, imageId.value, TextOr(Json.Get(c, "hash_sha256"), ""), source,
                TextOr(Json.Get(c, "original_url"), source), c, Some(Strip(path.s))))
  }

  function CoercePositiveInt(v: Json.Value, parseInt: string -> Option<int>): (r: Option<int>)
    ensures r.Some? ==> r.value > 0
  {
    var parsed :=
      match v
      case Int(n) => Some(n)
      case Float(x) => Some(if x >= 0.0 then x.Floor else -((-x).Floor))
      case Str(s) => parseInt(s)
      case _ => None;
    if parsed.Some? && parsed.value > 0 then parsed else None
  }

  function TextOr(v: Json.Value, default: string): string {
    if v.Str? then v.s else default
  }

  /** `build_tagger_task_payload`. */
  function BuildPayload(imageId: int, sha256: string, sourceUrl: string, originalUrl: Option<string>,
                        context: Json.Object): Json.Object {
    var original := if originalUrl.Some? && originalUrl.value != "" then originalUrl.value else sourceUrl;
    EncodeTask(Task(TASK_VERSION, imageId, sha256, sourceUrl, original, context, None))
  }

  // ------------------------------------------------------------------ the laws

  /** What survives a round trip: the version is raised to 2, hash and path lose outer white space. */
  function Normalized(t: Task): Task {
    t.(version := Max(TASK_VERSION, t.version),
       sha256 := Strip(t.sha256),
       imagePath := if t.imagePath.Some? && t.imagePath.value != "" then Some(Strip(t.imagePath.value)) else None)
  }

  /** Decoding undoes encoding, for every task: it fails exactly for a bad image id or a blank hash. */
  lemma RoundTrip(t: Task, parseInt: string -> Option<int>)
    ensures DecodeTask(Some(Json.Obj(EncodeTask(t))), parseInt) ==
      if t.imageId <= 0 then Err("payload.image_id is invalid")
      else if Strip(t.sha256) == "" then Err("payload.sha256 is empty")
      else Ok(Normalized(t))
  {
    var o := EncodeTask(t);
    assert Json.Get(o, "version") == Json.Int(Max(TASK_VERSION, t.version));
    assert Json.Get(o, "image_id") == Json.Int(t.imageId);
    assert Json.Get(o, "sha256") == Json.Str(t.sha256);
    assert Json.Get(o, "source_url") == Json.Str(t.sourceUrl);
    assert Json.Get(o, "original_url") == Json.Str(t.originalUrl);
    assert Json.Get(o, "context") == Json.Obj(t.context);
    assert Json.Get(o, "image_path") ==
      if t.imagePath.Some? && t.imagePath.value != "" then Json.Str(t.imagePath.value) else Json.Null;
  }

  /** `true` as the image id of a task passes for 1. */
  lemma TrueIsOne(o: Json.Object, parseInt: string -> Option<int>)
    requires !IsV1(o)
    ensures var decoded := DecodeTask(Some(Json.Obj(o["image_id" := Json.Bool(true)])), parseInt);
      && decoded == DecodeTask(Some(Json.Obj(o["image_id" := Json.Int(1)])), parseInt)
      && (decoded.Ok? ==> decoded.value.imageId == 1)
  {
    var marked, numbered := o["image_id" := Json.Bool(true)], o["image_id" := Json.Int(1)];
    assert forall key :: key != "image_id" ==> Json.Get(marked, key) == Json.Get(numbered, key);
  }

  predicate NonBlankText(v: Json.Value) {
    v.Str? && HasInk(v.s)
  }

  /** What a message must be like to be taken for a version-2 task, and the task it then is. */
  lemma VersionTwoExactly(o: Json.Object, parseInt: string -> Option<int>)
    requires "version" in o || !Json.Get(o, "image_path").Str?
    ensures var decoded := DecodeTask(Some(Json.Obj(o)), parseInt);
      var version, id, path := Json.Get(o, "version"), Json.Get(o, "image_id"), Json.Get(o, "image_path");
      && (decoded.Ok? <==>
            && version.Int? && version.n >= 2 && (id == Json.Bool(true) || (id.Int? && id.n > 0))
            && NonBlankText(Json.Get(o, "sha256")) && Json.Get(o, "source_url").Str? && Json.Get(o, "original_url").Str?
            && Json.Get(o, "context").Obj? && (path.Null? || path.Str?))
      && (decoded.Ok? ==>
            && (id.Int? ==> decoded.value.imageId == id.n) && decoded.value.version == version.n
            && decoded.value.sha256 == Strip(o["sha256"].s) && decoded.value.sourceUrl == o["source_url"].s
            && decoded.value.originalUrl == o["original_url"].s && decoded.value.context == o["context"].fields
            && decoded.value.imagePath == if path.Str? then Some(Strip(path.s)) else None)
  {
    if Json.Get(o, "sha256").Str? {
      BlankExactly(o["sha256"].s);
    }
  }

  /** The number an id in a version-1 context stands for; a boolean stands for none. */
  predicate Denotes(v: Json.Value, n: int, parseInt: string -> Option<int>) {
    match v
    case Int(k) => n == k
    case Float(x) => if x >= 0.0 then n as real <= x < (n + 1) as real else (n - 1) as real < x <= n as real
    case Str(s) => parseInt(s) == Some(n)
    case _ => false
  }

  /** The same for a version-1 message: what it holds, and the task it is turned into. */
  lemma VersionOneExactly(o: Json.Object, parseInt: string -> Option<int>)
    requires "version" !in o && Json.Get(o, "image_path").Str?
    ensures var decoded, context := DecodeTask(Some(Json.Obj(o)), parseInt), Json.Get(o, "context");
      && (decoded.Ok? ==> context.Obj? && NonBlankText(o["image_path"]))
      && (context.Obj? && NonBlankText(o["image_path"]) ==>
            forall n: int :: Denotes(Json.Get(context.fields, "image_id"), n, parseInt) ==>
              (decoded.Ok? <==> n > 0) && (n > 0 ==> decoded.value.imageId == n))
      && (decoded.Ok? ==> Denotes(Json.Get(context.fields, "image_id"), decoded.value.imageId, parseInt))
  {
    BlankExactly(o["image_path"].s);
  }

  /** Its path is the message's own, stripped; hash and URLs are those of the context, where it has them as texts. */
  lemma VersionOneFields(o: Json.Object, parseInt: string -> Option<int>)
    requires "version" !in o && Json.Get(o, "image_path").Str?
    requires DecodeTask(Some(Json.Obj(o)), parseInt).Ok?
    ensures var task := DecodeTask(Some(Json.Obj(o)), parseInt).value;
      var hash, source, original := Json.Get(task.context, "hash_sha256"), Json.Get(task.context, "source_url"),
                                    Json.Get(task.context, "original_url");
      && task.version == 1 && o["context"] == Json.Obj(task.context)
      && task.imagePath == Some(Strip(o["image_path"].s)) && task.imagePath != Some("")
      && (if hash.Str? then hash == Json.Str(task.sha256) else task.sha256 == "")
      && (if source.Str? then source == Json.Str(task.sourceUrl) else task.sourceUrl == "")
      && (if original.Str? then original == Json.Str(task.originalUrl) else task.originalUrl == task.sourceUrl)
  {
  }

  /** The tasks that come back unchanged. */
  lemma RoundTripExactly(t: Task, parseInt: string -> Option<int>)
    ensures DecodeTask(Some(Json.Obj(EncodeTask(t))), parseInt) == Ok(t) <==>
      && t.version >= TASK_VERSION && t.imageId > 0
      && t.sha256 != "" && Trimmed(t.sha256)
      && (t.imagePath.Some? ==> t.imagePath.value != "" && Trimmed(t.imagePath.value))
  {
    RoundTrip(t, parseInt);
    StripKeepsExactlyTrimmed(t.sha256);
    if t.imagePath.Some? {
      StripKeepsExactlyTrimmed(t.imagePath.value);
    }
  }

  /** A decoded version-2 task can be sent on as it is, unless its path was blank; version 1 is raised. */
  lemma DecodedAgain(message: Option<Json.Value>, t: Task, parseInt: string -> Option<int>)
    requires DecodeTask(message, parseInt) == Ok(t)
    ensures DecodeTask(Some(Json.Obj(EncodeTask(t))), parseInt) == Ok(t) <==>
      t.version >= TASK_VERSION && t.imagePath != Some("")
  {
    RoundTripExactly(t, parseInt);
    var o := message.value.fields;
    if !IsV1(o) {
      StripIsTrimmed(Json.Get(o, "sha256").s);
      if Json.Get(o, "image_path").Str? {
        StripIsTrimmed(Json.Get(o, "image_path").s);
      }
    }
  }

  /**
   Replay fidelity. The payload of a saved image decodes to the same task whether it is published
   directly or read back from the outbox row first, as a dictionary or as text; and it does decode.
   */
  lemma ReplayFidelity(imageId: int, sha256: string, sourceUrl: string, originalUrl: Option<string>,
                       context: Json.Object, now: int, column: OutboxProtocol.Column, parseInt: string -> Option<int>)
    requires imageId > 0 && Strip(sha256) != ""
    requires var payload := BuildPayload(imageId, sha256, sourceUrl, originalUrl, context);
      column == OutboxProtocol.InsertedRow(imageId, payload, now).payload || column == OutboxProtocol.Dict(payload)
    ensures var payload := BuildPayload(imageId, sha256, sourceUrl, originalUrl, context);
      var replayed := OutboxProtocol.DecodePayload(column);
      && replayed.Some?
      && DecodeTask(Some(Json.Obj(replayed.value)), parseInt) == DecodeTask(Some(Json.Obj(payload)), parseInt)
      && DecodeTask(Some(Json.Obj(payload)), parseInt) ==
         Ok(Task(TASK_VERSION, imageId, Strip(sha256), sourceUrl,
                 if originalUrl.Some? && originalUrl.value != "" then originalUrl.value else sourceUrl, context, None))
  {
    var original := if originalUrl.Some? && originalUrl.value != "" then originalUrl.value else sourceUrl;
    RoundTrip(Task(TASK_VERSION, imageId, sha256, sourceUrl, original, context, None), parseInt);
  }

  /** A hand-off payload as the logger builds it for a saved image. */
  ghost predicate Built(imageId: int, payload: Json.Object) {
    && imageId > 0
    && exists sha: string, source: string, original: Option<string>, context: Json.Object ::
         Strip(sha) != "" && payload == BuildPayload(imageId, sha, source, original, context)
  }

  /** Such a payload always decodes, to a task for its own image. */
  lemma BuiltDecodes(imageId: int, payload: Json.Object, parseInt: string -> Option<int>)
    requires Built(imageId, payload)
    ensures DecodeTask(Some(Json.Obj(payload)), parseInt).Ok?
    ensures DecodeTask(Some(Json.Obj(payload)), parseInt).value.imageId == imageId
  {
    var sha: string, source: string, original: Option<string>, context: Json.Object :|
      Strip(sha) != "" && payload == BuildPayload(imageId, sha, source, original, context);
    ReplayFidelity(imageId, sha, source, original, context, 0, OutboxProtocol.Dict(payload), parseInt);
  }
}
