/** The whole way of one image: from the logger's hand-off to the processor's tagging queue. */
module EndToEnd {
  import opened Common
  import Image = ImagePipeline
  import Worker = WorkerProtocol
  import TaggerWorker
  import Q = QueueProtocol
  import Contract
  import Json
  import Naming

  /** Resolving a path that was resolved on this host changes nothing. */
  ghost predicate ResolvesOnce(w: Worker.World, host: Naming.Host) {
    forall file :: var path := host.canonical(file); Worker.Absolute(path) && w.resolve(path) == path
  }

  /** A file in the chat's directory on this host that has the content's hash. */
  predicate HasContent(w: Worker.World, setup: Image.Setup, event: Image.Event, body: string,
                       host: Naming.Host, name: string) {
    var dir := Image.ChatDir(w.root, event);
    var file := Naming.Join(dir, name);
    && host.list(dir).Some? && name in host.list(dir).value
    && Naming.IsFile(host, file) && host.sha256(Naming.Content(host, file)) == setup.sha256(body)
  }

  /** A resolved path is queued as it is, unless the enqueue strips something off it. */
  predicate QueuedAs(w: Worker.World, resolved: string, path: string) {
    if Trimmed(resolved) then path == resolved else path == w.resolve(Strip(resolved))
  }

  /** The path is that of a file with the content's hash, as far as the enqueue keeps it. */
  ghost predicate OwnFile(w: Worker.World, setup: Image.Setup, event: Image.Event, body: string,
                          host: Naming.Host, path: string) {
    exists name :: && HasContent(w, setup, event, body, host, name)
                   && QueuedAs(w, host.canonical(Naming.Join(Image.ChatDir(w.root, event), name)), path)
  }

  /**
   What becomes of a resolved path `p` in the queue. It is queued under its own name if nothing is stripped
   off it, and, when the stripped path is no link itself, under no other condition.
   */
  lemma QueuedUnderOwnName(w: Worker.World, host: Naming.Host, msg: nat, p: string)
    requires Worker.Decoded(w, msg).Ok? && Naming.ResolveTask(host, w.root, Worker.Decoded(w, msg).value) == Some(p)
    requires Worker.Absolute(p) && w.resolve(p) == p
    ensures Worker.QueuePath(w, msg, host).Some? && QueuedAs(w, p, Worker.QueuePath(w, msg, host).value)
    ensures w.resolve(Strip(p)) == Strip(p) ==> (Worker.QueuePath(w, msg, host) == Some(p) <==> Trimmed(p))
  {
    TaggerWorker.AbsolutePathAccepted(w.resolve, p, Worker.Decoded(w, msg).value);
    StripKeepsExactlyTrimmed(p);
  }

  /** What the task resolves to is what the message is queued under. */
  lemma FoundIsQueued(setup: Image.Setup, event: Image.Event, body: string, w: Worker.World, host: Naming.Host, msg: nat)
    requires Worker.Decoded(w, msg).Ok? && ResolvesOnce(w, host)
    requires Image.Found(setup, event, body, host, w.root, Worker.Decoded(w, msg).value)
    ensures Worker.QueuePath(w, msg, host).Some?
    ensures OwnFile(w, setup, event, body, host, Worker.QueuePath(w, msg, host).value)
  {
    var task := Worker.Decoded(w, msg).value;
    var dir := Image.ChatDir(w.root, event);
    var name :| name in host.list(dir).value && Naming.ResolvesTo(host, w.root, task, Naming.Join(dir, name));
    QueuedUnderOwnName(w, host, msg, host.canonical(Naming.Join(dir, name)));
    assert HasContent(w, setup, event, body, host, name);
  }

  /**
   Acknowledged means queued under its own file. If the message of a saved image has been acknowledged, then
   an earlier step of the run queued a path for it that has been in a queue file, or finally audited after
   that step, ever since; and if the saved file was there at that step, this is the path of a file with the
   image's own content hash, unless white space was stripped off it.
   */
  lemma AckedImageIsQueued(setup: Image.Setup, event: Image.Event, image: Image.Image, imageId: int, url: string,
                           stamp: string, body: string, w: Worker.World, run: Worker.Run, i: nat, msg: nat)
    returns (k: nat)
    requires imageId > 0 && Image.Findable(event)
    requires w.message(msg) == Some(Json.Obj(Image.HandOffPayload(setup, event, image, imageId, url, body)))
    requires Worker.Execution(w, run) && i <= |run.steps| && msg in run.states[i].acked
    ensures k < i && Worker.AcceptedAt(w, run, k, msg) && Worker.InHandFrom(w, run, k, msg)
    ensures var host := run.steps[k].host;
      Image.StillThere(setup, event, image, url, stamp, body, host, w.root) && ResolvesOnce(w, host) ==>
      OwnFile(w, setup, event, body, host, Worker.PathAt(w, run, k, msg))
  {
    Image.PayloadDecodes(setup, event, image, imageId, url, body, w.parseInt);
    Worker.AckIsHandOff(w, run, i, msg);
    k :| k < i && Worker.AcceptedAt(w, run, k, msg) && Worker.InHandFrom(w, run, k, msg);
    var host := run.steps[k].host;
    if Image.StillThere(setup, event, image, url, stamp, body, host, w.root) && ResolvesOnce(w, host) {
      Image.SavedImageIsFound(setup, event, image, imageId, url, stamp, body, host, w.root, w.parseInt);
      FoundIsQueued(setup, event, body, w, host, msg);
    }
  }

  /**
   A version-1 message names its file itself: while the file is there, the message is queued under the file's
   resolved path, whatever else the message, the context and the directories hold.
   */
  lemma VersionOneIsQueued(w: Worker.World, host: Naming.Host, msg: nat, o: Json.Object, n: int)
    requires w.message(msg) == Some(Json.Obj(o)) && "version" !in o && Contract.NonBlankText(Json.Get(o, "image_path"))
    requires Json.Get(o, "context").Obj? && n > 0
    requires Contract.Denotes(Json.Get(o["context"].fields, "image_id"), n, w.parseInt)
    requires Naming.IsFile(host, host.expand(Strip(o["image_path"].s))) && ResolvesOnce(w, host)
    ensures Worker.QueuePath(w, msg, host).Some?
    ensures QueuedAs(w, host.canonical(host.expand(Strip(o["image_path"].s))), Worker.QueuePath(w, msg, host).value)
  {
    Contract.VersionOneExactly(o, w.parseInt);
    Contract.VersionOneFields(o, w.parseInt);
    Naming.ResolveExactly(host, w.root, Worker.Decoded(w, msg).value);
    QueuedUnderOwnName(w, host, msg, host.canonical(host.expand(Strip(o["image_path"].s))));
  }

  const SPACED := "/archive/image "

  /**
   Stripping does rename: for every saved image there is a host on which its file is there, as a link to a
   path that ends in a space, and is queued under a path that is not this one.
   */
  lemma SpacedPathIsRenamed(setup: Image.Setup, event: Image.Event, image: Image.Image, imageId: int, url: string,
                            stamp: string, body: string, cfg: Q.Config, root: string, parseInt: string -> Option<int>)
    returns (w: Worker.World, host: Naming.Host)
    requires imageId > 0 && Image.Findable(event)
    ensures w.message(0) == Some(Json.Obj(Image.HandOffPayload(setup, event, image, imageId, url, body)))
    ensures Image.StillThere(setup, event, image, url, stamp, body, host, w.root) && ResolvesOnce(w, host)
    ensures Worker.Decoded(w, 0).Ok?
    ensures Naming.ResolveTask(host, w.root, Worker.Decoded(w, 0).value) == Some(SPACED)
    ensures Worker.QueuePath(w, 0, host).Some? && Worker.QueuePath(w, 0, host) != Some(SPACED)
  {
    var payload := Image.HandOffPayload(setup, event, image, imageId, url, body);
    w := Worker.World(cfg, msg => Some(Json.Obj(payload)), root, path => path, parseInt);
    var name := Image.FileName(setup, event, image, url, stamp);
    host := Naming.Host(dir => Some([name]), path => Some(body), path => 0, path => SPACED, path => path,
                        content => setup.sha256(content), text => None, v => "");
    Image.SavedImageIsFound(setup, event, image, imageId, url, stamp, body, host, root, parseInt);
    QueuedUnderOwnName(w, host, 0, SPACED);
  }
}
