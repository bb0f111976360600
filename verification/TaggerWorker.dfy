/** The message handler of the tagger worker, on top of the queue object. */
module TaggerWorker {
  import opened Common
  import opened QueueProtocol
  import QueueRounds
  import TaggerQueue
  import WorkerProtocol
  import Contract
  import Naming

  /**
   `_process_tagger_task_message`. Only a message that cannot be decoded, or one whose enqueue has
   returned, is to be acknowledged; an enqueue that raises leaves the queue as it was.
   */
  method ProcessMessage(queue: TaggerQueue.Pipeline, w: WorkerProtocol.World, msg: nat, host: Naming.Host,
                        raises: bool, now: int) returns (ack: bool)
    requires queue.Valid() && LockFree(queue.Now()) && queue.resolve == w.resolve
    requires forall path :: WorkerProtocol.Absolute(host.canonical(path))
    modifies queue`queueFile, queue`trace
    ensures queue.Valid() && old(queue.trace) <= queue.trace && queue.Now().pc == old(queue.Now()).pc
    ensures ack <==>
      || WorkerProtocol.Decoded(w, msg).Err?
      || (!raises && WorkerProtocol.QueuePath(w, msg, host).Some?)
    ensures !ack || WorkerProtocol.Decoded(w, msg).Err? ==> queue.queueFile == old(queue.queueFile)
    ensures ack && WorkerProtocol.Decoded(w, msg).Ok? ==>
      var path := WorkerProtocol.QueuePath(w, msg, host).value;
      && queue.queueFile == Enqueued(old(queue.queueFile), path, WorkerProtocol.Decoded(w, msg).value.context, now)
      && Has(queue.queueFile, path)
      && Receipt(path, |queue.auditLog|) in queue.Now().receipts
    ensures !raises && WorkerProtocol.Decoded(w, msg).Ok? ==>
      var task := WorkerProtocol.Decoded(w, msg).value;
      Naming.NamesOwnFile(host, task) ==>
        ack && Has(queue.queueFile, w.resolve(Strip(host.canonical(host.expand(task.imagePath.value)))))
  {
    var task := WorkerProtocol.Decoded(w, msg);
    if task.Err? {
      return true;
    }
    Naming.ResolveExactly(host, w.root, task.value);
    var path := Naming.ResolveTask(host, w.root, task.value);
    if path.None? {
      return false;
    }
    if raises {
      return false;
    }
    AbsolutePathAccepted(w.resolve, path.value, task.value);
    var accepted := queue.EnqueueTask(WorkerProtocol.Payload(path.value, task.value), now);
    assert Has(queue.queueFile, accepted.value) by {
      if !Has(old(queue.queueFile), accepted.value) {
        assert queue.queueFile[|queue.queueFile| - 1].path == accepted.value;
      }
    }
    return true;
  }

  lemma AbsolutePathAccepted(resolve: string -> string, path: string, task: Contract.Task)
    requires WorkerProtocol.Absolute(path)
    ensures QueueRounds.AcceptedPath(resolve, WorkerProtocol.Payload(path, task)) == Some(resolve(Strip(path)))
  {
    assert StripLeft(path) == path;
    KeepsInk(path);
  }
}
