/** `download_image_with_retry`: a bounded retry loop whose reported attempts can be trusted. */
module Downloader {
  import opened Common

  /** One HTTP try: the body, or the text of the error. */
  datatype Try = Got(body: string) | Broke(error: string)

  datatype Download =
    | Downloaded(body: string, attempt: nat)
    | DownloadError(attempts: nat, lastError: string)

  function AttemptLimit(retryCount: int): (r: Positive)
    ensures retryCount <= r && (r == retryCount || r == 1)
  {
    if retryCount < 1 then 1 else retryCount
  }

  /** What the loop comes to from its k-th try on. */
  function From(tries: nat -> Try, k: nat, limit: nat): Download
    requires k <= limit
    decreases limit - k
  {
    match tries(k)
    case Got(body) => Downloaded(body, k)
    case Broke(error) => if k == limit then DownloadError(limit, error) else From(tries, k + 1, limit)
  }

  lemma {:induction false} AttemptsInRange(tries: nat -> Try, k: nat, limit: nat)
    requires k <= limit
    ensures match From(tries, k, limit)
      case Downloaded(_, attempt) => k <= attempt <= limit
      case DownloadError(attempts, _) => attempts == limit
    decreases limit - k
  {
    if tries(k).Broke? && k < limit {
      AttemptsInRange(tries, k + 1, limit);
    }
  }

  /** The j-th try is the first one that works, and is still allowed. */
  predicate WorksFirst(tries: nat -> Try, retryCount: int, j: int) {
    && 1 <= j && (j <= retryCount || j == 1)
    && tries(j).Got? && forall k :: 1 <= k < j ==> tries(k).Broke?
  }

  /** No try works, and the last allowed one breaks with this error. */
  predicate BreaksOff(tries: nat -> Try, retryCount: int, last: int, error: string) {
    && 1 <= last && retryCount <= last && (last == retryCount || last == 1)
    && tries(last) == Broke(error) && forall k :: 1 <= k < last ==> tries(k).Broke?
  }

  /** What a download comes to, from its tries alone. */
  lemma {:induction false} FromExactly(tries: nat -> Try, retryCount: int, k: nat)
    requires 1 <= k <= AttemptLimit(retryCount) && forall l :: 1 <= l < k ==> tries(l).Broke?
    ensures match From(tries, k, AttemptLimit(retryCount))
      case Downloaded(body, attempt) => WorksFirst(tries, retryCount, attempt) && tries(attempt) == Got(body)
      case DownloadError(attempts, error) => BreaksOff(tries, retryCount, attempts, error)
    decreases AttemptLimit(retryCount) - k
  {
    if tries(k).Broke? && k < AttemptLimit(retryCount) {
      FromExactly(tries, retryCount, k + 1);
    }
  }

  /** `tries(k)` is what the k-th try comes to; `issued` counts the tries that are made. */
  method DownloadWithRetry(retryCount: int, tries: nat -> Try) returns (r: Download, ghost issued: nat)
    ensures 1 <= issued <= AttemptLimit(retryCount)
    ensures forall k :: 1 <= k < issued ==> tries(k).Broke?
    ensures r == From(tries, 1, AttemptLimit(retryCount))
    ensures match r
      case Downloaded(body, attempt) => attempt == issued && tries(issued) == Got(body)
      case DownloadError(attempts, lastError) =>
        attempts == issued == AttemptLimit(retryCount) && tries(issued) == Broke(lastError)
  {
    var attempts := AttemptLimit(retryCount);
    var lastError := "";
    issued := 0;
    for attempt := 1 to attempts + 1
      invariant issued == attempt - 1
      invariant attempt <= attempts ==> From(tries, 1, attempts) == From(tries, attempt, attempts)
      invariant attempt > attempts ==> From(tries, 1, attempts) == DownloadError(attempts, lastError)
      invariant forall k :: 1 <= k < attempt ==> tries(k).Broke?
      invariant attempt > 1 ==> tries(attempt - 1) == Broke(lastError)
    {
      var outcome := tries(attempt);
      issued := issued + 1;
      match outcome {
        case Got(body) => return Downloaded(body, attempt), issued;
        case Broke(error) => lastError := error;
      }
    }
    return DownloadError(attempts, lastError), issued;
  }
}
