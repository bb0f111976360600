/**
 The HTTP tagger runner: it asks the tagger service about the files of a batch that exist and
 matches the service's answers back to the batch items, by path where an answer names one.
 */
module BatchMatching {
  import opened Common
  import opened QueueProtocol
  import opened QueueRounds
  import Json

  datatype FileKind = Absent | NotAFile | RegularFile

  /** What the host contributes: user and symlink resolution, file checks, and `str()` of non-text values. */
  datatype Host = Host(
    canonical: string -> string,
    kind: string -> FileKind,
    show: Json.Value -> string)

  datatype Response = Fails(error: string) | Reply(payload: Json.Object)

  /** A result always belongs to one item of the batch. */
  datatype BatchResult = BatchResult(item: Item, verdict: Verdict)

  function Text(host: Host, v: Json.Value): string {
    if v.Str? then v.s else host.show(v)
  }

  function TagName(host: Host, raw: Json.Value): string {
    if !raw.Obj? then Strip(Text(host, raw))
    else if "name" in raw.fields then Strip(Text(host, raw.fields["name"]))
    else ""
  }

  function TagNames(host: Host, raws: seq<Json.Value>): (r: seq<string>)
    ensures forall name :: name in r <==> name != "" && exists raw :: raw in raws && TagName(host, raw) == name
  {
    if raws == [] then []
    else
      var last := TagName(host, raws[|raws| - 1]);
      TagNames(host, raws[..|raws| - 1]) + (if last == "" then [] else [last])
  }

  function TextOr(host: Host, v: Json.Value, default: string): string {
    if Json.Truthy(v) then Text(host, v) else default
  }

  /** The error text of an answer that is no success. */
  function Complaint(host: Host, errorType: Json.Value, error: Json.Value): string {
    var kind := Strip(TextOr(host, errorType, ""));
    if kind == "" then TextOr(host, error, "unknown tagger error")
    else kind + ": " + TextOr(host, error, "unknown tagger error")
  }

  /** `_normalize_batch_result`. */
  function Normalize(host: Host, raw: Json.Value): Verdict {
    if !raw.Obj? then Rejected("invalid tagger response item")
    else
      var o := raw.fields;
      if Json.Get(o, "success") == Json.Bool(true) then
        var tags := if "tags" in o then o["tags"] else Json.Arr([]);
        if tags.Arr? then Tagged(TagNames(host, tags.items)) else Rejected("tagger response tags is not a list")
      else Rejected(Complaint(host, Json.Get(o, "error_type"), Json.Get(o, "error")))
  }

  /** `_extract_result_image_path`: the file an answer is about, if it says so. */
  function NamedPath(host: Host, raw: Json.Value): Option<string> {
    if !raw.Obj? then None
    else match Json.Get(raw.fields, "image_path")
      case Str(s) =>
        if Strip(s) == "" || host.canonical(Strip(s)) == "" then None else Some(host.canonical(Strip(s)))
      case _ => None
  }

  /** An answer names the file that its `image_path` text, stripped, resolves to; nothing else names one. */
  lemma NamedByField(host: Host, raw: Json.Value)
    ensures NamedPath(host, raw).Some? <==>
      && raw.Obj? && Json.Get(raw.fields, "image_path").Str? && HasInk(raw.fields["image_path"].s)
      && host.canonical(Strip(raw.fields["image_path"].s)) != ""
    ensures NamedPath(host, raw).Some? ==> NamedPath(host, raw).value == host.canonical(Strip(raw.fields["image_path"].s))
  {
    if raw.Obj? && Json.Get(raw.fields, "image_path").Str? {
      BlankExactly(raw.fields["image_path"].s);
    }
  }

  // ------------------------------------------------- what an answer comes to

  /** The error of an answer, from its fields: its own text, after its kind if it has one. */
  predicate Explains(kind: Json.Value, error: Json.Value, text: string) {
    && (error.Str? && error.s != "" ==>
          && (!Json.Truthy(kind) ==> text == error.s)
          && (kind.Str? && Strip(kind.s) != "" ==> text == Strip(kind.s) + ": " + error.s))
    && (!Json.Truthy(error) ==>
          && (!Json.Truthy(kind) ==> text == "unknown tagger error")
          && (kind.Str? && Strip(kind.s) != "" ==> text == Strip(kind.s) + ": " + "unknown tagger error"))
  }

  lemma ComplaintExplains(host: Host, kind: Json.Value, error: Json.Value)
    ensures Explains(kind, error, Complaint(host, kind, error))
  {
    BlankIsBlank();
  }

  lemma BlankIsBlank()
    ensures Strip("") == ""
  {
  }

  /** An answer tags its file only if its `success` is literally true and its `tags`, if any, are a list. */
  predicate Tags(o: Json.Object) {
    "success" in o && o["success"] == Json.Bool(true) && ("tags" in o ==> o["tags"].Arr?)
  }

  /** The verdict on a file, from the fields of the answer it got. */
  predicate FollowsFields(host: Host, answer: Json.Value, verdict: Verdict) {
    match answer
    case Null => verdict == Rejected("missing result from tagger service")
    case Obj(o) =>
      && (verdict.Tagged? <==> Tags(o))
      && (verdict.Tagged? ==> verdict.tags == if "tags" in o then TagNames(host, o["tags"].items) else [])
      && (!Tags(o) && Json.Get(o, "success") == Json.Bool(true) ==> verdict.error == "tagger response tags is not a list")
      && (Json.Get(o, "success") != Json.Bool(true) ==>
            Explains(Json.Get(o, "error_type"), Json.Get(o, "error"), verdict.error))
    case _ => verdict == Rejected("invalid tagger response item")
  }

  lemma JudgedByFields(host: Host, answer: Json.Value)
    ensures FollowsFields(host, answer, Judge(host, answer))
  {
    if answer.Obj? {
      ComplaintExplains(host, Json.Get(answer.fields, "error_type"), Json.Get(answer.fields, "error"));
    }
  }

  function Unblank(text: string): seq<string> {
    if Strip(text) == "" then [] else [Strip(text)]
  }

  /** The tags are in the order of the list: an entry adds its text or its name at the end, unless that is blank. */
  lemma TagsInOrder(host: Host, raws: seq<Json.Value>, last: Json.Value)
    ensures last.Str? ==> TagNames(host, raws + [last]) == TagNames(host, raws) + Unblank(last.s)
    ensures last.Obj? && "name" in last.fields && last.fields["name"].Str? ==>
      TagNames(host, raws + [last]) == TagNames(host, raws) + Unblank(last.fields["name"].s)
    ensures last.Obj? && "name" !in last.fields ==> TagNames(host, raws + [last]) == TagNames(host, raws)
  {
    assert (raws + [last])[..|raws + [last]| - 1] == raws;
  }

  // -------------------------------------------------- the matching, as functions

  function PreFailure(host: Host, item: Item): BatchResult {
    BatchResult(item, Rejected(
      (if host.kind(item.path) == Absent then "image not found: " else "path is not a file: ") + item.path))
  }

  function PreFailures(host: Host, batch: seq<Item>): seq<BatchResult> {
    if batch == [] then []
    else
      var last := batch[|batch| - 1];
      PreFailures(host, batch[..|batch| - 1])
      + (if host.kind(last.path) == RegularFile then [] else [PreFailure(host, last)])
  }

  function ReadyItems(host: Host, batch: seq<Item>): seq<Item> {
    if batch == [] then []
    else
      var last := batch[|batch| - 1];
      ReadyItems(host, batch[..|batch| - 1]) + (if host.kind(last.path) == RegularFile then [last] else [])
  }

  /** The last answer that names `path`. */
  function LastNamed(host: Host, raws: seq<Json.Value>, path: string): Option<Json.Value> {
    if raws == [] then None
    else
      var last := raws[|raws| - 1];
      if NamedPath(host, last) == Some(path) then Some(last) else LastNamed(host, raws[..|raws| - 1], path)
  }

  function Pathless(host: Host, raws: seq<Json.Value>): seq<Json.Value> {
    if raws == [] then []
    else
      var last := raws[|raws| - 1];
      Pathless(host, raws[..|raws| - 1]) + (if NamedPath(host, last).None? then [last] else [])
  }

  predicate Unnamed(host: Host, raws: seq<Json.Value>, item: Item) {
    LastNamed(host, raws, host.canonical(item.path)).None?
  }

  /** How many of the first `i` items no answer names. */
  function UnnamedBefore(host: Host, raws: seq<Json.Value>, ready: seq<Item>, i: nat): nat
    requires i <= |ready|
  {
    if i == 0 then 0
    else UnnamedBefore(host, raws, ready, i - 1) + (if Unnamed(host, raws, ready[i - 1]) then 1 else 0)
  }

  /** The answer for an item: one that names it, else the path-less answer of the same rank, else null. */
  function AnswerFor(host: Host, raws: seq<Json.Value>, ready: seq<Item>, i: nat): Json.Value
    requires i < |ready|
  {
    var named := LastNamed(host, raws, host.canonical(ready[i].path));
    var rank := UnnamedBefore(host, raws, ready, i);
    if named.Some? then named.value
    else if rank < |Pathless(host, raws)| then Pathless(host, raws)[rank]
    else Json.Null
  }

  function Judge(host: Host, answer: Json.Value): Verdict {
    if answer == Json.Null then Rejected("missing result from tagger service") else Normalize(host, answer)
  }

  function Matched(host: Host, raws: seq<Json.Value>, ready: seq<Item>, n: nat): seq<BatchResult>
    requires n <= |ready|
  {
    seq(n, i requires 0 <= i < n => BatchResult(ready[i], Judge(host, AnswerFor(host, raws, ready, i))))
  }

  function HttpResults(host: Host, hasBaseUrl: bool, batch: seq<Item>, response: Response): Result<seq<BatchResult>> {
    var ready := ReadyItems(host, batch);
    if !hasBaseUrl then Err("CHAT_IMAGE_TAGGER_BASE_URL is empty")
    else if ready == [] then Ok(PreFailures(host, batch))
    else match response
      case Fails(error) => Err(error)
      case Reply(payload) =>
        match Json.Get(payload, "results")
        case Arr(raws) => Ok(PreFailures(host, batch) + Matched(host, raws, ready, |ready|))
        case _ => Err("tagger response missing results list")
  }

  /** Why a file that is not there, or is no file, is not asked about. */
  function Excuse(host: Host, path: string): Option<string> {
    match host.kind(path)
    case Absent => Some("image not found: " + path)
    case NotAFile => Some("path is not a file: " + path)
    case RegularFile => None
  }

  lemma {:induction false} ExcusedBefore(host: Host, batch: seq<Item>, r: BatchResult)
    requires r in PreFailures(host, batch)
    ensures Excuse(host, r.item.path).Some? && r.verdict == Rejected(Excuse(host, r.item.path).value)
  {
    var last := batch[|batch| - 1];
    if host.kind(last.path) == RegularFile || r != PreFailure(host, last) {
      ExcusedBefore(host, batch[..|batch| - 1], r);
    }
  }

  /** A result is the excuse for a missing file, or follows from the fields of an answer in the reply, if it got one. */
  predicate Grounded(host: Host, response: Response, result: BatchResult) {
    match Excuse(host, result.item.path)
    case Some(text) => result.verdict == Rejected(text)
    case None =>
      && response.Reply? && Json.Get(response.payload, "results").Arr?
      && (|| FollowsFields(host, Json.Null, result.verdict)
          || exists raw :: raw in Json.Get(response.payload, "results").items && FollowsFields(host, raw, result.verdict))
  }

  lemma DealtFromReply(host: Host, raws: seq<Json.Value>, ready: seq<Item>, i: nat)
    requires i < |ready|
    ensures var answer := AnswerFor(host, raws, ready, i); answer == Json.Null || answer in raws
  {
    InReply(host, raws, host.canonical(ready[i].path));
  }

  lemma {:induction false} InReply(host: Host, raws: seq<Json.Value>, path: string)
    ensures LastNamed(host, raws, path).Some? ==> LastNamed(host, raws, path).value in raws
    ensures forall raw :: raw in Pathless(host, raws) ==> raw in raws
  {
    if raws != [] {
      InReply(host, raws[..|raws| - 1], path);
    }
  }

  lemma {:induction false} ReadyAreRegular(host: Host, batch: seq<Item>)
    ensures forall item :: item in ReadyItems(host, batch) ==> host.kind(item.path) == RegularFile
    ensures forall r :: r in PreFailures(host, batch) ==> host.kind(r.item.path) != RegularFile
  {
    if batch != [] {
      ReadyAreRegular(host, batch[..|batch| - 1]);
    }
  }

  lemma ResultsGrounded(host: Host, hasBaseUrl: bool, batch: seq<Item>, response: Response, result: BatchResult)
    requires HttpResults(host, hasBaseUrl, batch, response).Ok?
    requires result in HttpResults(host, hasBaseUrl, batch, response).value
    ensures Grounded(host, response, result)
  {
    if result in PreFailures(host, batch) {
      ExcusedBefore(host, batch, result);
    } else {
      var raws, ready := Json.Get(response.payload, "results").items, ReadyItems(host, batch);
      var i :| 0 <= i < |ready| && Matched(host, raws, ready, |ready|)[i] == result;
      ReadyAreRegular(host, batch);
      assert ready[i] in ready;
      DealtFromReply(host, raws, ready, i);
      JudgedByFields(host, AnswerFor(host, raws, ready, i));
    }
  }

  // ------------------------------------------------------------------ the code

  /** `_run_http_tagger_batch`; `Err` stands for the exception it raises. */
  method RunHttpBatch(host: Host, hasBaseUrl: bool, batch: seq<Item>, response: Response)
    returns (r: Result<seq<BatchResult>>)
    ensures r == HttpResults(host, hasBaseUrl, batch, response)
    ensures r.Ok? ==> forall result :: result in r.value ==> Grounded(host, response, result)
  {
    forall result | HttpResults(host, hasBaseUrl, batch, response).Ok?
                    && result in HttpResults(host, hasBaseUrl, batch, response).value
      ensures Grounded(host, response, result)
    {
      ResultsGrounded(host, hasBaseUrl, batch, response, result);
    }
    if !hasBaseUrl {
      return Err("CHAT_IMAGE_TAGGER_BASE_URL is empty");
    }
    var preFailures: seq<BatchResult>, ready: seq<Item>, paths: seq<string> := [], [], [];
    for i := 0 to |batch|
      invariant preFailures == PreFailures(host, batch[..i]) && ready == ReadyItems(host, batch[..i])
      invariant |paths| == |ready| && forall k :: 0 <= k < |ready| ==> paths[k] == host.canonical(ready[k].path)
    {
      assert batch[..i + 1][..i] == batch[..i];
      var item := batch[i];
      if host.kind(item.path) != RegularFile {
        preFailures := preFailures + [PreFailure(host, item)];
      } else {
        ready, paths := ready + [item], paths + [host.canonical(item.path)];
      }
    }
    assert batch[..|batch|] == batch;
    if ready == [] {
      return Ok(preFailures);
    }
    if response.Fails? {
      return Err(response.error);
    }
    var results := Json.Get(response.payload, "results");
    if !results.Arr? {
      return Err("tagger response missing results list");
    }
    var byPath, unmatched := IndexAnswers(host, results.items);
    var matched := MatchAnswers(host, results.items, ready, paths, byPath, unmatched);
    return Ok(preFailures + matched);
  }

  method IndexAnswers(host: Host, raws: seq<Json.Value>)
    returns (byPath: map<string, Json.Value>, unmatched: seq<Json.Value>)
    ensures forall path :: LastNamed(host, raws, path) == Named(byPath, path)
    ensures unmatched == Pathless(host, raws)
  {
    byPath, unmatched := map[], [];
    for i := 0 to |raws|
      invariant forall path :: LastNamed(host, raws[..i], path) == Named(byPath, path)
      invariant unmatched == Pathless(host, raws[..i])
    {
      assert raws[..i + 1][..i] == raws[..i];
      var path := NamedPath(host, raws[i]);
      if path.Some? {
        byPath := byPath[path.value := raws[i]];
      } else {
        unmatched := unmatched + [raws[i]];
      }
    }
    assert raws[..|raws|] == raws;
  }

  function Named(byPath: map<string, Json.Value>, path: string): Option<Json.Value> {
    if path in byPath then Some(byPath[path]) else None
  }

  /** What an item is answered with, given the answer that names it, if any, and the next path-less one. */
  function Dealt(named: Option<Json.Value>, unmatched: seq<Json.Value>, fallback: nat): Json.Value {
    if named.Some? then named.value
    else if fallback < |unmatched| then unmatched[fallback]
    else Json.Null
  }

  lemma MatchStep(host: Host, raws: seq<Json.Value>, ready: seq<Item>, i: nat, named: Option<Json.Value>, fallback: nat)
    requires i < |ready| && named == LastNamed(host, raws, host.canonical(ready[i].path))
    requires fallback == Min(UnnamedBefore(host, raws, ready, i), |Pathless(host, raws)|)
    ensures Matched(host, raws, ready, i + 1) ==
      Matched(host, raws, ready, i) + [BatchResult(ready[i], Judge(host, Dealt(named, Pathless(host, raws), fallback)))]
    ensures Min(UnnamedBefore(host, raws, ready, i + 1), |Pathless(host, raws)|) ==
      if named.None? && fallback < |Pathless(host, raws)| then fallback + 1 else fallback
  {
    assert AnswerFor(host, raws, ready, i) == Dealt(named, Pathless(host, raws), fallback);
  }

  method MatchAnswers(host: Host, ghost raws: seq<Json.Value>, ready: seq<Item>, paths: seq<string>,
                      byPath: map<string, Json.Value>, unmatched: seq<Json.Value>)
    returns (matched: seq<BatchResult>)
    requires |paths| == |ready| && forall k :: 0 <= k < |ready| ==> paths[k] == host.canonical(ready[k].path)
    requires forall path :: LastNamed(host, raws, path) == Named(byPath, path)
    requires unmatched == Pathless(host, raws)
    ensures matched == Matched(host, raws, ready, |ready|)
  {
    matched := [];
    var fallback := 0;
    for i := 0 to |ready|
      invariant matched == Matched(host, raws, ready, i)
      invariant fallback == Min(UnnamedBefore(host, raws, ready, i), |unmatched|)
    {
      var answer := Json.Null;
      MatchStep(host, raws, ready, i, Named(byPath, paths[i]), fallback);
      if paths[i] in byPath {
        answer := byPath[paths[i]];
      } else if fallback < |unmatched| {
        answer := unmatched[fallback];
        fallback := fallback + 1;
      }
      matched := matched + [BatchResult(ready[i], Judge(host, answer))];
    }
  }

  // ------------------------------------------------------------------ the laws

  function ItemsOf(results: seq<BatchResult>): seq<Item> {
    seq(|results|, i requires 0 <= i < |results| => results[i].item)
  }

  lemma ItemsOfConcat(a: seq<BatchResult>, b: seq<BatchResult>)
    ensures ItemsOf(a + b) == ItemsOf(a) + ItemsOf(b)
  {
  }

  lemma {:induction false} SplitKeepsItems(host: Host, batch: seq<Item>)
    ensures multiset(ItemsOf(PreFailures(host, batch))) + multiset(ReadyItems(host, batch)) == multiset(batch)
  {
    if batch != [] {
      var front, last := batch[..|batch| - 1], batch[|batch| - 1];
      SplitKeepsItems(host, front);
      assert batch == front + [last];
      OneMoreItem(front, last);
      if host.kind(last.path) != RegularFile {
        ItemsOfConcat(PreFailures(host, front), [PreFailure(host, last)]);
        assert ItemsOf([PreFailure(host, last)]) == [last];
        OneMoreItem(ItemsOf(PreFailures(host, front)), last);
        assert ReadyItems(host, batch) == ReadyItems(host, front);
      } else {
        OneMoreItem(ReadyItems(host, front), last);
        assert PreFailures(host, batch) == PreFailures(host, front);
      }
    }
  }

  lemma OneMoreItem(items: seq<Item>, item: Item)
    ensures multiset(items + [item]) == multiset(items) + multiset{item}
  {
  }

  /** Matching is total: whatever list the service answers with, every batch item gets one result. */
  lemma OneResultPerItem(host: Host, hasBaseUrl: bool, batch: seq<Item>, response: Response)
    requires HttpResults(host, hasBaseUrl, batch, response).Ok?
    ensures var results := HttpResults(host, hasBaseUrl, batch, response).value;
      multiset(ItemsOf(results)) == multiset(batch) && |results| == |batch|
  {
    var results := HttpResults(host, hasBaseUrl, batch, response).value;
    var pre, ready := PreFailures(host, batch), ReadyItems(host, batch);
    SplitKeepsItems(host, batch);
    if ready == [] {
      assert multiset(ItemsOf(results)) == multiset(batch);
    } else {
      var raws := Json.Get(response.payload, "results").items;
      MatchedItems(host, raws, ready);
      ItemsOfConcat(pre, Matched(host, raws, ready, |ready|));
    }
    SameSize(ItemsOf(results), batch);
  }

  lemma MatchedItems(host: Host, raws: seq<Json.Value>, ready: seq<Item>)
    ensures ItemsOf(Matched(host, raws, ready, |ready|)) == ready
  {
  }

  lemma SameSize(a: seq<Item>, b: seq<Item>)
    requires multiset(a) == multiset(b)
    ensures |a| == |b|
  {
    assert |multiset(a)| == |a| && |multiset(b)| == |b|;
  }

  /** No path-less answer is dealt out twice: unnamed items ask for ever later ones. */
  lemma {:induction false} SlotsApart(host: Host, raws: seq<Json.Value>, ready: seq<Item>, i: nat, j: nat)
    requires i < j <= |ready| && Unnamed(host, raws, ready[i])
    ensures UnnamedBefore(host, raws, ready, i) < UnnamedBefore(host, raws, ready, j)
  {
    if i + 1 < j {
      SlotsApart(host, raws, ready, i, j - 1);
    }
  }

  /** And none is skipped: each slot below the number of unnamed items is asked for by one of them. */
  lemma {:induction false} SlotAskedFor(host: Host, raws: seq<Json.Value>, ready: seq<Item>, n: nat, slot: nat)
    returns (i: nat)
    requires n <= |ready| && slot < UnnamedBefore(host, raws, ready, n)
    ensures i < n && Unnamed(host, raws, ready[i]) && UnnamedBefore(host, raws, ready, i) == slot
  {
    if slot == UnnamedBefore(host, raws, ready, n - 1) {
      i := n - 1;
    } else {
      i := SlotAskedFor(host, raws, ready, n - 1, slot);
    }
  }

  /** Every answer names a file, and no two name the same one. */
  predicate NamesApart(host: Host, raws: seq<Json.Value>) {
    && (forall raw :: raw in raws ==> NamedPath(host, raw).Some?)
    && forall i, j :: 0 <= i < j < |raws| ==> NamedPath(host, raws[i]) != NamedPath(host, raws[j])
  }

  lemma {:induction false} NamedIsMembership(host: Host, raws: seq<Json.Value>, path: string, raw: Json.Value)
    requires NamesApart(host, raws)
    ensures LastNamed(host, raws, path) == Some(raw) <==> raw in raws && NamedPath(host, raw) == Some(path)
    ensures Pathless(host, raws) == []
  {
    if raws != [] {
      var front, last := raws[..|raws| - 1], raws[|raws| - 1];
      NamedIsMembership(host, front, path, raw);
      assert raw in raws <==> raw in front || raw == last;
      assert last in raws;
      if raw in front && NamedPath(host, last) == Some(path) {
        var i :| 0 <= i < |front| && front[i] == raw;
        assert NamedPath(host, raws[i]) != NamedPath(host, raws[|raws| - 1]);
      }
    }
  }

  lemma NamesStayApart(host: Host, raws: seq<Json.Value>, others: seq<Json.Value>)
    requires NamesApart(host, raws) && multiset(raws) == multiset(others)
    ensures NamesApart(host, others)
  {
    forall raw | raw in others
      ensures raw in raws
    {
      assert raw in multiset(others);
    }
    forall i, j | 0 <= i < j < |others|
      ensures NamedPath(host, others[i]) != NamedPath(host, others[j])
    {
      if others[i] == others[j] {
        TwiceMeansTwo(others, i, j);
        TwoMeansTwice(raws, others[i]);
      } else {
        assert others[i] in others && others[j] in others;
      }
    }
  }

  lemma TwiceMeansTwo(s: seq<Json.Value>, i: nat, j: nat)
    requires i < j < |s| && s[i] == s[j]
    ensures multiset(s)[s[i]] >= 2
  {
    assert s == s[..j] + [s[j]] + s[j + 1..];
    assert s[i] in s[..j];
  }

  lemma TwoMeansTwice(s: seq<Json.Value>, v: Json.Value)
    requires multiset(s)[v] >= 2
    ensures exists i, j :: 0 <= i < j < |s| && s[i] == v == s[j]
  {
    assert v in multiset(s);
    var p :| 0 <= p < |s| && s[p] == v;
    assert s == s[..p] + [s[p]] + s[p + 1..];
    if v in multiset(s[..p]) {
      var i :| 0 <= i < p && s[..p][i] == v;
      assert s[i] == v;
    } else {
      assert v in multiset(s[p + 1..]);
      var j :| 0 <= j < |s[p + 1..]| && s[p + 1..][j] == v;
      assert s[p + 1 + j] == v;
    }
  }

  lemma SameAnswers(host: Host, raws: seq<Json.Value>, others: seq<Json.Value>, path: string)
    requires NamesApart(host, raws) && NamesApart(host, others) && multiset(raws) == multiset(others)
    ensures LastNamed(host, raws, path) == LastNamed(host, others, path)
    ensures Pathless(host, raws) == Pathless(host, others) == []
  {
    var a, b := LastNamed(host, raws, path), LastNamed(host, others, path);
    forall raw: Json.Value
      ensures raw in raws <==> raw in others
    {
      assert raw in multiset(raws) <==> raw in multiset(others);
    }
    NamedIsMembership(host, raws, path, if b.Some? then b.value else Json.Null);
    NamedIsMembership(host, others, path, if b.Some? then b.value else Json.Null);
    NamedIsMembership(host, raws, path, if a.Some? then a.value else Json.Null);
    NamedIsMembership(host, others, path, if a.Some? then a.value else Json.Null);
  }

  /** Order does not matter: permuting answers that name distinct files changes nothing. */
  lemma OrderIndependent(host: Host, batch: seq<Item>, raws: seq<Json.Value>, others: seq<Json.Value>)
    requires NamesApart(host, raws) && multiset(raws) == multiset(others)
    ensures HttpResults(host, true, batch, Reply(map["results" := Json.Arr(raws)]))
         == HttpResults(host, true, batch, Reply(map["results" := Json.Arr(others)]))
  {
    var ready := ReadyItems(host, batch);
    NamesStayApart(host, raws, others);
    forall i | 0 <= i < |ready|
      ensures AnswerFor(host, raws, ready, i) == AnswerFor(host, others, ready, i)
    {
      SameAnswers(host, raws, others, host.canonical(ready[i].path));
    }
    assert Matched(host, raws, ready, |ready|) == Matched(host, others, ready, |ready|);
  }

  /** How `run_tagger_once` sees a result of this runner. */
  function ToRunner(results: seq<BatchResult>): seq<RunnerResult> {
    seq(|results|, i requires 0 <= i < |results| =>
      match results[i].verdict
      case Tagged(tags) => RunnerResult(Some(results[i].item.path), true, Some(tags), None)
      case Rejected(error) => RunnerResult(Some(results[i].item.path), false, None, Some(error)))
  }

  /** A path's verdict in `run_tagger_once` is that of some result for the path, when there is one. */
  lemma {:induction false} LastForResult(results: seq<BatchResult>, path: string)
    requires path != "" && exists r :: r in results && r.item.path == path
    ensures exists r :: r in results && r.item.path == path
                        && VerdictOf(LastFor(ToRunner(results), path)) == r.verdict
  {
    var front, last := results[..|results| - 1], results[|results| - 1];
    assert ToRunner(results)[..|results| - 1] == ToRunner(front);
    assert last in results;
    if last.item.path != path {
      var r :| r in results && r.item.path == path;
      assert r in front;
      LastForResult(front, path);
    }
  }

  lemma ResultForItem(host: Host, batch: seq<Item>, response: Response, i: nat)
    requires HttpResults(host, true, batch, response).Ok? && i < |batch|
    ensures exists r :: r in HttpResults(host, true, batch, response).value && r.item == batch[i]
  {
    var results := HttpResults(host, true, batch, response).value;
    OneResultPerItem(host, true, batch, response);
    assert batch[i] in multiset(batch);
    assert batch[i] in ItemsOf(results);
    var k :| 0 <= k < |results| && ItemsOf(results)[k] == batch[i];
    assert results[k] in results;
  }

  /** Every result for a named existing file carries the judgement of the answer that names it. */
  lemma AnsweredByName(host: Host, batch: seq<Item>, raws: seq<Json.Value>, k: nat, r: BatchResult)
    requires NamesApart(host, raws) && k < |raws|
    requires HttpResults(host, true, batch, Reply(map["results" := Json.Arr(raws)])).Ok?
    requires r in HttpResults(host, true, batch, Reply(map["results" := Json.Arr(raws)])).value
    requires host.kind(r.item.path) == RegularFile
    requires NamedPath(host, raws[k]) == Some(host.canonical(r.item.path))
    ensures r.verdict == Normalize(host, raws[k])
  {
    var ready := ReadyItems(host, batch);
    ReadyAreRegular(host, batch);
    NamedIsMembership(host, raws, host.canonical(r.item.path), raws[k]);
    assert r !in PreFailures(host, batch);
    var matched := Matched(host, raws, ready, |ready|);
    assert r in matched;
    var m :| 0 <= m < |matched| && matched[m] == r;
    assert AnswerFor(host, raws, ready, m) == raws[k];
  }

  /**
   Each file gets its own tags. When every answer names a file and none is named twice, an existing
   file of the batch that is named is settled by exactly the answer that names it, wherever that
   answer stands in the reply and even if the batch holds the file more than once.
   */
  lemma OwnAnswer(host: Host, batch: seq<Item>, raws: seq<Json.Value>, i: nat, k: nat)
    requires NamesApart(host, raws) && i < |batch| && k < |raws|
    requires batch[i].path != "" && host.kind(batch[i].path) == RegularFile
    requires NamedPath(host, raws[k]) == Some(host.canonical(batch[i].path))
    requires HttpResults(host, true, batch, Reply(map["results" := Json.Arr(raws)])).Ok?
    ensures var results := HttpResults(host, true, batch, Reply(map["results" := Json.Arr(raws)])).value;
      FollowsFields(host, raws[k], Verdicts(Returned(ToRunner(results)), batch)[i])
  {
    var response := Reply(map["results" := Json.Arr(raws)]);
    var results := HttpResults(host, true, batch, response).value;
    var path := batch[i].path;
    ResultForItem(host, batch, response, i);
    LastForResult(results, path);
    var r :| r in results && r.item.path == path && VerdictOf(LastFor(ToRunner(results), path)) == r.verdict;
    AnsweredByName(host, batch, raws, k, r);
    JudgedByFields(host, raws[k]);
  }

  /** Whatever the service says, a batch item whose file is not there fails, and the text says why. */
  lemma MissingFileFails(host: Host, batch: seq<Item>, response: Response, i: nat)
    requires HttpResults(host, true, batch, response).Ok? && i < |batch|
    requires batch[i].path != "" && Excuse(host, batch[i].path).Some?
    ensures var results := HttpResults(host, true, batch, response).value;
      Verdicts(Returned(ToRunner(results)), batch)[i] == Rejected(Excuse(host, batch[i].path).value)
  {
    var results := HttpResults(host, true, batch, response).value;
    var path := batch[i].path;
    ResultForItem(host, batch, response, i);
    LastForResult(results, path);
    var r :| r in results && r.item.path == path && VerdictOf(LastFor(ToRunner(results), path)) == r.verdict;
    ReadyAreRegular(host, batch);
    assert r in PreFailures(host, batch);
    ExcusedBefore(host, batch, r);
  }

  /** The k-th answer is the last one that names the file. */
  predicate LastToName(host: Host, raws: seq<Json.Value>, path: string, k: int) {
    0 <= k < |raws| && NamedPath(host, raws[k]) == Some(path)
    && forall l :: k < l < |raws| ==> NamedPath(host, raws[l]) != Some(path)
  }

  lemma {:induction false} LastNamedExactly(host: Host, raws: seq<Json.Value>, path: string, k: int)
    ensures LastToName(host, raws, path, k) ==> LastNamed(host, raws, path) == Some(raws[k])
    ensures (forall l :: 0 <= l < |raws| ==> NamedPath(host, raws[l]) != Some(path)) ==> LastNamed(host, raws, path).None?
  {
    if raws != [] {
      LastNamedExactly(host, raws[..|raws| - 1], path, k);
    }
  }

  /** Without named files the service's answers go to the files in the order they were asked about. */
  lemma {:induction false} AllPathless(host: Host, raws: seq<Json.Value>, ready: seq<Item>, i: nat)
    requires forall k :: 0 <= k < |raws| ==> NamedPath(host, raws[k]).None?
    requires i <= |ready|
    ensures Pathless(host, raws) == raws && UnnamedBefore(host, raws, ready, i) == i
    decreases i, |raws|
  {
    if i > 0 {
      AllPathless(host, raws, ready, i - 1);
      LastNamedExactly(host, raws, host.canonical(ready[i - 1].path), 0);
    } else if raws != [] {
      AllPathless(host, raws[..|raws| - 1], ready, 0);
      assert raws == raws[..|raws| - 1] + [raws[|raws| - 1]];
    }
  }

  /** The last answer that names a file is for it; if none names any file, the one in its place is. */
  lemma DealtExactly(host: Host, raws: seq<Json.Value>, ready: seq<Item>, i: nat)
    requires i < |ready|
    ensures forall k :: LastToName(host, raws, host.canonical(ready[i].path), k) ==> AnswerFor(host, raws, ready, i) == raws[k]
    ensures (forall k :: 0 <= k < |raws| ==> NamedPath(host, raws[k]).None?) ==>
      AnswerFor(host, raws, ready, i) == if i < |raws| then raws[i] else Json.Null
  {
    forall k | LastToName(host, raws, host.canonical(ready[i].path), k)
      ensures AnswerFor(host, raws, ready, i) == raws[k]
    {
      LastNamedExactly(host, raws, host.canonical(ready[i].path), k);
    }
    if forall k :: 0 <= k < |raws| ==> NamedPath(host, raws[k]).None? {
      LastNamedExactly(host, raws, host.canonical(ready[i].path), 0);
      AllPathless(host, raws, ready, i);
    }
  }

  /**
   The verdict on each file that the service was asked about: by the fields of the last answer that names it;
   if no answer names any file, by those of the answer in its place, and as missing beyond the last answer.
   */
  lemma AskedFileFollows(host: Host, batch: seq<Item>, raws: seq<Json.Value>, i: nat)
    requires i < |ReadyItems(host, batch)|
    ensures var ready := ReadyItems(host, batch);
      var verdict := Matched(host, raws, ready, |ready|)[i].verdict;
      && (forall k :: LastToName(host, raws, host.canonical(ready[i].path), k) ==> FollowsFields(host, raws[k], verdict))
      && ((forall k :: 0 <= k < |raws| ==> NamedPath(host, raws[k]).None?) ==>
            FollowsFields(host, if i < |raws| then raws[i] else Json.Null, verdict))
  {
    var ready := ReadyItems(host, batch);
    DealtExactly(host, raws, ready, i);
    JudgedByFields(host, AnswerFor(host, raws, ready, i));
  }
}
