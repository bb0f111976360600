/** The chain of actions that tries to obtain a fresh URL for an image whose link has expired. */
module RefreshChain {
  import opened Common
  import PayloadSearch

  const EXPIRED_KEYWORDS := {
    "expire", "expired", "rkey", "forbidden", "signature", "access denied",
    "status=401", "status=403", "status 401", "status 403", "status=410", "status 410"}

  /** `is_probably_expired_url_error`: some keyword occurs in the error, in whatever letter case. */
  predicate IsProbablyExpired(error: string) {
    exists keyword :: keyword in EXPIRED_KEYWORDS && Contains(PayloadSearch.Lower(error), keyword)
  }

  const CHAIN_LENGTH := 4

  function ActionName(action: int): string {
    match action
    case 0 => "nc_get_rkey"
    case 1 => "get_image"
    case 2 => "get_file"
    case _ => "get_msg"
  }

  /** Parameters of a call; a message id of digits only is sent as the number they write. */
  datatype Params = NoParams | FileId(id: string) | File(id: string) | MessageNumber(digits: string) | MessageText(s: string)

  /** What one action call comes to: an exception, or a response with its `data`. */
  datatype Response = Throws(detail: string) | Responds(ok: bool, detail: string, data: PayloadSearch.Node)

  /** The same as the chain sees it: the URL and the file id that the searches find in the data. */
  datatype Reply = Raised(detail: string) | Answered(ok: bool, detail: string, url: Option<string>, fileId: Option<string>)

  /** A client answers its n-th call with the n-th response of its script; beyond it, calls time out. */
  datatype Client = Client(script: seq<Response>, unescape: string -> string)

  /** A call that was made; `action` is its place in the chain. */
  datatype Call = Call(action: int, params: Params, reply: Reply)

  datatype Attempt = Attempt(action: string, params: Params, ok: bool, detail: string, url: Option<string>)

  datatype RefreshResult = RefreshResult(
    url: Option<string>,
    attempts: seq<Attempt>,
    finalPhase: string,
    error: Option<string>)

  function Seen(unescape: string -> string, response: Response): Reply {
    match response
    case Throws(detail) => Raised(detail)
    case Responds(ok, detail, data) =>
      Answered(ok, detail, PayloadSearch.UrlIn(unescape, data), PayloadSearch.FileIdIn(data))
  }

  function Replies(client: Client): seq<Reply> {
    seq(|client.script|, k requires 0 <= k < |client.script| => Seen(client.unescape, client.script[k]))
  }

  function ReplyTo(replies: seq<Reply>, n: nat): Reply {
    if n < |replies| then replies[n] else Raised("TimeoutError")
  }

  function UrlOf(call: Call): Option<string> {
    if call.reply.Raised? then None else call.reply.url
  }

  function AttemptOf(call: Call): Attempt {
    match call.reply
    case Raised(detail) => Attempt(ActionName(call.action), call.params, false, detail, None)
    case Answered(ok, detail, _, _) => Attempt(ActionName(call.action), call.params, ok, detail, UrlOf(call))
  }

  function Attempts(log: seq<Call>): seq<Attempt> {
    seq(|log|, k requires 0 <= k < |log| => AttemptOf(log[k]))
  }

  /** How `get_msg` refers to the message: not at all, by the number its id writes, or by the id as text. */
  datatype MessageRef = NoMessage | Numeric(digits: string) | Textual(id: string)

  predicate IsDigits(s: string) {
    s != "" && forall c :: c in s ==> '0' <= c <= '9'
  }

  function RefOf(messageId: Option<string>): MessageRef {
    if messageId.None? || messageId.value == "" then NoMessage
    else if IsDigits(messageId.value) then Numeric(messageId.value)
    else Textual(messageId.value)
  }

  /** The parameter sets tried for one action. */
  function Choices(action: int, working: Option<string>, message: MessageRef): seq<Params> {
    if action == 3 then
      match message
      case NoMessage => []
      case Numeric(digits) => [MessageNumber(digits)]
      case Textual(id) => [MessageText(id)]
    else if working.Some? && working.value != "" then [FileId(working.value), File(working.value)]
    else [NoParams]
  }

  function Found(log: seq<Call>): Option<string> {
    if log == [] then None else UrlOf(log[|log| - 1])
  }

  /** The file id surfaced so far by one action: an answer without one erases it, an exception does not. */
  function Surfaced(discovered: Option<string>, call: Call): Option<string> {
    if call.reply.Raised? then discovered else call.reply.fileId
  }

  function NextId(working: Option<string>, discovered: Option<string>): Option<string> {
    if discovered.Some? && discovered.value != "" then discovered else working
  }

  /** What a walk over the chain depends on: the replies it gets, and the message it may refer to. */
  datatype Setting = Setting(replies: seq<Reply>, message: MessageRef)

  function NextCall(s: Setting, action: nat, working: Option<string>, choice: nat, n: nat): Call
    requires choice < |Choices(action, working, s.message)|
  {
    Call(action, Choices(action, working, s.message)[choice], ReplyTo(s.replies, n))
  }

  /**
   The calls still to be made when `n` were made before: `choice` parameter sets of this action have been
   tried and surfaced `discovered`. A call with a URL is the last one.
   */
  function Chain(s: Setting, action: nat, working: Option<string>, choice: nat, discovered: Option<string>, n: nat): seq<Call>
    decreases CHAIN_LENGTH - action, |Choices(action, working, s.message)| - choice
  {
    if action >= CHAIN_LENGTH then []
    else if choice >= |Choices(action, working, s.message)| then
      Chain(s, action + 1, NextId(working, discovered), 0, None, n)
    else
      var call := NextCall(s, action, working, choice, n);
      [call] + (if UrlOf(call).Some? then [] else Chain(s, action, working, choice + 1, Surfaced(discovered, call), n + 1))
  }

  function Start(fileId: Option<string>): Option<string> {
    if fileId.Some? then Some(Strip(fileId.value)) else None
  }

  function SettingOf(client: Client, messageId: Option<string>): Setting {
    Setting(Replies(client), RefOf(messageId))
  }

  function Run(client: Client, fileId: Option<string>, messageId: Option<string>): seq<Call> {
    Chain(SettingOf(client, messageId), 0, Start(fileId), 0, None, 0)
  }

  // ------------------------------------------------------------------ the code

  /** `whole` is what has been done so far, and after that the chain from here. */
  ghost predicate Ahead(whole: seq<Call>, log: seq<Call>, s: Setting, action: nat, working: Option<string>, choice: nat,
                        discovered: Option<string>) {
    Found(log).None? && whole == log + Chain(s, action, working, choice, discovered, |log|)
  }

  /** One call of the walk: it ends the chain, or the chain goes on with the next parameter set. */
  lemma CallMade(whole: seq<Call>, log: seq<Call>, s: Setting, action: nat, working: Option<string>, choice: nat,
                 discovered: Option<string>, call: Call)
    requires action < CHAIN_LENGTH && choice < |Choices(action, working, s.message)|
    requires Ahead(whole, log, s, action, working, choice, discovered)
    requires call == NextCall(s, action, working, choice, |log|)
    ensures Found(log + [call]) == UrlOf(call)
    ensures UrlOf(call).Some? ==> whole == log + [call]
    ensures UrlOf(call).None? ==> Ahead(whole, log + [call], s, action, working, choice + 1, Surfaced(discovered, call))
  {
  }

  lemma Reassociate(a: seq<Call>, b: seq<Call>, c: seq<Call>)
    ensures a + (b + c) == a + b + c
  {
  }

  /** `_try_action`; `made` holds the attempts it appends to those in `log`. */
  method TryAction(client: Client, action: nat, choices: seq<Params>, log: seq<Call>,
                   ghost whole: seq<Call>, ghost s: Setting, ghost working: Option<string>)
    returns (url: Option<string>, fileId: Option<string>, made: seq<Call>)
    requires action < CHAIN_LENGTH && s.replies == Replies(client) && choices == Choices(action, working, s.message)
    requires Ahead(whole, log, s, action, working, 0, None)
    ensures url == Found(made)
    ensures url.Some? ==> made == whole
    ensures url.None? ==> Ahead(whole, made, s, action, working, |choices|, fileId)
  {
    url, fileId, made := None, None, log;
    for i := 0 to |choices|
      invariant url.None? && Ahead(whole, made, s, action, working, i, fileId)
    {
      var reply := Ask(client, |made|);
      var call := Call(action, choices[i], reply);
      CallMade(whole, made, s, action, working, i, fileId, call);
      made := made + [call];
      if reply.Answered? {
        fileId, url := reply.fileId, reply.url;
        if url.Some? {
          return;
        }
      }
    }
  }

  /** One call, and what the two searches make of its data. */
  method Ask(client: Client, n: nat) returns (reply: Reply)
    ensures reply == ReplyTo(Replies(client), n)
  {
    if n >= |client.script| {
      return Raised("TimeoutError");
    }
    match client.script[n] {
      case Throws(detail) => return Raised(detail);
      case Responds(ok, detail, data) =>
        var url := PayloadSearch.ExtractFirstHttpUrl(client.unescape, data);
        var fileId := PayloadSearch.ExtractFileId(data);
        return Answered(ok, detail, url, fileId);
    }
  }

  /** The result of a refresh; without a client there is nothing to call. */
  function Refreshed(client: Option<Client>, fileId: Option<string>, messageId: Option<string>): RefreshResult {
    if client.None? then
      var reason := "NapCat action channel is not connected";
      RefreshResult(None, [Attempt("connection", NoParams, false, reason, None)], "error", Some(reason))
    else
      var log := Run(client.value, fileId, messageId);
      if Found(log).Some? then RefreshResult(Found(log), Attempts(log), "response", None)
      else RefreshResult(None, Attempts(log), "error", Some("refresh_chain_exhausted"))
  }

  /** `refresh_image_url` */
  method RefreshImageUrl(client: Option<Client>, fileId: Option<string>, messageId: Option<string>)
    returns (r: RefreshResult)
    ensures r == Refreshed(client, fileId, messageId)
    ensures client.None? ==> r.url.None? && Requests(r.attempts) == [Request("connection", NoParams)]
    ensures client.Some? ==>
      AsPlanned(r.attempts, r.url, if fileId.Some? then Some(Strip(fileId.value)) else None, messageId)
  {
    if client.None? {
      var reason := "NapCat action channel is not connected";
      return RefreshResult(None, [Attempt("connection", NoParams, false, reason, None)], "error", Some(reason));
    }
    var url, log := WalkChain(client.value, messageId, Start(fileId));
    if url.Some? {
      return RefreshResult(url, Attempts(log), "response", None);
    }
    return RefreshResult(None, Attempts(log), "error", Some("refresh_chain_exhausted"));
  }

  /** The loop over the chain. */
  method WalkChain(client: Client, messageId: Option<string>, fileId: Option<string>)
    returns (url: Option<string>, log: seq<Call>)
    ensures log == Chain(SettingOf(client, messageId), 0, fileId, 0, None, 0)
    ensures url == Found(log) && AsPlanned(Attempts(log), url, fileId, messageId)
  {
    ghost var s := SettingOf(client, messageId);
    ghost var whole := Chain(s, 0, fileId, 0, None, 0);
    assert AsPlanned(Attempts(whole), Found(whole), fileId, messageId) by {
      ChainFollowsPlan(client, fileId, messageId);
    }
    var message := RefOf(messageId);
    log := [];
    var working := fileId;
    for action := 0 to CHAIN_LENGTH
      invariant Ahead(whole, log, s, action, working, 0, None)
    {
      var choices := Choices(action, working, message);
      if choices == [] {
        continue;
      }
      var found, discovered, made := TryAction(client, action, choices, log, whole, s, working);
      log := made;
      if found.Some? {
        return found, log;
      }
      working := NextId(working, discovered);
    }
    return None, log;
  }

  // ------------------------------------------------------------------ the laws

  /** A part of the error is, letter case aside, one of these words; what holds `expired` holds `expire`. */
  predicate HasExpiryWord(error: string) {
    exists i, j :: 0 <= i <= j <= |error| && PayloadSearch.Lower(error[i..j]) in ExpiryWords()
  }

  function ExpiryWords(): set<string> {
    {"expire", "rkey", "forbidden", "signature", "access denied", "status=401", "status 401",
     "status=403", "status 403", "status=410", "status 410"}
  }

  lemma Occurs(error: string, word: string, i: nat)
    requires i <= |error| && word <= PayloadSearch.Lower(error)[i..]
    ensures i + |word| <= |error| && PayloadSearch.Lower(error[i..i + |word|]) == word
  {
    assert PayloadSearch.Lower(error)[i..][..|word|] == word;
  }

  lemma OccursThere(error: string, i: nat, j: nat)
    requires i <= j <= |error|
    ensures Contains(PayloadSearch.Lower(error), PayloadSearch.Lower(error[i..j]))
  {
    assert PayloadSearch.Lower(error[i..j]) == PayloadSearch.Lower(error)[i..][..j - i];
  }

  lemma Shortest(keyword: string) returns (word: string)
    requires keyword in EXPIRED_KEYWORDS
    ensures word in ExpiryWords() && word <= keyword
  {
    assert "expired"[..6] == "expire";
    word := if keyword == "expired" then "expire" else keyword;
  }

  lemma AreKeywords()
    ensures ExpiryWords() <= EXPIRED_KEYWORDS
  {
  }

  lemma ExpiredExactly(error: string)
    ensures IsProbablyExpired(error) <==> HasExpiryWord(error)
  {
    var lower := PayloadSearch.Lower(error);
    if IsProbablyExpired(error) {
      var keyword :| keyword in EXPIRED_KEYWORDS && Contains(lower, keyword);
      var i :| 0 <= i <= |lower| && keyword <= lower[i..];
      var word := Shortest(keyword);
      Occurs(error, word, i);
    }
    if i, j :| 0 <= i <= j <= |error| && PayloadSearch.Lower(error[i..j]) in ExpiryWords() {
      AreKeywords();
      OccursThere(error, i, j);
    }
  }

  /** Calls as the chain makes them from action `first` on: in its order, and none after one that has a URL. */
  predicate WellTraced(log: seq<Call>, first: int) {
    log == [] ||
    (&& first <= log[0].action < CHAIN_LENGTH
     && (UrlOf(log[0]).None? || |log| == 1)
     && WellTraced(log[1..], log[0].action))
  }

  predicate InOrder(log: seq<Call>, first: int) {
    && (forall k :: 0 <= k < |log| ==> first <= log[k].action < CHAIN_LENGTH)
    && forall k, l :: 0 <= k < l < |log| ==> log[k].action <= log[l].action
  }

  predicate NoUrlBeforeLast(log: seq<Call>) {
    forall k :: 0 <= k < |log| - 1 ==> UrlOf(log[k]).None?
  }

  lemma {:induction false} WellTracedMeans(log: seq<Call>, first: int)
    requires WellTraced(log, first)
    ensures InOrder(log, first) && NoUrlBeforeLast(log)
  {
    if log != [] {
      WellTracedMeans(log[1..], log[0].action);
      assert forall k :: 0 < k < |log| ==> log[k] == log[1..][k - 1];
    }
  }

  /** At most this many calls are left: two parameter sets an action, one for `get_msg`. */
  function Remaining(action: nat, choice: nat): int {
    if action >= CHAIN_LENGTH then 0 else 7 - 2 * action - choice
  }

  lemma {:induction false} ChainTraced(s: Setting, action: nat, working: Option<string>, choice: nat,
                                       discovered: Option<string>, n: nat)
    requires choice <= |Choices(action, working, s.message)|
    ensures WellTraced(Chain(s, action, working, choice, discovered, n), action)
    ensures |Chain(s, action, working, choice, discovered, n)| <= Remaining(action, choice)
    decreases CHAIN_LENGTH - action, |Choices(action, working, s.message)| - choice
  {
    if action >= CHAIN_LENGTH {
    } else if choice == |Choices(action, working, s.message)| {
      ChainTraced(s, action + 1, NextId(working, discovered), 0, None, n);
      EarlierStart(Chain(s, action + 1, NextId(working, discovered), 0, None, n), action + 1, action);
    } else {
      var call := NextCall(s, action, working, choice, n);
      ChainTraced(s, action, working, choice + 1, Surfaced(discovered, call), n + 1);
      var rest := if UrlOf(call).Some? then [] else Chain(s, action, working, choice + 1, Surfaced(discovered, call), n + 1);
      assert ([call] + rest)[1..] == rest;
    }
  }

  lemma EarlierStart(log: seq<Call>, first: int, earlier: int)
    requires WellTraced(log, first) && earlier <= first
    ensures WellTraced(log, earlier)
  {
  }

  /**
   The trace of a refresh, for every behaviour of the client: at most seven calls, in the order of the
   chain; a URL ends it, so only the last attempt can have one; and the chain is exhausted exactly when
   no attempt has one.
   */
  lemma RefreshTrace(client: Client, fileId: Option<string>, messageId: Option<string>)
    ensures var log, r := Run(client, fileId, messageId), Refreshed(Some(client), fileId, messageId);
      && |r.attempts| == |log| <= 7 && InOrder(log, 0)
      && (forall k :: 0 <= k < |r.attempts| - 1 ==> r.attempts[k].url.None?)
      && (r.url.Some? <==> r.attempts != [] && r.attempts[|r.attempts| - 1].url.Some?)
      && (r.url.Some? ==> r.url == r.attempts[|r.attempts| - 1].url)
      && (r.error == Some("refresh_chain_exhausted") <==> forall k :: 0 <= k < |r.attempts| ==> r.attempts[k].url.None?)
  {
    ChainTraced(SettingOf(client, messageId), 0, Start(fileId), 0, None, 0);
    WellTracedMeans(Run(client, fileId, messageId), 0);
    var log, attempts := Run(client, fileId, messageId), Refreshed(Some(client), fileId, messageId).attempts;
    forall k | 0 <= k < |log|
      ensures attempts[k].url == UrlOf(log[k])
    {
    }
  }

  /** The file id that the calls of one action hand on: that of its last answer, if it carries one. */
  function DiscoveredBy(log: seq<Call>, action: int): Option<string> {
    if log == [] then None
    else
      var front, last := log[..|log| - 1], log[|log| - 1];
      if last.action == action then Surfaced(DiscoveredBy(front, action), last) else DiscoveredBy(front, action)
  }

  /** The file id in use when `action` starts: the last one an earlier action handed on, else the original. */
  function WorkingId(start: Option<string>, log: seq<Call>, action: nat): Option<string> {
    if action == 0 then start
    else NextId(WorkingId(start, log, action - 1), DiscoveredBy(log, action - 1))
  }

  lemma DiscoveredByNext(log: seq<Call>, call: Call, action: int)
    ensures DiscoveredBy(log + [call], action) ==
      if call.action == action then Surfaced(DiscoveredBy(log, action), call) else DiscoveredBy(log, action)
  {
  }

  /** A call does not change the id in use when its own action started. */
  lemma {:induction false} WorkingIdKeeps(start: Option<string>, log: seq<Call>, call: Call, action: nat)
    requires action <= call.action
    ensures WorkingId(start, log + [call], action) == WorkingId(start, log, action)
  {
    if action > 0 {
      WorkingIdKeeps(start, log, call, action - 1);
      DiscoveredByNext(log, call, action - 1);
    }
  }

  lemma {:induction false} NothingDiscovered(log: seq<Call>, action: int)
    requires forall k :: 0 <= k < |log| ==> log[k].action < action
    ensures DiscoveredBy(log, action) == None
  {
    if log != [] {
      NothingDiscovered(log[..|log| - 1], action);
    }
  }

  /** The k-th call takes its parameters from the id in use, given the calls before it. */
  predicate UsesWorkingId(start: Option<string>, message: MessageRef, log: seq<Call>, k: nat)
    requires k < |log|
  {
    log[k].action >= 0 && log[k].params in Choices(log[k].action, WorkingId(start, log[..k], log[k].action), message)
  }

  /** The chain from here, after the calls `before`. */
  function LogFrom(s: Setting, start: Option<string>, before: seq<Call>, action: nat, choice: nat): seq<Call> {
    before + Chain(s, action, WorkingId(start, before, action), choice, DiscoveredBy(before, action), |before|)
  }

  function ChoicesFrom(s: Setting, start: Option<string>, before: seq<Call>, action: nat): seq<Params> {
    Choices(action, WorkingId(start, before, action), s.message)
  }

  lemma NextAction(s: Setting, start: Option<string>, before: seq<Call>, action: nat)
    requires action < CHAIN_LENGTH && forall i :: 0 <= i < |before| ==> before[i].action <= action
    ensures LogFrom(s, start, before, action, |ChoicesFrom(s, start, before, action)|)
         == LogFrom(s, start, before, action + 1, 0)
  {
    NothingDiscovered(before, action + 1);
  }

  /** The call made next, if any is. */
  lemma CallNext(s: Setting, start: Option<string>, before: seq<Call>, action: nat, choice: nat) returns (call: Call)
    requires action < CHAIN_LENGTH && choice < |ChoicesFrom(s, start, before, action)|
    ensures call.action == action && call.params == ChoicesFrom(s, start, before, action)[choice]
    ensures LogFrom(s, start, before, action, choice) ==
      if UrlOf(call).Some? then before + [call] else LogFrom(s, start, before + [call], action, choice + 1)
    ensures WorkingId(start, before + [call], action) == WorkingId(start, before, action)
  {
    var working, discovered := WorkingId(start, before, action), DiscoveredBy(before, action);
    call := NextCall(s, action, working, choice, |before|);
    WorkingIdKeeps(start, before, call, action);
    DiscoveredByNext(before, call, action);
    var rest := if UrlOf(call).Some? then [] else Chain(s, action, working, choice + 1, Surfaced(discovered, call), |before| + 1);
    Reassociate(before, [call], rest);
    assert before + [call] + [] == before + [call];
  }

  lemma {:induction false} ChainUsesWorkingId(s: Setting, start: Option<string>, before: seq<Call>, action: nat,
                                              choice: nat, k: nat)
    requires forall i :: 0 <= i < |before| ==> before[i].action <= action
    requires choice <= |ChoicesFrom(s, start, before, action)|
    requires |before| <= k < |LogFrom(s, start, before, action, choice)|
    ensures UsesWorkingId(start, s.message, LogFrom(s, start, before, action, choice), k)
    decreases CHAIN_LENGTH - action, |ChoicesFrom(s, start, before, action)| - choice
  {
    if choice == |ChoicesFrom(s, start, before, action)| {
      NextAction(s, start, before, action);
      ChainUsesWorkingId(s, start, before, action + 1, 0, k);
    } else {
      var log := LogFrom(s, start, before, action, choice);
      var call := CallNext(s, start, before, action, choice);
      if k == |before| {
        assert log[..k] == before && log[k] == call;
      } else {
        ChainUsesWorkingId(s, start, before + [call], action, choice + 1, k);
      }
    }
  }

  // -------------------------------------------------- which calls are made

  /** A call as the channel sees it: the action's name and its parameters. */
  datatype Request = Request(action: string, params: Params)

  function Requests(attempts: seq<Attempt>): seq<Request> {
    seq(|attempts|, k requires 0 <= k < |attempts| => Request(attempts[k].action, attempts[k].params))
  }

  /** An action is asked for a file under both names of the parameter, or without any when no file id is in use. */
  function Asked(action: string, id: Option<string>): seq<Request> {
    if id.Some? && id.value != "" then [Request(action, FileId(id.value)), Request(action, File(id.value))]
    else [Request(action, NoParams)]
  }

  /** The message itself is asked for last, by number if its id has nothing but digits. */
  function AskedForMessage(messageId: Option<string>): seq<Request> {
    if messageId.None? || messageId.value == "" then []
    else if forall c :: c in messageId.value ==> '0' <= c <= '9' then [Request("get_msg", MessageNumber(messageId.value))]
    else [Request("get_msg", MessageText(messageId.value))]
  }

  /** All calls of a refresh in which no answer has a URL, given the ids in use when the three file actions start. */
  function Plan(first: Option<string>, second: Option<string>, third: Option<string>, messageId: Option<string>): seq<Request> {
    Asked("nc_get_rkey", first) + SecondPart(second, third, messageId)
  }

  function SecondPart(second: Option<string>, third: Option<string>, messageId: Option<string>): seq<Request> {
    Asked("get_image", second) + ThirdPart(third, messageId)
  }

  function ThirdPart(third: Option<string>, messageId: Option<string>): seq<Request> {
    Asked("get_file", third) + AskedForMessage(messageId)
  }

  function ForAction(action: int, params: seq<Params>): seq<Request> {
    seq(|params|, k requires 0 <= k < |params| => Request(ActionName(action), params[k]))
  }

  /** Calls of this action and of later ones do not change the id in use when an action up to this one started. */
  lemma {:induction false} IdAlong(s: Setting, start: Option<string>, before: seq<Call>, action: nat, choice: nat, a: nat)
    requires a <= action && forall i :: 0 <= i < |before| ==> before[i].action <= action
    requires choice <= |ChoicesFrom(s, start, before, action)|
    ensures WorkingId(start, LogFrom(s, start, before, action, choice), a) == WorkingId(start, before, a)
    decreases CHAIN_LENGTH - action, |ChoicesFrom(s, start, before, action)| - choice
  {
    if action >= CHAIN_LENGTH {
      assert LogFrom(s, start, before, action, choice) == before;
    } else if choice == |ChoicesFrom(s, start, before, action)| {
      NextAction(s, start, before, action);
      IdAlong(s, start, before, action + 1, 0, a);
    } else {
      var call := CallNext(s, start, before, action, choice);
      WorkingIdKeeps(start, before, call, a);
      if UrlOf(call).None? {
        IdAlong(s, start, before + [call], action, choice + 1, a);
      }
    }
  }

  /** The log goes on from `before` with these requests, and is cut short only by a URL. */
  predicate GoesOn(before: seq<Call>, log: seq<Call>, planned: seq<Request>) {
    var whole := Requests(Attempts(before)) + planned;
    Requests(Attempts(log)) <= whole && (Found(log).None? ==> Requests(Attempts(log)) == whole)
  }

  lemma OneRequest(before: seq<Call>, call: Call)
    ensures Requests(Attempts(before + [call])) ==
      Requests(Attempts(before)) + [Request(ActionName(call.action), call.params)]
  {
  }

  lemma GoesOnFrom(before: seq<Call>, mid: seq<Call>, log: seq<Call>, first: seq<Request>, rest: seq<Request>)
    requires GoesOn(before, mid, first)
    requires if Found(mid).Some? then log == mid else GoesOn(mid, log, rest)
    ensures GoesOn(before, log, first + rest)
  {
    assert Requests(Attempts(before)) + first + rest == Requests(Attempts(before)) + (first + rest);
  }

  lemma ForActionStep(action: int, choices: seq<Params>, choice: nat)
    requires choice < |choices|
    ensures ForAction(action, choices[choice..]) ==
      [Request(ActionName(action), choices[choice])] + ForAction(action, choices[choice + 1..])
  {
  }

  /** The calls of one action, up to the first that has a URL. */
  lemma {:induction false} ActionGoesOn(s: Setting, start: Option<string>, before: seq<Call>, action: nat, choice: nat)
    returns (mid: seq<Call>)
    requires action < CHAIN_LENGTH && Found(before).None? && forall i :: 0 <= i < |before| ==> before[i].action <= action
    requires choice <= |ChoicesFrom(s, start, before, action)|
    ensures GoesOn(before, mid, ForAction(action, ChoicesFrom(s, start, before, action)[choice..]))
    ensures LogFrom(s, start, before, action, choice) ==
      if Found(mid).Some? then mid else LogFrom(s, start, mid, action + 1, 0)
    ensures forall i :: 0 <= i < |mid| ==> mid[i].action <= action
    decreases |ChoicesFrom(s, start, before, action)| - choice
  {
    var choices := ChoicesFrom(s, start, before, action);
    if choice == |choices| {
      mid := before;
      NextAction(s, start, before, action);
      assert ForAction(action, choices[choice..]) == [];
    } else {
      var call := CallNext(s, start, before, action, choice);
      var made, rest := [Request(ActionName(action), choices[choice])], ForAction(action, choices[choice + 1..]);
      OneRequest(before, call);
      mid := before + [call];
      if UrlOf(call).None? {
        mid := ActionGoesOn(s, start, before + [call], action, choice + 1);
      }
      GoesOnFrom(before, before + [call], mid, made, rest);
      ForActionStep(action, choices, choice);
    }
  }

  lemma FileActionSpelled(message: MessageRef, action: nat, id: Option<string>)
    requires action < 3
    ensures ForAction(action, Choices(action, id, message)[0..]) == Asked(ActionName(action), id)
  {
    var params := Choices(action, id, message);
    assert params[0..] == params;
  }

  lemma MessageSpelled(id: Option<string>, messageId: Option<string>)
    ensures ForAction(3, Choices(3, id, RefOf(messageId))[0..]) == AskedForMessage(messageId)
  {
    var params := Choices(3, id, RefOf(messageId));
    assert params[0..] == params;
    if messageId.Some? && messageId.value != "" {
      var text := messageId.value;
      var asked := if IsDigits(text) then MessageNumber(text) else MessageText(text);
      assert params == [asked];
      assert ActionName(3) == "get_msg";
      assert ForAction(3, [asked])[0] == Request("get_msg", asked);
      assert AskedForMessage(messageId) == [Request("get_msg", asked)];
    } else {
      assert params == [] && ForAction(3, []) == [];
    }
  }

  /** After the file actions: the message, and that is all. */
  lemma MessageGoesOn(s: Setting, start: Option<string>, before: seq<Call>, messageId: Option<string>)
    requires s.message == RefOf(messageId) && Found(before).None? && forall i :: 0 <= i < |before| ==> before[i].action <= 3
    ensures GoesOn(before, LogFrom(s, start, before, 3, 0), AskedForMessage(messageId))
  {
    var mid := ActionGoesOn(s, start, before, 3, 0);
    MessageSpelled(WorkingId(start, before, 3), messageId);
    assert LogFrom(s, start, mid, 4, 0) == mid;
  }

  /** A file action, and what comes after it. */
  lemma FileActionGoesOn(s: Setting, start: Option<string>, before: seq<Call>, action: nat) returns (mid: seq<Call>)
    requires action < 3 && Found(before).None? && forall i :: 0 <= i < |before| ==> before[i].action <= action
    ensures var log := LogFrom(s, start, before, action, 0);
      && GoesOn(before, mid, Asked(ActionName(action), WorkingId(start, log, action)))
      && log == if Found(mid).Some? then mid else LogFrom(s, start, mid, action + 1, 0)
    ensures forall i :: 0 <= i < |mid| ==> mid[i].action <= action
  {
    mid := ActionGoesOn(s, start, before, action, 0);
    IdAlong(s, start, before, action, 0, action);
    FileActionSpelled(s.message, action, WorkingId(start, before, action));
  }

  lemma ThirdGoesOn(s: Setting, start: Option<string>, before: seq<Call>, messageId: Option<string>)
    requires s.message == RefOf(messageId) && Found(before).None? && forall i :: 0 <= i < |before| ==> before[i].action <= 2
    ensures var log := LogFrom(s, start, before, 2, 0);
      GoesOn(before, log, ThirdPart(WorkingId(start, log, 2), messageId))
  {
    var log := LogFrom(s, start, before, 2, 0);
    var mid := FileActionGoesOn(s, start, before, 2);
    if Found(mid).None? {
      MessageGoesOn(s, start, mid, messageId);
    }
    GoesOnFrom(before, mid, log, Asked("get_file", WorkingId(start, log, 2)), AskedForMessage(messageId));
  }

  lemma SecondGoesOn(s: Setting, start: Option<string>, before: seq<Call>, messageId: Option<string>)
    requires s.message == RefOf(messageId) && Found(before).None? && forall i :: 0 <= i < |before| ==> before[i].action <= 1
    ensures var log := LogFrom(s, start, before, 1, 0);
      GoesOn(before, log, SecondPart(WorkingId(start, log, 1), WorkingId(start, log, 2), messageId))
  {
    var log := LogFrom(s, start, before, 1, 0);
    var mid := FileActionGoesOn(s, start, before, 1);
    if Found(mid).None? {
      ThirdGoesOn(s, start, mid, messageId);
    }
    GoesOnFrom(before, mid, log, Asked("get_image", WorkingId(start, log, 1)),
               ThirdPart(WorkingId(start, log, 2), messageId));
  }

  lemma FirstGoesOn(s: Setting, start: Option<string>, messageId: Option<string>)
    requires s.message == RefOf(messageId)
    ensures var log := LogFrom(s, start, [], 0, 0);
      GoesOn([], log, Plan(start, WorkingId(start, log, 1), WorkingId(start, log, 2), messageId))
  {
    var log := LogFrom(s, start, [], 0, 0);
    var mid := FileActionGoesOn(s, start, [], 0);
    if Found(mid).None? {
      SecondGoesOn(s, start, mid, messageId);
    }
    GoesOnFrom([], mid, log, Asked("nc_get_rkey", start),
               SecondPart(WorkingId(start, log, 1), WorkingId(start, log, 2), messageId));
  }

  /** The attempts are those of the plan, in full if no answer has a URL, and else up to the answer that has one. */
  ghost predicate AsPlanned(attempts: seq<Attempt>, url: Option<string>, first: Option<string>, messageId: Option<string>) {
    exists second, third :: FollowsPlan(attempts, url, Plan(first, second, third, messageId))
  }

  predicate FollowsPlan(attempts: seq<Attempt>, url: Option<string>, plan: seq<Request>) {
    Requests(attempts) <= plan && (url.None? ==> Requests(attempts) == plan)
  }

  lemma ChainFollowsPlan(client: Client, start: Option<string>, messageId: Option<string>)
    ensures var log := Chain(SettingOf(client, messageId), 0, start, 0, None, 0);
      FollowsPlan(Attempts(log), Found(log), Plan(start, WorkingId(start, log, 1), WorkingId(start, log, 2), messageId))
  {
    var log := Chain(SettingOf(client, messageId), 0, start, 0, None, 0);
    assert LogFrom(SettingOf(client, messageId), start, [], 0, 0) == log;
    FirstGoesOn(SettingOf(client, messageId), start, messageId);
    NothingMade(Plan(start, WorkingId(start, log, 1), WorkingId(start, log, 2), messageId));
  }

  /**
   The calls of a refresh, by name. If no answer has a URL, the three file actions are all asked with the id in
   use, and then the message if it has an id; a URL cuts this short, but nothing is left out or swapped before it.
   */
  lemma RefreshFollowsPlan(client: Client, fileId: Option<string>, messageId: Option<string>)
    ensures var r, log := Refreshed(Some(client), fileId, messageId), Run(client, fileId, messageId);
      var start := if fileId.Some? then Some(Strip(fileId.value)) else None;
      FollowsPlan(r.attempts, r.url, Plan(start, WorkingId(start, log, 1), WorkingId(start, log, 2), messageId))
  {
    ChainFollowsPlan(client, Start(fileId), messageId);
  }

  lemma NothingMade(planned: seq<Request>)
    ensures Requests(Attempts([])) + planned == planned
  {
  }

  lemma {:induction false} ChainReplies(s: Setting, action: nat, working: Option<string>, choice: nat,
                                        discovered: Option<string>, n: nat, k: nat)
    requires k < |Chain(s, action, working, choice, discovered, n)|
    ensures Chain(s, action, working, choice, discovered, n)[k].reply == ReplyTo(s.replies, n + k)
    decreases CHAIN_LENGTH - action, |Choices(action, working, s.message)| - choice
  {
    if choice >= |Choices(action, working, s.message)| {
      ChainReplies(s, action + 1, NextId(working, discovered), 0, None, n, k);
    } else if k > 0 {
      var call := NextCall(s, action, working, choice, n);
      ChainReplies(s, action, working, choice + 1, Surfaced(discovered, call), n + 1, k - 1);
    }
  }

  /** The k-th attempt has the URL that is in the data of the client's k-th response, if that is no exception. */
  lemma AttemptsAnswered(client: Client, fileId: Option<string>, messageId: Option<string>, k: nat)
    requires k < |Refreshed(Some(client), fileId, messageId).attempts|
    ensures Refreshed(Some(client), fileId, messageId).attempts[k].url ==
      if k < |client.script| && client.script[k].Responds? then PayloadSearch.UrlIn(client.unescape, client.script[k].data)
      else None
  {
    ChainReplies(SettingOf(client, messageId), 0, Start(fileId), 0, None, 0, k);
  }

  // ------------------------------------------------ which file id is in use

  predicate Surfaces(call: Call) {
    call.reply.Answered? && call.reply.fileId.Some? && call.reply.fileId.value != ""
  }

  /** The file id that a call of an earlier action surfaced last, whatever was answered since; else the original one. */
  function LatestId(start: Option<string>, log: seq<Call>, action: int): Option<string> {
    if log == [] then start
    else
      var front, last := log[..|log| - 1], log[|log| - 1];
      if last.action < action && Surfaces(last) then last.reply.fileId else LatestId(start, front, action)
  }

  /** The call that surfaced it. */
  predicate LastSurfacing(log: seq<Call>, action: int, k: nat) {
    && k < |log| && log[k].action < action && Surfaces(log[k])
    && forall l :: k < l < |log| && log[l].action < action ==> !Surfaces(log[l])
  }

  /** A later call of the same action was answered without a file id. */
  predicate Erased(log: seq<Call>, k: nat)
    requires k < |log|
  {
    exists l :: k < l < |log| && log[l].action == log[k].action && log[l].reply.Answered? && !Surfaces(log[l])
  }

  lemma {:induction false} LatestSurfaced(start: Option<string>, log: seq<Call>, action: int, k: nat)
    requires LastSurfacing(log, action, k)
    ensures LatestId(start, log, action) == log[k].reply.fileId
  {
    if k < |log| - 1 {
      LatestSurfaced(start, log[..|log| - 1], action, k);
    }
  }

  lemma {:induction false} NothingSurfaced(start: Option<string>, log: seq<Call>, action: int)
    ensures (exists k :: 0 <= k < |log| && LastSurfacing(log, action, k)) || LatestId(start, log, action) == start
  {
    if log != [] {
      var front, last := log[..|log| - 1], log[|log| - 1];
      NothingSurfaced(start, front, action);
      if last.action < action && Surfaces(last) {
        assert LastSurfacing(log, action, |log| - 1);
      } else if k :| 0 <= k < |front| && LastSurfacing(front, action, k) {
        assert LastSurfacing(log, action, k);
      }
    }
  }

  /** An action whose calls surface nothing leaves the id in use as it was. */
  lemma {:induction false} NothingFromAction(log: seq<Call>, action: int, working: Option<string>)
    requires forall l :: 0 <= l < |log| && log[l].action == action ==> !Surfaces(log[l])
    ensures NextId(working, DiscoveredBy(log, action)) == working
  {
    if log != [] {
      NothingFromAction(log[..|log| - 1], action, working);
    }
  }

  /** What an action hands on is the id it surfaced last, unless a later answer erased it. */
  lemma {:induction false} FromAction(log: seq<Call>, action: int, k: nat, working: Option<string>)
    requires k < |log| && log[k].action == action && Surfaces(log[k])
    requires forall l :: k < l < |log| && log[l].action == action ==> !Surfaces(log[l])
    ensures NextId(working, DiscoveredBy(log, action)) == if Erased(log, k) then working else log[k].reply.fileId
  {
    if k < |log| - 1 {
      var front, last := log[..|log| - 1], log[|log| - 1];
      FromAction(front, action, k, working);
      if last.action == action && last.reply.Answered? {
        assert Erased(log, k);
      } else if Erased(front, k) {
        var l :| k < l < |front| && front[l].action == front[k].action && front[l].reply.Answered? && !Surfaces(front[l]);
        assert log[l] == front[l];
      }
    }
  }

  /** Actions from `first` on that surface nothing leave the id in use as it was. */
  lemma {:induction false} NothingSince(start: Option<string>, log: seq<Call>, first: nat, action: nat)
    requires first <= action
    requires forall l :: 0 <= l < |log| && first <= log[l].action < action ==> !Surfaces(log[l])
    ensures WorkingId(start, log, action) == WorkingId(start, log, first)
  {
    if first < action {
      NothingSince(start, log, first, action - 1);
      NothingFromAction(log, action - 1, WorkingId(start, log, action - 1));
    }
  }

  /** The id in use, from the call that surfaced the latest one. */
  lemma InUseAfter(start: Option<string>, log: seq<Call>, action: nat, k: nat)
    requires InOrder(log, 0) && LastSurfacing(log, action, k)
    ensures WorkingId(start, log, action) ==
      if Erased(log, k) then WorkingId(start, log, log[k].action) else log[k].reply.fileId
  {
    var own := log[k].action;
    FromAction(log, own, k, WorkingId(start, log, own));
    NothingSince(start, log, own + 1, action);
  }

  /**
   A file id that an action has found is forgotten when a later answer to the same action carries none: until
   another is found, every action that follows uses the id that was in use when that action started.
   */
  lemma AnswerWithoutIdErases(start: Option<string>, log: seq<Call>, action: nat, k: nat)
    requires InOrder(log, 0) && LastSurfacing(log, action, k) && Erased(log, k)
    ensures LatestId(start, log, action) == log[k].reply.fileId
    ensures WorkingId(start, log, action) == WorkingId(start, log, log[k].action)
  {
    LatestSurfaced(start, log, action, k);
    InUseAfter(start, log, action, k);
  }

  /** The id in use is the one surfaced last exactly if that was not erased, or was in use already. */
  predicate NotForgotten(start: Option<string>, log: seq<Call>, action: nat)
    requires InOrder(log, 0)
  {
    forall k :: 0 <= k < |log| && LastSurfacing(log, action, k) && Erased(log, k) ==>
      WorkingId(start, log, log[k].action) == log[k].reply.fileId
  }

  lemma LatestIdExactly(start: Option<string>, log: seq<Call>, action: nat)
    requires InOrder(log, 0)
    ensures WorkingId(start, log, action) == LatestId(start, log, action) <==> NotForgotten(start, log, action)
  {
    if k :| 0 <= k < |log| && LastSurfacing(log, action, k) {
      LatestSurfaced(start, log, action, k);
      InUseAfter(start, log, action, k);
      assert forall l :: 0 <= l < |log| && LastSurfacing(log, action, l) ==> l == k;
    } else {
      NothingSurfaced(start, log, action);
      NoneInUse(start, log, action);
    }
  }

  lemma NoneInUse(start: Option<string>, log: seq<Call>, action: nat)
    requires InOrder(log, 0) && forall k :: 0 <= k < |log| ==> !LastSurfacing(log, action, k)
    ensures WorkingId(start, log, action) == start
  {
    forall l | 0 <= l < |log| && log[l].action < action
      ensures !Surfaces(log[l])
    {
      if Surfaces(log[l]) {
        LastOne(log, action, l);
      }
    }
    NothingSince(start, log, 0, action);
  }

  lemma {:induction false} LastOne(log: seq<Call>, action: int, l: nat)
    requires l < |log| && log[l].action < action && Surfaces(log[l])
    ensures exists k :: 0 <= k < |log| && LastSurfacing(log, action, k)
    decreases |log| - l
  {
    if m :| l < m < |log| && log[m].action < action && Surfaces(log[m]) {
      LastOne(log, action, m);
    } else {
      assert LastSurfacing(log, action, l);
    }
  }

  /**
   Each call of a refresh is made with the id in use when its action starts; and this is the id that an earlier
   action surfaced last, or else the original one, exactly if no later answer of that action made it forgotten.
   */
  lemma RefreshUsesLatestId(client: Client, fileId: Option<string>, messageId: Option<string>, k: nat)
    requires k < |Run(client, fileId, messageId)|
    ensures var log, start := Run(client, fileId, messageId), Start(fileId);
      && UsesWorkingId(start, RefOf(messageId), log, k) && InOrder(log[..k], 0)
      && (WorkingId(start, log[..k], log[k].action) == LatestId(start, log[..k], log[k].action)
          <==> NotForgotten(start, log[..k], log[k].action))
  {
    RunUsesWorkingId(client, fileId, messageId, k);
    RunInOrder(client, fileId, messageId, k);
    LatestIdExactly(Start(fileId), Run(client, fileId, messageId)[..k], Run(client, fileId, messageId)[k].action);
  }

  lemma RunUsesWorkingId(client: Client, fileId: Option<string>, messageId: Option<string>, k: nat)
    requires k < |Run(client, fileId, messageId)|
    ensures UsesWorkingId(Start(fileId), RefOf(messageId), Run(client, fileId, messageId), k)
  {
    assert [] + Run(client, fileId, messageId) == Run(client, fileId, messageId);
    ChainUsesWorkingId(SettingOf(client, messageId), Start(fileId), [], 0, 0, k);
  }

  lemma RunInOrder(client: Client, fileId: Option<string>, messageId: Option<string>, k: nat)
    requires k < |Run(client, fileId, messageId)|
    ensures InOrder(Run(client, fileId, messageId)[..k], 0)
  {
    ChainTraced(SettingOf(client, messageId), 0, Start(fileId), 0, None, 0);
    WellTracedMeans(Run(client, fileId, messageId), 0);
  }

  /** It happens: the first action finds an id, and the second goes on with the original one. */
  lemma SurfacedIdIgnored() returns (client: Client)
    ensures var log := Run(client, Some("orig"), None);
      && |log| > 2 && log[0].action == 0 && log[2].action == 1
      && log[2].params == FileId("orig")
      && LatestId(Some("orig"), log[..2], 1) == Some("new")
  {
    var found := PayloadSearch.Dict([PayloadSearch.Member("file_id", PayloadSearch.Text("new"))]);
    client := Client([Responds(true, "", found), Responds(true, "", PayloadSearch.Scalar)], text => text);
    FoundNew(found);
    StripKeepsExactlyTrimmed("orig");
    SilentSecondAnswer(SettingOf(client, None));
  }

  lemma SilentSecondAnswer(s: Setting)
    requires s.replies == [Answered(true, "", None, Some("new")), Answered(true, "", None, None)]
    ensures var log := Chain(s, 0, Some("orig"), 0, None, 0);
      && |log| > 2 && log[0].action == 0 && log[2].action == 1
      && log[2].params == FileId("orig")
      && LatestId(Some("orig"), log[..2], 1) == Some("new")
  {
    var orig := Some("orig");
    var a, b := NextCall(s, 0, orig, 0, 0), NextCall(s, 0, orig, 1, 1);
    var rest := Chain(s, 1, orig, 0, None, 2);
    assert Chain(s, 0, orig, 1, Some("new"), 1) == [b] + rest;
    var log := Chain(s, 0, orig, 0, None, 0);
    assert log == [a] + ([b] + rest);
    assert log[..2] == [a, b] && [a, b][..1] == [a] && log[2] == rest[0];
    assert LatestId(orig, [a], 1) == Some("new");
  }

  lemma FoundNew(found: PayloadSearch.Node)
    requires found == PayloadSearch.Dict([PayloadSearch.Member("file_id", PayloadSearch.Text("new"))])
    ensures PayloadSearch.FileIdIn(found) == Some("new")
    ensures PayloadSearch.UrlIn(text => text, found) == None
  {
    var member := PayloadSearch.Member("file_id", PayloadSearch.Text("new"));
    StripKeepsExactlyTrimmed("new");
    assert PayloadSearch.Lower("file_id") == "file_id";
    assert PayloadSearch.OwnId([member]) == Some("new");
    assert PayloadSearch.LeavesMembers([member]) == ["new"];
  }
}
