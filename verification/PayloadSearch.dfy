/**
 The two searches through an action response. Both keep an explicit stack of values still to look at;
 they are shown to agree with searches defined by recursion on the tree, in each one's own order.
 */
module PayloadSearch {
  import opened Common

  /** A JSON value with its object members in document order; numbers, booleans and null carry no text. */
  datatype Node =
    | Text(s: string)
    | List(items: seq<Node>)
    | Dict(members: seq<Member>)
    | Scalar

  datatype Member = Member(key: string, value: Node)

  function Values(members: seq<Member>): seq<Node> {
    seq(|members|, i requires 0 <= i < |members| => members[i].value)
  }

  function Size(n: Node): Positive {
    match n
    case List(items) => 1 + SizeAll(items)
    case Dict(members) => 1 + SizeMembers(members)
    case _ => 1
  }

  function SizeAll(items: seq<Node>): nat {
    if items == [] then 0 else Size(items[0]) + SizeAll(items[1..])
  }

  function SizeMembers(members: seq<Member>): nat {
    if members == [] then 0 else Size(members[0].value) + SizeMembers(members[1..])
  }

  // ------------------------------------------------------------- first URL

  /** All texts of a tree, left to right. */
  function Leaves(n: Node): seq<string> {
    match n
    case Text(s) => [s]
    case List(items) => LeavesAll(items)
    case Dict(members) => LeavesMembers(members)
    case Scalar => []
  }

  function LeavesAll(items: seq<Node>): seq<string> {
    if items == [] then [] else Leaves(items[0]) + LeavesAll(items[1..])
  }

  function LeavesMembers(members: seq<Member>): seq<string> {
    if members == [] then [] else Leaves(members[0].value) + LeavesMembers(members[1..])
  }

  predicate IsHttp(text: string) {
    "http://" <= text || "https://" <= text
  }

  /** The first text that is a URL once stripped and unescaped. */
  function FirstUrl(unescape: string -> string, texts: seq<string>): Option<string> {
    if texts == [] then None
    else if IsHttp(unescape(Strip(texts[0]))) then Some(unescape(Strip(texts[0])))
    else FirstUrl(unescape, texts[1..])
  }

  /** The URL `_extract_first_http_url` is meant to find. */
  function UrlIn(unescape: string -> string, n: Node): Option<string> {
    FirstUrl(unescape, Leaves(n))
  }

  /** The texts still to come: the top of the stack is its last element. */
  function StackLeaves(stack: seq<Node>): seq<string> {
    if stack == [] then [] else Leaves(stack[|stack| - 1]) + StackLeaves(stack[..|stack| - 1])
  }

  function Reverse<T>(s: seq<T>): (r: seq<T>)
    ensures |r| == |s|
  {
    if s == [] then [] else Reverse(s[1..]) + [s[0]]
  }

  lemma {:induction false} PushReversed(stack: seq<Node>, items: seq<Node>)
    ensures StackLeaves(stack + Reverse(items)) == LeavesAll(items) + StackLeaves(stack)
  {
    if items == [] {
      assert stack + Reverse(items) == stack;
    } else {
      var below := stack + Reverse(items[1..]);
      PushReversed(stack, items[1..]);
      assert stack + Reverse(items) == below + [items[0]];
      TopFirst(below, items[0]);
      Reassociate(Leaves(items[0]), LeavesAll(items[1..]), StackLeaves(stack));
    }
  }

  lemma Reassociate(a: seq<string>, b: seq<string>, c: seq<string>)
    ensures a + (b + c) == a + b + c
  {
  }

  lemma TopFirst(below: seq<Node>, top: Node)
    ensures StackLeaves(below + [top]) == Leaves(top) + StackLeaves(below)
  {
  }

  lemma {:induction false} PushedSize(stack: seq<Node>, items: seq<Node>)
    ensures SizeAll(stack + Reverse(items)) == SizeAll(stack) + SizeAll(items)
  {
    if items == [] {
      assert stack + Reverse(items) == stack;
    } else {
      var pushed := stack + Reverse(items[1..]);
      PushedSize(stack, items[1..]);
      assert stack + Reverse(items) == pushed + [items[0]];
      SizeConcat(pushed, [items[0]]);
    }
  }

  lemma {:induction false} SizeConcat(a: seq<Node>, b: seq<Node>)
    ensures SizeAll(a + b) == SizeAll(a) + SizeAll(b)
  {
    if a == [] {
      assert a + b == b;
    } else {
      assert (a + b)[1..] == a[1..] + b;
      SizeConcat(a[1..], b);
    }
  }

  lemma {:induction false} MembersAsValues(members: seq<Member>)
    ensures LeavesMembers(members) == LeavesAll(Values(members))
    ensures SizeMembers(members) == SizeAll(Values(members))
  {
    if members != [] {
      assert Values(members)[1..] == Values(members[1..]);
      MembersAsValues(members[1..]);
    }
  }

  lemma PopSize(stack: seq<Node>)
    requires stack != []
    ensures SizeAll(stack) == SizeAll(stack[..|stack| - 1]) + Size(stack[|stack| - 1])
  {
    var rest, top := stack[..|stack| - 1], stack[|stack| - 1];
    assert stack == rest + [top];
    SizeConcat(rest, [top]);
    assert [top][1..] == [];
  }

  lemma {:induction false} UrlAfterMisses(unescape: string -> string, a: seq<string>, b: seq<string>)
    ensures FirstUrl(unescape, a + b) ==
      if FirstUrl(unescape, a).Some? then FirstUrl(unescape, a) else FirstUrl(unescape, b)
  {
    if a == [] {
      assert a + b == b;
    } else {
      assert (a + b)[1..] == a[1..] + b;
      UrlAfterMisses(unescape, a[1..], b);
    }
  }

  /** `_extract_first_http_url`: the leftmost URL of the tree, if there is one. */
  method ExtractFirstHttpUrl(unescape: string -> string, payload: Node) returns (r: Option<string>)
    ensures r == UrlIn(unescape, payload)
  {
    var stack := [payload];
    assert StackLeaves(stack) == Leaves(payload) by {
      assert stack[..0] == [];
    }
    while stack != []
      invariant FirstUrl(unescape, StackLeaves(stack)) == UrlIn(unescape, payload)
      decreases SizeAll(stack)
    {
      var current, rest := stack[|stack| - 1], stack[..|stack| - 1];
      PopSize(stack);
      UrlAfterMisses(unescape, Leaves(current), StackLeaves(rest));
      stack := rest;
      match current {
        case Text(s) =>
          assert [s][1..] == [];
          var text := unescape(Strip(s));
          if IsHttp(text) {
            return Some(text);
          }
        case List(items) =>
          PushReversed(rest, items);
          PushedSize(rest, items);
          stack := stack + Reverse(items);
          UrlAfterMisses(unescape, LeavesAll(items), StackLeaves(rest));
        case Dict(members) =>
          MembersAsValues(members);
          PushReversed(rest, Values(members));
          PushedSize(rest, Values(members));
          stack := stack + Reverse(Values(members));
          UrlAfterMisses(unescape, LeavesAll(Values(members)), StackLeaves(rest));
        case Scalar =>
      }
    }
    return None;
  }

  /** A text that starts with one of the two schemes, once stripped and unescaped. */
  predicate IsLink(unescape: string -> string, text: string) {
    var t := unescape(Strip(text));
    (|t| >= 7 && t[..7] == "http://") || (|t| >= 8 && t[..8] == "https://")
  }

  predicate IsFirst(unescape: string -> string, texts: seq<string>, k: nat)
    requires k < |texts|
  {
    && FirstUrl(unescape, texts) == Some(unescape(Strip(texts[k])))
    && IsLink(unescape, texts[k]) && forall l :: 0 <= l < k ==> !IsLink(unescape, texts[l])
  }

  /** No URL is missed, and nothing else is taken for one. */
  lemma {:induction false} FirstUrlExactly(unescape: string -> string, texts: seq<string>)
    ensures FirstUrl(unescape, texts).Some? <==> exists t :: t in texts && IsLink(unescape, t)
    ensures FirstUrl(unescape, texts).Some? ==> exists k :: 0 <= k < |texts| && IsFirst(unescape, texts, k)
  {
    if texts != [] && !IsHttp(unescape(Strip(texts[0]))) {
      var rest := texts[1..];
      FirstUrlExactly(unescape, rest);
      assert forall t :: t in texts <==> t == texts[0] || t in rest;
      if FirstUrl(unescape, rest).Some? {
        var k :| 0 <= k < |rest| && IsFirst(unescape, rest, k);
        assert forall l :: 0 < l < k + 1 ==> texts[l] == rest[l - 1];
        assert IsFirst(unescape, texts, k + 1);
      }
    } else if texts != [] {
      assert texts[0] in texts;
      assert IsFirst(unescape, texts, 0);
    }
  }

  lemma {:induction false} FirstItemUrl(unescape: string -> string, items: seq<Node>, k: nat)
    requires k < |items| && UrlIn(unescape, items[k]).Some? && forall l :: 0 <= l < k ==> UrlIn(unescape, items[l]).None?
    ensures FirstUrl(unescape, LeavesAll(items)) == UrlIn(unescape, items[k])
  {
    UrlAfterMisses(unescape, Leaves(items[0]), LeavesAll(items[1..]));
    if k > 0 {
      FirstItemUrl(unescape, items[1..], k - 1);
    }
  }

  /** Of several URLs the first in document order is found: that of the first item, or member, that holds one. */
  lemma WhichUrl(unescape: string -> string, n: Node, k: nat)
    ensures n.List? && k < |n.items| && UrlIn(unescape, n.items[k]).Some?
            && (forall l :: 0 <= l < k ==> UrlIn(unescape, n.items[l]).None?) ==>
      UrlIn(unescape, n) == UrlIn(unescape, n.items[k])
    ensures n.Dict? && k < |n.members| && UrlIn(unescape, n.members[k].value).Some?
            && (forall l :: 0 <= l < k ==> UrlIn(unescape, n.members[l].value).None?) ==>
      UrlIn(unescape, n) == UrlIn(unescape, n.members[k].value)
  {
    if n.List? && k < |n.items| && UrlIn(unescape, n.items[k]).Some?
       && (forall l :: 0 <= l < k ==> UrlIn(unescape, n.items[l]).None?) {
      FirstItemUrl(unescape, n.items, k);
    }
    if n.Dict? && k < |n.members| && UrlIn(unescape, n.members[k].value).Some?
       && (forall l :: 0 <= l < k ==> UrlIn(unescape, n.members[l].value).None?) {
      MembersAsValues(n.members);
      FirstItemUrl(unescape, Values(n.members), k);
    }
  }

  // --------------------------------------------------------------- file id

  function LowerChar(c: char): char {
    if 'A' <= c <= 'Z' then c - 'A' + 'a' else c
  }

  function Lower(s: string): string {
    seq(|s|, i requires 0 <= i < |s| => LowerChar(s[i]))
  }

  const CANDIDATE_KEYS := {"file_id", "file", "fileid", "fid"}

  predicate IsCandidate(m: Member) {
    Lower(m.key) in CANDIDATE_KEYS && m.value.Text? && Strip(m.value.s) != ""
  }

  /** The first candidate among an object's own members. */
  function OwnId(members: seq<Member>): (r: Option<string>)
    ensures r.Some? <==> exists m :: m in members && IsCandidate(m)
    ensures r.Some? ==> exists m :: m in members && IsCandidate(m) && r.value == Strip(m.value.s)
  {
    if members == [] then None
    else if IsCandidate(members[0]) then
      assert members[0] in members;
      Some(Strip(members[0].value.s))
    else
      assert forall m :: m in members <==> m == members[0] || m in members[1..];
      OwnId(members[1..])
  }

  function Either(a: Option<string>, b: Option<string>): Option<string> {
    if a.Some? then a else b
  }

  /** Lists are searched forwards, the values of an object backwards and after its own members. */
  function FileIdIn(n: Node): Option<string> {
    match n
    case List(items) => FirstIdIn(items)
    case Dict(members) => Either(OwnId(members), LastIdIn(members))
    case _ => None
  }

  function FirstIdIn(items: seq<Node>): Option<string> {
    if items == [] then None else Either(FileIdIn(items[0]), FirstIdIn(items[1..]))
  }

  function LastIdIn(members: seq<Member>): Option<string> {
    if members == [] then None
    else Either(FileIdIn(members[|members| - 1].value), LastIdIn(members[..|members| - 1]))
  }

  function StackId(stack: seq<Node>): Option<string> {
    if stack == [] then None else Either(FileIdIn(stack[|stack| - 1]), StackId(stack[..|stack| - 1]))
  }

  lemma {:induction false} PushForId(stack: seq<Node>, items: seq<Node>)
    ensures StackId(stack + Reverse(items)) == Either(FirstIdIn(items), StackId(stack))
  {
    var pushed := stack + Reverse(items);
    if items == [] {
      assert pushed == stack;
    } else {
      PushForId(stack, items[1..]);
      assert pushed[..|pushed| - 1] == stack + Reverse(items[1..]);
    }
  }

  lemma {:induction false} PushValuesForId(stack: seq<Node>, members: seq<Member>)
    ensures StackId(stack + Values(members)) == Either(LastIdIn(members), StackId(stack))
  {
    var pushed := stack + Values(members);
    if members == [] {
      assert pushed == stack;
    } else {
      var front := members[..|members| - 1];
      PushValuesForId(stack, front);
      assert pushed[..|pushed| - 1] == stack + Values(front);
    }
  }

  /** `_extract_file_id`. */
  method ExtractFileId(payload: Node) returns (r: Option<string>)
    ensures r == FileIdIn(payload)
  {
    var stack := [payload];
    assert stack[..0] == [];
    while stack != []
      invariant StackId(stack) == FileIdIn(payload)
      decreases SizeAll(stack)
    {
      var current, rest := stack[|stack| - 1], stack[..|stack| - 1];
      PopSize(stack);
      stack := rest;
      if current.List? {
        PushForId(rest, current.items);
        PushedSize(rest, current.items);
        stack := stack + Reverse(current.items);
      } else if current.Dict? {
        var members := current.members;
        for i := 0 to |members|
          invariant stack == rest + Values(members)[..i]
          invariant forall k :: 0 <= k < i ==> !IsCandidate(members[k])
          invariant OwnId(members) == OwnId(members[i..])
        {
          if IsCandidate(members[i]) {
            return Some(Strip(members[i].value.s));
          }
          assert members[i..][1..] == members[i + 1..];
          stack := stack + [members[i].value];
        }
        assert Values(members)[..|members|] == Values(members);
        PushValuesForId(rest, members);
        MembersAsValues(members);
        SizeConcat(rest, Values(members));
      }
    }
    return None;
  }

  /** A member that offers a file id under one of four names, in whatever letter case. */
  predicate OffersId(m: Member) {
    && m.value.Text? && HasInk(m.value.s)
    && (Lower(m.key) == "file_id" || Lower(m.key) == "file" || Lower(m.key) == "fileid" || Lower(m.key) == "fid")
  }

  lemma OffersExactly(m: Member)
    ensures IsCandidate(m) <==> OffersId(m)
  {
    if m.value.Text? {
      BlankExactly(m.value.s);
    }
  }

  lemma {:induction false} FirstOwn(members: seq<Member>, k: nat)
    requires k < |members| && OffersId(members[k]) && forall l :: 0 <= l < k ==> !OffersId(members[l])
    ensures OwnId(members) == Some(Strip(members[k].value.s))
  {
    OffersExactly(members[0]);
    if k > 0 {
      FirstOwn(members[1..], k - 1);
    }
  }

  lemma {:induction false} NoOwn(members: seq<Member>)
    requires forall l :: 0 <= l < |members| ==> !OffersId(members[l])
    ensures OwnId(members) == None
  {
    if members != [] {
      OffersExactly(members[0]);
      NoOwn(members[1..]);
    }
  }

  lemma {:induction false} FirstInList(items: seq<Node>, k: nat)
    requires k < |items| && FileIdIn(items[k]).Some? && forall l :: 0 <= l < k ==> FileIdIn(items[l]).None?
    ensures FirstIdIn(items) == FileIdIn(items[k])
  {
    if k > 0 {
      FirstInList(items[1..], k - 1);
    }
  }

  lemma {:induction false} LastInObject(members: seq<Member>, k: nat)
    requires k < |members| && FileIdIn(members[k].value).Some?
    requires forall l :: k < l < |members| ==> FileIdIn(members[l].value).None?
    ensures LastIdIn(members) == FileIdIn(members[k].value)
  {
    if k < |members| - 1 {
      LastInObject(members[..|members| - 1], k);
    }
  }

  /**
   Which of several ids is found. In an object: the first that its own members offer; if none does, that of the
   last value that holds one. In a list: that of the first item that holds one.
   */
  lemma WhichFileId(n: Node, k: nat)
    ensures n.Dict? && k < |n.members| && OffersId(n.members[k]) && (forall l :: 0 <= l < k ==> !OffersId(n.members[l])) ==>
      FileIdIn(n) == Some(Strip(n.members[k].value.s))
    ensures n.Dict? && (forall l :: 0 <= l < |n.members| ==> !OffersId(n.members[l]))
            && k < |n.members| && FileIdIn(n.members[k].value).Some?
            && (forall l :: k < l < |n.members| ==> FileIdIn(n.members[l].value).None?) ==>
      FileIdIn(n) == FileIdIn(n.members[k].value)
    ensures n.List? && k < |n.items| && FileIdIn(n.items[k]).Some?
            && (forall l :: 0 <= l < k ==> FileIdIn(n.items[l]).None?) ==>
      FileIdIn(n) == FileIdIn(n.items[k])
  {
    if n.Dict? && k < |n.members| && OffersId(n.members[k]) && (forall l :: 0 <= l < k ==> !OffersId(n.members[l])) {
      FirstOwn(n.members, k);
    }
    if n.Dict? && (forall l :: 0 <= l < |n.members| ==> !OffersId(n.members[l])) {
      NoOwn(n.members);
      if k < |n.members| && FileIdIn(n.members[k].value).Some?
         && (forall l :: k < l < |n.members| ==> FileIdIn(n.members[l].value).None?) {
        LastInObject(n.members, k);
      }
    }
    if n.List? && k < |n.items| && FileIdIn(n.items[k]).Some? && (forall l :: 0 <= l < k ==> FileIdIn(n.items[l]).None?) {
      FirstInList(n.items, k);
    }
  }

  /** Every file id some object of the tree offers, whatever the order of the search. */
  function Offered(n: Node): set<string> {
    match n
    case List(items) => OfferedAll(items)
    case Dict(members) => OfferedMembers(members)
    case _ => {}
  }

  function OfferedAll(items: seq<Node>): set<string> {
    if items == [] then {} else Offered(items[0]) + OfferedAll(items[1..])
  }

  function OfferedMembers(members: seq<Member>): set<string> {
    if members == [] then {}
    else
      var m := members[|members| - 1];
      (if IsCandidate(m) then {Strip(m.value.s)} else {}) + Offered(m.value)
      + OfferedMembers(members[..|members| - 1])
  }

  /** The search finds an id exactly when the tree offers one, and what it finds is on offer. */
  lemma {:induction false} FileIdExactly(n: Node)
    ensures FileIdIn(n).Some? <==> Offered(n) != {}
    ensures FileIdIn(n).Some? ==> FileIdIn(n).value in Offered(n) && FileIdIn(n).value != ""
    decreases n, 1
  {
    match n
    case List(items) => FirstIdExactly(items);
    case Dict(members) => MembersIdExactly(members);
    case _ =>
  }

  lemma {:induction false} FirstIdExactly(items: seq<Node>)
    ensures FirstIdIn(items).Some? <==> OfferedAll(items) != {}
    ensures FirstIdIn(items).Some? ==> FirstIdIn(items).value in OfferedAll(items) && FirstIdIn(items).value != ""
    decreases items, 0
  {
    if items != [] {
      FileIdExactly(items[0]);
      FirstIdExactly(items[1..]);
    }
  }

  lemma {:induction false} MembersIdExactly(members: seq<Member>)
    ensures var id := Either(OwnId(members), LastIdIn(members));
      && (id.Some? <==> OfferedMembers(members) != {})
      && (id.Some? ==> id.value in OfferedMembers(members) && id.value != "")
    decreases members, 0
  {
    if members != [] {
      var front, last := members[..|members| - 1], members[|members| - 1];
      assert members == front + [last];
      FileIdExactly(last.value);
      MembersIdExactly(front);
      OwnIdFront(front, last);
    }
  }

  lemma {:induction false} OwnIdFront(front: seq<Member>, last: Member)
    ensures OwnId(front + [last]) == Either(OwnId(front), OwnId([last]))
  {
    if front == [] {
      assert front + [last] == [last];
    } else {
      assert (front + [last])[1..] == front[1..] + [last];
      OwnIdFront(front[1..], last);
    }
  }
}
