/**
 Where the logger saves an image, and how the worker finds the file again from the task alone. The
 two services share no path: they agree only through the file name and the glob the worker builds.
 */
module Naming {
  import opened Common
  import Json
  import Contract

  // -------------------------------------------------------------- file names

  function Digit(n: nat): char
    requires n < 10
  {
    "0123456789"[n]
  }

  function Digits(n: nat): (r: string)
    ensures r != "" && forall c :: c in r ==> '0' <= c <= '9'
  {
    if n < 10 then [Digit(n)] else Digits(n / 10) + [Digit(n % 10)]
  }

  /** `str(n)`. */
  function Decimal(n: int): (r: string)
    ensures r != "" && forall c :: c in r ==> c == '-' || '0' <= c <= '9'
  {
    if n < 0 then "-" + Digits(-n) else Digits(n)
  }

  predicate Allowed(c: char) {
    'A' <= c <= 'Z' || 'a' <= c <= 'z' || '0' <= c <= '9' || c == '.' || c == '_' || c == '-'
  }

  /** Every run of other characters becomes one underscore. */
  function Underscored(s: string, inRun: bool): (r: string)
    ensures forall c :: c in r ==> Allowed(c)
  {
    if s == "" then ""
    else if Allowed(s[0]) then [s[0]] + Underscored(s[1..], false)
    else (if inRun then "" else "_") + Underscored(s[1..], true)
  }

  predicate IsEdge(c: char) {
    c == '.' || c == '_'
  }

  function TrimEdges(s: string): (r: string)
    ensures forall c :: c in r ==> c in s
    ensures r != "" ==> !IsEdge(r[0]) && !IsEdge(r[|r| - 1])
    decreases |s|
  {
    if s == "" then ""
    else if IsEdge(s[0]) then TrimEdges(s[1..])
    else if IsEdge(s[|s| - 1]) then TrimEdges(s[..|s| - 1])
    else s
  }

  /** `_safe_filename`: never empty, and only characters that are safe in one path component. */
  function SafeFilename(name: string): (r: string)
    ensures r != "" && !IsEdge(r[0]) && forall c :: c in r ==> Allowed(c)
  {
    var cleaned := TrimEdges(Underscored(name, false));
    if cleaned != "" then cleaned else "image.bin"
  }

  /** `_choose_filename`; `urlName` is the last path component of the source URL, if there is one. */
  function ChooseFilename(filename: Option<string>, index: int, urlName: Option<string>): string {
    if filename.Some? && filename.value != "" then SafeFilename(filename.value)
    else if urlName.Some? && urlName.value != "" then SafeFilename(urlName.value)
    else "image_" + Decimal(index) + ".bin"
  }

  /** A name that is safe as it is. */
  predicate Safe(name: string) {
    && name != "" && (forall i :: 0 <= i < |name| ==> Allowed(name[i]))
    && name[0] != '.' && name[0] != '_' && name[|name| - 1] != '.' && name[|name| - 1] != '_'
  }

  lemma {:induction false} AllowedStays(name: string, inRun: bool)
    requires forall i :: 0 <= i < |name| ==> Allowed(name[i])
    ensures Underscored(name, inRun) == name
  {
    if name != "" {
      AllowedStays(name[1..], false);
    }
  }

  lemma SafeStays(name: string)
    requires Safe(name)
    ensures SafeFilename(name) == name
  {
    AllowedStays(name, false);
  }

  /** The name the sender gave goes first, then the one in the URL; a safe name is taken as it is. */
  lemma NameChosen(filename: Option<string>, index: int, urlName: Option<string>)
    ensures filename.Some? && Safe(filename.value) ==> ChooseFilename(filename, index, urlName) == filename.value
    ensures filename.Some? && filename.value != "" ==>
      forall other :: ChooseFilename(filename, index, urlName) == ChooseFilename(filename, index, other)
    ensures (filename.None? || filename.value == "") && urlName.Some? && Safe(urlName.value) ==>
      ChooseFilename(filename, index, urlName) == urlName.value
    ensures filename.None? && urlName.None? ==>
      ChooseFilename(filename, index, urlName) == "image_" + Decimal(index) + ".bin"
  {
    if filename.Some? && Safe(filename.value) {
      SafeStays(filename.value);
    }
    if urlName.Some? && Safe(urlName.value) {
      SafeStays(urlName.value);
    }
  }

  /** The number that a text of digits writes. */
  function Value(digits: string): int {
    if digits == "" then 0 else 10 * Value(digits[..|digits| - 1]) + (digits[|digits| - 1] as int - '0' as int)
  }

  /** Decimal writing can be read back, so different numbers get different names. */
  lemma {:induction false} DigitsWrite(n: nat)
    ensures Value(Digits(n)) == n
  {
    if n >= 10 {
      var front := Digits(n / 10);
      DigitsWrite(n / 10);
      assert (front + [Digit(n % 10)])[..|front|] == front;
    } else {
      assert [Digit(n)][..0] == "";
    }
  }

  function SavedName(stamp: string, messageId: string, index: int, original: string): string {
    stamp + "_" + messageId + "_" + Decimal(index) + "_" + original
  }

  /** `a / b` on paths. */
  function Join(a: string, b: string): string {
    if b != "" && b[0] == '/' then b else a + "/" + b
  }

  /** The directory part of `build_image_save_path`. */
  function ImageDir(root: string, chatType: string, chatId: string): string {
    Join(Join(root, chatType), chatId)
  }

  /** A name that is one path component. */
  predicate OneComponent(name: string) {
    name != "" && '/' !in name
  }

  /** Only the time stamp and the message id can spoil that; the name and URL the sender chose cannot. */
  lemma SavedNameIsOneComponent(stamp: string, messageId: string, index: int,
                                filename: Option<string>, urlName: Option<string>)
    ensures OneComponent(SavedName(stamp, messageId, index, ChooseFilename(filename, index, urlName)))
       <==> '/' !in stamp && '/' !in messageId
  {
  }

  // -------------------------------------------------------------------- glob

  /** The place of the next closing bracket at or after `from`, or the length of the text. */
  function NextClosing(s: string, from: nat): (r: nat)
    requires from <= |s|
    ensures from <= r <= |s| && (r < |s| ==> s[r] == ']') && forall j :: from <= j < r ==> s[j] != ']'
    decreases |s| - from
  {
    if from == |s| || s[from] == ']' then from else NextClosing(s, from + 1)
  }

  /** Where the class that the first bracket opens is closed; a `]` right after `[` or `[!` belongs to the class. */
  function ClassEnd(pattern: string): Option<nat>
    requires pattern != "" && pattern[0] == '['
  {
    var start := if |pattern| > 1 && pattern[1] == '!' then 2 else 1;
    var from := if start < |pattern| && pattern[start] == ']' then start + 1 else start;
    var end := NextClosing(pattern, from);
    if end < |pattern| then Some(end) else None
  }

  /** The characters and ranges of a class, from left to right. */
  predicate InRanges(content: string, c: char) {
    if content == "" then false
    else if |content| >= 3 && content[1] == '-' then content[0] <= c <= content[2] || InRanges(content[3..], c)
    else content[0] == c || InRanges(content[1..], c)
  }

  predicate InClass(content: string, c: char) {
    if content != "" && content[0] == '!' then !InRanges(content[1..], c) else InRanges(content, c)
  }

  /** Matching one name against a pattern with `*`, `?` and classes; a bracket that is not closed stands for itself. */
  predicate Matches(pattern: string, name: string)
    decreases |pattern| + |name|
  {
    if pattern == "" then name == ""
    else if pattern[0] == '*' then Matches(pattern[1..], name) || (name != "" && Matches(pattern, name[1..]))
    else if pattern[0] == '[' && ClassEnd(pattern).Some? then
      var end := ClassEnd(pattern).value;
      name != "" && InClass(pattern[1..end], name[0]) && Matches(pattern[end + 1..], name[1..])
    else name != "" && (pattern[0] == '?' || pattern[0] == name[0]) && Matches(pattern[1..], name[1..])
  }

  predicate Literal(text: string) {
    forall c :: c in text ==> c != '*' && c != '?' && c != '['
  }

  /** No bracket opens a class. */
  predicate ClassFree(text: string) {
    forall i :: 0 <= i < |text| && text[i] == '[' ==> ClassEnd(text[i..]).None?
  }

  /** Globs refuse `**` inside a name. */
  predicate NoDoubleStar(text: string) {
    forall i :: 0 < i < |text| ==> !(text[i - 1] == '*' && text[i] == '*')
  }

  /** Text that a glob takes, apart from its stars and question marks, at its word: no class and no `**`. */
  predicate GlobSafe(text: string) {
    ClassFree(text) && NoDoubleStar(text)
  }

  /** Text without brackets around it opens no class either. */
  lemma ClassFreeAround(head: string, text: string, tail: string)
    requires ClassFree(text) && '[' !in head && '[' !in tail && ']' !in tail
    ensures ClassFree(head + text + tail)
  {
    var whole := head + text + tail;
    forall i | 0 <= i < |whole| && whole[i] == '['
      ensures ClassEnd(whole[i..]).None?
    {
      assert forall k :: 0 <= k < |head| ==> head[k] in head;
      assert forall k :: 0 <= k < |tail| ==> tail[k] in tail;
      StaysOpen(text[i - |head|..], tail);
      assert whole[i..] == text[i - |head|..] + tail;
    }
  }

  lemma StaysOpen(pattern: string, tail: string)
    requires pattern != "" && pattern[0] == '[' && ClassEnd(pattern).None? && ']' !in tail
    ensures ClassEnd(pattern + tail).None?
  {
    assert forall k :: 0 <= k < |tail| ==> tail[k] in tail;
  }

  lemma {:induction false} MatchesAnything(name: string)
    ensures Matches("*", name)
  {
    if name != "" {
      MatchesAnything(name[1..]);
    }
  }

  lemma {:induction false} MatchesPrefix(text: string, name: string)
    requires Literal(text)
    ensures Matches(text + "*", name) <==> text <= name
  {
    var pattern := text + "*";
    if text == "" {
      assert pattern == "*";
      MatchesAnything(name);
    } else {
      assert pattern[1..] == text[1..] + "*" && pattern[0] == text[0] && text[0] in text;
      assert forall c :: c in text[1..] ==> c in text;
      if name != "" {
        MatchesPrefix(text[1..], name[1..]);
        assert text <= name <==> text[0] == name[0] && text[1..] <= name[1..] by {
          if text[0] == name[0] && text[1..] <= name[1..] {
            assert text == [name[0]] + text[1..] && name == [name[0]] + name[1..];
          }
        }
      }
    }
  }

  /** Any text without a class, other wildcards or not, matches itself. */
  lemma {:induction false} MatchesItself(text: string, tail: string)
    requires ClassFree(text)
    ensures Matches(text + "*", text + tail)
  {
    if text == "" {
      assert text + "*" == "*";
      MatchesAnything(text + tail);
    } else {
      assert (text + "*")[1..] == text[1..] + "*" && (text + tail)[1..] == text[1..] + tail;
      assert forall i :: 0 <= i < |text[1..]| ==> text[1..][i..] == text[i + 1..];
      MatchesItself(text[1..], tail);
      if text[0] == '[' {
        StaysOpen(text[0..], "*");
        assert text[0..] + "*" == text + "*";
      }
      assert text[0] == '*' ==> Matches(text + "*", text[1..] + tail);
    }
  }

  lemma {:induction false} MatchesInside(head: string, text: string, tail: string)
    requires ClassFree(text)
    ensures Matches("*" + text + "*", head + text + tail)
  {
    var pattern, name := "*" + text + "*", head + text + tail;
    assert pattern[1..] == text + "*" && pattern[0] == '*';
    if head == "" {
      assert name == text + tail;
      MatchesItself(text, tail);
    } else {
      assert name[1..] == head[1..] + text + tail;
      MatchesInside(head[1..], text, tail);
    }
  }

  /** A literal between two stars matches exactly the names that contain it. */
  lemma {:induction false} MatchesContains(text: string, name: string)
    requires Literal(text)
    ensures Matches("*" + text + "*", name) <==> Contains(name, text)
    decreases |name|
  {
    var pattern := "*" + text + "*";
    assert pattern[1..] == text + "*" && pattern[0] == '*';
    MatchesPrefix(text, name);
    assert name[0..] == name;
    if name != "" {
      MatchesContains(text, name[1..]);
      assert Contains(name, text) <==> text <= name || Contains(name[1..], text) by {
        if text <= name {
          assert text <= name[0..];
        }
        if Contains(name[1..], text) {
          var i :| 0 <= i <= |name[1..]| && text <= name[1..][i..];
          assert name[1..][i..] == name[i + 1..];
        }
        if Contains(name, text) {
          var i :| 0 <= i <= |name| && text <= name[i..];
          if i > 0 {
            assert name[1..][i - 1..] == name[i..];
          }
        }
      }
    }
  }

  // ------------------------------------------------------------------ lookup

  /** The file system as the worker sees it: listings in glob order, regular files, and path resolution. */
  datatype Host = Host(
    list: string -> Option<seq<string>>,
    read: string -> Option<string>,
    modified: string -> int,
    canonical: string -> string,
    expand: string -> string,
    sha256: string -> string,
    parseInt: string -> Option<int>,
    show: Json.Value -> string)

  predicate IsFile(host: Host, path: string) {
    host.read(path).Some?
  }

  function Content(host: Host, path: string): string {
    if IsFile(host, path) then host.read(path).value else ""
  }

  /** `str(context.get(key) or "").strip()`. */
  function ContextText(host: Host, context: Json.Object, key: string): string {
    var v := Json.Get(context, key);
    if !Json.Truthy(v) then "" else Strip(if v.Str? then v.s else host.show(v))
  }

  function ContextSeq(host: Host, context: Json.Object): Option<int> {
    match Json.Get(context, "seq")
    case Int(n) => Some(n)
    case Str(s) => host.parseInt(s)
    case _ => None
  }

  /** What stands between the two stars of the worker's glob. */
  function Needle(messageId: string, index: Option<int>): string {
    match index
    case None => "_" + messageId + "_"
    case Some(n) => "_" + messageId + "_" + Decimal(n) + "_"
  }

  function Candidates(host: Host, dir: string, names: seq<string>, pattern: string): (r: seq<string>)
    ensures forall path :: path in r ==> IsFile(host, path)
    ensures forall path :: path in r <==>
      exists name :: name in names && Matches(pattern, name) && IsFile(host, Join(dir, name)) && path == Join(dir, name)
  {
    if names == [] then []
    else
      var rest := Candidates(host, dir, names[1..], pattern);
      if Matches(pattern, names[0]) && IsFile(host, Join(dir, names[0])) then [Join(dir, names[0])] + rest else rest
  }

  /** The first candidate with the expected hash. */
  function WithHash(host: Host, candidates: seq<string>, sha: string): (r: Option<string>)
    ensures r.Some? ==> r.value in candidates && host.sha256(Content(host, r.value)) == sha
    ensures r.None? ==> forall path :: path in candidates ==> host.sha256(Content(host, path)) != sha
  {
    if candidates == [] then None
    else if host.sha256(Content(host, candidates[0])) == sha then Some(candidates[0])
    else WithHash(host, candidates[1..], sha)
  }

  /** The most recently modified candidate, the first of them on a tie. */
  function Newest(host: Host, candidates: seq<string>): (r: string)
    requires candidates != []
    ensures r in candidates && forall path :: path in candidates ==> host.modified(path) <= host.modified(r)
  {
    if |candidates| == 1 then candidates[0]
    else
      var best := Newest(host, candidates[1..]);
      if host.modified(candidates[0]) >= host.modified(best) then candidates[0] else best
  }

  function NamedFile(host: Host, path: string): Option<string> {
    if IsFile(host, host.expand(path)) then Some(host.canonical(host.expand(path))) else None
  }

  /** `_resolve_task_image_path`. */
  function ResolveTask(host: Host, root: string, task: Contract.Task): Option<string> {
    var direct := if task.imagePath.Some? && task.imagePath.value != "" then NamedFile(host, task.imagePath.value) else None;
    var raw := Json.Get(task.context, "image_path");
    var legacy := if raw.Str? && Strip(raw.s) != "" then NamedFile(host, Strip(raw.s)) else None;
    if direct.Some? then direct
    else if legacy.Some? then legacy
    else Search(host, root, task)
  }

  function Search(host: Host, root: string, task: Contract.Task): Option<string> {
    var chatType := ContextText(host, task.context, "chat_type");
    var chatId := ContextText(host, task.context, "chat_id");
    var messageId := ContextText(host, task.context, "message_id");
    var dir := if chatType != "" && chatId != "" then ImageDir(root, chatType, chatId) else root;
    if messageId == "" || host.list(dir).None? then None
    else
      var pattern := "*" + Needle(messageId, ContextSeq(host, task.context)) + "*";
      var candidates := Candidates(host, dir, host.list(dir).value, pattern);
      var sha := Strip(task.sha256);
      if candidates == [] then None
      else
        var found := if sha == "" then None else WithHash(host, candidates, sha);
        Some(host.canonical(if found.Some? then found.value else Newest(host, candidates)))
  }

  // ------------------------------------------------------------------ the laws

  /** The task names a file itself, and it is there. */
  predicate NamesOwnFile(host: Host, task: Contract.Task) {
    task.imagePath.Some? && task.imagePath.value != "" && IsFile(host, host.expand(task.imagePath.value))
  }

  /** The task's context names one. */
  predicate ContextNamesFile(host: Host, task: Contract.Task) {
    var path := Json.Get(task.context, "image_path");
    path.Str? && HasInk(path.s) && IsFile(host, host.expand(Strip(path.s)))
  }

  /** A file that the lookup by message id may come to: one in the chat's directory, or the root, that fits the glob. */
  predicate Fitting(host: Host, root: string, task: Contract.Task, path: string) {
    var chatType, chat := ContextText(host, task.context, "chat_type"), ContextText(host, task.context, "chat_id");
    var id, number := ContextText(host, task.context, "message_id"), ContextSeq(host, task.context);
    var dir := if chatType == "" || chat == "" then root else Join(Join(root, chatType), chat);
    var glob := "*_" + id + "_" + (if number.Some? then Decimal(number.value) + "_*" else "*");
    && id != "" && host.list(dir).Some? && IsFile(host, path)
    && exists name :: name in host.list(dir).value && Matches(glob, name) && path == Join(dir, name)
  }

  /** A fitting file with the hash that the task asks for. */
  predicate FitsHash(host: Host, root: string, task: Contract.Task, path: string) {
    && Fitting(host, root, task, path) && Strip(task.sha256) != ""
    && host.sha256(Content(host, path)) == Strip(task.sha256)
  }

  /** A fitting file with the hash if there is one, or else a fitting file that none is newer than. */
  ghost predicate BestFit(host: Host, root: string, task: Contract.Task, path: string) {
    && Fitting(host, root, task, path)
    && (FitsHash(host, root, task, path)
        || forall other :: Fitting(host, root, task, other) ==>
             !FitsHash(host, root, task, other) && host.modified(other) <= host.modified(path))
  }

  /**
   What a task resolves to: the file it names itself, whatever its context and the directories hold; else the
   one its context names; else a best fit; and nothing exactly if there is no fitting file either.
   */
  lemma ResolveExactly(host: Host, root: string, task: Contract.Task)
    ensures var found := ResolveTask(host, root, task);
      if NamesOwnFile(host, task) then found == Some(host.canonical(host.expand(task.imagePath.value)))
      else if ContextNamesFile(host, task) then
        found == Some(host.canonical(host.expand(Strip(task.context["image_path"].s))))
      else
        && (found.None? <==> forall path :: !Fitting(host, root, task, path))
        && (found.Some? ==> exists path :: BestFit(host, root, task, path) && found == Some(host.canonical(path)))
  {
    var path := Json.Get(task.context, "image_path");
    if path.Str? {
      BlankExactly(path.s);
    }
    SearchExactly(host, root, task);
  }

  lemma SearchExactly(host: Host, root: string, task: Contract.Task)
    ensures var found := Search(host, root, task);
      && (found.None? <==> forall path :: !Fitting(host, root, task, path))
      && (found.Some? ==> exists path :: BestFit(host, root, task, path) && found == Some(host.canonical(path)))
  {
    var chatType, chat := ContextText(host, task.context, "chat_type"), ContextText(host, task.context, "chat_id");
    var id := ContextText(host, task.context, "message_id");
    var dir := if chatType != "" && chat != "" then ImageDir(root, chatType, chat) else root;
    if id != "" && host.list(dir).Some? {
      var candidates := CandidatesFit(host, root, task, dir, id);
      if candidates != [] {
        var sha := Strip(task.sha256);
        var found := if sha == "" then None else WithHash(host, candidates, sha);
        var best := if found.Some? then found.value else Newest(host, candidates);
        assert BestFit(host, root, task, best);
      }
    }
  }

  lemma GlobSpelled(id: string, number: Option<int>)
    ensures "*" + Needle(id, number) + "*" == "*_" + id + "_" + (if number.Some? then Decimal(number.value) + "_*" else "*")
  {
  }

  /** The candidates are the fitting files. */
  lemma CandidatesFit(host: Host, root: string, task: Contract.Task, dir: string, id: string)
    returns (candidates: seq<string>)
    requires var chatType, chat := ContextText(host, task.context, "chat_type"), ContextText(host, task.context, "chat_id");
      dir == if chatType != "" && chat != "" then ImageDir(root, chatType, chat) else root
    requires id == ContextText(host, task.context, "message_id") != "" && host.list(dir).Some?
    ensures candidates ==
      Candidates(host, dir, host.list(dir).value, "*" + Needle(id, ContextSeq(host, task.context)) + "*")
    ensures forall path :: path in candidates <==> Fitting(host, root, task, path)
  {
    var number := ContextSeq(host, task.context);
    var glob := "*_" + id + "_" + (if number.Some? then Decimal(number.value) + "_*" else "*");
    GlobSpelled(id, number);
    candidates := Candidates(host, dir, host.list(dir).value, glob);
  }

  /** The part of the hot path's task context that the worker's lookup reads. */
  predicate ContextOf(context: Json.Object, chatType: string, chatId: string, messageId: string, index: int) {
    && "image_path" !in context
    && Json.Get(context, "chat_type") == Json.Str(chatType)
    && Json.Get(context, "chat_id") == Json.Str(chatId)
    && Json.Get(context, "message_id") == Json.Str(messageId)
    && Json.Get(context, "seq") == Json.Int(index)
  }

  /** Text the worker's lookup takes over unchanged. */
  predicate Plain(text: string) {
    text != "" && Trimmed(text)
  }

  /** The task resolves to `path`, a file with the hash the task asks for. */
  predicate ResolvesTo(host: Host, root: string, task: Contract.Task, path: string) {
    && IsFile(host, path) && host.sha256(Content(host, path)) == task.sha256
    && ResolveTask(host, root, task) == Some(host.canonical(path))
  }

  lemma Regroup(a: string, b: string, c: string, d: string)
    ensures a + b + c + d == a + (b + c + d)
  {
  }

  lemma NoBrackets(number: string)
    requires forall c :: c in number ==> c == '-' || '0' <= c <= '9'
    ensures '[' !in "_" + number + "_" && ']' !in "_" + number + "_"
  {
  }

  lemma NeedleEnd(messageId: string, index: int) returns (tail: string)
    ensures '[' !in tail && ']' !in tail && Needle(messageId, Some(index)) == "_" + messageId + tail
  {
    tail := "_" + Decimal(index) + "_";
    NoBrackets(Decimal(index));
    Regroup("_" + messageId, "_", Decimal(index), "_");
  }

  lemma NeedleIsClassFree(messageId: string, index: int)
    requires ClassFree(messageId)
    ensures ClassFree(Needle(messageId, Some(index)))
  {
    var tail := NeedleEnd(messageId, index);
    ClassFreeAround("_", messageId, tail);
  }

  /** A saved name matches the glob built from its own message id, whatever stars and question marks that contains. */
  lemma SavedNameMatches(stamp: string, messageId: string, index: int, original: string)
    requires ClassFree(messageId)
    ensures Matches("*" + Needle(messageId, Some(index)) + "*", SavedName(stamp, messageId, index, original))
  {
    NeedleIsClassFree(messageId, index);
    MatchesInside(stamp, Needle(messageId, Some(index)), original);
    assert SavedName(stamp, messageId, index, original) == stamp + Needle(messageId, Some(index)) + original;
  }

  lemma SearchOfPublished(host: Host, root: string, task: Contract.Task,
                          chatType: string, chatId: string, messageId: string, index: int)
    requires task.imagePath == None && ContextOf(task.context, chatType, chatId, messageId, index)
    requires Plain(chatType) && Plain(chatId)
    ensures ResolveTask(host, root, task) == Search(host, root, task)
    ensures ContextText(host, task.context, "chat_type") == chatType
    ensures ContextText(host, task.context, "chat_id") == chatId
    ensures ContextText(host, task.context, "message_id") == Strip(messageId)
    ensures ContextSeq(host, task.context) == Some(index)
  {
    StripKeepsExactlyTrimmed(chatType);
    StripKeepsExactlyTrimmed(chatId);
  }

  /**
   Logger and worker agree. While the saved file is intact, the worker resolves the published task to
   a file with the task's hash, whatever else lies in the directory and in whatever order it is listed.
   */
  lemma LookupFindsSaved(host: Host, root: string, task: Contract.Task, names: seq<string>,
                         chatType: string, chatId: string, messageId: string, index: int,
                         stamp: string, original: string)
    requires task.imagePath == None && ContextOf(task.context, chatType, chatId, messageId, index)
    requires Plain(chatType) && Plain(chatId) && Plain(messageId) && GlobSafe(messageId)
    requires host.list(ImageDir(root, chatType, chatId)) == Some(names)
    requires var name := SavedName(stamp, messageId, index, original);
      var path := Join(ImageDir(root, chatType, chatId), name);
      && name in names && IsFile(host, path)
      && task.sha256 == host.sha256(Content(host, path)) && Plain(task.sha256)
    ensures exists name :: name in names && ResolvesTo(host, root, task, Join(ImageDir(root, chatType, chatId), name))
  {
    var dir := ImageDir(root, chatType, chatId);
    var name := SavedName(stamp, messageId, index, original);
    var needle := Needle(messageId, Some(index));
    SearchOfPublished(host, root, task, chatType, chatId, messageId, index);
    StripKeepsExactlyTrimmed(messageId);
    StripKeepsExactlyTrimmed(task.sha256);
    SavedNameMatches(stamp, messageId, index, original);
    var candidates := Candidates(host, dir, names, "*" + needle + "*");
    assert Join(dir, name) in candidates;
    assert WithHash(host, candidates, task.sha256).Some?;
  }

  /** With the saved file alone in its directory, it is found exactly when its name matches the stripped id's glob. */
  lemma LookupExactly(host: Host, root: string, task: Contract.Task,
                      chatType: string, chatId: string, messageId: string, index: int, stamp: string, original: string)
    requires task.imagePath == None && ContextOf(task.context, chatType, chatId, messageId, index)
    requires Plain(chatType) && Plain(chatId) && NoDoubleStar(messageId)
    requires var name := SavedName(stamp, messageId, index, original);
      && host.list(ImageDir(root, chatType, chatId)) == Some([name])
      && IsFile(host, Join(ImageDir(root, chatType, chatId), name))
    ensures ResolveTask(host, root, task).Some? <==>
      Strip(messageId) != "" &&
      Matches("*" + Needle(Strip(messageId), Some(index)) + "*", SavedName(stamp, messageId, index, original))
  {
    SearchOfPublished(host, root, task, chatType, chatId, messageId, index);
  }

  /** For an id without wildcards that is: if it is not blank and the name contains the needle of the stripped id. */
  lemma LiteralLookupExactly(stamp: string, messageId: string, index: int, original: string)
    requires Literal(messageId)
    ensures var name, needle := SavedName(stamp, messageId, index, original), Needle(Strip(messageId), Some(index));
      NoDoubleStar(messageId) && (Matches("*" + needle + "*", name) <==> Contains(name, needle))
  {
    StripChars(messageId);
    var needle := Needle(Strip(messageId), Some(index));
    assert Literal(needle);
    MatchesContains(needle, SavedName(stamp, messageId, index, original));
    assert forall i :: 0 <= i < |messageId| ==> messageId[i] in messageId;
  }

  lemma StripChars(s: string)
    ensures forall c :: c in Strip(s) ==> c in s
  {
    StripLeftChars(s);
  }

  lemma {:induction false} StripLeftChars(s: string)
    ensures forall c :: c in StripLeft(s) ==> c in s
  {
    if s != "" && IsSpace(s[0]) {
      StripLeftChars(s[1..]);
    }
  }

  /** The file saved for the message is there, alone and intact, and the worker does not find it. */
  predicate Missed(host: Host, task: Contract.Task, messageId: string) {
    var dir, name := ImageDir("/data", "group", "5"), SavedName("t", messageId, 0, "a.png");
    && ContextOf(task.context, "group", "5", messageId, 0) && task.imagePath == None
    && host.list(dir) == Some([name]) && IsFile(host, Join(dir, name))
    && host.sha256(Content(host, Join(dir, name))) == task.sha256
    && ResolveTask(host, "/data", task) == None
  }

  lemma UnmatchedIsMissed(messageId: string) returns (host: Host, task: Contract.Task)
    requires NoDoubleStar(messageId)
    requires !Matches("*" + Needle(Strip(messageId), Some(0)) + "*", SavedName("t", messageId, 0, "a.png"))
    ensures Missed(host, task, messageId)
  {
    var name := SavedName("t", messageId, 0, "a.png");
    host := Host(dir => Some([name]), path => Some("body"), path => 0, path => path, path => path,
                 content => "hash", text => None, v => "");
    var context := map["chat_type" := Json.Str("group"), "chat_id" := Json.Str("5"),
                       "message_id" := Json.Str(messageId), "seq" := Json.Int(0)];
    task := Contract.Task(2, 1, "hash", "", "", context, None);
    LookupExactly(host, "/data", task, "group", "5", messageId, 0, "t", "a.png");
  }

  /** Outer white space in the message id does lose the file. */
  lemma PaddedIdIsMissed() returns (host: Host, task: Contract.Task)
    ensures Missed(host, task, " 7")
  {
    StripOfPadded();
    LiteralLookupExactly("t", " 7", 0, "a.png");
    PaddedNeedleMissing();
    host, task := UnmatchedIsMissed(" 7");
  }

  /** And so do brackets in it that the glob takes for a class. */
  lemma BracketedIdIsMissed() returns (host: Host, task: Contract.Task)
    ensures Missed(host, task, "[7]")
  {
    StripKeepsExactlyTrimmed("[7]");
    BracketsDoNotMatch();
    host, task := UnmatchedIsMissed("[7]");
  }

  lemma {:induction false} StarSkips(pattern: string, name: string)
    requires Matches("*" + pattern, name)
    ensures exists i :: 0 <= i <= |name| && Matches(pattern, name[i..])
  {
    assert ("*" + pattern)[1..] == pattern;
    if Matches(pattern, name) {
      assert name[0..] == name;
    } else {
      StarSkips(pattern, name[1..]);
      var i :| 0 <= i <= |name[1..]| && Matches(pattern, name[1..][i..]);
      assert name[1..][i..] == name[i + 1..];
    }
  }

  lemma BracketsDoNotMatch()
    ensures !Matches("*" + Needle("[7]", Some(0)) + "*", SavedName("t", "[7]", 0, "a.png"))
  {
    var name := SavedName("t", "[7]", 0, "a.png");
    assert Decimal(0) == "0";
    assert name == "t_[7]_0_a.png";
    var pattern := "_" + ("[7]" + "_0_*");
    assert "*" + Needle("[7]", Some(0)) + "*" == "*" + pattern;
    if Matches("*" + pattern, name) {
      StarSkips(pattern, name);
      var i :| 0 <= i <= |name| && Matches(pattern, name[i..]);
      SevenFollows("_0_*", name[i..]);
      NoSevenFollows(i);
    }
  }

  lemma NoSevenFollows(i: nat)
    requires i + 1 < |"t_[7]_0_a.png"| && "t_[7]_0_a.png"[i] == '_'
    ensures "t_[7]_0_a.png"[i + 1] != '7'
  {
  }

  lemma SevenFollows(rest: string, name: string)
    requires Matches("_" + ("[7]" + rest), name)
    ensures |name| >= 2 && name[0] == '_' && name[1] == '7'
  {
    var pattern := "_" + ("[7]" + rest);
    assert pattern[0] == '_' && pattern[1..] == "[7]" + rest;
    SevenFirst(rest, name[1..]);
  }

  lemma SevenFirst(rest: string, name: string)
    requires Matches("[7]" + rest, name)
    ensures name != "" && name[0] == '7'
  {
    var pattern := "[7]" + rest;
    assert pattern[0] == '[' && pattern[1] == '7' && pattern[2] == ']';
    assert NextClosing(pattern, 1) == 2;
    var content := pattern[1..2];
    assert content == "7" && !InRanges(content[1..], name[0]);
    assert InClass(content, name[0]);
  }

  lemma StripOfPadded()
    ensures Strip(" 7") == "7"
  {
    assert " 7"[1..] == "7";
    assert StripLeft(" 7") == "7";
  }

  lemma PaddedNeedleMissing()
    ensures !Contains(SavedName("t", " 7", 0, "a.png"), Needle("7", Some(0)))
  {
    var name := SavedName("t", " 7", 0, "a.png");
    assert Decimal(0) == "0";
    assert name == "t_ 7_0_a.png";
    assert Needle("7", Some(0)) == "_7_0_";
    forall i | 0 <= i <= |name|
      ensures !("_7_0_" <= name[i..])
    {
      if i + 1 < |name| {
        assert name[i..][0] == name[i] && name[i..][1] == name[i + 1];
      }
    }
  }
}
