/** Option and Result values, and the text helper the services share. */
module Common {

  datatype Option<+T> = None | Some(value: T)

  datatype Result<+T> = Ok(value: T) | Err(reason: string)

  type Positive = n: nat | 1 <= n witness 1

  /** The white space that `str.strip()` removes, restricted to ASCII. */
  predicate IsSpace(c: char) {
    c == ' ' || c == '\t' || c == '\n' || c == '\r' || c == '\U{0B}' || c == '\U{0C}'
  }

  function StripLeft(s: string): (r: string)
    ensures r != "" ==> !IsSpace(r[0])
    ensures |r| <= |s|
  {
    if s != "" && IsSpace(s[0]) then StripLeft(s[1..]) else s
  }

  function StripRight(s: string): (r: string)
    ensures r != "" ==> !IsSpace(r[|r| - 1])
    ensures r <= s
  {
    if s != "" && IsSpace(s[|s| - 1]) then StripRight(s[..|s| - 1]) else s
  }

  function Strip(s: string): string {
    StripRight(StripLeft(s))
  }

  /** Text that stripping leaves alone. */
  predicate Trimmed(s: string) {
    s == "" || (!IsSpace(s[0]) && !IsSpace(s[|s| - 1]))
  }

  lemma StripIsTrimmed(s: string)
    ensures Trimmed(Strip(s))
  {
  }

  lemma StripKeepsExactlyTrimmed(s: string)
    ensures Strip(s) == s <==> Trimmed(s)
  {
  }

  /** Text with something other than white space. */
  predicate HasInk(s: string) {
    exists i :: 0 <= i < |s| && !IsSpace(s[i])
  }

  lemma BlankExactly(s: string)
    ensures Strip(s) != "" <==> HasInk(s)
  {
    BlankLeft(s);
    KeepsInk(StripLeft(s));
  }

  lemma {:induction false} BlankLeft(s: string)
    ensures StripLeft(s) != "" <==> HasInk(s)
  {
    if s != "" && IsSpace(s[0]) {
      BlankLeft(s[1..]);
      assert forall i :: 0 < i < |s| ==> s[1..][i - 1] == s[i];
    }
  }

  lemma {:induction false} KeepsInk(s: string)
    requires s == "" || !IsSpace(s[0])
    ensures StripRight(s) == "" <==> s == ""
  {
    if s != "" && IsSpace(s[|s| - 1]) {
      KeepsInk(s[..|s| - 1]);
    }
  }

  predicate Contains(name: string, text: string) {
    exists i :: 0 <= i <= |name| && text <= name[i..]
  }

  /** What a database write comes to: stored, refused without effect, or stored although the caller sees an error. */
  datatype Commit = Stored | Refused | Unseen

  lemma PrefixOn<T>(a: seq<T>, b: seq<T>, c: seq<T>)
    requires a <= b <= c
    ensures a <= c
  {
  }
}
