/** NUL-terminated strings in buffers, and the searches of <string.h>. */
module CStrings {

  const NUL: char := '\0'

  /** A terminator stands at or after position s. */
  ghost predicate Ends(b: seq<char>, s: nat) { exists e :: s <= e < |b| && b[e] == NUL }

  function StrLen(b: seq<char>, s: nat): (n: nat)
    requires Ends(b, s)
    ensures s + n < |b| && b[s + n] == NUL && forall i :: s <= i < s + n ==> b[i] != NUL
    decreases |b| - s
  {
    if b[s] == NUL then 0 else 1 + StrLen(b, s + 1)
  }

  function CString(b: seq<char>, s: nat): string
    requires Ends(b, s)
  {
    b[s..s + StrLen(b, s)]
  }

  lemma CStringIs(b: seq<char>, s: nat, e: nat)
    requires s <= e < |b| && b[e] == NUL && forall i :: s <= i < e ==> b[i] != NUL
    ensures Ends(b, s) && StrLen(b, s) == e - s && CString(b, s) == b[s..e]
  {
    var n := StrLen(b, s);
    assert s + n >= e;
  }

  predicate Lacks(s: string, c: char) { forall i :: 0 <= i < |s| ==> s[i] != c }

  /** The first place of c, -1 if there is none: strchr. */
  function IndexOf(s: string, c: char): (i: int)
    ensures -1 <= i < |s|
    ensures i == -1 ==> Lacks(s, c)
    ensures i >= 0 ==> s[i] == c && forall k :: 0 <= k < i ==> s[k] != c
  {
    if s == "" then -1
    else if s[0] == c then 0
    else
      var i := IndexOf(s[1..], c);
      if i < 0 then -1 else i + 1
  }

  /** The last place of c, -1 if there is none: strrchr. */
  function LastIndexOf(s: string, c: char): (i: int)
    ensures -1 <= i < |s|
    ensures i == -1 ==> Lacks(s, c)
    ensures i >= 0 ==> s[i] == c && forall k :: i < k < |s| ==> s[k] != c
  {
    if s == "" then -1
    else if s[|s| - 1] == c then |s| - 1
    else LastIndexOf(s[..|s| - 1], c)
  }

  /** memcpy of a string and a terminator after it. */
  method Store(out: array<char>, s: string)
    requires |s| < out.Length && Lacks(s, NUL)
    modifies out
    ensures Ends(out[..], 0) && CString(out[..], 0) == s
    ensures forall i :: |s| < i < out.Length ==> out[i] == old(out[i])
  {
    forall i | 0 <= i < |s| {
      out[i] := s[i];
    }
    out[|s|] := NUL;
    assert forall i :: 0 <= i < |s| ==> out[..][i] == s[i];
    CStringIs(out[..], 0, |s|);
    assert out[..][0..|s|] == s;
  }
}
