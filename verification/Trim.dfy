/** km_trim and km_parse_key_value of src/utils/parser.c, which work inside the caller's buffer. */
module Trim {
  import opened CStrings

  /** is_space_char, which is narrower than isspace. */
  predicate IsSpace(c: char) { c == ' ' || c == '\t' || c == '\n' || c == '\r' }

  predicate AllSpace(s: string) { forall i :: 0 <= i < |s| ==> IsSpace(s[i]) }

  function TrimLeft(s: string): string
  {
    if s != "" && IsSpace(s[0]) then TrimLeft(s[1..]) else s
  }

  function TrimRight(s: string): string
  {
    if s != "" && IsSpace(s[|s| - 1]) then TrimRight(s[..|s| - 1]) else s
  }

  function Trimmed(s: string): string { TrimRight(TrimLeft(s)) }

  predicate Tight(t: string) { t != "" ==> !IsSpace(t[0]) && !IsSpace(t[|t| - 1]) }

  lemma {:induction false} LeftGoes(l: string, t: string)
    requires AllSpace(l) && (t != "" ==> !IsSpace(t[0]))
    ensures TrimLeft(l + t) == t
  {
    if l == "" {
      assert l + t == t;
    } else {
      assert (l + t)[1..] == l[1..] + t;
      LeftGoes(l[1..], t);
    }
  }

  lemma {:induction false} RightGoes(t: string, r: string)
    requires AllSpace(r) && (t != "" ==> !IsSpace(t[|t| - 1]))
    ensures TrimRight(t + r) == t
  {
    if r == "" {
      assert t + r == t;
    } else {
      assert (t + r)[..|t + r| - 1] == t + r[..|r| - 1];
      RightGoes(t, r[..|r| - 1]);
    }
  }

  /** There is one way only to take a text apart into space, a part without space at its ends, and space. */
  lemma TrimIsUnique(l: string, t: string, r: string)
    requires AllSpace(l) && AllSpace(r) && Tight(t)
    ensures Trimmed(l + t + r) == t
  {
    if t == "" {
      assert l + t + r == (l + r) + "";
      LeftGoes(l + r, "");
    } else {
      assert l + t + r == l + (t + r);
      LeftGoes(l, t + r);
      RightGoes(t, r);
    }
  }

  lemma {:induction false} LeftTakesSpace(s: string) returns (l: string)
    ensures AllSpace(l) && s == l + TrimLeft(s) && (TrimLeft(s) != "" ==> !IsSpace(TrimLeft(s)[0]))
  {
    if s != "" && IsSpace(s[0]) {
      var more := LeftTakesSpace(s[1..]);
      l := [s[0]] + more;
      assert s == [s[0]] + s[1..] == [s[0]] + (more + TrimLeft(s[1..]));
    } else {
      l := "";
    }
  }

  lemma {:induction false} RightTakesSpace(s: string) returns (r: string)
    ensures AllSpace(r) && s == TrimRight(s) + r && (TrimRight(s) != "" ==> !IsSpace(TrimRight(s)[|TrimRight(s)| - 1]))
  {
    if s != "" && IsSpace(s[|s| - 1]) {
      var more := RightTakesSpace(s[..|s| - 1]);
      r := more + [s[|s| - 1]];
      assert s == s[..|s| - 1] + [s[|s| - 1]] == (TrimRight(s[..|s| - 1]) + more) + [s[|s| - 1]];
    } else {
      r := "";
    }
  }

  /** And every text can be so taken apart: trimming takes away space at the ends and nothing else. */
  lemma TrimTakesOnlySpace(s: string) returns (l: string, r: string)
    ensures AllSpace(l) && AllSpace(r) && Tight(Trimmed(s)) && s == l + Trimmed(s) + r
    ensures Trimmed(Trimmed(s)) == Trimmed(s)
    ensures forall c :: c in l || c in r ==> c == ' ' || c == '\t' || c == '\n' || c == '\r'
    ensures forall i :: 0 <= i < |Trimmed(s)| && (i == 0 || i == |Trimmed(s)| - 1) ==>
      var c := Trimmed(s)[i]; c != ' ' && c != '\t' && c != '\n' && c != '\r'
  {
    l := LeftTakesSpace(s);
    r := RightTakesSpace(TrimLeft(s));
    var t := Trimmed(s);
    assert t != "" ==> TrimLeft(s)[0] == t[0];
    assert s == l + (t + r) == l + t + r;
    TrimIsUnique("", t, "");
    assert "" + t + "" == t;
  }

  lemma TrimAt(text: string, from: nat, end: nat)
    requires from <= end <= |text| && AllSpace(text[..from]) && AllSpace(text[end..])
    requires from < end ==> !IsSpace(text[from]) && !IsSpace(text[end - 1])
    ensures Trimmed(text) == text[from..end]
  {
    TrimIsUnique(text[..from], text[from..end], text[end..]);
    assert text == text[..from] + text[from..end] + text[end..];
  }

  lemma OnlySpace(b: seq<char>, s: nat)
    requires Ends(b, s) && AllSpace(CString(b, s))
    ensures Ends(b, s + StrLen(b, s)) && CString(b, s + StrLen(b, s)) == Trimmed(CString(b, s))
  {
    var text, n := CString(b, s), StrLen(b, s);
    assert text[..n] == text && text[n..] == "";
    TrimAt(text, n, n);
    CStringIs(b, s + n, s + n);
  }

  lemma Slice(b: seq<char>, s: nat, from: nat, to: nat)
    requires Ends(b, s) && from <= to <= StrLen(b, s)
    ensures CString(b, s)[from..to] == b[s + from..s + to]
  {
    assert b[s..s + StrLen(b, s)][from..to] == b[s + from..s + to];
  }

  lemma EndsEarlier(b: seq<char>, s: nat, t: nat, end: nat)
    requires Ends(b, s) && s <= t <= end < s + StrLen(b, s) && !IsSpace(b[t]) && !IsSpace(b[end])
    requires AllSpace(CString(b, s)[..t - s]) && AllSpace(CString(b, s)[end + 1 - s..])
    ensures Ends(b[end + 1 := NUL], t) && CString(b[end + 1 := NUL], t) == Trimmed(CString(b, s))
  {
    var now, text := b[end + 1 := NUL], CString(b, s);
    Slice(b, s, t - s, end + 1 - s);
    EndIsTrimmed(b, s, t, end);
    CStringIs(now, t, end + 1);
    assert now[t..end + 1] == b[t..end + 1];
  }

  lemma EndIsTrimmed(b: seq<char>, s: nat, t: nat, end: nat)
    requires Ends(b, s) && s <= t <= end < s + StrLen(b, s) && !IsSpace(b[t]) && !IsSpace(b[end])
    requires AllSpace(CString(b, s)[..t - s]) && AllSpace(CString(b, s)[end + 1 - s..])
    ensures Trimmed(CString(b, s)) == CString(b, s)[t - s..end + 1 - s]
  {
    var text := CString(b, s);
    assert text[t - s] == b[t] && text[end - s] == b[end];
    TrimAt(text, t - s, end + 1 - s);
  }

  /** km_trim: the string at s is trimmed where it stands; what lies before t or from its old end on is untouched. */
  method TrimInPlace(a: array<char>, s: nat, ghost text: string) returns (t: nat)
    requires Ends(a[..], s) && CString(a[..], s) == text
    modifies a
    ensures s <= t <= s + |text|
    ensures Ends(a[..], t) && CString(a[..], t) == Trimmed(text)
    ensures forall i :: 0 <= i < a.Length && (i < t || i >= s + |text|) ==> a[i] == old(a[i])
  {
    ghost var was := a[..];
    t := SkipSpace(a, s);
    if a[t] == NUL {
      assert text[..t - s] == text;
      OnlySpace(was, s);
      return;
    }
    var end := LastNonSpace(a, t, s);
    EndsEarlier(was, s, t, end);
    a[end + 1] := NUL;
    assert a[..] == was[end + 1 := NUL];
  }

  method SkipSpace(a: array<char>, s: nat) returns (t: nat)
    requires Ends(a[..], s)
    ensures var n := StrLen(a[..], s);
            var text := CString(a[..], s);
            && s <= t <= s + n && AllSpace(text[..t - s]) && !IsSpace(a[t]) && (a[t] == NUL <==> t == s + n)
  {
    t := s;
    ghost var n := StrLen(a[..], s);
    while IsSpace(a[t])
      invariant s <= t <= s + n
      invariant forall i :: s <= i < t ==> IsSpace(a[i])
      decreases s + n - t
    {
      t := t + 1;
    }
  }

  method LastNonSpace(a: array<char>, t: nat, ghost s: nat) returns (end: nat)
    requires Ends(a[..], s) && s <= t < s + StrLen(a[..], s) && !IsSpace(a[t])
    ensures var n := StrLen(a[..], s);
            && t <= end < s + n && !IsSpace(a[end]) && AllSpace(CString(a[..], s)[end + 1 - s..])
  {
    ghost var n := StrLen(a[..], s);
    CStringIs(a[..], t, s + n);
    end := t + StrLen(a[..], t) - 1;
    while end > t && IsSpace(a[end])
      invariant t <= end < s + n
      invariant forall i :: end < i < s + n ==> IsSpace(a[i])
    {
      end := end - 1;
    }
    ghost var after := CString(a[..], s)[end + 1 - s..];
    assert forall k :: 0 <= k < |after| ==> after[k] == a[end + 1 + k];
  }

  // ---- Keys and values ----

  datatype Pair = NoColon | Pair(key: string, value: string)

  /** What a line says: the trimmed parts before and after its first colon. */
  function KeyValue(line: string): Pair {
    var colon := IndexOf(line, ':');
    if colon < 0 then NoColon else Pair(Trimmed(line[..colon]), Trimmed(line[colon + 1..]))
  }

  /** A key without colon and any value come back from a line in which space was put around them. */
  lemma KeyValueRoundTrip(l: string, key: string, m: string, n: string, value: string, r: string)
    requires AllSpace(l) && AllSpace(m) && AllSpace(n) && AllSpace(r) && Tight(key) && Tight(value) && Lacks(key, ':')
    ensures KeyValue((l + key + m) + ":" + (n + value + r)) == Pair(key, value)
  {
    var before, after := l + key + m, n + value + r;
    var line := before + ":" + after;
    assert Lacks(before, ':');
    assert line[|before|] == ':' && forall k :: 0 <= k < |before| ==> line[k] == before[k];
    assert line[..|before|] == before && line[|before| + 1..] == after;
    TrimIsUnique(l, key, m);
    TrimIsUnique(n, value, r);
  }

  lemma SplitAt(b: seq<char>, s: nat, colon: nat)
    requires Ends(b, s) && colon < StrLen(b, s)
    ensures var c := b[s + colon := NUL];
            var text := CString(b, s);
            && Ends(c, s) && StrLen(c, s) == colon && CString(c, s) == text[..colon]
            && Ends(c, s + colon + 1) && CString(c, s + colon + 1) == text[colon + 1..]
  {
    var c, n := b[s + colon := NUL], StrLen(b, s);
    CStringIs(c, s, s + colon);
    CStringIs(c, s + colon + 1, s + n);
    Slice(b, s, 0, colon);
    Slice(b, s, colon + 1, n);
    assert c[s..s + colon] == b[s..s + colon];
    assert c[s + colon + 1..s + n] == b[s + colon + 1..s + n];
  }

  /** km_parse_key_value: both halves are left in the buffer, one after the other. */
  method ParseKeyValue(line: array<char>, s: nat, ghost text: string) returns (ok: bool, key: nat, value: nat)
    requires Ends(line[..], s) && CString(line[..], s) == text
    modifies line
    ensures ok <==> KeyValue(text).Pair?
    ensures !ok ==> line[..] == old(line[..])
    ensures ok ==> Ends(line[..], key) && Ends(line[..], value)
    ensures ok ==> Pair(CString(line[..], key), CString(line[..], value)) == KeyValue(text)
    ensures forall i :: 0 <= i < line.Length && (i < s || i >= s + |text|) ==> line[i] == old(line[i])
  {
    var colon := IndexOf(CString(line[..], s), ':');
    if colon < 0 {
      return false, 0, 0;
    }
    key := TakeKey(line, s, colon, text);
    ghost var trimmed := line[..];
    value := TrimInPlace(line, s + colon + 1, text[colon + 1..]);
    SameString(trimmed, line[..], key);
    ok := true;
  }

  /** The first half: the colon becomes a terminator and the key is trimmed. */
  method TakeKey(line: array<char>, s: nat, colon: nat, ghost text: string) returns (key: nat)
    requires Ends(line[..], s) && CString(line[..], s) == text && colon < |text|
    modifies line
    ensures Ends(line[..], key) && key + StrLen(line[..], key) <= s + colon
    ensures CString(line[..], key) == Trimmed(text[..colon])
    ensures Ends(line[..], s + colon + 1) && CString(line[..], s + colon + 1) == text[colon + 1..]
    ensures forall i :: 0 <= i < line.Length && (i < s || i > s + colon) ==> line[i] == old(line[i])
  {
    SplitLine(line, s, colon, text);
    ghost var split := line[..];
    key := TrimInPlace(line, s, text[..colon]);
    ValueStays(split, line[..], s, key, colon);
  }

  method SplitLine(line: array<char>, s: nat, colon: nat, ghost text: string)
    requires Ends(line[..], s) && CString(line[..], s) == text && colon < |text|
    modifies line
    ensures Ends(line[..], s) && StrLen(line[..], s) == colon && CString(line[..], s) == text[..colon]
    ensures Ends(line[..], s + colon + 1) && CString(line[..], s + colon + 1) == text[colon + 1..]
    ensures forall i :: 0 <= i < line.Length && i != s + colon ==> line[i] == old(line[i])
  {
    SplitAt(line[..], s, colon);
    ghost var split := line[..][s + colon := NUL];
    line[s + colon] := NUL;
    assert line[..] == split;
  }

  /** The trimmed key ends where, or before, the colon was. */
  lemma KeyEndsBefore(split: seq<char>, trimmed: seq<char>, s: nat, key: nat, colon: nat)
    requires |split| == |trimmed| && Ends(split, s) && StrLen(split, s) == colon && s <= key <= s + colon
    requires Ends(trimmed, key) && trimmed[s + colon] == split[s + colon]
    ensures key + StrLen(trimmed, key) <= s + colon
  {
  }

  /** And the value after the colon is as it was. */
  lemma ValueStays(split: seq<char>, trimmed: seq<char>, s: nat, key: nat, colon: nat)
    requires |split| == |trimmed| && Ends(split, s) && StrLen(split, s) == colon && s <= key <= s + colon
    requires Ends(trimmed, key) && Ends(split, s + colon + 1)
    requires forall i :: s + colon <= i < |split| ==> trimmed[i] == split[i]
    ensures key + StrLen(trimmed, key) <= s + colon
    ensures Ends(trimmed, s + colon + 1) && CString(trimmed, s + colon + 1) == CString(split, s + colon + 1)
  {
    KeyEndsBefore(split, trimmed, s, key, colon);
    SameString(split, trimmed, s + colon + 1);
  }

  /** A string is not touched by changes beyond its terminator. */
  lemma SameString(b: seq<char>, c: seq<char>, s: nat)
    requires Ends(b, s) && |b| == |c| && forall i :: s <= i <= s + StrLen(b, s) ==> c[i] == b[i]
    ensures Ends(c, s) && CString(c, s) == CString(b, s)
  {
    var e := s + StrLen(b, s);
    CStringIs(c, s, e);
    assert c[s..e] == b[s..e];
  }
}
