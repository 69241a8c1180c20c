/** km_read_line of src/utils/parser.c, and what repeating it makes of a text. */
module Lines {
  import opened Buffers
  import opened CStrings

  /** The length of the first line, and the same with its newline, if it has one. */
  function Length(text: string): (n: nat)
    ensures n <= |text|
  {
    var nl := IndexOf(text, '\n');
    if nl < 0 then |text| else nl
  }

  function Advance(text: string): (n: nat)
    ensures n <= |text| && (text != "" ==> n > 0)
  {
    var nl := IndexOf(text, '\n');
    if nl < 0 then |text| else nl + 1
  }

  /** The lines of a text; a newline at its end does not begin another. */
  function LinesOf(text: string): (r: seq<string>)
    ensures |r| <= |text|
  {
    if text == "" then [] else [text[..Length(text)]] + LinesOf(text[Advance(text)..])
  }

  ghost predicate LinesLeft(text: string, cursor: nat, lines: seq<string>) {
    cursor <= |text| && LinesOf(text[cursor..]) == lines
  }

  /** One line from the cursor on, into a buffer of which outSize bytes may be used. The text holds no NUL. */
  method ReadLine(text: string, cursor: nat, out: array<char>, outSize: nat, ghost lines: seq<string>) returns (more: bool, next: nat)
    requires LinesLeft(text, cursor, lines) && outSize <= out.Length && Lacks(text, NUL)
    modifies out
    ensures more <==> outSize > 0 && lines != []
    ensures !more ==> next == cursor && out[..] == old(out[..])
    ensures more ==> cursor < next && LinesLeft(text, next, lines[1..])
    ensures more ==> Ends(out[..], 0) && CString(out[..], 0) == Cut(lines[0], outSize - 1)
    ensures forall i :: outSize <= i < out.Length ==> out[i] == old(out[i])
  {
    if outSize == 0 || cursor == |text| {
      return false, cursor;
    }
    var rest := text[cursor..];
    var nl := IndexOf(rest, '\n');
    var length := if nl >= 0 then nl else |rest|;
    NextLine(text, cursor, lines);
    CopyLine(rest[..length], out, outSize);
    next := cursor + if nl >= 0 then nl + 1 else length;
    more := true;
  }

  /** As much of the line as there is room for, and a terminator. */
  method CopyLine(line: string, out: array<char>, outSize: nat)
    requires 0 < outSize <= out.Length && Lacks(line, NUL)
    modifies out
    ensures Ends(out[..], 0) && CString(out[..], 0) == Cut(line, outSize - 1)
    ensures forall i :: outSize <= i < out.Length ==> out[i] == old(out[i])
  {
    var copy := if |line| < outSize - 1 then |line| else outSize - 1;
    Store(out, line[..copy]);
  }

  lemma NextLine(text: string, cursor: nat, lines: seq<string>)
    requires LinesLeft(text, cursor, lines) && cursor < |text| && Lacks(text, NUL)
    ensures var rest := text[cursor..];
            && lines != [] && lines[0] == rest[..Length(rest)] && Lacks(lines[0], NUL)
            && LinesLeft(text, cursor + Advance(rest), lines[1..])
  {
    var rest := text[cursor..];
    FirstOf(rest);
    assert text[cursor + Advance(rest)..] == rest[Advance(rest)..];
  }

  lemma FirstOf(rest: string)
    requires rest != ""
    ensures LinesOf(rest) == [rest[..Length(rest)]] + LinesOf(rest[Advance(rest)..])
  {
  }

  function CutAll(lines: seq<string>, n: nat): (r: seq<string>)
    ensures |r| == |lines| && forall i :: 0 <= i < |r| ==> r[i] == Cut(lines[i], n)
  {
    seq(|lines|, i requires 0 <= i < |lines| => Cut(lines[i], n))
  }

  lemma CutNext(lines: seq<string>, n: nat)
    requires lines != []
    ensures CutAll(lines, n) == [Cut(lines[0], n)] + CutAll(lines[1..], n)
  {
    var a, b := CutAll(lines, n), CutAll(lines[1..], n);
    forall i | 1 <= i < |lines|
      ensures a[i] == b[i - 1]
    {
      assert lines[i] == lines[1..][i - 1];
    }
  }

  lemma CutStep(all: seq<string>, done: seq<string>, left: seq<string>, n: nat)
    requires left != [] && all == done + CutAll(left, n)
    ensures all == done + [Cut(left[0], n)] + CutAll(left[1..], n)
  {
    CutNext(left, n);
  }

  lemma CutNoMore(all: seq<string>, done: seq<string>, n: nat)
    requires all == done + CutAll([], n)
    ensures all == done
  {
    assert CutAll([], n) == [];
  }

  /** Repeated reading, as every caller does: it comes to an end, with every line of the text, each cut to the buffer. */
  method ReadAll(text: string, out: array<char>, outSize: nat) returns (lines: seq<string>)
    requires outSize <= out.Length && Lacks(text, NUL)
    modifies out
    ensures lines == if outSize > 0 then CutAll(LinesOf(text), outSize - 1) else []
  {
    lines := [];
    var cursor := 0;
    ghost var left, n: nat := LinesOf(text), if outSize > 0 then outSize - 1 else 0;
    ghost var all := CutAll(left, n);
    assert text[0..] == text;
    while true
      invariant LinesLeft(text, cursor, left) && all == lines + CutAll(left, n)
      invariant outSize == 0 ==> lines == []
      decreases |text| - cursor
    {
      var more, next := ReadLine(text, cursor, out, outSize, left);
      if !more {
        break;
      }
      CutStep(all, lines, left, n);
      lines := lines + [CString(out[..], 0)];
      left := left[1..];
      cursor := next;
    }
    if outSize > 0 {
      CutNoMore(all, lines, n);
    }
  }

  // ---- What the lines are ----

  function Terminated(lines: seq<string>): string {
    if lines == [] then "" else lines[0] + "\n" + Terminated(lines[1..])
  }

  /** Written out with a newline after each, the lines are the text, in which only the last newline may be missing. */
  ghost predicate AreLinesOf(lines: seq<string>, text: string) {
    && (forall i :: 0 <= i < |lines| ==> Lacks(lines[i], '\n'))
    && (Terminated(lines) == text || (lines != [] && lines[|lines| - 1] != "" && Terminated(lines) == text + "\n"))
  }

  lemma OneLine(text: string)
    requires text != "" && Lacks(text, '\n')
    ensures LinesOf(text) == [text]
  {
    assert text[..|text|] == text && text[|text|..] == "";
  }

  lemma OneMoreLine(line: string, lines: seq<string>, rest: string)
    requires Lacks(line, '\n') && AreLinesOf(lines, rest)
    ensures AreLinesOf([line] + lines, line + "\n" + rest)
  {
    var all := [line] + lines;
    assert all[1..] == lines;
    if Terminated(lines) != rest {
      assert all[|all| - 1] == lines[|lines| - 1];
      assert line + "\n" + rest + "\n" == line + "\n" + (rest + "\n");
    }
  }

  lemma {:induction false} LinesAreLines(text: string)
    ensures AreLinesOf(LinesOf(text), text)
  {
    if text != "" {
      var nl := IndexOf(text, '\n');
      if nl < 0 {
        OneLine(text);
        assert [text][1..] == [];
      } else {
        var rest := text[nl + 1..];
        LinesAreLines(rest);
        OneMoreLine(text[..nl], LinesOf(rest), rest);
        assert text == text[..nl] + "\n" + rest;
      }
    }
  }

  lemma FirstLine(line: string, rest: string)
    requires Lacks(line, '\n')
    ensures IndexOf(line + "\n" + rest, '\n') == |line|
    ensures LinesOf(line + "\n" + rest) == [line] + LinesOf(rest)
  {
    var text := line + "\n" + rest;
    assert text[|line|] == '\n' && forall k :: 0 <= k < |line| ==> text[k] == line[k];
    assert text[..|line|] == line && text[|line| + 1..] == rest;
  }

  /** No other sequence of lines writes out as the text. */
  lemma {:induction false} LinesAreUnique(lines: seq<string>, text: string)
    requires AreLinesOf(lines, text)
    ensures lines == LinesOf(text)
  {
    if lines != [] {
      var line, rest := lines[0], Terminated(lines[1..]);
      assert lines == [line] + lines[1..];
      if Terminated(lines) == text {
        FirstLine(line, rest);
        LinesAreUnique(lines[1..], rest);
      } else {
        WithoutLast(lines, text);
        if lines[1..] == [] {
          OneLine(text);
        } else {
          var shorter := rest[..|rest| - 1];
          FirstLine(line, shorter);
          LinesAreUnique(lines[1..], shorter);
        }
      }
    }
  }

  lemma WithoutLast(lines: seq<string>, text: string)
    requires lines != [] && Terminated(lines) == text + "\n"
    ensures var rest := Terminated(lines[1..]);
            if lines[1..] == [] then text == lines[0]
            else rest != "" && rest == rest[..|rest| - 1] + "\n" && text == lines[0] + "\n" + rest[..|rest| - 1]
  {
    var line, rest := lines[0], Terminated(lines[1..]);
    assert text == Terminated(lines)[..|text|];
    if lines[1..] == [] {
      assert text + "\n" == line + "\n";
    } else {
      MissingNewline(lines[1..]);
      assert text == (line + "\n" + rest)[..|text|];
    }
  }

  lemma {:induction false} MissingNewline(lines: seq<string>)
    requires lines != []
    ensures Terminated(lines) != "" && Terminated(lines)[|Terminated(lines)| - 1] == '\n'
  {
    if lines[1..] != [] {
      MissingNewline(lines[1..]);
    }
  }

  /** A final newline makes no difference. */
  lemma FinalNewline(text: string)
    requires text != "" && text[|text| - 1] != '\n'
    ensures LinesOf(text + "\n") == LinesOf(text)
  {
    LinesAreLines(text);
    var lines := LinesOf(text);
    MissingNewline(lines);
    LinesAreUnique(lines, text + "\n");
  }
}
