/** km_parse_meminfo of src/utils/parser.c: a loop over lines, through one line buffer. */
module Meminfo {
  import opened Buffers
  import opened CStrings
  import opened Lines
  import opened Trim
  import opened Numbers

  const BUFFER: nat := 512

  datatype Figures = Figures(memTotal: int, memFree: int, memAvailable: int, buffers: int, cached: int, swapTotal: int, swapFree: int)

  /** What the loop sees of each line: as much as the buffer holds, taken apart at the colon. */
  function Seen(line: string): Pair { KeyValue(Cut(line, BUFFER - 1)) }

  function SeenAll(lines: seq<string>): (r: seq<Pair>)
    ensures |r| == |lines| && forall i :: 0 <= i < |r| ==> r[i] == Seen(lines[i])
  {
    seq(|lines|, i requires 0 <= i < |lines| => Seen(lines[i]))
  }

  predicate Says(p: Pair, key: string) { p.Pair? && p.key == key }

  /** The value on the last line with this key, "" if there is none. */
  function LastText(pairs: seq<Pair>, key: string): string {
    if pairs == [] then ""
    else if Says(pairs[|pairs| - 1], key) then pairs[|pairs| - 1].value
    else LastText(pairs[..|pairs| - 1], key)
  }

  function LastValue(pairs: seq<Pair>, key: string): int { Strtoull(LastText(pairs, key)) }

  function Read(pairs: seq<Pair>): Figures {
    Figures(LastValue(pairs, "MemTotal"), LastValue(pairs, "MemFree"), LastValue(pairs, "MemAvailable"),
            LastValue(pairs, "Buffers"), LastValue(pairs, "Cached"), LastValue(pairs, "SwapTotal"), LastValue(pairs, "SwapFree"))
  }

  lemma {:induction false} LastTextIs(pairs: seq<Pair>, key: string, i: int)
    requires -1 <= i < |pairs| && (i >= 0 ==> Says(pairs[i], key))
    requires forall j :: i < j < |pairs| ==> !Says(pairs[j], key)
    ensures LastText(pairs, key) == if i < 0 then "" else pairs[i].value
  {
    if i < |pairs| - 1 {
      LastTextIs(pairs[..|pairs| - 1], key, i);
    }
  }

  /** An absent key reads as zero; a key that stands on several lines reads as on the last of them, here number i. */
  lemma LastValueIs(pairs: seq<Pair>, key: string, i: int)
    requires -1 <= i < |pairs| && (i >= 0 ==> Says(pairs[i], key))
    requires forall j :: i < j < |pairs| ==> !Says(pairs[j], key)
    ensures LastValue(pairs, key) == if i < 0 then 0 else Strtoull(pairs[i].value)
  {
    LastTextIs(pairs, key, i);
  }

  lemma SeenLine(key: string, pad: string, value: string)
    requires Tight(key) && Lacks(key, ':') && AllSpace(pad) && Tight(value)
    requires |key| + 1 + |pad| + |value| < BUFFER
    ensures Seen(key + ":" + (pad + value)) == Pair(key, value)
  {
    KeyValueRoundTrip("", key, "", pad, value, "");
    assert "" + key + "" == key;
    assert pad + value + "" == pad + value;
  }

  /** A line as the kernel writes it, if it fits the buffer, is read back exactly. */
  lemma PublishedLine(key: string, pad: string, n: nat, unit: string)
    requires Tight(key) && Lacks(key, ':') && AllSpace(pad) && n <= ULONG_MAX
    requires unit == "" || (unit[0] == ' ' && !IsSpace(unit[|unit| - 1]))
    requires |key| + 1 + |pad| + |Digits(n)| + |unit| < BUFFER
    ensures Seen(key + ":" + (pad + (Digits(n) + unit))) == Pair(key, Digits(n) + unit)
    ensures Strtoull(Digits(n) + unit) == n
  {
    NumberIsTight(n, unit);
    ReadFirst(n, unit);
    SeenLine(key, pad, Digits(n) + unit);
  }

  lemma NumberIsTight(n: nat, unit: string)
    requires unit == "" || !IsSpace(unit[|unit| - 1])
    ensures Tight(Digits(n) + unit)
  {
    var digits := Digits(n);
    assert IsDigit(digits[0]) && IsDigit(digits[|digits| - 1]);
    assert (digits + unit)[0] == digits[0];
  }

  lemma ReadFirst(n: nat, unit: string)
    requires n <= ULONG_MAX && (unit == "" || !IsDigit(unit[0]))
    ensures Strtoull(Digits(n) + unit) == n
  {
    var s := Digits(n) + unit;
    assert s[0] == Digits(n)[0] && IsDigit(s[0]);
    assert SkipBlanks(s) == s;
    ReadDigits(n, unit);
  }

  // ---- The whole file ----

  function Published(key: string, pad: string, n: nat, unit: string): string { key + ":" + (pad + (Digits(n) + unit)) }

  /** A line as the kernel writes it for this key and number, of a length that fits the buffer. */
  ghost predicate Publishes(line: string, key: string, n: int) {
    && 0 <= n <= ULONG_MAX && |line| < 512
    && exists pad, unit ::
         && line == Published(key, pad, n, unit) && AllSpace(pad)
         && (unit == "" || (unit[0] == ' ' && !IsSpace(unit[|unit| - 1])))
  }

  /** The number stands in the file: on a line with the key, and on no line after it is there that key again. */
  ghost predicate Stands(lines: seq<string>, key: string, n: int) {
    exists i :: 0 <= i < |lines| && Publishes(lines[i], key, n) && forall j :: i < j < |lines| ==> !Says(Seen(lines[j]), key)
  }

  predicate IsKey(key: string) { Tight(key) && Lacks(key, ':') }

  lemma MemoryKeys()
    ensures IsKey("MemTotal") && IsKey("MemFree") && IsKey("MemAvailable") && IsKey("Buffers") && IsKey("Cached")
  {
  }

  lemma SwapKeys()
    ensures IsKey("SwapTotal") && IsKey("SwapFree")
  {
  }

  lemma PublishedIsSeen(line: string, key: string, n: int)
    requires IsKey(key) && Publishes(line, key, n)
    ensures Says(Seen(line), key) && Strtoull(Seen(line).value) == n
  {
    var pad, unit :| line == Published(key, pad, n, unit) && AllSpace(pad)
                     && (unit == "" || (unit[0] == ' ' && !IsSpace(unit[|unit| - 1])));
    PublishedLine(key, pad, n, unit);
  }

  lemma StandingIsRead(lines: seq<string>, key: string, n: int)
    requires IsKey(key) && Stands(lines, key, n)
    ensures LastValue(SeenAll(lines), key) == n
  {
    var i :| 0 <= i < |lines| && Publishes(lines[i], key, n) && forall j :: i < j < |lines| ==> !Says(Seen(lines[j]), key);
    PublishedIsSeen(lines[i], key, n);
    LastValueIs(SeenAll(lines), key, i);
  }

  /**
   The round trip: seven numbers, each on a line with its key, with any padding and unit, in any order, among any
   other lines, in a text with or without a newline at its end, are read into the seven fields.
   */
  lemma FileRoundTrip(text: string, lines: seq<string>, f: Figures)
    requires AreLinesOf(lines, text)
    requires Stands(lines, "MemTotal", f.memTotal) && Stands(lines, "MemFree", f.memFree)
    requires Stands(lines, "MemAvailable", f.memAvailable) && Stands(lines, "Buffers", f.buffers)
    requires Stands(lines, "Cached", f.cached) && Stands(lines, "SwapTotal", f.swapTotal) && Stands(lines, "SwapFree", f.swapFree)
    ensures Read(SeenAll(LinesOf(text))) == f
  {
    LinesAreUnique(lines, text);
    MemoryKeys();
    SwapKeys();
    StandingIsRead(lines, "MemTotal", f.memTotal);
    StandingIsRead(lines, "MemFree", f.memFree);
    StandingIsRead(lines, "MemAvailable", f.memAvailable);
    StandingIsRead(lines, "Buffers", f.buffers);
    StandingIsRead(lines, "Cached", f.cached);
    StandingIsRead(lines, "SwapTotal", f.swapTotal);
    StandingIsRead(lines, "SwapFree", f.swapFree);
  }

  class MeminfoCell {
    var memTotal: int
    var memFree: int
    var memAvailable: int
    var buffers: int
    var cached: int
    var swapTotal: int
    var swapFree: int

    ghost function Value(): Figures
      reads this
    {
      Figures(memTotal, memFree, memAvailable, buffers, cached, swapTotal, swapFree)
    }

    /** km_parse_meminfo. Whatever the structure held before is gone. */
    method Parse(content: string)
      requires Lacks(content, NUL)
      modifies this
      ensures Value() == Read(SeenAll(LinesOf(content)))
      ensures var pairs := SeenAll(LinesOf(content));
              && memTotal == LastValue(pairs, "MemTotal") && memFree == LastValue(pairs, "MemFree")
              && memAvailable == LastValue(pairs, "MemAvailable") && buffers == LastValue(pairs, "Buffers")
              && cached == LastValue(pairs, "Cached")
              && swapTotal == LastValue(pairs, "SwapTotal") && swapFree == LastValue(pairs, "SwapFree")
    {
      Clear();
      var line := new char[BUFFER];
      var cursor := 0;
      ghost var done: seq<Pair> := [];
      ghost var left := LinesOf(content);
      ghost var all := SeenAll(left);
      assert content[0..] == content;
      while true
        invariant fresh(line) && line.Length == BUFFER && LinesLeft(content, cursor, left)
        invariant all == done + SeenAll(left) && Value() == Read(done)
        decreases |content| - cursor
      {
        var more, next := ReadLine(content, cursor, line, BUFFER, left);
        if !more {
          break;
        }
        Take(line, left[0], done);
        SeenNext(all, done, left);
        done := done + [Seen(left[0])];
        left := left[1..];
        cursor := next;
      }
      SeenNoMore(all, done);
    }

    method Clear()
      modifies this
      ensures Value() == Read([])
    {
      memTotal, memFree, memAvailable, buffers, cached, swapTotal, swapFree := 0, 0, 0, 0, 0, 0, 0;
    }

    /** The body of the loop, for the line in the buffer. */
    method Take(line: array<char>, ghost text: string, ghost done: seq<Pair>)
      requires Ends(line[..], 0) && CString(line[..], 0) == Cut(text, BUFFER - 1) && Value() == Read(done)
      modifies this, line
      ensures Value() == Read(done + [Seen(text)])
    {
      var ok, key, value := ParseKeyValue(line, 0, Cut(text, BUFFER - 1));
      ReadNext(done, Seen(text));
      if ok {
        Store(CString(line[..], key), Strtoull(CString(line[..], value)));
      }
    }

    method Store(key: string, v: int)
      modifies this
      ensures Value() == Put(old(Value()), key, v)
    {
      if key == "MemTotal" {
        memTotal := v;
      } else if key == "MemFree" {
        memFree := v;
      } else if key == "MemAvailable" {
        memAvailable := v;
      } else if key == "Buffers" {
        buffers := v;
      } else if key == "Cached" {
        cached := v;
      } else if key == "SwapTotal" {
        swapTotal := v;
      } else if key == "SwapFree" {
        swapFree := v;
      }
    }
  }

  ghost function Put(f: Figures, key: string, v: int): Figures {
    f.(memTotal := if key == "MemTotal" then v else f.memTotal,
       memFree := if key == "MemFree" then v else f.memFree,
       memAvailable := if key == "MemAvailable" then v else f.memAvailable,
       buffers := if key == "Buffers" then v else f.buffers,
       cached := if key == "Cached" then v else f.cached,
       swapTotal := if key == "SwapTotal" then v else f.swapTotal,
       swapFree := if key == "SwapFree" then v else f.swapFree)
  }

  lemma SeenNext(all: seq<Pair>, done: seq<Pair>, left: seq<string>)
    requires left != [] && all == done + SeenAll(left)
    ensures all == done + [Seen(left[0])] + SeenAll(left[1..])
  {
    SeenFirst(left);
  }

  lemma SeenFirst(left: seq<string>)
    requires left != []
    ensures SeenAll(left) == [Seen(left[0])] + SeenAll(left[1..])
  {
    var a, b := SeenAll(left), SeenAll(left[1..]);
    forall i | 1 <= i < |left|
      ensures a[i] == b[i - 1]
    {
      assert left[i] == left[1..][i - 1];
    }
  }

  lemma SeenNoMore(all: seq<Pair>, done: seq<Pair>)
    requires all == done + SeenAll([])
    ensures all == done
  {
    assert SeenAll([]) == [];
  }

  lemma LastTextNext(done: seq<Pair>, p: Pair, key: string)
    ensures LastText(done + [p], key) == if Says(p, key) then p.value else LastText(done, key)
  {
    assert (done + [p])[..|done|] == done;
  }

  lemma ReadNext(done: seq<Pair>, p: Pair)
    ensures Read(done + [p]) == if p.Pair? then Put(Read(done), p.key, Strtoull(p.value)) else Read(done)
  {
    LastTextNext(done, p, "MemTotal");
    LastTextNext(done, p, "MemFree");
    LastTextNext(done, p, "MemAvailable");
    LastTextNext(done, p, "Buffers");
    LastTextNext(done, p, "Cached");
    LastTextNext(done, p, "SwapTotal");
    LastTextNext(done, p, "SwapFree");
  }
}
