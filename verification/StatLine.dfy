/** km_parse_proc_stat of src/utils/parser.c: the bracketing of the command name, and sscanf over the rest. */
module StatLine {
  import opened Buffers
  import opened CStrings
  import opened Numbers

  // ---- sscanf, for the conversions in use; white space is skipped before each ----

  datatype Conversion = CharC | IntC | LongC | ULongC | SkipC

  datatype Value = Char(c: char) | Num(v: int) | Skipped

  datatype Scanned = Fails | Scans(value: Value, rest: string)

  predicate IsToken(c: char) { !IsBlank(c) }

  function ScanNumber(conversion: Conversion, negative: bool, magnitude: nat): int {
    if conversion.IntC? then ToInt(ToLong(negative, magnitude))
    else if conversion.ULongC? then ToULong(negative, magnitude)
    else ToLong(negative, magnitude)
  }

  function ScanOne(conversion: Conversion, s: string): Scanned {
    var t := SkipBlanks(s);
    if t == "" then Fails
    else if conversion.CharC? then Scans(Char(t[0]), t[1..])
    else if conversion.SkipC? then Scans(Skipped, t[Span(IsToken, t)..])
    else
      match ReadNumber(t)
      case NoNumber => Fails
      case Number(negative, magnitude, rest) => Scans(Num(ScanNumber(conversion, negative, magnitude)), rest)
  }

  /** The conversions made, from number i on, up to the first that fails. */
  function Scanf(format: seq<Conversion>, i: nat, s: string): (r: seq<Value>)
    requires i <= |format|
    ensures |r| <= |format| - i
    decreases |format| - i, s
  {
    if i == |format| then []
    else
      match ScanOne(format[i], s)
      case Fails => []
      case Scans(value, rest) => [value] + Scanf(format, i + 1, rest)
  }

  // ---- The line ----

  /** Fields 3 to 20. */
  const FORMAT: seq<Conversion> := [
    CharC, IntC, IntC, IntC, IntC, IntC, SkipC, ULongC, SkipC, ULongC, SkipC,
    ULongC, ULongC, SkipC, SkipC, LongC, LongC, LongC]

  datatype Stat = Stat(
    pid: int, state: char, ppid: int, pgrp: int, session: int, ttyNr: int, tpgid: int,
    minflt: int, majflt: int, utime: int, stime: int, priority: int, nice: int, numThreads: int)

  datatype Bracketed = NotBracketed | Bracketed(comm: string, rest: string)

  /** The name between the first '(' and the last ')', and what follows. */
  function Bracket(content: string): Bracketed {
    var open, close := IndexOf(content, '('), LastIndexOf(content, ')');
    if open < 0 || close < 0 || close < open then NotBracketed
    else Bracketed(content[open + 1..close], content[close + 1..])
  }

  function PidOf(content: string): int {
    match ScanOne(IntC, content)
    case Scans(Num(v), _) => v
    case _ => 0
  }

  function NumAt(values: seq<Value>, i: nat): int {
    if i < |values| && values[i].Num? then values[i].v else 0
  }

  /** What stands in the structure after the scan: zero where the scan did not get to. */
  function Filled(pid: int, values: seq<Value>): Stat {
    Stat(pid, if values != [] && values[0].Char? then values[0].c else NUL,
         NumAt(values, 1), NumAt(values, 2), NumAt(values, 3), NumAt(values, 4), NumAt(values, 5),
         NumAt(values, 7), NumAt(values, 9), NumAt(values, 11), NumAt(values, 12),
         NumAt(values, 15), NumAt(values, 16), NumAt(values, 17))
  }

  /** How many of the first n conversions store something: what sscanf returns. */
  function Stored(n: nat): nat
    requires n <= |FORMAT|
  {
    if n == 0 then 0 else Stored(n - 1) + if FORMAT[n - 1].SkipC? then 0 else 1
  }

  lemma {:induction false} StoredGrows(m: nat, n: nat)
    requires m <= n <= |FORMAT|
    ensures Stored(m) <= Stored(n)
  {
    if m < n {
      StoredGrows(m, n - 1);
    }
  }

  lemma StoredTwelve()
    ensures Stored(17) == 12
  {
    assert Stored(2) == 2;
    assert Stored(4) == 4;
    assert Stored(6) == 6;
    assert Stored(8) == 7;
    assert Stored(10) == 8;
    assert Stored(12) == 9;
    assert Stored(14) == 10;
    assert Stored(16) == 11;
  }

  /** The count of 13 is reached only by the whole format. */
  lemma ThirteenIsAll(n: nat)
    requires n <= |FORMAT|
    ensures Stored(n) == 13 <==> n == |FORMAT|
  {
    StoredTwelve();
    if n < 18 {
      StoredGrows(n, 17);
    }
  }

  /** What the parser does: nothing, or its answer, the structure and the string it leaves. */
  datatype Outcome = Refused | Read(ok: bool, fields: Stat, comm: string)

  function ReadRest(format: seq<Conversion>, content: string, rest: string, comm: string): Outcome {
    var values := Scanf(format, 0, rest);
    Read(|values| == |format|, Filled(PidOf(content), values), comm)
  }

  function ParsedBy(format: seq<Conversion>, content: string, commSize: nat): Outcome {
    match Bracket(content)
    case NotBracketed => Refused
    case Bracketed(comm, rest) =>
      if commSize == 0 then Refused else ReadRest(format, content, rest, Cut(comm, commSize - 1))
  }

  function Parsed(content: string, commSize: nat): Outcome { ParsedBy(FORMAT, content, commSize) }

  class StatCell {
    var fields: Stat

    constructor (s: Stat)
      ensures fields == s
    {
      fields := s;
    }
  }

  /** Nothing is touched unless the name is bracketed and has a buffer; on a short line what was read is there. */
  method ParseProcStat(content: string, out: StatCell, comm: array<char>, commSize: nat) returns (ok: bool)
    requires Lacks(content, NUL) && commSize <= comm.Length
    modifies out, comm
    ensures Parsed(content, commSize).Refused? ==> !ok && out.fields == old(out.fields) && comm[..] == old(comm[..])
    ensures Parsed(content, commSize).Read? ==>
      Ends(comm[..], 0) && Read(ok, out.fields, CString(comm[..], 0)) == Parsed(content, commSize)
    ensures forall i :: commSize <= i < comm.Length ==> comm[i] == old(comm[i])
  {
    ok := ParseBy(FORMAT, content, out, comm, commSize);
  }

  method ParseBy(format: seq<Conversion>, content: string, out: StatCell, comm: array<char>, commSize: nat) returns (ok: bool)
    requires format == FORMAT && Lacks(content, NUL) && commSize <= comm.Length
    modifies out, comm
    ensures ParsedBy(format, content, commSize).Refused? ==> !ok && out.fields == old(out.fields) && comm[..] == old(comm[..])
    ensures ParsedBy(format, content, commSize).Read? ==>
      Ends(comm[..], 0) && Read(ok, out.fields, CString(comm[..], 0)) == ParsedBy(format, content, commSize)
    ensures forall i :: commSize <= i < comm.Length ==> comm[i] == old(comm[i])
  {
    var found, name, rest := FindName(content);
    if !found || commSize == 0 {
      return false;
    }
    ParsedIs(format, content, name, rest, commSize);
    if |name| >= commSize {
      name := name[..commSize - 1];
    }
    ok := Leave(format, content, out, comm, name, rest);
  }

  /** The two searches, and what stands between and after the places found. */
  method FindName(content: string) returns (found: bool, name: string, rest: string)
    requires Lacks(content, NUL)
    ensures Bracket(content) == if found then Bracketed(name, rest) else NotBracketed
    ensures Lacks(name, NUL)
  {
    var open, close := IndexOf(content, '('), LastIndexOf(content, ')');
    if open < 0 || close < 0 || close < open {
      return false, "", "";
    }
    found, name, rest := true, content[open + 1..close], content[close + 1..];
  }

  method Leave(format: seq<Conversion>, content: string, out: StatCell, comm: array<char>, name: string, rest: string) returns (ok: bool)
    requires format == FORMAT && Lacks(name, NUL) && |name| < comm.Length
    modifies out, comm
    ensures Ends(comm[..], 0) && Read(ok, out.fields, CString(comm[..], 0)) == ReadRest(format, content, rest, name)
    ensures forall i :: |name| < i < comm.Length ==> comm[i] == old(comm[i])
  {
    Store(comm, name);
    ok := Fill(out, content, rest, format, name);
  }

  lemma ParsedIs(format: seq<Conversion>, content: string, comm: string, rest: string, commSize: nat)
    requires commSize > 0 && Bracket(content) == Bracketed(comm, rest)
    ensures ParsedBy(format, content, commSize) == ReadRest(format, content, rest, Cut(comm, commSize - 1))
  {
  }

  method Fill(out: StatCell, content: string, rest: string, format: seq<Conversion>, ghost name: string) returns (ok: bool)
    requires format == FORMAT
    modifies out
    ensures Read(ok, out.fields, name) == ReadRest(format, content, rest, name)
  {
    var values := Scanf(format, 0, rest);
    out.fields := Filled(PidOf(content), values);
    ThirteenIsAll(|values|);
    ok := Stored(|values|) == 13;
  }

  // ---- The round trip ----

  lemma FirstOpen(content: string, first: nat)
    requires first < |content| && content[first] == '('
    ensures 0 <= IndexOf(content, '(') <= first
    ensures IndexOf(content, '(') == first <==> Lacks(content[..first], '(')
  {
    var head, i := content[..first], IndexOf(content, '(');
    assert i < first ==> head[i] == '(';
    assert forall k :: 0 <= k < |head| ==> head[k] == content[k];
  }

  lemma LastClose(content: string, last: nat)
    requires last < |content| && content[last] == ')'
    ensures last <= LastIndexOf(content, ')')
    ensures LastIndexOf(content, ')') == last <==> Lacks(content[last + 1..], ')')
  {
    var i := LastIndexOf(content, ')');
    if i > last {
      assert content[last + 1..][i - last - 1] == ')';
    } else {
      var tail := content[last + 1..];
      assert forall k :: 0 <= k < |tail| ==> tail[k] == content[last + 1 + k];
    }
  }

  lemma Parentheses(before: string, comm: string, after: string)
    ensures var content := before + "(" + comm + ")" + after;
            var first, last := |before|, |before| + 1 + |comm|;
            && |content| > last && content[first] == '(' && content[last] == ')'
            && content[..first] == before && content[first + 1..last] == comm && content[last + 1..] == after
  {
  }

  /** The bracketing finds a name exactly if no '(' stands before it and no ')' after it; what is inside is free. */
  lemma BracketFinds(before: string, comm: string, after: string)
    ensures Bracket(before + "(" + comm + ")" + after) == Bracketed(comm, after) <==> Lacks(before, '(') && Lacks(after, ')')
  {
    var content := before + "(" + comm + ")" + after;
    Parentheses(before, comm, after);
    FirstOpen(content, |before|);
    LastClose(content, |before| + 1 + |comm|);
  }

  /** A ')' after the name misleads it. */
  lemma ParenthesisAfterMisleads()
    ensures Bracket("7 " + "(" + "sh" + ")" + " S )") != Bracketed("sh", " S )")
  {
    BracketFinds("7 ", "sh", " S )");
    assert " S )"[3] == ')';
  }

  /** A field as the kernel prints it. */
  datatype Field = CharF(c: char) | IntF(v: int) | LongF(v: int) | ULongF(v: int) | SkipF(text: string)

  function ConversionOf(f: Field): Conversion {
    match f
    case CharF(_) => CharC
    case IntF(_) => IntC
    case LongF(_) => LongC
    case ULongF(_) => ULongC
    case SkipF(_) => SkipC
  }

  function TextOf(f: Field): string {
    match f
    case CharF(c) => [c]
    case IntF(v) => Print(v)
    case LongF(v) => Print(v)
    case ULongF(v) => Print(v)
    case SkipF(text) => text
  }

  function ValueOf(f: Field): Value {
    match f
    case CharF(c) => Char(c)
    case IntF(v) => Num(v)
    case LongF(v) => Num(v)
    case ULongF(v) => Num(v)
    case SkipF(_) => Skipped
  }

  /** Numbers within their C type; no white space inside a field, and no ')'. */
  predicate Printable(f: Field) {
    match f
    case CharF(c) => IsToken(c) && c != ')'
    case IntF(v) => -INT_SPAN / 2 <= v < INT_SPAN / 2
    case LongF(v) => -LONG_MAX - 1 <= v <= LONG_MAX
    case ULongF(v) => 0 <= v <= ULONG_MAX
    case SkipF(text) => text != "" && (forall i :: 0 <= i < |text| ==> IsToken(text[i])) && Lacks(text, ')')
  }

  predicate StartsBlank(s: string) { s == "" || IsBlank(s[0]) }

  lemma NumberIsToken(v: int)
    ensures Print(v) != "" && IsToken(Print(v)[0]) && Lacks(Print(v), ')')
  {
    assert IsDigit(Print(v)[|Print(v)| - 1]);
  }

  lemma FieldIsToken(f: Field)
    requires Printable(f)
    ensures TextOf(f) != "" && IsToken(TextOf(f)[0]) && Lacks(TextOf(f), ')')
  {
    if f.IntF? || f.LongF? || f.ULongF? {
      NumberIsToken(f.v);
    }
  }

  lemma SkipOneBlank(text: string, rest: string)
    requires text != "" && IsToken(text[0])
    ensures SkipBlanks(" " + text + rest) == text + rest
    ensures SkipBlanks(text + rest) == text + rest
  {
    var s := " " + text + rest;
    assert s[1..] == text + rest && (text + rest)[0] == text[0];
    SpanIs(IsBlank, s, 1);
  }

  predicate ForNumbers(conversion: Conversion) { conversion.IntC? || conversion.LongC? || conversion.ULongC? }

  lemma ScanPrinted(conversion: Conversion, v: int, s: string, rest: string)
    requires ForNumbers(conversion) && StartsBlank(rest) && SkipBlanks(s) == Print(v) + rest
    ensures ScanOne(conversion, s) == Scans(Num(ScanNumber(conversion, v < 0, if v < 0 then -v else v)), rest)
  {
    NumberIsToken(v);
    ReadPrinted(v, rest);
  }

  lemma InRange(f: Field)
    requires Printable(f) && ForNumbers(ConversionOf(f))
    ensures ScanNumber(ConversionOf(f), f.v < 0, if f.v < 0 then -f.v else f.v) == f.v
  {
  }

  lemma ScanSkipped(text: string, s: string, rest: string)
    requires Printable(SkipF(text)) && StartsBlank(rest) && SkipBlanks(s) == text + rest
    ensures ScanOne(SkipC, s) == Scans(Skipped, rest)
  {
    var t := text + rest;
    SpanIs(IsToken, t, |text|);
    assert t[|text|..] == rest;
  }

  lemma ScanText(f: Field, s: string, rest: string)
    requires Printable(f) && StartsBlank(rest) && SkipBlanks(s) == TextOf(f) + rest
    ensures ScanOne(ConversionOf(f), s) == Scans(ValueOf(f), rest)
  {
    match f
    case CharF(c) => assert ([c] + rest)[1..] == rest;
    case SkipF(text) => ScanSkipped(text, s, rest);
    case _ =>
      ScanPrinted(ConversionOf(f), f.v, s, rest);
      InRange(f);
  }

  /** The fields, each after one blank. */
  function TextFrom(fields: seq<Field>, i: nat): string
    requires i <= |fields|
    decreases |fields| - i
  {
    if i == |fields| then "" else " " + TextOf(fields[i]) + TextFrom(fields, i + 1)
  }

  function Values(fields: seq<Field>): (r: seq<Value>)
    ensures |r| == |fields| && forall i :: 0 <= i < |r| ==> r[i] == ValueOf(fields[i])
  {
    seq(|fields|, i requires 0 <= i < |fields| => ValueOf(fields[i]))
  }

  ghost predicate InFormat(format: seq<Conversion>, fields: seq<Field>) {
    |format| == |fields| && forall i :: 0 <= i < |fields| ==> format[i] == ConversionOf(fields[i]) && Printable(fields[i])
  }

  lemma ScanField(f: Field, rest: string)
    requires Printable(f) && StartsBlank(rest)
    ensures ScanOne(ConversionOf(f), " " + TextOf(f) + rest) == Scans(ValueOf(f), rest)
  {
    FieldIsToken(f);
    SkipOneBlank(TextOf(f), rest);
    ScanText(f, " " + TextOf(f) + rest, rest);
  }

  lemma TextStartsBlank(fields: seq<Field>, i: nat, tail: string)
    requires i <= |fields| && StartsBlank(tail)
    ensures StartsBlank(TextFrom(fields, i) + tail)
  {
  }

  /** sscanf reads back what was printed in its format, whatever follows after a blank. */
  lemma {:induction false} ScanfReads(format: seq<Conversion>, fields: seq<Field>, i: nat, tail: string)
    requires InFormat(format, fields) && i <= |fields| && StartsBlank(tail)
    ensures Scanf(format, i, TextFrom(fields, i) + tail) == Values(fields)[i..]
    decreases |fields| - i
  {
    if i < |fields| {
      var rest := TextFrom(fields, i + 1) + tail;
      ScanfReads(format, fields, i + 1, tail);
      TextStartsBlank(fields, i + 1, tail);
      ScanField(fields[i], rest);
      ScanStep(format, i, " " + TextOf(fields[i]) + rest, ValueOf(fields[i]), rest);
      TextStep(fields, i, tail);
      ValuesStep(fields, i);
    }
  }

  lemma TextStep(fields: seq<Field>, i: nat, tail: string)
    requires i < |fields|
    ensures TextFrom(fields, i) + tail == " " + TextOf(fields[i]) + (TextFrom(fields, i + 1) + tail)
  {
  }

  lemma ValuesStep(fields: seq<Field>, i: nat)
    requires i < |fields|
    ensures Values(fields)[i..] == [ValueOf(fields[i])] + Values(fields)[i + 1..]
  {
    var values := Values(fields);
    assert values[i..] == [values[i]] + values[i + 1..];
  }

  lemma ScanStep(format: seq<Conversion>, i: nat, s: string, value: Value, rest: string)
    requires i < |format| && ScanOne(format[i], s) == Scans(value, rest)
    ensures Scanf(format, i, s) == [value] + Scanf(format, i + 1, rest)
  {
  }

  lemma {:induction false} TextLacksParen(fields: seq<Field>, i: nat)
    requires i <= |fields| && forall k :: 0 <= k < |fields| ==> Printable(fields[k])
    ensures Lacks(TextFrom(fields, i), ')')
    decreases |fields| - i
  {
    if i < |fields| {
      FieldIsToken(fields[i]);
      TextLacksParen(fields, i + 1);
    }
  }

  /** The 18 fields from the state on; the five that are skipped may hold anything. */
  function FieldsOf(s: Stat, skipped: seq<string>): seq<Field>
    requires |skipped| == 5
  {
    [CharF(s.state), IntF(s.ppid), IntF(s.pgrp), IntF(s.session), IntF(s.ttyNr), IntF(s.tpgid), SkipF(skipped[0]),
     ULongF(s.minflt), SkipF(skipped[1]), ULongF(s.majflt), SkipF(skipped[2]), ULongF(s.utime), ULongF(s.stime),
     SkipF(skipped[3]), SkipF(skipped[4]), LongF(s.priority), LongF(s.nice), LongF(s.numThreads)]
  }

  /** The line of proc(5): PID, the name in parentheses, the fields, and more fields that are not read. */
  function LineOf(s: Stat, comm: string, skipped: seq<string>, tail: string): string
    requires |skipped| == 5
  {
    Head(s.pid, comm, TextFrom(FieldsOf(s, skipped), 0) + tail)
  }

  function Head(pid: int, comm: string, after: string): string { (Print(pid) + " ") + "(" + comm + ")" + after }

  lemma PidIsRead(pid: int, rest: string)
    requires Printable(IntF(pid))
    ensures PidOf(Print(pid) + " " + rest) == pid
  {
    NumberIsToken(pid);
    var after := " " + rest;
    assert Print(pid) + " " + rest == Print(pid) + after;
    SkipOneBlank(Print(pid), after);
    ScanText(IntF(pid), Print(pid) + after, after);
  }

  lemma FilledIsWhole(s: Stat, skipped: seq<string>)
    requires |skipped| == 5
    ensures Filled(s.pid, Values(FieldsOf(s, skipped))) == s
  {
  }

  lemma FieldsAreRead(format: seq<Conversion>, fields: seq<Field>, tail: string)
    requires InFormat(format, fields) && StartsBlank(tail) && Lacks(tail, ')')
    ensures Scanf(format, 0, TextFrom(fields, 0) + tail) == Values(fields)
    ensures Lacks(TextFrom(fields, 0) + tail, ')')
  {
    ScanfReads(format, fields, 0, tail);
    TextLacksParen(fields, 0);
    assert Values(fields)[0..] == Values(fields);
  }

  /**
   Whatever characters the name is made of, parsing the line answers true, gives back every field, and leaves
   as much of the name as its buffer holds.
   */
  lemma RoundTrip(s: Stat, comm: string, skipped: seq<string>, tail: string, commSize: nat)
    requires |skipped| == 5 && Printable(IntF(s.pid))
    requires InFormat(FORMAT, FieldsOf(s, skipped))
    requires StartsBlank(tail) && Lacks(tail, ')') && commSize > 0
    ensures Parsed(LineOf(s, comm, skipped, tail), commSize) == Read(true, s, Cut(comm, commSize - 1))
  {
    var fields := FieldsOf(s, skipped);
    var after := TextFrom(fields, 0) + tail;
    FieldsAreRead(FORMAT, fields, tail);
    FilledIsWhole(s, skipped);
    HeadIsBracketed(s.pid, comm, after);
    HeadHasPid(s.pid, comm, after);
  }

  lemma HeadIsBracketed(pid: int, comm: string, after: string)
    requires Lacks(after, ')')
    ensures Bracket(Head(pid, comm, after)) == Bracketed(comm, after)
  {
    PrintLacksOpen(pid);
    BracketFinds(Print(pid) + " ", comm, after);
  }

  lemma HeadHasPid(pid: int, comm: string, after: string)
    requires Printable(IntF(pid))
    ensures PidOf(Head(pid, comm, after)) == pid
  {
    var rest := "(" + comm + ")" + after;
    PidIsRead(pid, rest);
    Regroup(Print(pid) + " ", "(", comm, ")", after);
  }

  lemma Regroup(a: string, b: string, c: string, d: string, e: string)
    ensures a + b + c + d + e == a + (b + c + d + e)
  {
  }

  lemma PrintLacksOpen(v: int)
    ensures Lacks(Print(v) + " ", '(')
  {
    var digits := Digits(if v < 0 then -v else v);
    assert AllDigits(digits);
  }

  // ---- A line that is cut short ----

  ghost predicate BeginsFormat(format: seq<Conversion>, fields: seq<Field>) {
    |fields| < |format| && forall i :: 0 <= i < |fields| ==> format[i] == ConversionOf(fields[i]) && Printable(fields[i])
  }

  /** The scan reads what is there and stops where the text ends. */
  lemma {:induction false} ScanfStops(format: seq<Conversion>, fields: seq<Field>, i: nat)
    requires BeginsFormat(format, fields) && i <= |fields|
    ensures Scanf(format, i, TextFrom(fields, i)) == Values(fields)[i..]
    decreases |fields| - i
  {
    if i < |fields| {
      var rest := TextFrom(fields, i + 1);
      ScanfStops(format, fields, i + 1);
      ScanField(fields[i], rest);
      ScanStep(format, i, " " + TextOf(fields[i]) + rest, ValueOf(fields[i]), rest);
      ValuesStep(fields, i);
    }
  }

  /** What is left of the fields when the line ends after n of them, the skipped ones counted: the others are zero. */
  function FirstOf(s: Stat, n: nat): Stat {
    Stat(s.pid, if n > 0 then s.state else NUL,
         if n > 1 then s.ppid else 0, if n > 2 then s.pgrp else 0, if n > 3 then s.session else 0,
         if n > 4 then s.ttyNr else 0, if n > 5 then s.tpgid else 0,
         if n > 7 then s.minflt else 0, if n > 9 then s.majflt else 0,
         if n > 11 then s.utime else 0, if n > 12 then s.stime else 0,
         if n > 15 then s.priority else 0, if n > 16 then s.nice else 0, if n > 17 then s.numThreads else 0)
  }

  lemma ValuesOfFirst(fields: seq<Field>, n: nat)
    requires n <= |fields|
    ensures Values(fields[..n]) == Values(fields)[..n]
  {
  }

  lemma FilledIsFirst(s: Stat, skipped: seq<string>, n: nat, values: seq<Value>)
    requires |skipped| == 5 && n <= 18 && values == Values(FieldsOf(s, skipped))
    ensures Filled(s.pid, values[..n]) == FirstOf(s, n)
  {
  }

  lemma FirstFieldsAreRead(format: seq<Conversion>, fields: seq<Field>, n: nat)
    requires InFormat(format, fields) && n < |fields|
    ensures Scanf(format, 0, TextFrom(fields[..n], 0)) == Values(fields)[..n]
    ensures Lacks(TextFrom(fields[..n], 0), ')')
  {
    ScanfStops(format, fields[..n], 0);
    TextLacksParen(fields[..n], 0);
    ValuesOfFirst(fields, n);
    assert Values(fields[..n])[0..] == Values(fields[..n]);
  }

  lemma ReadShort(s: Stat, skipped: seq<string>, n: nat, content: string, after: string, comm: string)
    requires |skipped| == 5 && n < 18 && PidOf(content) == s.pid
    requires Scanf(FORMAT, 0, after) == Values(FieldsOf(s, skipped))[..n]
    ensures ReadRest(FORMAT, content, after, comm) == Read(false, FirstOf(s, n), comm)
  {
    FilledIsFirst(s, skipped, n, Values(FieldsOf(s, skipped)));
  }

  /** Of a line that ends early what is there is read, the rest is zero, and the answer is false. */
  lemma ShortLine(s: Stat, comm: string, skipped: seq<string>, n: nat, commSize: nat)
    requires |skipped| == 5 && Printable(IntF(s.pid)) && n < 18
    requires InFormat(FORMAT, FieldsOf(s, skipped)) && commSize > 0
    ensures Parsed(Head(s.pid, comm, TextFrom(FieldsOf(s, skipped)[..n], 0)), commSize)
         == Read(false, FirstOf(s, n), Cut(comm, commSize - 1))
  {
    var fields := FieldsOf(s, skipped);
    var after := TextFrom(fields[..n], 0);
    FirstFieldsAreRead(FORMAT, fields, n);
    HeadIsBracketed(s.pid, comm, after);
    HeadHasPid(s.pid, comm, after);
    ParsedIs(FORMAT, Head(s.pid, comm, after), comm, after, commSize);
    ReadShort(s, skipped, n, Head(s.pid, comm, after), after, Cut(comm, commSize - 1));
  }

  /** A name is bracketed if some '(' stands before some ')'. */
  lemma BracketedIff(content: string)
    ensures Bracket(content).Bracketed? <==> exists i, j :: 0 <= i < j < |content| && content[i] == '(' && content[j] == ')'
  {
    var open, close := IndexOf(content, '('), LastIndexOf(content, ')');
    if i, j :| 0 <= i < j < |content| && content[i] == '(' && content[j] == ')' {
      assert 0 <= open <= i && j <= close;
    }
    if 0 <= open < close {
      assert content[open] == '(' && content[close] == ')';
    }
  }

  /** And a line without a name in parentheses, or a call without room for one, is refused, and no other. */
  lemma RefusedIff(content: string, commSize: nat)
    ensures Parsed(content, commSize).Refused? <==>
      commSize == 0 || !exists i, j :: 0 <= i < j < |content| && content[i] == '(' && content[j] == ')'
  {
    BracketedIff(content);
  }
}
