/** struct timespec arithmetic: add_ms of src/collector/collector.c and the differences of src/utils/parser.c. */
module Clock {

  const NS_PER_S: int := 1_000_000_000
  const NS_PER_MS: int := 1_000_000

  datatype Timespec = Timespec(sec: int, nsec: int)

  predicate Normal(t: Timespec) { 0 <= t.nsec < NS_PER_S }

  function Nanos(t: Timespec): int { t.sec * NS_PER_S + t.nsec }

  function OfNanos(n: int): (t: Timespec)
    ensures Normal(t) && Nanos(t) == n
  {
    Timespec(n / NS_PER_S, n % NS_PER_S)
  }

  /** C's `/` and `%`, which truncate toward zero. */
  function Quot(a: int, b: int): int
    requires b > 0
  {
    if a >= 0 then a / b else -(-a / b)
  }

  function Rem(a: int, b: int): int
    requires b > 0
  {
    a - b * Quot(a, b)
  }

  function AddMs(t: Timespec, ms: int): Timespec {
    var nsec := t.nsec + Rem(ms, 1000) * NS_PER_MS;
    if nsec >= NS_PER_S then Timespec(t.sec + Quot(ms, 1000) + 1, nsec - NS_PER_S)
    else Timespec(t.sec + Quot(ms, 1000), nsec)
  }

  /** The single carry is enough: exactly ms is added, and a normalised time stays so for every ms >= 0. */
  lemma AddMsIsExact(t: Timespec, ms: int)
    ensures Nanos(AddMs(t, ms)) == Nanos(t) + ms * NS_PER_MS
    ensures Normal(t) ==> (Normal(AddMs(t, ms)) <==> t.nsec + Rem(ms, 1000) * NS_PER_MS >= 0)
    ensures Normal(t) && ms >= 0 ==> Normal(AddMs(t, ms))
  {
  }

  class TimespecCell {
    var sec: int
    var nsec: int

    function Value(): Timespec
      reads this
    {
      Timespec(sec, nsec)
    }

    constructor (t: Timespec)
      ensures Value() == t
    {
      sec, nsec := t.sec, t.nsec;
    }

    method Add(ms: int)
      modifies this
      ensures Value() == AddMs(old(Value()), ms)
      ensures Nanos(Value()) == old(Nanos(Value())) + ms * NS_PER_MS
      ensures old(Normal(Value())) && ms >= 0 ==> Normal(Value())
    {
      AddMsIsExact(Value(), ms);
      sec := sec + Quot(ms, 1000);
      nsec := nsec + Rem(ms, 1000) * NS_PER_MS;
      if nsec >= NS_PER_S {
        sec := sec + 1;
        nsec := nsec - NS_PER_S;
      }
    }
  }

  function DiffSeconds(start: Timespec, end: Timespec): real {
    (end.sec - start.sec) as real + (end.nsec - start.nsec) as real / 1_000_000_000.0
  }

  lemma DiffSecondsIsExact(start: Timespec, end: Timespec)
    ensures DiffSeconds(start, end) * 1_000_000_000.0 == (Nanos(end) - Nanos(start)) as real
    ensures Nanos(start) <= Nanos(end) <==> DiffSeconds(start, end) >= 0.0
    ensures Nanos(start) < Nanos(end) <==> DiffSeconds(start, end) > 0.0
  {
    assert (end.sec - start.sec) as real * 1_000_000_000.0 == ((end.sec - start.sec) * NS_PER_S) as real;
  }
}
