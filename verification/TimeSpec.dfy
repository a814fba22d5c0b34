/** The time arithmetic of `session.c` that all timeouts rest on. */
module TimeSpec {
  import opened Numerals

  const NSEC_PER_SEC := 1_000_000_000
  const NSEC_PER_MSEC := 1_000_000

  class Time {
    var sec: int
    var nsec: int

    constructor (sec: int, nsec: int)
      ensures this.sec == sec && this.nsec == nsec
    {
      this.sec, this.nsec := sec, nsec;
    }

    ghost predicate Normal()
      reads this
    {
      0 <= nsec < NSEC_PER_SEC
    }

    /** The time in nanoseconds. */
    ghost function Nanos(): int
      reads this
    {
      sec * NSEC_PER_SEC + nsec
    }

    /** `nc_addtimespec` */
    method Add(msec: nat)
      requires Normal() && msec < 0x1_0000_0000
      modifies this
      ensures Normal() && Nanos() == old(Nanos()) + msec * NSEC_PER_MSEC
    {
      var s, n := sec + msec / 1000, nsec + (msec % 1000) * NSEC_PER_MSEC;
      if n >= NSEC_PER_SEC {
        s, n := s + 1, n - NSEC_PER_SEC;
      } else if n < 0 {
        s, n := s - 1, n + NSEC_PER_SEC;
      }
      sec, nsec := s, n;
    }
  }

  /** Division in C: towards zero. */
  function Quotient(a: int, b: nat): int
    requires b > 0
  {
    if a >= 0 then a / b else -((-a) / b)
  }

  /** What a 64-bit integer holds after a larger number is stored in it. */
  function AsLong(n: int): int {
    var w := n % WORD;
    if w < WORD / 2 then w else w - WORD
  }

  lemma AsLongShift(n: int, k: int)
    ensures AsLong(n + k * WORD) == AsLong(n)
  {
    assert (n + k * WORD) % WORD == n % WORD;
  }

  lemma AsLongIsShift(n: int) returns (k: int)
    ensures AsLong(n) == n + k * WORD
  {
    k := -(n / WORD) - (if n % WORD < WORD / 2 then 0 else 1);
  }

  /** The steps may wrap around one by one. */
  lemma AsLongOfSum(a: int, b: int)
    ensures AsLong(AsLong(a * NSEC_PER_SEC) + b) == AsLong(a * NSEC_PER_SEC + b)
    ensures AsLong(AsLong(a) * NSEC_PER_SEC) == AsLong(a * NSEC_PER_SEC)
  {
    var k := AsLongIsShift(a * NSEC_PER_SEC);
    AsLongShift(a * NSEC_PER_SEC + b, k);
    var j := AsLongIsShift(a);
    AsLongShift(a * NSEC_PER_SEC, j * NSEC_PER_SEC);
    assert (a + j * WORD) * NSEC_PER_SEC == a * NSEC_PER_SEC + (j * NSEC_PER_SEC) * WORD;
  }

  /** The difference of two times in nanoseconds, as the `int` of milliseconds that is returned. */
  function Milliseconds(nanos: int): int {
    AsInt(Quotient(AsLong(nanos), NSEC_PER_MSEC))
  }

  /** `nc_difftimespec` */
  method Difference(from: Time, to: Time) returns (r: int)
    ensures r == Milliseconds(to.Nanos() - from.Nanos())
  {
    hide AsLong;
    var sec := to.sec - from.sec;
    var diff := AsLong(AsLong(sec) * NSEC_PER_SEC);
    AsLongOfSum(sec, to.nsec - from.nsec);
    diff := AsLong(diff + (to.nsec - from.nsec));
    assert to.Nanos() - from.Nanos() == sec * NSEC_PER_SEC + (to.nsec - from.nsec);
    r := if diff != 0 then AsInt(Quotient(diff, NSEC_PER_MSEC)) else 0;
  }

  /** A normal time is determined by its nanoseconds, so adding offsets one after the other is adding their sum. */
  lemma NormalUnique(s: int, n: int, s': int, n': int)
    requires 0 <= n < NSEC_PER_SEC && 0 <= n' < NSEC_PER_SEC && s * NSEC_PER_SEC + n == s' * NSEC_PER_SEC + n'
    ensures s == s' && n == n'
  {
    assert (s - s') * NSEC_PER_SEC == n' - n;
  }

  method AddTwice(t: Time, u: Time, a: nat, b: nat)
    requires t != u && t.Normal() && t.sec == u.sec && t.nsec == u.nsec && a + b < 0x1_0000_0000
    modifies t, u
    ensures t.sec == u.sec && t.nsec == u.nsec
  {
    t.Add(a);
    t.Add(b);
    u.Add(a + b);
    NormalUnique(t.sec, t.nsec, u.sec, u.nsec);
  }

  /** The time from `t` to `t` plus `msec` is measured as `msec` if and only if `msec` is below 2^31. */
  method Measure(t: Time, msec: nat) returns (r: int)
    requires t.Normal() && msec < 0x1_0000_0000
    ensures r == msec <==> msec < 0x8000_0000
  {
    var later := new Time(t.sec, t.nsec);
    later.Add(msec);
    r := Difference(t, later);
    assert AsLong(msec * NSEC_PER_MSEC) == msec * NSEC_PER_MSEC;
    assert (msec * NSEC_PER_MSEC) / NSEC_PER_MSEC == msec;
  }

  /** Measured backwards, a difference changes its sign if and only if it is not the smallest 64-bit number of
      nanoseconds, and its milliseconds do not leave the remainder 2^31 modulo 2^32. */
  lemma AntisymmetricIff(nanos: int)
    ensures Milliseconds(-nanos) == -Milliseconds(nanos)
       <==> nanos % WORD != WORD / 2 && Quotient(AsLong(nanos), NSEC_PER_MSEC) % 0x1_0000_0000 != 0x8000_0000
  {
    Negated(nanos);
    if nanos % WORD != WORD / 2 {
      var q := Quotient(AsLong(nanos), NSEC_PER_MSEC);
      assert Quotient(-AsLong(nanos), NSEC_PER_MSEC) == -q;
      NegatedInt(q);
    } else {
      assert Quotient(-(WORD / 2), NSEC_PER_MSEC) == -9223372036854;
      assert AsInt(-9223372036854) == -2077252342;
    }
  }

  lemma RemainderLong(n: int)
    ensures (-n) % WORD == if n % WORD == 0 then 0 else WORD - n % WORD
  {
    var d, w := n / WORD, n % WORD;
    assert -n == (if w == 0 then -d else -d - 1) * WORD + (if w == 0 then 0 else WORD - w);
  }

  lemma RemainderInt(n: int)
    ensures (-n) % 0x1_0000_0000 == if n % 0x1_0000_0000 == 0 then 0 else 0x1_0000_0000 - n % 0x1_0000_0000
  {
    var d, w := n / 0x1_0000_0000, n % 0x1_0000_0000;
    assert -n == (if w == 0 then -d else -d - 1) * 0x1_0000_0000 + (if w == 0 then 0 else 0x1_0000_0000 - w);
  }

  lemma Negated(n: int)
    ensures n % WORD != WORD / 2 ==> AsLong(-n) == -AsLong(n)
    ensures n % WORD == WORD / 2 ==> AsLong(-n) == AsLong(n) == -(WORD / 2)
  {
    RemainderLong(n);
  }

  lemma NegatedInt(q: int)
    ensures AsInt(-q) == -AsInt(q) <==> q % 0x1_0000_0000 != 0x8000_0000
  {
    RemainderInt(q);
  }
}
