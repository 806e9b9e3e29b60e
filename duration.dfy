/** The nested example's unit conversion
    (examples/nested/duration/duration.go): a Timestamp of minutes, hours
    and days converted to a time.Duration, a count of nanoseconds held in a
    Go int64. Every multiplication and addition wraps around silently. */
module Duration {

  const TwoTo63: int := 0x8000_0000_0000_0000
  const TwoTo64: int := 0x1_0000_0000_0000_0000

  /** A Go int64 (and a Go int on a 64-bit platform). */
  type Int64 = x: int | -TwoTo63 <= x < TwoTo63

  /** Two's-complement wrap-around of a mathematical integer into int64. */
  function Wrap(x: int): (r: Int64)
    ensures (r - x) % TwoTo64 == 0
    ensures -TwoTo63 <= x < TwoTo63 ==> r == x
  {
    ((x + TwoTo63) % TwoTo64) - TwoTo63
  }

  const Minute: Int64 := 60 * 1_000_000_000
  const Hour: Int64 := 60 * Minute

  datatype Timestamp = Timestamp(Minutes: Int64, Hours: Int64, Days: Int64)

  /** The exact number of nanoseconds a Timestamp stands for. */
  function Nanos(t: Timestamp): int
  {
    t.Minutes * Minute + t.Hours * Hour + t.Days * 24 * Hour
  }

  /** Integers that differ by a multiple of 2^64 wrap to the same int64. */
  lemma WrapCongruent(x: int, y: int)
    requires (x - y) % TwoTo64 == 0
    ensures Wrap(x) == Wrap(y)
  {
    var q := (x - y) / TwoTo64;
    assert x == y + q * TwoTo64;
    assert (x + TwoTo63) == (y + TwoTo63) + q * TwoTo64;
  }

  lemma WrapAdd(a: int, b: int)
    ensures Wrap(Wrap(a) + b) == Wrap(a + b)
  {
    WrapCongruent(Wrap(a) + b, a + b);
  }

  lemma WrapMul(a: int, b: int)
    ensures Wrap(Wrap(a) * b) == Wrap(a * b)
  {
    var q := (Wrap(a) - a) / TwoTo64;
    assert Wrap(a) == a + q * TwoTo64;
    assert Wrap(a) * b == a * b + (q * b) * TwoTo64;
    WrapCongruent(Wrap(a) * b, a * b);
  }

  /** Wrapping after every addition gives the wrapped exact sum. */
  lemma WrapSum3(a: int, b: int, c: int)
    ensures Wrap(Wrap(Wrap(a) + Wrap(b)) + Wrap(c)) == Wrap(a + b + c)
  {
    calc {
      Wrap(Wrap(Wrap(a) + Wrap(b)) + Wrap(c));
      { WrapAdd(Wrap(a) + Wrap(b), Wrap(c)); }
      Wrap(Wrap(a) + Wrap(b) + Wrap(c));
      { WrapAdd(c, Wrap(a) + Wrap(b)); }
      Wrap(Wrap(a) + Wrap(b) + c);
      { WrapAdd(b, Wrap(a) + c); }
      Wrap(Wrap(a) + b + c);
      { WrapAdd(a, b + c); }
      Wrap(a + b + c);
    }
  }

  /** Timestamp.ToDuration: three wrapping `+=` steps, each adding a
      wrapping product. The result is the exact count of nanoseconds,
      wrapped into int64. */
  method ToDuration(t: Timestamp) returns (total: Int64)
    ensures total == Wrap(Nanos(t))
  {
    total := 0;
    total := Wrap(total + Wrap(t.Minutes * Minute));
    total := Wrap(total + Wrap(t.Hours * Hour));
    total := Wrap(total + Wrap(Wrap(t.Days * 24) * Hour));
    WrapMul(t.Days * 24, Hour);
    WrapSum3(t.Minutes * Minute, t.Hours * Hour, t.Days * 24 * Hour);
  }

  /** The conversion, as a function of the Timestamp. */
  function ToDurationOf(t: Timestamp): Int64
  {
    Wrap(Nanos(t))
  }

  /** An all-zero Timestamp is no time at all. */
  lemma ZeroIsZero()
    ensures ToDurationOf(Timestamp(0, 0, 0)) == 0
  {
  }

  /** Within int64 the conversion is exact. */
  lemma ExactInRange(t: Timestamp)
    requires -TwoTo63 <= Nanos(t) < TwoTo63
    ensures ToDurationOf(t) == Nanos(t)
  {
  }

  /** One more day gives the same duration as 24 more hours. */
  lemma DayIsTwentyFourHours(t: Timestamp)
    requires t.Days + 1 < TwoTo63 && t.Hours + 24 < TwoTo63
    ensures ToDurationOf(t.(Days := t.Days + 1)) == ToDurationOf(t.(Hours := t.Hours + 24))
  {
    assert Nanos(t.(Days := t.Days + 1)) == Nanos(t) + 24 * Hour;
    assert Nanos(t.(Hours := t.Hours + 24)) == Nanos(t) + 24 * Hour;
  }

  /** The three fields contribute independently: the duration is the
      wrapping sum of the durations of each field alone. */
  lemma ComponentsAdd(t: Timestamp)
    ensures ToDurationOf(t) == Wrap(Wrap(ToDurationOf(Timestamp(t.Minutes, 0, 0)) + ToDurationOf(Timestamp(0, t.Hours, 0)))
                                    + ToDurationOf(Timestamp(0, 0, t.Days)))
  {
    var m, h, d := t.Minutes * Minute, t.Hours * Hour, t.Days * 24 * Hour;
    assert Nanos(Timestamp(t.Minutes, 0, 0)) == m;
    assert Nanos(Timestamp(0, t.Hours, 0)) == h;
    assert Nanos(Timestamp(0, 0, t.Days)) == d;
    WrapSum3(m, h, d);
  }

  /** 106752 days is past the int64 range (about 292 years of
      nanoseconds): the conversion wraps to a negative duration instead of
      failing. */
  lemma DaysOverflow()
    ensures Nanos(Timestamp(0, 0, 106752)) >= TwoTo63
    ensures ToDurationOf(Timestamp(0, 0, 106752)) == -9_223_371_273_709_551_616
  {
  }
}
