/** The grpc-timeout header value: a deadline in microseconds rendered as TimeoutValue and TimeoutUnit. */
module Timeout {
  import opened Bytes
  import opened Decimal

  const MAX_VALUE := 99_999_999

  datatype Unit = Hour | Minute | Second | Millisecond | Microsecond
  {
    function Letter(): char {
      match this
      case Hour => 'H'
      case Minute => 'M'
      case Second => 'S'
      case Millisecond => 'm'
      case Microsecond => 'u'
    }

    function Micros(): (n: nat)
      ensures n > 0
    {
      match this
      case Hour => 3_600_000_000
      case Minute => 60_000_000
      case Second => 1_000_000
      case Millisecond => 1_000
      case Microsecond => 1
    }
  }

  const LONGEST: nat := MAX_VALUE * 3_600_000_000

  /** The source's division on positive operands: rounded up. */
  function CeilDiv(value: nat, unit: nat): nat
    requires unit > 0
  {
    value / unit + if value % unit != 0 then 1 else 0
  }

  function UnitFor(t: nat): Unit {
    if t <= MAX_VALUE then Microsecond
    else if CeilDiv(t, Millisecond.Micros()) <= MAX_VALUE then Millisecond
    else if CeilDiv(t, Second.Micros()) <= MAX_VALUE then Second
    else if CeilDiv(t, Minute.Micros()) <= MAX_VALUE then Minute
    else Hour
  }

  function ValueFor(t: nat): nat {
    var value := CeilDiv(t, UnitFor(t).Micros());
    if value > MAX_VALUE then MAX_VALUE else value
  }

  /** The header value, or nothing if there is no positive timeout or no room for it and a NUL. */
  function Render(t: int, room: nat): string {
    if room == 0 || t <= 0 then ""
    else
      var s := Numeral(ValueFor(t)) + [UnitFor(t).Letter()];
      if |s| >= room then "" else s
  }

  // ------------------------------------------------------------- reading it back

  function UnitOf(c: char): Option<Unit> {
    match c
    case 'H' => Some(Hour)
    case 'M' => Some(Minute)
    case 'S' => Some(Second)
    case 'm' => Some(Millisecond)
    case 'u' => Some(Microsecond)
    case _ => None
  }

  /** A peer's reading: one to eight digits and a unit. */
  function Read(s: string): Option<nat> {
    if 2 <= |s| <= 9 && AllDigits(s[..|s| - 1]) && UnitOf(s[|s| - 1]).Some?
    then Some(NumeralValue(s[..|s| - 1]) * UnitOf(s[|s| - 1]).value.Micros())
    else None
  }

  lemma CeilDivBounds(t: nat, u: nat)
    requires u > 0
    ensures t <= CeilDiv(t, u) * u < t + u
  {
    var q, r := t / u, t % u;
    assert t == q * u + r;
    assert (q + 1) * u == q * u + u;
  }

  /** Rounding up is the least value that covers the timeout. */
  lemma CeilDivLeast(t: nat, u: nat, v: nat)
    requires u > 0
    ensures t <= v * u <==> CeilDiv(t, u) <= v
  {
    CeilDivBounds(t, u);
    var c := CeilDiv(t, u);
    if c <= v {
      Scale(c, v, u);
    } else {
      Scale(v + 1, c, u);
      assert (v + 1) * u == v * u + u;
    }
  }

  lemma Scale(a: nat, b: nat, u: nat)
    requires a <= b
    ensures a * u <= b * u
  {
  }

  /** The duration the rendered value stands for. */
  function Duration(t: nat): nat {
    ValueFor(t) * UnitFor(t).Micros()
  }

  lemma RenderedReads(t: int, room: nat)
    requires t > 0 && room >= 10
    ensures Render(t, room) != "" && Read(Render(t, room)) == Some(Duration(t))
  {
    ReadsBack(ValueFor(t), UnitFor(t));
  }

  lemma ReadsBack(n: nat, u: Unit)
    requires n <= MAX_VALUE
    ensures var s := Numeral(n) + [u.Letter()];
            |s| <= 9 && Read(s) == Some(n * u.Micros())
  {
    var s := Numeral(n) + [u.Letter()];
    EightDigits(n);
    NumeralRoundTrip(n);
    assert s[..|s| - 1] == Numeral(n);
    assert UnitOf(u.Letter()) == Some(u);
  }

  lemma EightDigits(n: nat)
    requires n <= MAX_VALUE
    ensures 1 <= |Numeral(n)| <= 8
  {
    assert PowerOfTen(4) == 10_000;
    assert PowerOfTen(8) == 100_000_000;
    NumeralLength(n, 8);
  }

  /** The peer reads back the timeout rounded up by less than a unit, and no finer unit could
      have expressed as long a duration in eight digits. */
  lemma TimeoutIsTight(t: int, room: nat)
    requires 0 < t <= LONGEST && room >= 10
    ensures Read(Render(t, room)).Some?
    ensures var d := Read(Render(t, room)).value;
            t <= d < t + UnitFor(t).Micros()
    ensures forall u: Unit :: u.Micros() < UnitFor(t).Micros() ==> MAX_VALUE * u.Micros() < t
  {
    RenderedReads(t, room);
    var u := UnitFor(t).Micros();
    CeilDivBounds(t, u);
    CeilDivLeast(t, Hour.Micros(), MAX_VALUE);
    forall f: Unit | f.Micros() < u
      ensures MAX_VALUE * f.Micros() < t
    {
      FinerIsFull(t, f);
    }
  }

  lemma FinerIsFull(t: nat, f: Unit)
    requires f.Micros() < UnitFor(t).Micros()
    ensures MAX_VALUE * f.Micros() < t
  {
    CeilDivLeast(t, f.Micros(), MAX_VALUE);
  }

  /** Longer timeouts are never rendered as shorter ones, also beyond what eight digits of hours can say. */
  lemma Monotone(t: nat, later: nat)
    requires 0 < t <= later
    ensures Duration(t) <= Duration(later)
    ensures later > LONGEST ==> Duration(later) == LONGEST
  {
    var u, v := UnitFor(t), UnitFor(later);
    CeilDivBounds(later, v.Micros());
    CeilDivLeast(later, Hour.Micros(), MAX_VALUE);
    Scale(ValueFor(t), MAX_VALUE, u.Micros());
    if later > LONGEST {
      UnitsOrdered(u);
    } else if u == v {
      CeilDivLeast(t, u.Micros(), CeilDiv(later, u.Micros()));
      Scale(ValueFor(t), ValueFor(later), u.Micros());
    } else {
      NotFiner(t, later);
      FinerIsFull(later, u);
    }
  }

  lemma UnitsOrdered(u: Unit)
    ensures MAX_VALUE * u.Micros() <= LONGEST
  {
  }

  lemma NotFiner(t: nat, later: nat)
    requires t <= later
    ensures UnitFor(t).Micros() <= UnitFor(later).Micros()
  {
    var v := UnitFor(later).Micros();
    CeilDivBounds(later, v);
    if UnitFor(later) != Hour {
      CeilDivLeast(t, v, MAX_VALUE);
      CeilDivLeast(later, v, MAX_VALUE);
    }
  }

  /** Without a positive timeout, and only then, a buffer of ten octets gets no header. */
  lemma RenderedExactly(t: int, room: nat)
    requires room >= 10
    ensures Render(t, room) == "" <==> t <= 0
  {
    if t > 0 {
      RenderedReads(t, room);
    }
  }
}
