/** The timeval macros of acconfig.h. */
module Timeval {
  datatype Timeval = Timeval(sec: int, usec: int)

  /** A timeval as the clocks give it. */
  predicate Normal(t: Timeval) {
    0 <= t.usec < 1000000
  }

  function Micros(t: Timeval): int {
    t.sec * 1000000 + t.usec
  }

  /** timercmp with < */
  predicate Less(a: Timeval, b: Timeval) {
    if a.sec == b.sec then a.usec < b.usec else a.sec < b.sec
  }

  /** timercmp with <= */
  predicate AtMost(a: Timeval, b: Timeval) {
    if a.sec == b.sec then a.usec <= b.usec else a.sec <= b.sec
  }

  /** timeradd carries at most one second. */
  function Add(a: Timeval, b: Timeval): Timeval {
    var sec, usec := a.sec + b.sec, a.usec + b.usec;
    if usec >= 1000000 then Timeval(sec + 1, usec - 1000000) else Timeval(sec, usec)
  }

  /** timersub borrows at most one second. */
  function Sub(a: Timeval, b: Timeval): Timeval {
    var sec, usec := a.sec - b.sec, a.usec - b.usec;
    if usec < 0 then Timeval(sec - 1, usec + 1000000) else Timeval(sec, usec)
  }

  /** On timevals as clocks give them the macros are arithmetic and order of microseconds. */
  lemma Meaning(a: Timeval, b: Timeval)
    requires Normal(a) && Normal(b)
    ensures Less(a, b) <==> Micros(a) < Micros(b)
    ensures AtMost(a, b) <==> Micros(a) <= Micros(b)
    ensures Normal(Add(a, b)) && Micros(Add(a, b)) == Micros(a) + Micros(b)
    ensures Normal(Sub(a, b)) && Micros(Sub(a, b)) == Micros(a) - Micros(b)
    ensures Micros(a) == Micros(b) ==> a == b
  {
  }
}
