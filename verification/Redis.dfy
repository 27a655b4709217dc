/** The counter commands the services send to Redis, each of them atomic. Times are in milliseconds. */
module Redis {
  import opened Basics

  /** A counter key: missing, or a count that disappears at `expiry` if it has one. */
  datatype Counter = Absent | Present(count: nat, expiry: Option<int>)

  /** INCR creates the key without an expiry and keeps the expiry of an existing one. */
  function Incr(c: Counter): Counter {
    if c.Absent? then Present(1, None) else c.(count := c.count + 1)
  }

  /** PEXPIRE does nothing to a missing key. */
  function PExpire(c: Counter, now: int, ms: int): Counter {
    if c.Absent? then Absent else c.(expiry := Some(now + ms))
  }

  /** PTTL: -2 for a missing key, -1 for a key that never expires. */
  function PTtl(c: Counter, now: int): int {
    match c
    case Absent => -2
    case Present(_, None) => -1
    case Present(_, Some(e)) => e - now
  }

  /** What is left of the key once the clock shows `now`. */
  function Elapse(c: Counter, now: int): Counter {
    if c.Present? && c.expiry.Some? && c.expiry.value <= now then Absent else c
  }

  function Count(c: Counter): nat { if c.Absent? then 0 else c.count }
  /** The life of a counter: counted from one, it keeps its expiry through later INCRs and is gone exactly then. */
  lemma CounterLife(c: Counter, now: int, ms: nat, later: int)
    ensures Count(Incr(c)) == Count(c) + 1 && Incr(c).Present?
    ensures c.Present? ==> Incr(c).expiry == c.expiry
    ensures c.Absent? ==> Incr(c) == Present(1, None)
    ensures c.Present? ==> PExpire(c, now, ms) == Present(c.count, Some(now + ms))
    ensures c.Present? ==>
              Elapse(PExpire(c, now, ms), later) == if now + ms <= later then Absent else PExpire(c, now, ms)
    ensures c.Absent? || c.expiry.None? ==> Elapse(c, later) == c
    ensures PTtl(Absent, now) == -2 && PTtl(Present(Count(c), None), now) == -1
    ensures c.Present? ==> PTtl(PExpire(c, now, ms), now) == ms
  {
  }
}
