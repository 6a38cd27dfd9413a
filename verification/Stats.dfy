/** The three request counters that travel together. */
module Stats {
  datatype Triple = Triple(total: nat, success: nat, failed: nat)

  datatype Counter = Total | Success | Failed

  const ZERO := Triple(0, 0, 0)

  function Get(v: Triple, c: Counter): nat {
    match c
    case Total => v.total
    case Success => v.success
    case Failed => v.failed
  }

  function Add(a: Triple, b: Triple): (r: Triple)
    ensures forall c :: Get(r, c) == Get(a, c) + Get(b, c)
  {
    Triple(a.total + b.total, a.success + b.success, a.failed + b.failed)
  }

  /** Every counter of `a` is at most the one of `b`. */
  ghost predicate Below(a: Triple, b: Triple) {
    forall c :: Get(a, c) <= Get(b, c)
  }

  /** A difference of counters, of either sign. */
  datatype Balance = Balance(total: int, success: int, failed: int)

  const EVEN := Balance(0, 0, 0)

  function Owed(b: Balance, c: Counter): int {
    match c
    case Total => b.total
    case Success => b.success
    case Failed => b.failed
  }

  /** The balance after `b` was paid and `a` forgotten. */
  function Forgo(balance: Balance, a: Triple, b: Triple): (r: Balance)
    ensures forall c :: Owed(r, c) == Owed(balance, c) + Get(a, c) - Get(b, c)
  {
    Balance(balance.total + a.total - b.total, balance.success + a.success - b.success,
            balance.failed + a.failed - b.failed)
  }
}
