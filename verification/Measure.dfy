/** Length of a set of instants, counted in nanoseconds. */
module Measure {

  /** The number of instants in [a, b) at which p holds. */
  ghost function Count(p: int -> bool, a: int, b: int): nat
    decreases b - a
  {
    if a >= b then 0 else Count(p, a, b - 1) + if p(b - 1) then 1 else 0
  }

  lemma {:induction false} CountSplit(p: int -> bool, a: int, m: int, b: int)
    requires a <= m <= b
    ensures Count(p, a, b) == Count(p, a, m) + Count(p, m, b)
    decreases b - m
  {
    if m < b {
      CountSplit(p, a, m, b - 1);
    }
  }

  lemma {:induction false} CountSame(p: int -> bool, q: int -> bool, a: int, b: int)
    requires forall t | a <= t < b :: p(t) <==> q(t)
    ensures Count(p, a, b) == Count(q, a, b)
    decreases b - a
  {
    if a < b {
      CountSame(p, q, a, b - 1);
    }
  }

  lemma {:induction false} CountConst(p: int -> bool, a: int, b: int, c: bool)
    requires a <= b && forall t | a <= t < b :: p(t) == c
    ensures Count(p, a, b) == if c then b - a else 0
    decreases b - a
  {
    if a < b {
      CountConst(p, a, b - 1, c);
    }
  }

  lemma {:induction false} CountAtMost(p: int -> bool, a: int, b: int)
    requires a <= b
    ensures Count(p, a, b) <= b - a
    decreases b - a
  {
    if a < b {
      CountAtMost(p, a, b - 1);
    }
  }

  lemma {:induction false} CountFewer(p: int -> bool, q: int -> bool, a: int, b: int)
    requires forall t | a <= t < b && p(t) :: q(t)
    ensures Count(p, a, b) <= Count(q, a, b)
    decreases b - a
  {
    if a < b {
      CountFewer(p, q, a, b - 1);
    }
  }

  /** Disjoint sets add up. */
  lemma {:induction false} CountUnion(p: int -> bool, q: int -> bool, r: int -> bool, a: int, b: int)
    requires forall t | a <= t < b :: (r(t) <==> p(t) || q(t)) && !(p(t) && q(t))
    ensures Count(r, a, b) == Count(p, a, b) + Count(q, a, b)
    decreases b - a
  {
    if a < b {
      CountUnion(p, q, r, a, b - 1);
    }
  }
}
