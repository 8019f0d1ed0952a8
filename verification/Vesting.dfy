/** vesting.py: linear release with a cliff. */
module Vesting {
  import opened Arithmetic

  datatype Grant = Grant(total: int, start: int, cliff: int, duration: int)

  /** Every component is a non-negative integer, as the chain demands at genesis. */
  predicate ValidGrant(g: Grant) {
    0 <= g.total && 0 <= g.start && 0 <= g.cliff && 0 <= g.duration
  }

  /** Python's floor division agrees with Dafny's here: the divisor is positive. */
  function Vested(g: Grant, height: int): int {
    if g.duration <= 0 then g.total
    else if height < g.start + g.cliff then 0
    else if height >= g.start + g.duration then g.total
    else g.total * (height - g.start) / g.duration
  }

  function Locked(g: Grant, height: int): int {
    g.total - Vested(g, height)
  }

  /** What is released stays between nothing and the whole grant. */
  lemma VestedBounds(g: Grant, height: int)
    requires ValidGrant(g)
    ensures 0 <= Vested(g, height) <= g.total
  {
    if 0 < g.duration && g.start + g.cliff <= height < g.start + g.duration {
      DivAtMost(g.total, height - g.start, g.duration);
    }
  }

  /** What is released is never locked again. */
  lemma VestedMonotone(g: Grant, h: int, k: int)
    requires ValidGrant(g)
    requires h <= k
    ensures Vested(g, h) <= Vested(g, k)
  {
    VestedBounds(g, h);
    VestedBounds(g, k);
    if 0 < g.duration && g.start + g.cliff <= h && k < g.start + g.duration {
      MulMonotone(h - g.start, k - g.start, g.total);
      DivMonotone(g.total * (h - g.start), g.total * (k - g.start), g.duration);
    }
  }

  /** The first height at which v units of the grant are free: the later of the cliff and the moment the
      straight line from (start, 0) to (start + duration, total) reaches v. */
  function ReleaseHeight(g: Grant, v: int): int
    requires 0 < g.total
  {
    var onLine := CeilDiv(v * g.duration, g.total);
    g.start + if onLine <= g.cliff then g.cliff else onLine
  }

  /** The schedule, read the other way round: v units are released by exactly the heights from their
      release height on, so each unit is freed once, in order and never before its turn. */
  lemma ReleasedFrom(g: Grant, v: int, height: int)
    requires ValidGrant(g) && 0 < g.duration && 0 < v <= g.total
    ensures v <= Vested(g, height) <==> ReleaseHeight(g, v) <= height
  {
    hide CeilDiv;
    var d, k := v * g.duration, height - g.start;
    CeilGalois(d, g.total, k);
    FloorGalois(v, g.total * k, g.duration);
    if g.duration <= k {
      MulMonotone(v, g.total, g.duration);
      MulMonotone(g.duration, k, g.total);
    }
  }
}
