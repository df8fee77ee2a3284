/**
 * The decorative rotation counter: the angle of the hero background gradient,
 * advanced by one degree on every tick of a repeating timer.
 */
module Rotation {

  /** The counter wraps around at a full turn. */
  const FullTurn: nat := 360

  /** One tick: `(prev + 1) % 360`. */
  function NextAngle(c: nat): (r: nat)
    ensures r < FullTurn
    ensures c + 1 < FullTurn ==> r == c + 1
    ensures c + 1 == FullTurn ==> r == 0
  {
    (c + 1) % FullTurn
  }

  /** The counter after n ticks starting from c. */
  function AngleAfter(c: nat, n: nat): nat {
    if n == 0 then c else NextAngle(AngleAfter(c, n - 1))
  }

  /** From any angle in range, n ticks advance it by n degrees modulo a full turn. */
  lemma {:induction false} AngleAfterTicks(c: nat, n: nat)
    requires c < FullTurn
    ensures AngleAfter(c, n) == (c + n) % FullTurn
  {
    if n > 0 {
      AngleAfterTicks(c, n - 1);
      NextAngleOfRemainder(c + n - 1);
    }
  }

  /** Ticking from the remainder of m gives the remainder of m + 1. */
  lemma NextAngleOfRemainder(m: nat)
    ensures NextAngle(m % FullTurn) == (m + 1) % FullTurn
  {
  }

  /** A full turn of ticks brings the counter back where it started. */
  lemma FullTurnRestores(c: nat)
    requires c < FullTurn
    ensures AngleAfter(c, FullTurn) == c
  {
    AngleAfterTicks(c, FullTurn);
  }
}
