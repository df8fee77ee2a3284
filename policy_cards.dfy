/**
 * The ten policy cards of the "10 plus" economic programme. Clicking a card
 * shows its expected result; the page keeps a single active card index.
 */
module PolicyCards {
  import opened Wrappers

  /** Number of entries in the `solutions` list. */
  const PolicyCount: nat := 10

  /** Card i shows its result panel. */
  predicate Expanded(active: Option<nat>, i: nat) {
    active == Some(i)
  }

  /** The click handler of card i: `activePolicy === i ? null : i`. */
  function Toggle(active: Option<nat>, i: nat): (r: Option<nat>)
    // the clicked card flips
    ensures Expanded(r, i) <==> !Expanded(active, i)
    // every other card is collapsed afterwards
    ensures forall j :: j != i ==> !Expanded(r, j)
  {
    if active == Some(i) then None else Some(i)
  }

  /**
   * Clicking the same card twice restores the earlier state exactly when no
   * other card was expanded before: the second click cannot bring back a
   * card that the first click collapsed.
   */
  lemma ToggleTwice(active: Option<nat>, i: nat)
    ensures Toggle(Toggle(active, i), i) == active <==> active == None || active == Some(i)
  {
  }
}
