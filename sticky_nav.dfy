/**
 * The sticky navigation bar: which section is highlighted while scrolling,
 * when the back-to-top button shows, where a nav click scrolls to, and how far
 * the mobile nav strip is scrolled to centre the highlighted item.
 *
 * Positions coming from the DOM (`getBoundingClientRect().top`, `scrollY`,
 * `pageYOffset`) are doubles in the browser; here they are `real`.
 */
module StickyNav {
  import opened Wrappers

  /** The tracked section ids in document (and navigation) order. */
  const Sections: seq<string> :=
    ["hero", "credentials", "gallery", "solutions", "track-record", "vote", "area"]

  /** The section highlighted before the first scroll event. */
  const InitialSection: string := "hero"

  /** A section counts as reached once its top is at most this far below the viewport top. */
  const ActiveThreshold: real := 150.0

  /** The back-to-top button shows once the page is scrolled further than this. */
  const BackToTopThreshold: real := 500.0

  /** Height of the fixed navbar: a nav click leaves the section this far below the viewport top. */
  const NavbarOffset: real := 80.0

  /** Viewports narrower than this get the horizontally scrolling nav strip. */
  const MobileBreakpoint: int := 768

  /** A section qualifies when its element exists and its top is at or above the threshold line. */
  predicate Qualifies(top: Option<real>) {
    top.Some? && top.value <= ActiveThreshold
  }

  /** No section after position k qualifies. */
  predicate NoneQualifyAfter(tops: seq<Option<real>>, k: int) {
    forall j :: 0 <= j < |tops| && k < j ==> !Qualifies(tops[j])
  }

  /**
   * The reverse scan over the sections: the index of the last qualifying
   * section, or None when no section qualifies.
   */
  function LastQualifying(tops: seq<Option<real>>): (k: Option<nat>)
    ensures k.Some? ==> k.value < |tops| && Qualifies(tops[k.value])
    ensures k.Some? ==> NoneQualifyAfter(tops, k.value)
    ensures k.None? ==> NoneQualifyAfter(tops, -1)
  {
    if |tops| == 0 then None
    else if Qualifies(tops[|tops| - 1]) then Some(|tops| - 1)
    else LastQualifying(tops[..|tops| - 1])
  }

  /**
   * The active section after a scroll event, given the previous one and, for
   * each id of Sections in order, the top of its element (None when the
   * element does not exist).
   */
  function SelectSection(prev: string, tops: seq<Option<real>>): (s: string)
    requires |tops| == |Sections|
    // the last section in navigation order that qualifies wins
    ensures forall k :: 0 <= k < |tops| && Qualifies(tops[k]) && NoneQualifyAfter(tops, k) ==> s == Sections[k]
    // with no qualifying section the previous value is kept
    ensures NoneQualifyAfter(tops, -1) ==> s == prev
    // a changed value always names a qualifying section
    ensures s != prev ==> exists k :: 0 <= k < |tops| && Qualifies(tops[k]) && s == Sections[k]
    ensures prev in Sections ==> s in Sections
  {
    match LastQualifying(tops)
    case Some(k) => Sections[k]
    case None => prev
  }

  /**
   * The horizontal scroll that puts the centre of the active nav item at the
   * centre of the nav container, never below 0 (`Math.max(0, ...)`).
   * Offsets and widths of elements are integers in the DOM; halving the
   * container width is not.
   */
  function CenteringScroll(itemLeft: int, itemWidth: int, containerWidth: int): (x: real)
    ensures x >= 0.0
    ensures x >= itemLeft as real - containerWidth as real / 2.0 + itemWidth as real / 2.0
    // unless clamped, the item's centre ends up at the container's centre
    ensures x == 0.0 ||
            itemLeft as real + itemWidth as real / 2.0 - x == containerWidth as real / 2.0
  {
    var ideal := itemLeft as real - containerWidth as real / 2.0 + itemWidth as real / 2.0;
    if ideal > 0.0 then ideal else 0.0
  }

  /** `offsetLeft` and `offsetWidth` of the nav button of the active section. */
  datatype ItemBox = ItemBox(left: int, width: int)

  /**
   * The scroll request made by the nav-centering effect: only on a narrow
   * viewport, and only when both the nav container and the active item's
   * button exist.
   */
  function NavScrollRequest(innerWidth: int, containerWidth: Option<int>, item: Option<ItemBox>): (r: Option<real>)
    ensures r.Some? <==> innerWidth < MobileBreakpoint && containerWidth.Some? && item.Some?
    ensures r.Some? ==> r.value >= 0.0
    ensures r.Some? ==> r.value == CenteringScroll(item.value.left, item.value.width, containerWidth.value)
  {
    if innerWidth < MobileBreakpoint && containerWidth.Some? && item.Some? then
      Some(CenteringScroll(item.value.left, item.value.width, containerWidth.value))
    else
      None
  }

  /**
   * The vertical scroll target of a nav click, given the section element's
   * current top (None when there is no such element) and the current page
   * offset. Nothing is requested for a missing element.
   */
  function ScrollTarget(elementTop: Option<real>, pageYOffset: real): (r: Option<real>)
    ensures r.Some? <==> elementTop.Some?
    // after scrolling to r, the section's top sits just below the navbar
    ensures r.Some? ==> (elementTop.value + pageYOffset) - r.value == NavbarOffset
  {
    match elementTop
    case Some(top) => Some(top + pageYOffset - NavbarOffset)
    case None => None
  }

  /** Scrolled to where "solutions" has passed the line and no later section has. */
  lemma ScrolledToSolutions(prev: string, tops: seq<Option<real>>)
    requires |tops| == |Sections|
    requires Qualifies(tops[3])
    requires forall j :: 3 < j < |tops| ==> !Qualifies(tops[j])
    ensures SelectSection(prev, tops) == "solutions"
  {
  }
}
