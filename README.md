# Surasit landing page: page-state model

A Dafny model of the state logic of the `SurasitLandingPagePro` page component,
a one-page election site for a parliamentary candidate. The page keeps a handful
of state values that its event handlers update:

- the nav bar's highlighted section, recomputed on every scroll event by a
  reverse scan over the seven section ids;
- whether the back-to-top button shows;
- the countdown of days to the election date (2026-02-08);
- a decorative rotation angle advanced by a repeating timer;
- the expanded policy card;
- the lightbox image.

Two more values are computed without being stored: the horizontal scroll that
centres the active nav item on narrow screens, and the vertical scroll target of
a nav click.

Modules, one per concern of the component, as separate files:

- `Wrappers` (`wrappers.dfy`): `Option`, standing for JavaScript's `null`.
- `StickyNav` (`sticky_nav.dfy`): the section list, the active-section selection, the
  nav-centering offset and the scroll target of a nav click.
- `Countdown` (`countdown.dfy`): `daysLeft` as integer ceiling division over
  millisecond timestamps, clamped at 0.
- `Rotation` (`rotation.dfy`): the rotation counter modulo 360.
- `PolicyCards` (`policy_cards.dfy`): the single active-card index and its toggle.
- `Lightbox` (`lightbox.dfy`): the modal's click handlers and the way a click bubbles
  from the clicked element to the backdrop unless `stopPropagation` is called.
- `LandingPage` (`landing_page.dfy`): class `PageState`, one field per state hook (plus
  `prevSection` for the `prevSectionRef` ref). Each handler is a method with a
  field-level `modifies` frame, so nothing outside its frame changes. Each method is
  proved against the functions above and keeps the invariant `Valid()`:
  - the counter is below 360;
  - the active and previous sections are among the seven ids;
  - an active policy index is below 10;
  - a lightbox image is one of the four gallery photos.

Inputs from the browser are parameters of the methods:
- element tops from `getBoundingClientRect`, `scrollY`, `pageYOffset`, `innerWidth`;
- the nav strip's `clientWidth` and the active button's `offsetLeft`/`offsetWidth`;
- the clock reading in milliseconds.

A missing element is `None`. Positions that the browser gives as doubles are `real`;
element offsets and widths, which the DOM gives as integers, are `int`.

The page keeps a single `activePolicy` index, so opening a card collapses any other;
`PolicyCards.ToggleTwice` shows that two clicks on a card restore the earlier state
only when no other card was open.

`LandingPage.LightboxSession` is a walk-through of the lightbox built from the
class's contracts alone: open photo 3 from the gallery, switch to photo 1 with a
thumbnail, click the photo (nothing changes), click the backdrop (closed).

## Model

| member | source | states |
|---|---|---|
| StickyNav.LastQualifying | src/components/SurasitLandingPage.tsx:105-115 | the reverse scan's stopping point: the returned index qualifies (element exists, top at most 150) and no later section qualifies; None only when no section qualifies |
| StickyNav.SelectSection | src/components/SurasitLandingPage.tsx:105-115 | the selected id is the last qualifying section in navigation order; with none qualifying the previous id is kept; a changed value names a qualifying section; the result stays among the seven ids |
| StickyNav.ScrolledToSolutions | src/components/SurasitLandingPage.tsx:105-115 | from any previous value, when "solutions" qualifies and no section after it does, "solutions" becomes active |
| StickyNav.CenteringScroll | src/components/SurasitLandingPage.tsx:139-149 | the nav offset is never negative, is at least `itemLeft - containerWidth/2 + itemWidth/2`, and unless clamped to 0 places the item's centre at the container's centre |
| StickyNav.NavScrollRequest | src/components/SurasitLandingPage.tsx:132-151 | a horizontal scroll is requested exactly when the viewport is narrower than 768 and both the nav container and the active item exist, and it is the centering offset |
| StickyNav.ScrollTarget | src/components/SurasitLandingPage.tsx:161-172 | a scroll target exists exactly when the element does, and scrolling to it leaves the section's top 80 below the viewport top |
| Countdown.CeilDays | src/components/SurasitLandingPage.tsx:96-97 | the day count is the ceiling of the millisecond difference over one day: `(d-1)*day < ms <= d*day` |
| Countdown.DaysLeft | src/components/SurasitLandingPage.tsx:94-98 | `daysLeft` is never negative, is positive exactly when now is before the target, and then is the rounded-up number of days |
| Countdown.DaysLeftWithinDay | src/components/SurasitLandingPage.tsx:94-98 | any moment within the n-th day before the target shows exactly n |
| Countdown.DaysLeftMonotone | src/components/SurasitLandingPage.tsx:94-98 | the countdown never increases as the clock advances |
| Countdown.SevenDaysOnFebruaryFirst | src/components/SurasitLandingPage.tsx:94-98 | at any time on 2026-02-01 (UTC) the page shows 7 days to the 2026-02-08 election |
| Rotation.NextAngle | src/components/SurasitLandingPage.tsx:90-92 | a tick keeps the counter below 360, steps it by one, and wraps 359 to 0 |
| Rotation.AngleAfterTicks | src/components/SurasitLandingPage.tsx:90-92 | n ticks from any counter value c below 360 give `(c + n) % 360` |
| Rotation.FullTurnRestores | src/components/SurasitLandingPage.tsx:90-92 | 360 ticks bring the counter back to its start |
| PolicyCards.Toggle | src/components/SurasitLandingPage.tsx:563-572 | a click flips the clicked card between expanded and collapsed and leaves every other card collapsed |
| PolicyCards.ToggleTwice | src/components/SurasitLandingPage.tsx:563 | two clicks on the same card restore the prior state if and only if no other card was expanded before |
| Lightbox.DispatchClick | src/components/SurasitLandingPage.tsx:890-927 | inside the modal, a backdrop or close-button click closes it; a click on the displayed image changes nothing; a thumbnail click shows that photo and keeps the modal open |
| Lightbox.ThumbnailHighlightsItself | src/components/SurasitLandingPage.tsx:921-930 | after clicking thumbnail i, thumbnail j is highlighted exactly when j is i |
| LandingPage.PageState.constructor | src/components/SurasitLandingPage.tsx:66-76 | the initial state: counter 0, no active card, 0 days, no back-to-top button, "hero" active, hero hidden, lightbox closed |
| LandingPage.PageState.OpenIffImageSet | src/components/SurasitLandingPage.tsx:890 | with the state invariant, the modal is rendered exactly when an image is set |
| LandingPage.PageState.Mount | src/components/SurasitLandingPage.tsx:94-98 | the mount effect sets `daysLeft` to the countdown for the clock reading and changes nothing else |
| LandingPage.PageState.Tick | src/components/SurasitLandingPage.tsx:90-92 | a timer tick advances the counter by one step and keeps it below 360; nothing else changes |
| LandingPage.PageState.RevealHero | src/components/SurasitLandingPage.tsx:121 | the delayed callback sets `heroLoaded`; nothing else changes |
| LandingPage.PageState.HandleScroll | src/components/SurasitLandingPage.tsx:101-116 | the back-to-top flag holds exactly when `scrollY > 500`. The reverse loop with `break` leaves the active section as the selection rule gives, and the active section remains one of the seven ids. Nothing else changes |
| LandingPage.PageState.CenterActiveNavItem | src/components/SurasitLandingPage.tsx:130-155 | the nav effect requests the centering scroll under the narrow-viewport and element-existence conditions and records the active section as the previous one |
| LandingPage.PageState.ClickPolicyCard | src/components/SurasitLandingPage.tsx:563 | the card's click toggles `activePolicy` and the index stays below 10 |
| LandingPage.PageState.ClickGalleryImage | src/components/SurasitLandingPage.tsx:509-510 | a gallery click opens the lightbox on that photo |
| LandingPage.PageState.ClickInLightbox | src/components/SurasitLandingPage.tsx:890-927 | a click inside the open modal updates the image as the bubbling dispatch gives, keeping it one of the gallery photos |

## Left out

- Markup, styling, the inline keyframes and the static content lists (`solutions`, `credentials`, `experiences`, the district areas). They are presentation only; only the number of policy cards (10) and the gallery paths are used.
- `useInView` and `AnimateIn` (the scroll-reveal wrapper). They only copy the browser's intersection flag into state.
- Timer and listener registration and teardown (`setInterval`, `setTimeout`, `addEventListener`/`removeEventListener`). Each tick or event is one method call instead. The 50 ms and 100 ms delays are not modelled.
- Date parsing and clock reading. The election date is the constant `Countdown.ElectionDateMs` (midnight UTC), and the clock is a parameter.
- Countdown.CeilDays: computes the exact ceiling of the integer quotient, while the source divides in floating point and then applies `Math.ceil`. The two agree for timestamps of realistic size, but floating-point rounding is not modelled.
- DOM measurement, smooth `scrollTo` and the browser's clamping of scroll positions to the scrollable range. Measurements are parameters. The requested scroll positions are results and are not applied.
- Floating-point arithmetic on element tops and offsets. The model uses exact `real` arithmetic.
- `scrollToTop`: it is a single `scrollTo` to offset 0 with no logic.
- The clipboard write, its confirmation alert, and the Facebook/LINE share and contact links. They are foreign browser calls with fixed strings.
- The `typeof window !== 'undefined'` guard of the nav effect. The model only covers the browser, where it always holds. The inner `if (!activeItem) return;` is unreachable, because the enclosing condition already tested the same value.
- The `videoClicked` state. It is declared but never read or set.
- The root layout file (metadata and a wrapper around framework defaults).
