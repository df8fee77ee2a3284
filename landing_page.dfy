/**
 * The page component's state and its event handlers. Each browser event
 * (a timer tick, a scroll, a click, an effect run) is one method call; DOM
 * measurements arrive as parameters.
 */
module LandingPage {
  import opened Wrappers
  import opened StickyNav
  import opened Countdown
  import opened Rotation
  import opened PolicyCards
  import opened Lightbox

  class PageState {
    var count: nat
    var activePolicy: Option<nat>
    var daysLeft: nat
    var showBackToTop: bool
    var activeSection: string
    var heroLoaded: bool
    var lightboxImage: Option<string>
    /** `prevSectionRef.current`. */
    var prevSection: string

    /** The invariant every handler keeps. */
    ghost predicate Valid()
      reads this
    {
      && count < FullTurn
      && activeSection in Sections
      && prevSection in Sections
      && (activePolicy.Some? ==> activePolicy.value < PolicyCount)
      && (lightboxImage.Some? ==> lightboxImage.value in GalleryImages)
    }

    /** The modal is on screen. */
    predicate LightboxOpen()
      reads this
    {
      Rendered(lightboxImage)
    }

    /** The initial values of the component's state hooks. */
    constructor ()
      ensures Valid()
      ensures count == 0 && activePolicy == None && daysLeft == 0 && !showBackToTop
      ensures activeSection == InitialSection && prevSection == InitialSection
      ensures !heroLoaded && lightboxImage == None
    {
      count := 0;
      activePolicy := None;
      daysLeft := 0;
      showBackToTop := false;
      activeSection := InitialSection;
      heroLoaded := false;
      lightboxImage := None;
      prevSection := InitialSection;
    }

    /** Under the invariant the modal is open exactly when an image is set. */
    lemma OpenIffImageSet()
      requires Valid()
      ensures LightboxOpen() <==> lightboxImage.Some?
    {
    }

    /** The mount effect computes the countdown once, from the clock reading `nowMs`. */
    method Mount(nowMs: int)
      requires Valid()
      modifies this`daysLeft
      ensures Valid()
      ensures daysLeft == DaysLeft(ElectionDateMs, nowMs)
    {
      daysLeft := DaysLeft(ElectionDateMs, nowMs);
    }

    /** One tick of the repeating timer. */
    method Tick()
      requires Valid()
      modifies this`count
      ensures Valid()
      ensures count == NextAngle(old(count))
    {
      count := NextAngle(count);
    }

    /** The delayed hero reveal after mount. */
    method RevealHero()
      requires Valid()
      modifies this`heroLoaded
      ensures Valid()
      ensures heroLoaded
    {
      heroLoaded := true;
    }

    /**
     * The scroll listener. `tops[k]` is the top of the element with id
     * `Sections[k]`, or None when there is no such element. The sections are
     * scanned from the last to the first, stopping at the first that qualifies.
     */
    method HandleScroll(scrollY: real, tops: seq<Option<real>>)
      requires Valid()
      requires |tops| == |Sections|
      modifies this`showBackToTop, this`activeSection
      ensures Valid()
      ensures showBackToTop <==> scrollY > BackToTopThreshold
      ensures activeSection == SelectSection(old(activeSection), tops)
    {
      showBackToTop := scrollY > BackToTopThreshold;
      var i := |Sections|;
      while i > 0
        invariant 0 <= i <= |Sections|
        invariant activeSection == old(activeSection)
        invariant NoneQualifyAfter(tops, i - 1)
      {
        i := i - 1;
        var element := tops[i];
        if element.Some? {
          if element.value <= ActiveThreshold {
            activeSection := Sections[i];
            break;
          }
        }
      }
    }

    /**
     * The nav-centering effect, run whenever the active section changes.
     * `containerWidth` is the nav strip's `clientWidth` (None without the
     * strip) and `item` the box of the active section's nav button (None
     * without one). Returns the requested horizontal scroll, if any.
     */
    method CenterActiveNavItem(innerWidth: int, containerWidth: Option<int>, item: Option<ItemBox>)
      returns (scrollLeft: Option<real>)
      requires Valid()
      modifies this`prevSection
      ensures Valid()
      ensures prevSection == activeSection
      ensures scrollLeft == NavScrollRequest(innerWidth, containerWidth, item)
    {
      scrollLeft := NavScrollRequest(innerWidth, containerWidth, item);
      prevSection := activeSection;
    }

    /** A click on policy card i. */
    method ClickPolicyCard(i: nat)
      requires Valid()
      requires i < PolicyCount
      modifies this`activePolicy
      ensures Valid()
      ensures activePolicy == Toggle(old(activePolicy), i)
    {
      activePolicy := Toggle(activePolicy, i);
    }

    /** A click on photo i of the gallery grid opens the lightbox on it. */
    method ClickGalleryImage(i: nat)
      requires Valid()
      requires i < |GalleryImages|
      modifies this`lightboxImage
      ensures Valid()
      ensures lightboxImage == Some(GalleryImages[i]) && LightboxOpen()
    {
      lightboxImage := Some(GalleryImages[i]);
    }

    /** A click inside the open lightbox. */
    method ClickInLightbox(t: ModalTarget)
      requires Valid()
      requires LightboxOpen()
      requires ValidTarget(t)
      modifies this`lightboxImage
      ensures Valid()
      ensures lightboxImage == DispatchClick(t, old(lightboxImage))
    {
      var outcome := TargetHandler(t, lightboxImage);
      lightboxImage := outcome.image;
      if !t.Backdrop? && !outcome.stopped {
        lightboxImage := BackdropHandler();
      }
    }
  }

  /** A visitor's session: open photo 3, switch to photo 1 in the lightbox, click the photo, close. */
  method LightboxSession()
  {
    var page := new PageState();
    page.ClickGalleryImage(2);
    assert page.lightboxImage == Some("/sura3.png");
    page.ClickInLightbox(Thumbnail(0));
    assert page.LightboxOpen() && page.lightboxImage == Some("/sura1.png");
    page.ClickInLightbox(DisplayedImage);
    assert page.lightboxImage == Some("/sura1.png");
    page.ClickInLightbox(Backdrop);
    assert !page.LightboxOpen();
  }
}
