/**
 * The image lightbox: a modal over the page showing one gallery photo, with a
 * close button, the enlarged image and a strip of thumbnails.
 *
 * A click inside the modal first runs the handler of the element clicked and
 * then, unless that handler stopped propagation, the handler of the enclosing
 * backdrop, which closes the modal.
 */
module Lightbox {
  import opened Wrappers

  /** The four gallery photos, in grid (and thumbnail) order. */
  const GalleryImages: seq<string> := ["/sura1.png", "/sura2.png", "/sura3.png", "/sura4.png"]

  /** `{lightboxImage && ...}`: the modal is rendered only for a non-empty image path. */
  predicate Rendered(image: Option<string>) {
    image.Some? && image.value != ""
  }

  /** Thumbnail i carries the highlighted border. */
  predicate Highlighted(image: Option<string>, i: nat)
    requires i < |GalleryImages|
  {
    image == Some(GalleryImages[i])
  }

  /** The elements of the modal that have a click handler. */
  datatype ModalTarget = Backdrop | CloseButton | DisplayedImage | Thumbnail(index: nat)

  /** The image after a handler ran, and whether the handler stopped propagation. */
  datatype HandlerOutcome = HandlerOutcome(image: Option<string>, stopped: bool)

  /** A click target that exists in the modal. */
  predicate ValidTarget(t: ModalTarget) {
    t.Thumbnail? ==> t.index < |GalleryImages|
  }

  /** The handler attached to the clicked element itself. */
  function TargetHandler(t: ModalTarget, image: Option<string>): HandlerOutcome
    requires ValidTarget(t)
  {
    match t
    case Backdrop => HandlerOutcome(None, false)
    case CloseButton => HandlerOutcome(None, false)
    case DisplayedImage => HandlerOutcome(image, true)
    case Thumbnail(i) => HandlerOutcome(Some(GalleryImages[i]), true)
  }

  /** The backdrop's own handler, reached by bubbling. */
  function BackdropHandler(): Option<string> {
    None
  }

  /** One click inside the open modal: the target's handler, then bubbling to the backdrop. */
  function DispatchClick(t: ModalTarget, image: Option<string>): (r: Option<string>)
    requires ValidTarget(t)
    ensures t.Backdrop? || t.CloseButton? ==> r == None && !Rendered(r)
    ensures t.DisplayedImage? ==> r == image
    ensures t.Thumbnail? ==> r == Some(GalleryImages[t.index]) && Rendered(r)
  {
    var o := TargetHandler(t, image);
    if t.Backdrop? || o.stopped then o.image else BackdropHandler()
  }

  /** After a thumbnail click, that thumbnail and only that one is highlighted. */
  lemma ThumbnailHighlightsItself(image: Option<string>, i: nat, j: nat)
    requires i < |GalleryImages| && j < |GalleryImages|
    ensures Highlighted(DispatchClick(Thumbnail(i), image), j) <==> i == j
  {
  }
}
