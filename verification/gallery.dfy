/**
 * The gallery lightbox: which image is open, stepping forwards and
 * backwards around the ring of images by button, swipe or arrow key,
 * closing it, and the counter shown under it.
 */
module Gallery {
  import opened Wrappers
  import opened Strings

  const ImageBasePath := "/assets/images/"

  /** The gallery's images, in display order. */
  const AllImages: seq<string> := [
    "WhatsApp Image 2026-01-08 at 1.48.07 PM.jpeg",
    "WhatsApp Image 2026-01-08 at 1.48.07 PM (1).jpeg",
    "WhatsApp Image 2026-01-08 at 1.48.08 PM.jpeg",
    "WhatsApp Image 2026-01-08 at 1.48.08 PM (1).jpeg",
    "WhatsApp Image 2026-01-08 at 1.48.09 PM.jpeg",
    "WhatsApp Image 2026-01-08 at 1.48.09 PM (1).jpeg",
    "WhatsApp Image 2026-01-08 at 1.48.09 PM (2).jpeg",
    "WhatsApp Image 2026-01-08 at 1.48.10 PM.jpeg",
    "WhatsApp Image 2026-01-08 at 1.48.10 PM (1).jpeg",
    "WhatsApp Image 2026-01-08 at 1.48.11 PM.jpeg",
    "WhatsApp Image 2026-01-08 at 1.48.11 PM (1).jpeg",
    "WhatsApp Image 2026-01-08 at 1.48.12 PM.jpeg",
    "WhatsApp Image 2026-01-08 at 1.48.12 PM (1).jpeg",
    "WhatsApp Image 2026-01-08 at 1.48.12 PM (2).jpeg",
    "WhatsApp Image 2026-01-08 at 1.48.13 PM.jpeg",
    "WhatsApp Image 2026-01-08 at 1.48.13 PM (1).jpeg",
    "WhatsApp Image 2026-01-08 at 1.48.14 PM.jpeg",
    "WhatsApp Image 2026-01-08 at 1.48.14 PM (1).jpeg",
    "WhatsApp Image 2026-01-08 at 1.48.14 PM (2).jpeg",
    "WhatsApp Image 2026-01-08 at 1.48.15 PM.jpeg",
    "WhatsApp Image 2026-01-08 at 1.48.15 PM (1).jpeg",
    "WhatsApp Image 2026-01-08 at 1.48.16 PM.jpeg",
    "WhatsApp Image 2026-01-08 at 1.48.16 PM (1).jpeg",
    "WhatsApp Image 2026-01-08 at 1.48.17 PM.jpeg",
    "WhatsApp Image 2026-01-08 at 1.48.17 PM (1).jpeg",
    "WhatsApp Image 2026-01-08 at 1.48.17 PM (2).jpeg",
    "WhatsApp Image 2026-01-08 at 1.48.18 PM.jpeg",
    "WhatsApp Image 2026-01-08 at 1.48.18 PM (1).jpeg",
    "WhatsApp Image 2026-01-08 at 1.48.19 PM.jpeg",
    "WhatsApp Image 2026-01-08 at 1.48.19 PM (1).jpeg",
    "WhatsApp Image 2026-01-08 at 1.48.19 PM (2).jpeg",
    "WhatsApp Image 2026-01-08 at 1.48.20 PM.jpeg",
    "WhatsApp Image 2026-01-08 at 1.48.20 PM (1).jpeg",
    "WhatsApp Image 2026-01-08 at 1.48.21 PM.jpeg",
    "WhatsApp Image 2026-01-08 at 1.48.21 PM (1).jpeg",
    "WhatsApp Image 2026-01-08 at 1.48.22 PM.jpeg"
  ]

  /** JavaScript's `%`: the remainder takes the sign of the dividend. */
  function JsRem(a: int, b: int): (r: int)
    requires b > 0
    ensures a >= 0 ==> 0 <= r < b && r == a % b
    ensures a < 0 ==> -b < r <= 0
  {
    if a >= 0 then a % b else -((-a) % b)
  }

  /** The open image, if any: `null` when the lightbox is closed. */
  type Selection = Option<int>

  /** `nextImage`: the following image, wrapping to the first; nothing when
      the lightbox is closed. */
  function NextImage(sel: Selection, n: nat): (r: Selection)
    requires n > 0
  {
    match sel
    case None => None
    case Some(i) => Some(JsRem(i + 1, n))
  }

  /** `prevImage`: the preceding image, wrapping to the last; nothing when
      the lightbox is closed. */
  function PrevImage(sel: Selection, n: nat): (r: Selection)
    requires n > 0
  {
    match sel
    case None => None
    case Some(i) => Some(JsRem(i - 1 + n, n))
  }

  predicate InRange(sel: Selection, n: nat) {
    sel.Some? ==> 0 <= sel.value < n
  }

  /** Stepping keeps an open image within the gallery, and leaves a closed
      lightbox closed. */
  lemma SteppingStaysInRange(sel: Selection, n: nat)
    requires n > 0 && InRange(sel, n)
    ensures InRange(NextImage(sel, n), n) && InRange(PrevImage(sel, n), n)
    ensures sel.None? ==> NextImage(sel, n) == None && PrevImage(sel, n) == None
    ensures sel.Some? ==> NextImage(sel, n).Some? && PrevImage(sel, n).Some?
  {
  }

  /** `a % n` for a dividend within one turn past the ring. */
  lemma RemWithinTwoTurns(a: int, n: nat)
    requires 0 <= a < 2 * n
    ensures JsRem(a, n) == if a < n then a else a - n
  {
  }

  /** Forwards then backwards, or backwards then forwards, returns to the
      same image. */
  lemma NextPrevInverse(sel: Selection, n: nat)
    requires n > 0 && InRange(sel, n)
    ensures PrevImage(NextImage(sel, n), n) == sel
    ensures NextImage(PrevImage(sel, n), n) == sel
  {
    if sel.Some? {
      var i := sel.value;
      RemWithinTwoTurns(i + 1, n);
      var j := JsRem(i + 1, n);
      RemWithinTwoTurns(j - 1 + n, n);
      RemWithinTwoTurns(i - 1 + n, n);
      var h := JsRem(i - 1 + n, n);
      RemWithinTwoTurns(h + 1, n);
    }
  }

  /** The image reached by stepping forwards `k` times. */
  function Forward(sel: Selection, n: nat, k: nat): Selection
    requires n > 0
    decreases k
  {
    if k == 0 then sel else NextImage(Forward(sel, n, k - 1), n)
  }

  /** Stepping forwards from image `i` counts up to the last image, then
      continues from the first. */
  lemma {:induction false} ForwardCounts(i: nat, n: nat, k: nat)
    requires i < n && k <= n
    ensures Forward(Some(i), n, k) == Some(if i + k < n then i + k else i + k - n)
    decreases k
  {
    if k > 0 {
      ForwardCounts(i, n, k - 1);
      var j := if i + k - 1 < n then i + k - 1 else i + k - 1 - n;
      RemWithinTwoTurns(j + 1, n);
    }
  }

  /** Stepping forwards once per image comes back to the start. */
  lemma FullTurn(i: nat, n: nat)
    requires i < n
    ensures Forward(Some(i), n, n) == Some(i)
  {
    ForwardCounts(i, n, n);
  }

  /** `handleDragEnd`: a swipe further than 50 to the left goes forwards,
      further than 50 to the right goes backwards, anything shorter stays. */
  function DragEnd(sel: Selection, n: nat, offsetX: real): (r: Selection)
    requires n > 0
    ensures offsetX < -50.0 ==> r == NextImage(sel, n)
    ensures offsetX > 50.0 ==> r == PrevImage(sel, n)
    ensures -50.0 <= offsetX <= 50.0 ==> r == sel
  {
    if offsetX < -50.0 then NextImage(sel, n)
    else if offsetX > 50.0 then PrevImage(sel, n)
    else sel
  }

  /** The keys the lightbox listens for. */
  datatype Key = ArrowRight | ArrowLeft | Escape | OtherKey

  /** The key handler: only while an image is open, the arrows step and
      Escape closes. */
  function KeyPress(sel: Selection, n: nat, key: Key): (r: Selection)
    requires n > 0
    ensures sel.None? ==> r == None
    ensures sel.Some? && key == ArrowRight ==> r == NextImage(sel, n)
    ensures sel.Some? && key == ArrowLeft ==> r == PrevImage(sel, n)
    ensures key == Escape ==> r == None
    ensures key == OtherKey ==> r == sel
  {
    if sel.None? then sel
    else match key
      case ArrowRight => NextImage(sel, n)
      case ArrowLeft => PrevImage(sel, n)
      case Escape => None
      case OtherKey => sel
  }

  /** The page locks scrolling exactly while an image is open. */
  function BodyOverflow(sel: Selection): (r: string)
    ensures r == "hidden" <==> sel.Some?
  {
    if sel.Some? then "hidden" else "unset"
  }

  /** The counter under the open image: its position counted from one, and
      the number of images. */
  function Counter(i: int, n: nat): (r: (int, nat))
    requires 0 <= i < n
    ensures 1 <= r.0 <= r.1 && r.1 == n
    ensures r.0 - 1 == i
  {
    (i + 1, n)
  }

  /** The source of the open image. */
  function ImageSrc(i: int): (r: string)
    requires 0 <= i < |AllImages|
    ensures IsPrefix(ImageBasePath, r)
  {
    ImageBasePath + AllImages[i]
  }

  /** The gallery shows thirty-six images. */
  lemma ImageCount()
    ensures |AllImages| == 36
  {
  }
}
