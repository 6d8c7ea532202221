/** The evidence-photo gallery (`client/src/components/ImageGallery.tsx`):
    the empty-gallery placeholder and the lightbox's wrap-around navigation. */
module ImageGallery {
  import opened Wrappers
  import opened Records

  /** What the gallery shows: the placeholder, or a grid of `count` photos. */
  datatype GalleryView = Placeholder | Grid(count: nat)

  function View(images: Option<seq<Image>>): (v: GalleryView)
    ensures v == Placeholder <==> images.None? || images.value == []
    ensures v.Grid? ==> v.count == |images.value| > 0
  {
    if images.None? || images.value == [] then Placeholder else Grid(|images.value|)
  }

  /** The "previous" arrow: from the first photo to the last, otherwise one
      back; with no selection, `(null ?? 0) - 1`. */
  function Prev(selected: Option<int>, count: nat): int {
    if selected == Some(0) then count - 1 else selected.GetOr(0) - 1
  }

  /** The "next" arrow: from the last photo to the first, otherwise one on;
      with no selection, `(null ?? -1) + 1`. */
  function Next(selected: Option<int>, count: nat): int {
    if selected == Some(count - 1) then 0 else selected.GetOr(-1) + 1
  }

  /** From a photo of a non-empty gallery, both arrows land on a photo: one
      step back or forward, wrapping around at the ends. */
  lemma NavigationInRange(i: int, count: nat)
    requires 0 <= i < count
    ensures 0 <= Prev(Some(i), count) < count
    ensures 0 <= Next(Some(i), count) < count
    ensures Prev(Some(i), count) == (i - 1) % count
    ensures Next(Some(i), count) == (i + 1) % count
  {
  }

  /** "Next" undoes "previous" and "previous" undoes "next". */
  lemma NavigationInverse(i: int, count: nat)
    requires 0 <= i < count
    ensures Next(Some(Prev(Some(i), count)), count) == i
    ensures Prev(Some(Next(Some(i), count)), count) == i
  {
  }

  /** Pressing "next" `k` times from a photo, for `k` up to the number of
      photos, moves `k` places forward around the circle; so `count` presses
      come back to the start. */
  lemma {:induction false} NextCycle(i: int, count: nat, k: nat)
    requires 0 <= i < count && k <= count
    ensures StepsForward(i, count, k) == if i + k < count then i + k else i + k - count
    ensures k == count ==> StepsForward(i, count, k) == i
  {
    if k > 0 {
      NextCycle(i, count, k - 1);
    }
  }

  /** The photo reached by pressing "next" `k` times from photo `i`. */
  function StepsForward(i: int, count: nat, k: nat): int {
    if k == 0 then i else Next(Some(StepsForward(i, count, k - 1)), count)
  }
}
