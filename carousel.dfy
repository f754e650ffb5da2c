/**
 * The image carousel: the images of one or several catalogue categories, the
 * index of the image on show (moved by the previous/next buttons, the
 * indicator dots and the auto-slide timer) and a full-screen viewer with its
 * own index and, when there is more than one image, its own arrows. Both
 * indices wrap around at either end.
 */
module Carousel {

  /** The `category` prop: one category or a list of them. */
  datatype CategoryChoice = One(name: string) | Several(names: seq<string>)

  /** `cataloguePics[cat] || []`. */
  function ImagesOf(catalogue: map<string, seq<string>>, name: string): (r: seq<string>)
    ensures name !in catalogue ==> r == []
    ensures name in catalogue ==> r == catalogue[name]
  {
    if name in catalogue then catalogue[name] else []
  }

  /** `getImages`: a list of categories contributes their images one category after another. */
  function GetImages(catalogue: map<string, seq<string>>, choice: CategoryChoice): seq<string> {
    match choice
    case One(name) => ImagesOf(catalogue, name)
    case Several(names) => FlatImages(catalogue, names)
  }

  function FlatImages(catalogue: map<string, seq<string>>, names: seq<string>): seq<string> {
    if names == [] then [] else ImagesOf(catalogue, names[0]) + FlatImages(catalogue, names[1..])
  }

  /** The images of two lists of categories are those of the first list followed by those of the second. */
  lemma {:induction false} FlatImagesConcat(catalogue: map<string, seq<string>>, a: seq<string>, b: seq<string>)
    ensures FlatImages(catalogue, a + b) == FlatImages(catalogue, a) + FlatImages(catalogue, b)
  {
    if a == [] {
      assert a + b == b;
    } else {
      assert (a + b)[1..] == a[1..] + b;
      FlatImagesConcat(catalogue, a[1..], b);
    }
  }

  /** A list of one category shows exactly that category, and unknown categories add nothing. */
  lemma OneCategoryAsList(catalogue: map<string, seq<string>>, name: string, names: seq<string>)
    ensures GetImages(catalogue, Several([name])) == GetImages(catalogue, One(name))
    ensures name !in catalogue ==> GetImages(catalogue, Several([name] + names)) == GetImages(catalogue, Several(names))
  {
    assert [name][1..] == [];
    assert FlatImages(catalogue, [name]) == ImagesOf(catalogue, name) + FlatImages(catalogue, []);
    assert ([name] + names)[1..] == names;
  }

  /** `prev === 0 ? length - 1 : prev - 1`. */
  function Previous(i: int, length: nat): (r: int)
    ensures 0 <= i < length ==> 0 <= r < length && r == (i - 1) % length
  {
    if i == 0 then length - 1 else i - 1
  }

  /** `prev === length - 1 ? 0 : prev + 1`. */
  function Next(i: int, length: nat): (r: int)
    ensures 0 <= i < length ==> 0 <= r < length && r == (i + 1) % length
  {
    if i == length - 1 then 0 else i + 1
  }

  /** Inside a non-empty list both moves stay inside it and are arithmetic modulo the length. */
  lemma MovesWrapAround(i: int, length: nat)
    requires 0 <= i < length
    ensures 0 <= Next(i, length) < length && Next(i, length) == (i + 1) % length
    ensures 0 <= Previous(i, length) < length && Previous(i, length) == (i - 1) % length
  {
  }

  /** Next undoes previous and previous undoes next. */
  lemma MovesAreInverse(i: int, length: nat)
    requires 0 <= i < length
    ensures Next(Previous(i, length), length) == i
    ensures Previous(Next(i, length), length) == i
  {
  }

  /** `k` steps forward from `i`, for `k` up to one full turn, land at `i + k` wrapped once. */
  lemma {:induction false} NextSteps(i: int, length: nat, k: nat)
    requires 0 <= i < length && k <= length
    ensures NextTimes(i, length, k) == if i + k < length then i + k else i + k - length
  {
    if k > 0 {
      NextSteps(i, length, k - 1);
    }
  }

  /** The index after `k` presses of next (or `k` auto-slide ticks) from `i`. */
  function NextTimes(i: int, length: nat, k: nat): (r: int)
    ensures 0 <= i < length ==> 0 <= r < length
  {
    if k == 0 then i else Next(NextTimes(i, length, k - 1), length)
  }

  /** Going next `length` times from any image comes back to it. */
  lemma FullCycle(i: int, length: nat)
    requires 0 <= i < length
    ensures NextTimes(i, length, length) == i
  {
    NextSteps(i, length, length);
  }

  /** The carousel's state for one set of images. */
  class ImageCarousel {
    const images: seq<string>
    var currentIndex: int
    var viewerOpen: bool
    var viewerIndex: int

    /** Both indices name an image, unless there are none (then nothing is shown). */
    ghost predicate Valid()
      reads this
    {
      |images| > 0 ==> 0 <= currentIndex < |images| && 0 <= viewerIndex < |images|
    }

    constructor(catalogue: map<string, seq<string>>, choice: CategoryChoice)
      ensures images == GetImages(catalogue, choice)
      ensures currentIndex == 0 && !viewerOpen && viewerIndex == 0
      ensures Valid()
    {
      images := GetImages(catalogue, choice);
      currentIndex := 0;
      viewerOpen := false;
      viewerIndex := 0;
    }

    /** The viewer's arrows are shown only when there is more than one image. */
    predicate ViewerArrowsShown()
      reads this
    {
      |images| > 1
    }

    method GoToPrevious()
      requires Valid()
      modifies this
      ensures Valid()
      ensures currentIndex == Previous(old(currentIndex), |images|)
      ensures viewerOpen == old(viewerOpen) && viewerIndex == old(viewerIndex)
    {
      currentIndex := Previous(currentIndex, |images|);
    }

    /** The next button and each tick of the auto-slide timer. */
    method GoToNext()
      requires Valid()
      modifies this
      ensures Valid()
      ensures currentIndex == Next(old(currentIndex), |images|)
      ensures viewerOpen == old(viewerOpen) && viewerIndex == old(viewerIndex)
    {
      currentIndex := Next(currentIndex, |images|);
    }

    /** An indicator dot. */
    method GoTo(index: int)
      requires Valid() && 0 <= index < |images|
      modifies this
      ensures Valid()
      ensures currentIndex == index && viewerOpen == old(viewerOpen) && viewerIndex == old(viewerIndex)
    {
      currentIndex := index;
    }

    /** Clicking an image opens the viewer on it. */
    method OpenViewer(index: int)
      requires Valid() && 0 <= index < |images|
      modifies this
      ensures Valid()
      ensures viewerOpen && viewerIndex == index && currentIndex == old(currentIndex)
    {
      viewerIndex := index;
      viewerOpen := true;
    }

    method CloseViewer()
      requires Valid()
      modifies this
      ensures Valid()
      ensures !viewerOpen && viewerIndex == old(viewerIndex) && currentIndex == old(currentIndex)
    {
      viewerOpen := false;
    }

    method ViewerPrevious()
      requires Valid() && viewerOpen && ViewerArrowsShown()
      modifies this
      ensures Valid()
      ensures viewerIndex == Previous(old(viewerIndex), |images|)
      ensures viewerOpen && currentIndex == old(currentIndex)
    {
      viewerIndex := Previous(viewerIndex, |images|);
    }

    method ViewerNext()
      requires Valid() && viewerOpen && ViewerArrowsShown()
      modifies this
      ensures Valid()
      ensures viewerIndex == Next(old(viewerIndex), |images|)
      ensures viewerOpen && currentIndex == old(currentIndex)
    {
      viewerIndex := Next(viewerIndex, |images|);
    }
  }

  /** With no images the timer's moves leave the range: the index only grows, while nothing is shown. */
  lemma NextWithoutImagesDrifts(i: int)
    requires i >= 0
    ensures Next(i, 0) == i + 1
  {
  }
}
