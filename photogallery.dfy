/** The photo viewer of components/PhotoGallery.tsx: which photo, if any, is open, and
    the arrows, keys and thumbnails that change it. */
module PhotoGallery {
  import opened Wrappers

  /** `MOCK_PHOTOS.length`. */
  const PhotoCount := 6

  /** `(i + 1) % n`: the next photo, wrapping from the last to the first. */
  function NextIndex(i: nat, n: nat): (r: nat)
    requires i < n
    ensures r < n
    ensures i + 1 < n ==> r == i + 1
    ensures i + 1 == n ==> r == 0
  {
    (i + 1) % n
  }

  /** `(i - 1 + n) % n`: the previous photo, wrapping from the first to the last. */
  function PrevIndex(i: nat, n: nat): (r: nat)
    requires i < n
    ensures r < n
    ensures i > 0 ==> r == i - 1
    ensures i == 0 ==> r == n - 1
  {
    (i - 1 + n) % n
  }

  /** Prev undoes next and next undoes prev. */
  lemma PrevNextInverse(i: nat, n: nat)
    requires i < n
    ensures PrevIndex(NextIndex(i, n), n) == i
    ensures NextIndex(PrevIndex(i, n), n) == i
  {
  }

  class Gallery {
    /** `selectedPhotoIndex`: `None` while the viewer is closed. */
    var selected: Option<nat>

    ghost predicate Valid()
      reads this
    {
      selected.Some? ==> selected.value < PhotoCount
    }

    constructor()
      ensures Valid() && selected == None
    {
      selected := None;
    }

    /** `handleNext`: nothing while closed. */
    method Next()
      modifies this
      requires Valid()
      ensures Valid()
      ensures old(selected).None? ==> selected == None
      ensures old(selected).Some? ==> selected == Some(NextIndex(old(selected).value, PhotoCount))
    {
      if selected.Some? {
        selected := Some((selected.value + 1) % PhotoCount);
      }
    }

    /** `handlePrev`: nothing while closed. */
    method Prev()
      modifies this
      requires Valid()
      ensures Valid()
      ensures old(selected).None? ==> selected == None
      ensures old(selected).Some? ==> selected == Some(PrevIndex(old(selected).value, PhotoCount))
    {
      if selected.Some? {
        selected := Some((selected.value - 1 + PhotoCount) % PhotoCount);
      }
    }

    /** `handleClose`. */
    method Close()
      modifies this
      ensures Valid() && selected == None
    {
      selected := None;
    }

    /** A click on thumbnail `k` of the grid opens that photo. */
    method Open(k: nat)
      modifies this
      requires k < PhotoCount
      ensures Valid() && selected == Some(k)
    {
      selected := Some(k);
    }

    /** `handleKeyDown`: while open, ArrowRight is next, ArrowLeft is prev and Escape
        closes; every other key, and every key while closed, does nothing. */
    method KeyDown(key: string)
      modifies this
      requires Valid()
      ensures Valid()
      ensures old(selected).None? ==> selected == None
      ensures old(selected).Some? ==>
        var i := old(selected).value;
        selected == if key == "ArrowRight" then Some(NextIndex(i, PhotoCount))
                    else if key == "ArrowLeft" then Some(PrevIndex(i, PhotoCount))
                    else if key == "Escape" then None
                    else Some(i)
    {
      if selected.None? {
        return;
      }
      if key == "ArrowRight" {
        Next();
      }
      if key == "ArrowLeft" {
        Prev();
      }
      if key == "Escape" {
        Close();
      }
    }
  }
}
