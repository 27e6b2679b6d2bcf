/** The image bookkeeping of `ImageLoader` (scripts/image-loader.js): the move of `src` into
    `data-src` that defers loading, the start of a load, the retry counter kept per image with its
    limit, the cache-busting retry URL, and the flags of the auto-scroll feature.

    Timers, the `IntersectionObserver`, animation frames and the page geometry are not modelled:
    their callbacks are methods the environment calls (a timeout firing, an image entering the
    viewport, an animation frame), and the clock is a parameter. */
module ImageLoading {
  import opened Strings

  /** `retryCount`: the number of retries allowed after the first load. */
  const RetryCount: nat := 3

  /** The two attributes of an `img` the loader reads and writes; `""` stands for an absent or
      empty attribute, which the script treats alike. */
  datatype Image = Image(src: string, dataSrc: string)

  /** What `setupImageObserver` does to each image: an image with a `src` and no `data-src` gets
      its `src` moved into `data-src`, so that it does not load until observed. */
  function Deferred(im: Image): Image {
    if im.src != "" && im.dataSrc == "" then Image("", im.src) else im
  }

  /** What `loadImage` and `loadAllImages` do to an image with a `data-src`: load it from there. */
  function Started(im: Image): Image {
    if im.dataSrc != "" then im.(src := im.dataSrc) else im
  }

  /** Deferring keeps the address: an image deferred then started loads what it had as `src`; an
      image that already had a `data-src` is left alone; deferring twice is deferring once. */
  lemma DeferThenStart(im: Image)
    ensures im.src != "" && im.dataSrc == "" ==> Started(Deferred(im)) == Image(im.src, im.src)
    ensures im.dataSrc != "" ==> Deferred(im) == im
    ensures Deferred(Deferred(im)) == Deferred(im)
    ensures Deferred(im).src == "" || Deferred(im).dataSrc != ""
  {
  }

  /** The URL of a retry: `data-src`, then `&` if it already holds a `?` and `?` otherwise, then
      `retry=` and the time in milliseconds. */
  function RetryUrl(dataSrc: string, now: nat): (url: string)
    ensures StartsWith(url, dataSrc)
  {
    dataSrc + (if '?' in dataSrc then "&" else "?") + "retry=" + Decimal(now)
  }

  /** A retry URL can be taken apart again: the separator says whether the address had a query,
      and the time is read back from the end. */
  lemma RetryUrlParts(dataSrc: string, now: nat)
    ensures var url := RetryUrl(dataSrc, now);
      && |url| == |dataSrc| + 7 + |Decimal(now)|
      && (url[|dataSrc|] == '&' <==> '?' in dataSrc)
      && (url[|dataSrc|] == '?' <==> '?' !in dataSrc)
      && url[|dataSrc| + 1..|dataSrc| + 7] == "retry="
      && ParseDecimal(url[|dataSrc| + 7..]) == now
  {
    var url := RetryUrl(dataSrc, now);
    var sep := if '?' in dataSrc then "&" else "?";
    assert url == dataSrc + (sep + ("retry=" + Decimal(now)));
    assert url[|dataSrc| + 7..] == Decimal(now);
    assert url[|dataSrc| + 1..|dataSrc| + 7] == "retry=";
    DecimalRoundTrip(now);
  }

  /** `(this.loadingImages.get(img) || { retries: 0 }).retries`. */
  function Retries(loading: map<nat, nat>, img: nat): nat {
    if img in loading then loading[img] else 0
  }

  /** `loadImage` records the image with no retries. */
  function AfterLoad(loading: map<nat, nat>, img: nat): map<nat, nat> {
    loading[img := 0]
  }

  /** `retryLoadImage` counts one more retry, unless the limit was reached. */
  function AfterRetry(loading: map<nat, nat>, img: nat): map<nat, nat> {
    if Retries(loading, img) >= RetryCount then loading else loading[img := Retries(loading, img) + 1]
  }

  /** The load timeout forgets the image. */
  function AfterTimeout(loading: map<nat, nat>, img: nat): map<nat, nat> {
    loading - {img}
  }

  /** No count exceeds the limit. */
  predicate Bounded(loading: map<nat, nat>) {
    forall img :: img in loading ==> loading[img] <= RetryCount
  }

  /** Every bookkeeping step keeps the counts within the limit and leaves the other images alone. */
  lemma StepsKeepBounds(loading: map<nat, nat>, img: nat, other: nat)
    requires Bounded(loading)
    ensures Bounded(AfterLoad(loading, img)) && Bounded(AfterRetry(loading, img))
    ensures Bounded(AfterTimeout(loading, img))
    ensures other != img ==>
      && Retries(AfterLoad(loading, img), other) == Retries(loading, other)
      && Retries(AfterRetry(loading, img), other) == Retries(loading, other)
      && Retries(AfterTimeout(loading, img), other) == Retries(loading, other)
  {
  }

  /** After a load, three retries reload the image and a fourth does not. */
  lemma RetryLimit(loading: map<nat, nat>, img: nat)
    ensures var m0 := AfterLoad(loading, img);
      var m1 := AfterRetry(m0, img);
      var m2 := AfterRetry(m1, img);
      var m3 := AfterRetry(m2, img);
      && Retries(m1, img) == 1 && Retries(m2, img) == 2 && Retries(m3, img) == 3
      && AfterRetry(m3, img) == m3
  {
  }

  /** A timeout restarts the count: the next retry is counted as the first. */
  lemma TimeoutRestartsCount(loading: map<nat, nat>, img: nat)
    ensures Retries(AfterTimeout(loading, img), img) == 0
    ensures Retries(AfterRetry(AfterTimeout(loading, img), img), img) == 1
  {
  }

  /** `ImageLoader`: the images of the reader (indexed by position), the `loadingImages` map from an
      image to its retry count, the auto-scroll flags, and whether the auto-scroll button shows as
      active. */
  class ImageLoader {
    var images: seq<Image>
    var loadingImages: map<nat, nat>
    var isScrolling: bool
    var autoScrollEnabled: bool
    var buttonActive: bool

    predicate Valid()
      reads this
    {
      Bounded(loadingImages)
    }

    constructor(images: seq<Image>)
      ensures this.images == images && loadingImages == map[] && !isScrolling && !autoScrollEnabled
      ensures !buttonActive && Valid()
    {
      this.images := images;
      loadingImages := map[];
      isScrolling := false;
      autoScrollEnabled := false;
      buttonActive := false;
    }

    /** `init(container)`: nothing without a container; otherwise sets up the observer and starts
        the preloading scroll. The loading indicators and the button's markup are not modelled. */
    method Init(hasContainer: bool, observerSupported: bool)
      modifies this
      ensures !hasContainer ==>
        images == old(images) && loadingImages == old(loadingImages)
        && isScrolling == old(isScrolling) && autoScrollEnabled == old(autoScrollEnabled)
      ensures hasContainer ==>
        && |images| == |old(images)|
        && (forall i :: 0 <= i < |images| ==>
              images[i] == if observerSupported then Deferred(old(images)[i]) else Started(old(images)[i]))
        && isScrolling && autoScrollEnabled && loadingImages == old(loadingImages)
      ensures buttonActive == old(buttonActive)
    {
      if !hasContainer {
        return;
      }
      SetupImageObserver(observerSupported);
      PreloadImagesWithScroll();
    }

    /** `setupImageObserver`, and its fallback `loadAllImages` when the browser has no
        `IntersectionObserver`. */
    method SetupImageObserver(observerSupported: bool)
      modifies this
      ensures |images| == |old(images)|
      ensures forall i :: 0 <= i < |images| ==>
        images[i] == if observerSupported then Deferred(old(images)[i]) else Started(old(images)[i])
      ensures loadingImages == old(loadingImages)
      ensures isScrolling == old(isScrolling) && autoScrollEnabled == old(autoScrollEnabled)
      ensures buttonActive == old(buttonActive)
    {
      var updated := images;
      var i := 0;
      while i < |updated|
        invariant i <= |updated| == |images|
        invariant forall j :: 0 <= j < |updated| ==>
          updated[j] == if j < i then (if observerSupported then Deferred(images[j]) else Started(images[j]))
                        else images[j]
      {
        var im := updated[i];
        if observerSupported {
          if im.src != "" && im.dataSrc == "" {
            updated := updated[i := Image("", im.src)];
          }
        } else if im.dataSrc != "" {
          updated := updated[i := im.(src := im.dataSrc)];
        }
        i := i + 1;
      }
      images := updated;
    }

    /** `loadImage(img)`: nothing without a `data-src`; otherwise records the image with no retries
        and loads it from `data-src`. */
    method LoadImage(img: nat)
      requires Valid() && img < |images|
      modifies this
      ensures Valid()
      ensures old(images[img].dataSrc) == "" ==> images == old(images) && loadingImages == old(loadingImages)
      ensures old(images[img].dataSrc) != "" ==>
        images == old(images)[img := Started(old(images[img]))] && loadingImages == AfterLoad(old(loadingImages), img)
      ensures isScrolling == old(isScrolling) && autoScrollEnabled == old(autoScrollEnabled)
      ensures buttonActive == old(buttonActive)
    {
      StepsKeepBounds(loadingImages, img, img);
      var im := images[img];
      if im.dataSrc == "" {
        return;
      }
      loadingImages := loadingImages[img := 0];
      images := images[img := im.(src := im.dataSrc)];
    }

    /** `retryLoadImage(img)` at time `now`: nothing without a `data-src` or once the limit is
        reached; otherwise counts the retry and reloads from the retry URL. */
    method RetryLoadImage(img: nat, now: nat)
      requires Valid() && img < |images|
      modifies this
      ensures Valid()
      ensures old(images[img].dataSrc) == "" || Retries(old(loadingImages), img) >= RetryCount ==>
        images == old(images) && loadingImages == old(loadingImages)
      ensures old(images[img].dataSrc) != "" && Retries(old(loadingImages), img) < RetryCount ==>
        && images == old(images)[img := old(images[img]).(src := RetryUrl(old(images[img].dataSrc), now))]
        && loadingImages == AfterRetry(old(loadingImages), img)
      ensures isScrolling == old(isScrolling) && autoScrollEnabled == old(autoScrollEnabled)
      ensures buttonActive == old(buttonActive)
    {
      StepsKeepBounds(loadingImages, img, img);
      var im := images[img];
      if im.dataSrc == "" {
        return;
      }
      var retries := if img in loadingImages then loadingImages[img] else 0;
      if retries >= RetryCount {
        return;
      }
      loadingImages := loadingImages[img := retries + 1];
      var separator := if '?' in im.dataSrc then "&" else "?";
      images := images[img := im.(src := im.dataSrc + separator + "retry=" + Decimal(now))];
    }

    /** The load timeout of an image firing: it forgets the image if it is still recorded. */
    method LoadTimedOut(img: nat)
      requires Valid()
      modifies this
      ensures Valid()
      ensures loadingImages == AfterTimeout(old(loadingImages), img) && images == old(images)
      ensures isScrolling == old(isScrolling) && autoScrollEnabled == old(autoScrollEnabled)
      ensures buttonActive == old(buttonActive)
    {
      StepsKeepBounds(loadingImages, img, img);
      if img in loadingImages {
        loadingImages := loadingImages - {img};
      }
    }

    /** `startAutoScroll`: nothing while already scrolling. */
    method StartAutoScroll()
      modifies this
      ensures isScrolling
      ensures autoScrollEnabled == old(autoScrollEnabled) && buttonActive == old(buttonActive)
      ensures images == old(images) && loadingImages == old(loadingImages)
    {
      if isScrolling {
        return;
      }
      isScrolling := true;
    }

    /** `stopAutoScroll`. */
    method StopAutoScroll()
      modifies this
      ensures !isScrolling && !autoScrollEnabled
      ensures buttonActive == old(buttonActive)
      ensures images == old(images) && loadingImages == old(loadingImages)
    {
      isScrolling := false;
      autoScrollEnabled := false;
    }

    /** `toggleAutoScroll`: always flips `autoScrollEnabled`; starts or stops scrolling, and marks the
        button, only when the button is found. */
    method ToggleAutoScroll(buttonFound: bool)
      modifies this
      ensures !buttonFound ==>
        autoScrollEnabled == !old(autoScrollEnabled) && isScrolling == old(isScrolling)
        && buttonActive == old(buttonActive)
      ensures buttonFound && !old(autoScrollEnabled) ==> autoScrollEnabled && isScrolling && buttonActive
      ensures buttonFound && old(autoScrollEnabled) ==> !autoScrollEnabled && !isScrolling && !buttonActive
      ensures images == old(images) && loadingImages == old(loadingImages)
    {
      autoScrollEnabled := !autoScrollEnabled;
      if buttonFound {
        if autoScrollEnabled {
          buttonActive := true;
          StartAutoScroll();
        } else {
          buttonActive := false;
          StopAutoScroll();
        }
      }
    }

    /** One animation frame of the scroll loop; `atBottom` is the page-end test. Returns whether the
        loop asks for another frame. */
    method ScrollFrame(atBottom: bool, buttonFound: bool) returns (again: bool)
      modifies this
      ensures again <==> old(isScrolling) && old(autoScrollEnabled) && !atBottom
      ensures old(isScrolling) && old(autoScrollEnabled) && atBottom ==>
        !isScrolling && !autoScrollEnabled && buttonActive == (old(buttonActive) && !buttonFound)
      ensures !(old(isScrolling) && old(autoScrollEnabled) && atBottom) ==>
        isScrolling == old(isScrolling) && autoScrollEnabled == old(autoScrollEnabled)
        && buttonActive == old(buttonActive)
      ensures images == old(images) && loadingImages == old(loadingImages)
    {
      if !isScrolling || !autoScrollEnabled {
        return false;
      }
      if atBottom {
        StopAutoScroll();
        if buttonFound {
          buttonActive := false;
        }
        return false;
      }
      again := true;
    }

    /** `preloadImagesWithScroll`, as far as the flags go. */
    method PreloadImagesWithScroll()
      modifies this
      ensures autoScrollEnabled && isScrolling && buttonActive == old(buttonActive)
      ensures images == old(images) && loadingImages == old(loadingImages)
    {
      autoScrollEnabled := true;
      StartAutoScroll();
    }
  }
}
