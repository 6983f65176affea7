/**
 * The product detail page: the image carousel's position (`pdState.idx` out of
 * `pdState.count` slides), its arrow buttons, the thumbnails and main image,
 * and what the page shows for a missing id, a product that is not found, and a
 * found product.
 *
 * The viewport test `isMobile()` is a field the resize listener updates; the
 * index the scroll listener computes from the scroll offset is an argument.
 */
module ProductDetail {
  import opened Wrappers
  import opened Text

  const Placeholder := "https://via.placeholder.com/800x1000?text=No+Image"
  const DefaultName := "Product"
  const NotFoundName := "Product not found"

  /** `Math.max(0, Math.min(count - 1, index))`. */
  function Clamp(index: int, count: int): (r: int)
    ensures count >= 1 ==> 0 <= r < count
    ensures count >= 1 && 0 <= index < count ==> r == index
    ensures index < 0 || count <= 1 ==> r == 0
    ensures count >= 1 && index >= count ==> r == count - 1
  {
    var upper := if count - 1 < index then count - 1 else index;
    if upper < 0 then 0 else upper
  }

  /** `|x|`. */
  function Abs(x: int): nat {
    if x < 0 then -x else x
  }

  /** A clamped position is the slide nearest to the index asked for. */
  lemma ClampNearest(index: int, count: int, k: int)
    requires 0 <= k < count
    ensures Abs(Clamp(index, count) - index) <= Abs(k - index)
  {
  }

  /** One step forward and one step back return to the same slide, except from the last one. */
  lemma NextThenPrev(idx: int, count: int)
    requires 0 <= idx < count - 1
    ensures Clamp(Clamp(idx + 1, count) - 1, count) == idx
  {
  }

  /** The state of the two arrow buttons. */
  datatype Arrows = Arrows(shown: bool, prevDisabled: bool, nextDisabled: bool)

  /**
   * `updateArrows`: shown only on a narrow screen with more than one slide; each
   * disabled at its end. On a position that is a slide, prev is disabled exactly
   * on the first slide and next exactly on the last, so both are disabled only
   * when there is one slide, and shown arrows always leave one usable.
   */
  function ArrowsFor(mobile: bool, idx: int, count: int): (a: Arrows)
    ensures a.shown <==> mobile && count > 1
    ensures a.prevDisabled <==> idx <= 0
    ensures a.nextDisabled <==> idx >= count - 1
    ensures 0 <= idx < count ==> (a.prevDisabled <==> idx == 0) && (a.nextDisabled <==> idx == count - 1)
    ensures 0 <= idx < count ==> (a.prevDisabled && a.nextDisabled <==> count == 1)
    ensures a.shown && 0 <= idx < count ==> !(a.prevDisabled && a.nextDisabled)
  {
    Arrows(mobile && count > 1, idx <= 0, idx >= count - 1)
  }

  /**
   * A step forward from a slide that is not the last enables prev, and a step
   * back from a slide that is not the first enables next.
   */
  lemma ArrowsAfterStep(mobile: bool, idx: int, count: int)
    requires 0 <= idx < count
    ensures idx < count - 1 ==> !ArrowsFor(mobile, Clamp(idx + 1, count), count).prevDisabled
    ensures idx > 0 ==> !ArrowsFor(mobile, Clamp(idx - 1, count), count).nextDisabled
  {
  }

  /** The `products` row the page reads. */
  datatype DetailRow = DetailRow(name: string, imageUrls: string, price: Option<int>)

  /** The outcome of the `maybeSingle` lookup: an error, no row, or the row. */
  datatype Lookup = LookupFailed | NoRow | Found(row: DetailRow)

  class DetailPage {
    /** `pdState.idx`. */
    var idx: int
    /** `pdState.count`. */
    var count: int
    /** The carousel's slides, one image URL each. */
    var slides: seq<string>
    var arrows: Arrows
    var mobile: bool
    var name: string
    /** The price text: `None` for an empty text, else the amount in cents it formats. */
    var price: Option<int>
    var thumbs: seq<string>
    /** The thumbnail marked `selected`, if any. */
    var selected: Option<nat>
    var mainImage: string

    /** The carousel's slide count is the number of slides, the position is on a slide when there is one, and the arrows match. */
    ghost predicate Valid()
      reads this
    {
      && count == |slides|
      && (count == 0 ==> idx == 0)
      && (count > 0 ==> 0 <= idx < count)
      && arrows == ArrowsFor(mobile, idx, count)
    }

    /** The page before any product is loaded: `pdState = { idx: 0, count: 0 }`. */
    constructor (isMobile: bool)
      ensures Valid()
      ensures idx == 0 && count == 0 && slides == [] && mobile == isMobile
      ensures name == "" && price == None && thumbs == [] && selected == None && mainImage == ""
    {
      idx, count, slides := 0, 0, [];
      selected := None;
      mobile := isMobile;
      arrows := ArrowsFor(isMobile, 0, 0);
      name, price, thumbs, mainImage := "", None, [], "";
    }

    /** The resize listener: the viewport test is taken again and the arrows follow. */
    method Resize(isMobile: bool)
      requires Valid()
      modifies this`mobile, this`arrows
      ensures Valid()
      ensures mobile == isMobile && arrows == ArrowsFor(isMobile, idx, count)
    {
      mobile := isMobile;
      arrows := ArrowsFor(mobile, idx, count);
    }

    /** `buildCarousel(urls)`: one slide per URL, or the placeholder alone; back to the first slide. */
    method BuildCarousel(urls: seq<string>)
      requires Valid()
      modifies this`slides, this`idx, this`count, this`arrows
      ensures Valid()
      ensures slides == (if urls == [] then [Placeholder] else urls)
      ensures idx == 0 && count >= 1
    {
      slides := if |urls| > 0 then urls else [Placeholder];
      idx := 0;
      count := |slides|;
      arrows := ArrowsFor(mobile, idx, count);
    }

    /** `goToSlide(index)`: the clamped slide becomes current, if it exists. */
    method GoToSlide(index: int)
      requires Valid()
      modifies this`idx, this`arrows
      ensures Valid()
      ensures count >= 1 ==> idx == Clamp(index, count)
      ensures count == 0 ==> idx == old(idx) && arrows == old(arrows)
    {
      var i := Clamp(index, count);
      if 0 <= i < |slides| {
        idx := i;
        arrows := ArrowsFor(mobile, idx, count);
      }
    }

    /** The prev arrow: one slide back, staying on the first. */
    method Prev()
      requires Valid()
      modifies this`idx, this`arrows
      ensures Valid()
      ensures count >= 1 ==> idx == if old(idx) > 0 then old(idx) - 1 else 0
    {
      GoToSlide(idx - 1);
    }

    /** The next arrow: one slide forward, staying on the last. */
    method Next()
      requires Valid()
      modifies this`idx, this`arrows
      ensures Valid()
      ensures count >= 1 ==> idx == if old(idx) < count - 1 then old(idx) + 1 else count - 1
    {
      GoToSlide(idx + 1);
    }

    /** The scroll listener, given the index the scroll offset rounds to. */
    method OnScroll(i: int)
      requires Valid()
      modifies this`idx, this`arrows
      ensures Valid()
      ensures i != old(idx) ==> idx == Clamp(i, count)
      ensures i == old(idx) ==> idx == old(idx) && arrows == old(arrows)
    {
      if i != idx {
        idx := Clamp(i, count);
        arrows := ArrowsFor(mobile, idx, count);
      }
    }

    /** A thumbnail click: it alone is selected and becomes the main image, and on a narrow screen the carousel moves to it. */
    method ThumbClicked(k: nat)
      requires Valid() && k < |thumbs|
      modifies this`selected, this`mainImage, this`idx, this`arrows
      ensures Valid()
      ensures selected == Some(k) && mainImage == thumbs[k]
      ensures mobile && count >= 1 ==> idx == Clamp(k, count)
      ensures !mobile ==> idx == old(idx)
    {
      selected := Some(k);
      mainImage := thumbs[k];
      if mobile {
        GoToSlide(k);
      }
    }

    /**
     * `loadProductDetailFromHash`, given the id the hash carries ("" for none) and
     * the lookup's outcome: a missing id and a failed or empty lookup clear the
     * page under their own titles; a found product shows its name (or "Product"),
     * its price (0 when it has none) and its images, or the placeholder.
     */
    method Load(id: string, lookup: Lookup)
      requires Valid()
      modifies this`name, this`price, this`thumbs, this`selected, this`mainImage, this`slides, this`idx, this`count, this`arrows
      ensures Valid()
      ensures id == [] ==> name == DefaultName && price == None && thumbs == [] && slides == [Placeholder]
      ensures id != [] && !lookup.Found? ==> name == NotFoundName && price == None && thumbs == [] && slides == [Placeholder]
      ensures id != [] && lookup.Found? ==>
        var urls := ParseCsv(lookup.row.imageUrls);
        && name == (if lookup.row.name != [] then lookup.row.name else DefaultName)
        && price == Some(if lookup.row.price.Some? then lookup.row.price.value else 0)
        && slides == (if urls == [] then [Placeholder] else urls)
        && thumbs == slides
      ensures idx == 0 && count == |slides| >= 1
      ensures selected == (if thumbs == [] then None else Some(0))
      ensures mainImage == slides[0]
    {
      if id == [] {
        name, price, thumbs, selected, mainImage := DefaultName, None, [], None, Placeholder;
        BuildCarousel([]);
        return;
      }
      if !lookup.Found? {
        name, price, thumbs, selected, mainImage := NotFoundName, None, [], None, Placeholder;
        BuildCarousel([]);
        return;
      }
      var row := lookup.row;
      var urls := ParseCsv(row.imageUrls);
      name := if row.name != [] then row.name else DefaultName;
      price := Some(if row.price.Some? then row.price.value else 0);
      thumbs := if |urls| > 0 then urls else [Placeholder];
      selected := Some(0);
      mainImage := if |urls| > 0 then urls[0] else Placeholder;
      BuildCarousel(urls);
    }
  }
}
