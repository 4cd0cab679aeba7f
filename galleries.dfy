/** A gallery image: its counters, its comma-separated tags, its orientation
    and its reduced aspect ratio. */
module Galleries {
  import opened Base
  import opened Text
  import opened Numbers

  /** The decimal text of a ratio's two parts, `x + ":" + y`. */
  function RatioText(x: int, y: int): (r: string)
    ensures r == IntToDecimal(x) + ":" + IntToDecimal(y)
    ensures DenotesInt(r[..|IntToDecimal(x)|], x) && r[|IntToDecimal(x)|] == ':'
    ensures DenotesInt(r[|IntToDecimal(x)| + 1..], y)
  {
    var r := IntToDecimal(x) + ":" + IntToDecimal(y);
    assert r[..|IntToDecimal(x)|] == IntToDecimal(x);
    assert r[|IntToDecimal(x)| + 1..] == IntToDecimal(y);
    r
  }

  class Gallery {
    var id: Id
    var title: string
    var description: string
    var imageUrl: string
    var altText: string
    /** Foreign key to the uploading user. */
    var uploadedBy: Option<Id>
    var fileSize: Option<int>
    var fileType: string
    var width: Option<int>
    var height: Option<int>
    var category: string
    var tags: Option<string>
    var eventDate: Option<Time>
    var isFeatured: bool
    var displayOrder: Option<int>
    var isPublished: bool
    var viewCount: Option<int>
    var likeCount: Option<int>

    /** The builder defaults: not featured, first in display order,
        published, no views or likes, no uploader yet. */
    constructor (title: string, imageUrl: string)
      ensures this.title == title && this.imageUrl == imageUrl && uploadedBy.None?
      ensures !isFeatured && displayOrder == Some(0) && isPublished
      ensures viewCount == Some(0) && likeCount == Some(0)
    {
      id := 0;
      this.title := title;
      description := "";
      this.imageUrl := imageUrl;
      altText := "";
      uploadedBy := None;
      fileSize := None;
      fileType := "";
      width := None;
      height := None;
      category := "";
      tags := None;
      eventDate := None;
      isFeatured := false;
      displayOrder := Some(0);
      isPublished := true;
      viewCount := Some(0);
      likeCount := Some(0);
    }

    /** Adds one view; a null count counts as zero. */
    method IncrementViewCount()
      modifies this`viewCount
      ensures viewCount.Some? && OrZero(viewCount) == OrZero(old(viewCount)) + 1
    {
      viewCount := Incremented(viewCount);
    }

    /** Adds one like; a null count counts as zero. */
    method IncrementLikeCount()
      modifies this`likeCount
      ensures likeCount.Some? && OrZero(likeCount) == OrZero(old(likeCount)) + 1
    {
      likeCount := Incremented(likeCount);
    }

    /** Removes one like while the count is positive; otherwise nothing
        changes. */
    method DecrementLikeCount()
      modifies this`likeCount
      ensures OrZero(old(likeCount)) > 0 ==> likeCount == Some(OrZero(old(likeCount)) - 1)
      ensures OrZero(old(likeCount)) <= 0 ==> likeCount == old(likeCount)
      ensures OrZero(old(likeCount)) >= 0 ==> OrZero(likeCount) >= 0
    {
      likeCount := Decremented(likeCount);
    }

    /** `getTagsArray`: no tags for a null or empty column, else the column
        split on ','. */
    function TagsArray(): (r: seq<string>)
      reads this
      ensures tags.None? || tags == Some("") ==> r == []
      ensures tags.Some? && tags.value != "" && ',' !in tags.value ==> r == [tags.value]
    {
      TagList(tags)
    }

    /** `setTagsFromArray`: the tags joined with ','. Reading them back gives
        the same tags when none holds a ',' and the last is not empty. */
    method SetTagsFromArray(tagsArray: seq<string>)
      modifies this`tags
      ensures tags == TagColumn(tagsArray)
      ensures ((forall k :: 0 <= k < |tagsArray| ==> ',' !in tagsArray[k]) &&
               (tagsArray == [] || tagsArray[|tagsArray| - 1] != "")) ==>
                TagsArray() == tagsArray
    {
      tags := TagColumn(tagsArray);
      if (forall k :: 0 <= k < |tagsArray| ==> ',' !in tagsArray[k]) &&
         (tagsArray == [] || tagsArray[|tagsArray| - 1] != "") {
        TagsRoundTrip(tagsArray);
      }
    }

    /** Wider than high; false when a side is unknown. */
    predicate IsLandscape()
      reads this
    {
      if width.None? || height.None? then false else width.value > height.value
    }

    /** Higher than wide; false when a side is unknown. */
    predicate IsPortrait()
      reads this
    {
      if width.None? || height.None? then false else height.value > width.value
    }

    /** `getAspectRatio`: "Unknown" when a side is null; the division by the
        gcd throws when both sides are 0; otherwise the sides divided by
        their gcd, as "x:y". */
    function AspectRatio(): (r: Result<string>)
      reads this
      ensures width.None? || height.None? ==> r == Success("Unknown")
      ensures r.Failure? <==> width == Some(0) && height == Some(0)
      ensures r.Failure? ==> r.error.RuntimeFault?
    {
      if width.None? || height.None? then Success("Unknown")
      else
        var w := width.value;
        var h := height.value;
        GcdZeroIff(w, h);
        if Gcd(w, h) == 0 then Failure(RuntimeFault("/ by zero"))
        else
          var (x, y) := ReducedRatio(w, h);
          Success(RatioText(x, y))
    }

    /** For positive sides the aspect ratio is "x:y" with x and y positive,
        in the proportion of the sides, and without a common factor. */
    lemma AspectRatioReduced()
      requires width.Some? && height.Some? && width.value > 0 && height.value > 0
      ensures Gcd(width.value, height.value) > 0
      ensures var (x, y) := ReducedRatio(width.value, height.value);
              AspectRatio() == Success(RatioText(x, y)) &&
              x > 0 && y > 0 && x * height.value == y * width.value && Gcd(x, y) == 1
    {
      ReducedRatioCoprime(width.value, height.value);
    }

    /** An image is never both landscape and portrait, and a square image or
        one with an unknown side is neither. */
    lemma OrientationExclusive()
      ensures !(IsLandscape() && IsPortrait())
      ensures width.None? || height.None? || width == height ==> !IsLandscape() && !IsPortrait()
    {
    }
  }
}
