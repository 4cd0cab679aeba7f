/** The gallery service: uploaded images kept as a map keyed by id. */
module GalleryServices {
  import opened Base
  import opened Text
  import opened Galleries

  const ImageNotFound: string := "Image not found"
  const UploaderNotFound: string := "User not found"

  /** The text of the error `getImageById` raises for an unknown id. */
  function ImageNotFoundWithId(id: Id): (r: string)
    ensures |r| > 25 && r[..25] == "Image not found with id: " && DenotesInt(r[25..], id)
  {
    var prefix := "Image not found with id: ";
    var r := prefix + IntToDecimal(id);
    assert r[25..] == IntToDecimal(id);
    r
  }

  /** The fields `updateImage` copies from the submitted image. */
  datatype ImageEdit = ImageEdit(
    title: string,
    description: string,
    altText: string,
    category: string,
    tags: Option<string>,
    isFeatured: bool,
    isPublished: bool,
    displayOrder: Option<int>)

  class GalleryService {
    var images: map<Id, Gallery>
    /** The user repository as this service sees it: email to user id. */
    var userIdsByEmail: map<string, Id>
    /** The identity counter of the gallery table. */
    var nextImageId: Id

    /** Every image is stored under its own id, below the next id; so
        distinct keys hold distinct objects. */
    ghost predicate Valid()
      reads this, images.Values
    {
      forall id :: id in images ==> images[id].id == id && id < nextImageId
    }

    constructor (userIdsByEmail: map<string, Id>)
      ensures Valid() && images == map[] && this.userIdsByEmail == userIdsByEmail
    {
      images := map[];
      this.userIdsByEmail := userIdsByEmail;
      nextImageId := 1;
    }

    /** The stored image with this id, as a frame. */
    function ImageAt(id: Id): set<Gallery>
      reads this
    {
      if id in images then {images[id]} else {}
    }

    /** `getImageById`: the image, with one more view counted and saved. */
    method GetImageById(id: Id) returns (r: Result<Gallery>)
      requires Valid()
      modifies ImageAt(id)`viewCount
      ensures Valid()
      ensures r.Failure? <==> id !in images
      ensures r.Failure? ==> r == Failure(NotFound(ImageNotFoundWithId(id)))
      ensures r.Success? ==>
                r.value == images[id] &&
                OrZero(r.value.viewCount) == OrZero(old(images[id].viewCount)) + 1
    {
      if id !in images {
        return Failure(NotFound(ImageNotFoundWithId(id)));
      }
      var image := images[id];
      image.IncrementViewCount();
      r := Success(image);
    }

    /** `uploadImage`: the submitted image, which is not stored yet, gets its
        uploader and an id and is stored under that id; its other fields are
        saved as submitted. */
    method UploadImage(image: Gallery, email: string) returns (r: Result<Gallery>)
      requires Valid() && image !in images.Values
      modifies this`images, this`nextImageId, image`uploadedBy, image`id
      ensures Valid()
      ensures email !in userIdsByEmail <==> r.Failure?
      ensures r.Failure? ==>
                r == Failure(NotFound(UploaderNotFound)) && images == old(images) &&
                image.uploadedBy == old(image.uploadedBy)
      ensures r.Success? ==>
                r.value == image && image.id !in old(images) &&
                images == old(images)[image.id := image] &&
                image.uploadedBy == Some(userIdsByEmail[email])
    {
      if email !in userIdsByEmail {
        return Failure(NotFound(UploaderNotFound));
      }
      image.uploadedBy := Some(userIdsByEmail[email]);
      image.id := nextImageId;
      images := images[nextImageId := image];
      nextImageId := nextImageId + 1;
      r := Success(image);
    }

    /** `updateImage`: copies exactly title, description, alt text,
        category, tags, the featured and published flags and the display
        order. The frame leaves the URL, the uploader, the size, the
        dimensions and the counters as they were. */
    method UpdateImage(id: Id, edit: ImageEdit) returns (r: Result<Gallery>)
      requires Valid()
      modifies ImageAt(id)`title, ImageAt(id)`description, ImageAt(id)`altText, ImageAt(id)`category,
               ImageAt(id)`tags, ImageAt(id)`isFeatured, ImageAt(id)`isPublished, ImageAt(id)`displayOrder
      ensures Valid()
      ensures r.Failure? <==> id !in images
      ensures r.Failure? ==> r == Failure(NotFound(ImageNotFound))
      ensures r.Success? ==>
                var g := images[id];
                r.value == g && g.title == edit.title && g.description == edit.description &&
                g.altText == edit.altText && g.category == edit.category && g.tags == edit.tags &&
                g.isFeatured == edit.isFeatured && g.isPublished == edit.isPublished &&
                g.displayOrder == edit.displayOrder
    {
      if id !in images {
        return Failure(NotFound(ImageNotFound));
      }
      var image := images[id];
      image.title := edit.title;
      image.description := edit.description;
      image.altText := edit.altText;
      image.category := edit.category;
      image.tags := edit.tags;
      image.isFeatured := edit.isFeatured;
      image.isPublished := edit.isPublished;
      image.displayOrder := edit.displayOrder;
      r := Success(image);
    }

    /** `deleteImage`: only the addressed image goes. */
    method DeleteImage(id: Id) returns (r: Result<()>)
      requires Valid()
      modifies this`images
      ensures Valid()
      ensures r.Failure? <==> id !in old(images)
      ensures r.Failure? ==> r == Failure(NotFound(ImageNotFound)) && images == old(images)
      ensures r.Success? ==> images == old(images) - {id}
    {
      if id !in images {
        return Failure(NotFound(ImageNotFound));
      }
      images := images - {id};
      r := Success(());
    }

    /** `togglePublish`: flips the published flag of the addressed image. */
    method TogglePublish(id: Id) returns (r: Result<Gallery>)
      requires Valid()
      modifies ImageAt(id)`isPublished
      ensures Valid()
      ensures r.Failure? <==> id !in images
      ensures r.Failure? ==> r == Failure(NotFound(ImageNotFound))
      ensures r.Success? ==> r.value == images[id] && images[id].isPublished == !old(images[id].isPublished)
    {
      if id !in images {
        return Failure(NotFound(ImageNotFound));
      }
      var image := images[id];
      image.isPublished := !image.isPublished;
      r := Success(image);
    }

    /** `getAllPublishedImages`, as a set of ids (the order is the
        database's). */
    function PublishedImages(): (r: set<Id>)
      reads this, images.Values
      ensures forall id :: id in r <==> id in images && images[id].isPublished
    {
      set id | id in images && images[id].isPublished
    }

    /** `getImagesByCategory`: the published images of one category. */
    function ImagesByCategory(category: string): (r: set<Id>)
      reads this, images.Values
      ensures r <= PublishedImages()
      ensures forall id :: id in r <==> id in PublishedImages() && images[id].category == category
    {
      set id | id in images && images[id].isPublished && images[id].category == category
    }

    /** `getFeaturedImages`: the published images that are featured. */
    function FeaturedImages(): (r: set<Id>)
      reads this, images.Values
      ensures r <= PublishedImages()
      ensures forall id :: id in r <==> id in PublishedImages() && images[id].isFeatured
    {
      set id | id in images && images[id].isFeatured && images[id].isPublished
    }

    /** `countTotalImages`: the published images only. */
    function CountTotalImages(): (r: nat)
      reads this, images.Values
      ensures r == |PublishedImages()|
      ensures images == map[] ==> r == 0
    {
      |set id | id in images && images[id].isPublished|
    }

    /** Toggling twice gives the image back its published flag. */
    method TogglePublishTwice(id: Id) returns (r: Result<Gallery>)
      requires Valid()
      modifies ImageAt(id)`isPublished
      ensures Valid()
      ensures r.Failure? <==> id !in images
      ensures r.Success? ==> images[id].isPublished == old(images[id].isPublished)
    {
      r := TogglePublish(id);
      if r.Success? {
        r := TogglePublish(id);
      }
    }
  }
}
