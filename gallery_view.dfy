/** The gallery section (client/src/components/Gallery.jsx): loading the images and the category filter. */
module GalleryView {
  import opened Wrappers
  import opened GalleryRecord
  import SeqFilter
  import Http
  import Server

  const AllCategories := "all"

  /** How the `GET /api/gallery` request of `fetchImages` ended: thrown, or answered with the body's `data`. */
  datatype GalleryReply = GalleryThrown | GalleryAnswered(data: Option<seq<GalleryImage>>)

  /** What `axios.get` yields for a response: a rejection for a non-2xx status, otherwise the body's `data`. */
  function ReplyOf(resp: Http.Response): (r: GalleryReply)
    ensures r.GalleryThrown? <==> !(200 <= resp.status < 300)
    ensures r.GalleryAnswered? ==> (r.data.Some? <==> resp.body.Images?)
    ensures r.GalleryAnswered? && resp.body.Images? ==> r.data.value == resp.body.images
  {
    if !resp.Ok() then GalleryThrown
    else if resp.body.Images? then GalleryAnswered(Some(resp.body.images))
    else GalleryAnswered(None)
  }

  /** Loading from `GET /api/gallery` hands the component exactly the stored images, in stored order. */
  lemma LoadsStoredImages(stored: seq<GalleryImage>)
    ensures ReplyOf(Server.GetGallery(stored)) == GalleryAnswered(Some(stored))
    ensures ReplyOf(Server.GetGallery(stored)).data.GetOr([]) == stored
  {
  }

  /** `images.filter(img => img.category === category)`. */
  function InCategory(images: seq<GalleryImage>, category: string): (r: seq<GalleryImage>)
    ensures SeqFilter.IsSubsequence(r, images)
    ensures forall x :: x in r <==> x in images && x.category == category
    ensures forall x :: multiset(r)[x] == if x.category == category then multiset(images)[x] else 0
  {
    var keep := (x: GalleryImage) => x.category == category;
    SeqFilter.FilterIsSubsequence(images, keep);
    var r := SeqFilter.Filter(images, keep);
    assert forall x :: (x in r <==> x in images && keep(x)) && multiset(r)[x] == if keep(x) then multiset(images)[x] else 0 by {
      forall x ensures (x in r <==> x in images && keep(x)) && multiset(r)[x] == if keep(x) then multiset(images)[x] else 0 {
        SeqFilter.FilterCounts(images, keep, x);
        SeqFilter.FilterMembership(images, keep, x);
      }
    }
    r
  }

  class Gallery {
    var images: seq<GalleryImage>
    var filteredImages: seq<GalleryImage>
    var loading: bool
    var activeFilter: string

    constructor ()
      ensures images == [] && filteredImages == [] && loading && activeFilter == AllCategories
    {
      images, filteredImages, loading, activeFilter := [], [], true, AllCategories;
    }

    /** `fetchImages`: an answer sets both lists to its `data` (or `[]`); either way loading ends. */
    method FetchImages(reply: GalleryReply)
      modifies this`images, this`filteredImages, this`loading
      ensures !loading
      ensures reply.GalleryAnswered? ==> images == reply.data.GetOr([]) && filteredImages == images
      ensures reply.GalleryThrown? ==> images == old(images) && filteredImages == old(filteredImages)
    {
      match reply {
        case GalleryThrown =>
        case GalleryAnswered(data) =>
          var fetched := data.GetOr([]);
          images := fetched;
          filteredImages := fetched;
      }
      loading := false;
    }

    /** `filterGallery`: records the chosen category and shows all images or only that category's, never changing `images`. */
    method FilterGallery(category: string)
      modifies this`filteredImages, this`activeFilter
      ensures activeFilter == category && images == old(images)
      ensures category == AllCategories ==> filteredImages == images
      ensures category != AllCategories ==> filteredImages == InCategory(images, category)
    {
      activeFilter := category;
      if category == AllCategories {
        filteredImages := images;
      } else {
        filteredImages := InCategory(images, category);
      }
    }
  }
}
