/**
 * The featured-post list of the home page: the list it was given, narrowed to
 * the selected tag when one is set. The filter is recomputed from the given
 * list each time the tag or the list changes.
 */
module FeaturedBlogsList {
  import opened Wrappers
  import opened Strings
  import opened Lists
  import opened Blogs
  import opened BlogPage
  import opened HomePage

  /** The list the effect stores: the initial posts, or those carrying the selected tag. */
  function Shown(initial: seq<Blog>, selected: OptString): seq<Blog> {
    if Truthy(selected) then Filter(initial, TagTest(selected.value)) else initial
  }

  /**
   * With no tag the initial list is shown as is; with a tag the shown posts are
   * exactly the initial posts carrying it, in their order.
   */
  lemma ShownSpec(initial: seq<Blog>, selected: OptString)
    ensures !Truthy(selected) ==> Shown(initial, selected) == initial
    ensures IsSubsequence(Shown(initial, selected), initial)
    ensures Truthy(selected) ==>
              forall b :: b in Shown(initial, selected) <==> b in initial && HasTag(b, selected.value)
  {
    if Truthy(selected) {
      FilterMembers(initial, TagTest(selected.value));
    } else {
      SubsequenceRefl(initial);
    }
  }

  /** A newest-first initial list stays newest first. */
  lemma ShownSorted(initial: seq<Blog>, selected: OptString)
    requires SortedDesc(initial, ByDate())
    ensures SortedDesc(Shown(initial, selected), ByDate())
  {
    if Truthy(selected) {
      FilterSorted(initial, TagTest(selected.value), ByDate());
    }
  }

  /** Filtering the shown list again by the same tag changes nothing. */
  lemma ShownIdempotent(initial: seq<Blog>, selected: OptString)
    ensures Shown(Shown(initial, selected), selected) == Shown(initial, selected)
  {
    if Truthy(selected) {
      var p := TagTest(selected.value);
      FilterKept(initial, p);
      FilterAll(Filter(initial, p), p);
    }
  }

  /** On the home page, where no tag is ever selected, the list shows every featured post newest first. */
  lemma HomeShowsFeatured(all: seq<Blog>)
    ensures Shown(FeaturedBlogs(all), HomeSelectedTag) == FeaturedBlogs(all)
    ensures SortedDesc(Shown(FeaturedBlogs(all), HomeSelectedTag), ByDate())
  {
    FeaturedBlogsSpec(all);
  }

  /** Over the date-sorted posts the list agrees with the blog page's filter. */
  lemma ShownAgreesWithBlogPage(all: seq<Blog>, selected: OptString)
    ensures Shown(SortByDate(all), selected) == FilteredBlogs(all, selected)
  {
  }
}
