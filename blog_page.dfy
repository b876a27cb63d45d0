/**
 * The blog list page: every post newest first, narrowed to one tag when a tag
 * is selected; clicking a tag toggles the selection and mirrors it in the
 * page URL's `tag` parameter.
 */
module BlogPage {
  import opened Wrappers
  import opened Strings
  import opened Lists
  import opened Blogs

  /** `filteredBlogs`: the date-sorted posts, restricted to the selected tag when one is set. */
  function FilteredBlogs(all: seq<Blog>, selected: OptString): seq<Blog> {
    var sorted := SortByDate(all);
    if Truthy(selected) then Filter(sorted, TagTest(selected.value)) else sorted
  }

  /**
   * The list is newest first; with no tag it holds every post, and with a tag
   * exactly the posts carrying it, in the sorted order.
   */
  lemma FilteredBlogsSpec(all: seq<Blog>, selected: OptString)
    ensures SortedDesc(FilteredBlogs(all, selected), ByDate())
    ensures IsSubsequence(FilteredBlogs(all, selected), SortByDate(all))
    ensures !Truthy(selected) ==> multiset(FilteredBlogs(all, selected)) == multiset(all)
    ensures Truthy(selected) ==>
              forall b :: b in FilteredBlogs(all, selected) <==> b in all && HasTag(b, selected.value)
  {
    var sorted := SortByDate(all);
    if Truthy(selected) {
      var p := TagTest(selected.value);
      FilterSorted(sorted, p, ByDate());
      FilterMembers(sorted, p);
      forall b ensures b in sorted <==> b in all {
        assert b in sorted <==> b in multiset(sorted);
      }
    } else {
      SubsequenceRefl(sorted);
    }
  }

  /** The selection after a click: the selected tag is cleared, any other tag becomes selected. */
  function Toggle(selected: OptString, tag: string): (r: OptString)
    ensures r.None? <==> selected == Some(tag)
    ensures r.Some? ==> r.value == tag
  {
    if selected == Some(tag) then None else Some(tag)
  }

  /** Two clicks on a tag restore no selection or that tag's selection, and clear any other. */
  lemma ToggleTwice(selected: OptString, tag: string)
    ensures Toggle(Toggle(selected, tag), tag) == if selected.None? || selected == Some(tag) then selected else None
  {
  }

  /** The URL parameter holding the selected tag. */
  const TagParam: string := "tag"

  /** The search parameters once the selection is written back: set when truthy, deleted otherwise. */
  function WithSelection(params: map<string, string>, selected: OptString): (r: map<string, string>)
    ensures forall k | k != TagParam :: (k in r <==> k in params) && (k in r ==> r[k] == params[k])
    ensures TagParam in r <==> Truthy(selected)
  {
    if Truthy(selected) then params[TagParam := selected.value] else params - {TagParam}
  }

  /** The selection the load effect reads from the URL: a non-empty `tag`, else the current one. */
  function SelectionFrom(params: map<string, string>, current: OptString): OptString {
    if TagParam in params && params[TagParam] != "" then Some(params[TagParam]) else current
  }

  /** Reloading the page after a click selects the same tag, or none when the selection was cleared. */
  lemma UrlRoundTrip(params: map<string, string>, selected: OptString)
    ensures SelectionFrom(WithSelection(params, selected), None) == if Truthy(selected) then selected else None
  {
  }

  /** The page's state: the selected tag and the search parameters of its URL. */
  class BlogPageState {
    var selectedTag: OptString
    var params: map<string, string>

    constructor (params0: map<string, string>)
      ensures selectedTag == None && params == params0
    {
      selectedTag := None;
      params := params0;
    }

    /** The effect on the search parameters: a non-empty `tag` becomes the selection. */
    method ReadTagParam()
      modifies this`selectedTag
      ensures selectedTag == SelectionFrom(params, old(selectedTag))
    {
      if TagParam in params {
        var fromUrl := params[TagParam];
        if fromUrl != "" {
          selectedTag := Some(fromUrl);
        }
      }
    }

    /** `handleTagClick`: toggle the selection, then set or delete the URL's `tag`. */
    method HandleTagClick(tag: string)
      modifies this
      ensures selectedTag == Toggle(old(selectedTag), tag)
      ensures params == WithSelection(old(params), selectedTag)
    {
      var newSelected := if selectedTag == Some(tag) then None else Some(tag);
      selectedTag := newSelected;
      if newSelected.Some? && newSelected.value != "" {
        params := params[TagParam := newSelected.value];
      } else {
        params := params - {TagParam};
      }
    }

    /** The posts the page lists. */
    function Shown(all: seq<Blog>): seq<Blog>
      reads this
    {
      FilteredBlogs(all, selectedTag)
    }
  }
}
