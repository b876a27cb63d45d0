/**
 * The blog posts of the content collection as the list pages see them, the
 * `tags`/`keywords` membership test they share, and their newest-first order
 * (`new Date(b.date).getTime() - new Date(a.date).getTime()`).
 */
module Blogs {
  import opened Strings
  import opened Lists

  /**
   * A `tags` or `keywords` front-matter field: absent, a list of names, or a
   * plain text value (which `includes` searches as a substring).
   */
  datatype TagField = Missing | Items(items: seq<string>) | Text(text: string)

  /** A post; `time` is its date as milliseconds since the epoch. */
  datatype Blog = Blog(slug: string, title: string, time: int, featured: bool, tags: TagField, keywords: TagField)

  /** `field && field.includes(tag)`: a list holds the name, a non-empty text contains it. */
  predicate FieldIncludes(f: TagField, tag: string) {
    match f
    case Missing => false
    case Items(xs) => tag in xs
    case Text(s) => s != "" && Contains(s, tag)
  }

  /** The post carries the tag in its tags or its keywords. */
  predicate HasTag(b: Blog, tag: string) {
    FieldIncludes(b.tags, tag) || FieldIncludes(b.keywords, tag)
  }

  function TagTest(tag: string): Blog -> bool {
    (b: Blog) => HasTag(b, tag)
  }

  function ByDate(): Blog -> int {
    (b: Blog) => b.time
  }

  /** The date sort, newest first, ties in their original order. */
  function SortByDate(bs: seq<Blog>): (r: seq<Blog>)
    ensures SortedDesc(r, ByDate())
    ensures multiset(r) == multiset(bs)
  {
    SortDesc(bs, ByDate())
  }

  /** Both `sort` calls reorder the one shared collection in place; the second finds it sorted and keeps it. */
  lemma SortByDateTwice(bs: seq<Blog>)
    ensures SortByDate(SortByDate(bs)) == SortByDate(bs)
  {
    SortSorted(SortByDate(bs), ByDate());
  }

  /** Tag tests by name: a list entry matches exactly, a text value by substring. */
  lemma TagListMatchesExactly(b: Blog, tag: string)
    requires b.tags.Items? && b.keywords.Items?
    ensures HasTag(b, tag) <==> tag in b.tags.items || tag in b.keywords.items
  {
  }

  /** A text-valued `tags` field matches any part of itself. */
  lemma TextFieldMatchesPart(b: Blog, pre: string, tag: string, post: string)
    requires b.tags == Text(pre + tag + post) && tag != ""
    ensures HasTag(b, tag)
  {
    ContainsInConcat(pre, tag, post);
  }
}
