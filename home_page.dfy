/**
 * The home page: the featured posts newest first, up to four recent posts that
 * are not featured, the social links that are configured, and the `sameAs`
 * list of the page's structured data.
 */
module HomePage {
  import opened Wrappers
  import opened Strings
  import opened Lists
  import opened Blogs
  import opened BlogPage

  function IsFeatured(): Blog -> bool {
    (b: Blog) => b.featured
  }

  /** `featuredBlogs`: the posts with `featured === true`, newest first. */
  function FeaturedBlogs(all: seq<Blog>): seq<Blog> {
    SortByDate(Filter(all, IsFeatured()))
  }

  /** The featured list holds exactly the featured posts, newest first. */
  lemma FeaturedBlogsSpec(all: seq<Blog>)
    ensures SortedDesc(FeaturedBlogs(all), ByDate())
    ensures multiset(FeaturedBlogs(all)) == multiset(Filter(all, IsFeatured()))
    ensures forall b :: b in FeaturedBlogs(all) <==> b in all && b.featured
  {
    var f := Filter(all, IsFeatured());
    FilterMembers(all, IsFeatured());
    forall b ensures b in FeaturedBlogs(all) <==> b in f {
      assert b in FeaturedBlogs(all) <==> b in multiset(FeaturedBlogs(all));
      assert b in f <==> b in multiset(f);
    }
  }

  /** `blogs.map(blog => blog.slug)`. */
  function Slugs(bs: seq<Blog>): (r: seq<string>)
    ensures |r| == |bs|
    ensures forall k | 0 <= k < |bs| :: r[k] == bs[k].slug
  {
    if bs == [] then [] else [bs[0].slug] + Slugs(bs[1..])
  }

  function SlugNotIn(slugs: seq<string>): Blog -> bool {
    (b: Blog) => b.slug !in slugs
  }

  /** The home page never selects a tag: its `selectedTag` state has no setter. */
  const HomeSelectedTag: OptString := None

  /** How many recent posts the page lists. */
  const RecentLimit: nat := 4

  /** The recent list: the sorted posts whose slug is not a featured slug, at most four. */
  function RecentBlogs(all: seq<Blog>): seq<Blog> {
    var featuredSlugs := Slugs(FeaturedBlogs(all));
    Take(Filter(FilteredBlogs(all, HomeSelectedTag), SlugNotIn(featuredSlugs)), RecentLimit)
  }

  /**
   * The recent list has at most four posts, newest first, none featured and
   * none sharing a featured post's slug; it is the start of the list of all
   * such posts and is short only when there are fewer than four of them.
   */
  lemma RecentBlogsSpec(all: seq<Blog>)
    ensures |RecentBlogs(all)| <= RecentLimit
    ensures SortedDesc(RecentBlogs(all), ByDate())
    ensures forall b | b in RecentBlogs(all) ::
              b in all && !b.featured && b.slug !in Slugs(FeaturedBlogs(all))
    ensures var rest := Filter(SortByDate(all), SlugNotIn(Slugs(FeaturedBlogs(all))));
            RecentBlogs(all) == rest[..|RecentBlogs(all)|] &&
            (|RecentBlogs(all)| < RecentLimit ==> RecentBlogs(all) == rest)
  {
    var sorted := SortByDate(all);
    var slugs := Slugs(FeaturedBlogs(all));
    var rest := Filter(sorted, SlugNotIn(slugs));
    var r := RecentBlogs(all);
    assert FilteredBlogs(all, HomeSelectedTag) == sorted;
    FilterSorted(sorted, SlugNotIn(slugs), ByDate());
    FilterMembers(sorted, SlugNotIn(slugs));
    FeaturedBlogsSpec(all);
    forall b | b in r ensures b in all && !b.featured && b.slug !in slugs {
      assert b in rest;
      assert b in all by {
        assert b in multiset(sorted);
      }
    }
    assert SortedDesc(r, ByDate()) by {
      forall i, j | 0 <= i < j < |r| ensures r[i].time >= r[j].time {
        assert r[i] == rest[i] && r[j] == rest[j];
      }
    }
  }

  /** The recent posts and the featured posts have no slug in common. */
  lemma RecentAvoidsFeatured(all: seq<Blog>, b: Blog, f: Blog)
    requires b in RecentBlogs(all) && f in FeaturedBlogs(all)
    ensures b.slug != f.slug
  {
    RecentBlogsSpec(all);
    var fs := FeaturedBlogs(all);
    var k :| 0 <= k < |fs| && fs[k] == f;
    assert Slugs(fs)[k] == f.slug;
  }

  // ---------------------------------------------------------------- social links

  /** A declared social entry: its label and its key in the site's `social` settings. */
  datatype SocialItem = SocialItem(name: string, key: string)

  /** The declared order of the social entries. */
  const SocialItems: seq<SocialItem> := [
    SocialItem("赞赏", "buyMeACoffee"),
    SocialItem("X", "x"),
    SocialItem("小红书", "xiaohongshu"),
    SocialItem("公众号", "wechat"),
    SocialItem("GitHub", "github")
  ]

  /** A link with the configured address, `undefined` when the key is not configured. */
  datatype Link = Link(name: string, href: OptString)

  function Lookup(social: map<string, string>, key: string): OptString {
    if key in social then Some(social[key]) else None
  }

  function Resolve(items: seq<SocialItem>, social: map<string, string>): (r: seq<Link>)
    ensures |r| == |items|
    ensures forall k | 0 <= k < |items| :: r[k] == Link(items[k].name, Lookup(social, items[k].key))
  {
    if items == [] then [] else [Link(items[0].name, Lookup(social, items[0].key))] + Resolve(items[1..], social)
  }

  function HasHref(): Link -> bool {
    (l: Link) => Truthy(l.href)
  }

  /** `socialLinks`: the declared entries with their addresses, keeping those with one. */
  function SocialLinks(social: map<string, string>): seq<Link> {
    Filter(Resolve(SocialItems, social), HasHref())
  }

  /**
   * The links keep the declared order, and a declared entry is shown, with its
   * configured address, iff that address is present and non-empty.
   */
  lemma SocialLinksSpec(social: map<string, string>)
    ensures IsSubsequence(SocialLinks(social), Resolve(SocialItems, social))
    ensures forall l | l in SocialLinks(social) :: Truthy(l.href)
    ensures forall k | 0 <= k < |SocialItems| ::
              (Link(SocialItems[k].name, Lookup(social, SocialItems[k].key)) in SocialLinks(social) <==>
               SocialItems[k].key in social && social[SocialItems[k].key] != "")
  {
    FilterMembers(Resolve(SocialItems, social), HasHref());
  }

  /** The site's configured social addresses; `basePath` is the deployment prefix. */
  function SiteSocial(basePath: string): map<string, string> {
    map[
      "github" := "https://github.com/Zhaowy95",
      "xiaohongshu" := "https://www.xiaohongshu.com/user/profile/5c7f632d000000001600761a",
      "wechat" := basePath + "/images/wechat-qr.png"
    ]
  }

  /** With the site's settings the page shows three links: 小红书, 公众号 and GitHub, in that order. */
  lemma SiteSocialLinks(basePath: string)
    ensures |SocialLinks(SiteSocial(basePath))| == 3
    ensures SocialLinks(SiteSocial(basePath))[0].name == "小红书"
    ensures SocialLinks(SiteSocial(basePath))[1].name == "公众号"
    ensures SocialLinks(SiteSocial(basePath))[2].name == "GitHub"
  {
    var social := SiteSocial(basePath);
    var links := Resolve(SocialItems, social);
    assert "buyMeACoffee" !in social && "x" !in social;
    assert |basePath + "/images/wechat-qr.png"| > 0;
    assert links == [
      Link("赞赏", None), Link("X", None),
      Link("小红书", Some(social["xiaohongshu"])),
      Link("公众号", Some(social["wechat"])),
      Link("GitHub", Some(social["github"]))
    ];
    var shown, hidden := links[2..], links[..2];
    assert links == hidden + shown;
    FilterAppend(hidden, shown, HasHref());
    assert Filter(hidden, HasHref()) == [] by {
      assert hidden[1..][1..] == [];
    }
    FilterAll(shown, HasHref());
  }

  // ---------------------------------------------------------------- structured data

  /** `[...].filter(Boolean)` on optional texts: the present, non-empty ones. */
  function PresentTexts(xs: seq<OptString>): (r: seq<string>)
    ensures |r| <= |xs|
  {
    if xs == [] then []
    else (if Truthy(xs[0]) then [xs[0].value] else []) + PresentTexts(xs[1..])
  }

  /** `sameAs`: the GitHub and Xiaohongshu addresses that are configured. */
  function SameAs(social: map<string, string>): seq<string> {
    PresentTexts([Lookup(social, "github"), Lookup(social, "xiaohongshu")])
  }

  /** `sameAs` lists the configured GitHub address, then the Xiaohongshu one, dropping each that is absent or empty. */
  lemma SameAsSpec(social: map<string, string>)
    ensures forall u :: u in SameAs(social) <==>
              u != "" && (Lookup(social, "github") == Some(u) || Lookup(social, "xiaohongshu") == Some(u))
    ensures |SameAs(social)| == (if Truthy(Lookup(social, "github")) then 1 else 0) +
                                (if Truthy(Lookup(social, "xiaohongshu")) then 1 else 0)
    ensures Truthy(Lookup(social, "github")) ==> SameAs(social)[0] == social["github"]
  {
    var xs := [Lookup(social, "github"), Lookup(social, "xiaohongshu")];
    assert xs[1..][1..] == [];
    assert PresentTexts(xs[1..]) == (if Truthy(xs[1]) then [xs[1].value] else []) + PresentTexts(xs[1..][1..]);
  }
}
