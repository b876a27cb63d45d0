/**
 * The drafts page (src/app/write/drafts/page.tsx): a one-day login check,
 * then the stored drafts with delete, edit and publish actions. `confirm`
 * is a boolean parameter.
 */
module DraftsPage {
  import opened Wrappers
  import opened Strings
  import opened Lists
  import opened BrowserStorage
  import opened AuthSession
  import opened BlogEditor

  /** The front matter this page writes: no tags line, the fields as they are. */
  function DraftHeader(d: Post): seq<string> {
    [ "---",
      "title: " + Quote(d.title),
      "date: " + Quote(d.date),
      "summary: " + Quote(d.summary),
      "featured: " + BoolText(d.featured),
      "---",
      "" ]
  }

  /** The markdown stored with a published draft. */
  function DraftMarkdown(d: Post): string {
    JoinLines(DraftHeader(d)) + d.content
  }

  /** The page's header is the editor's with the tags line left out. */
  lemma DraftHeaderDropsTags(d: Post, tags: seq<string>)
    ensures DraftHeader(d) == EditorHeader(d, tags)[..5] + EditorHeader(d, tags)[6..]
    ensures EditorHeader(d, tags)[5] == "tags: [" + Join(QuoteAll(tags), ", ") + "]"
  {
    var e := EditorHeader(d, tags);
    var h := DraftHeader(d);
    assert |h| == |e[..5] + e[6..]|;
    forall k | 0 <= k < |h| ensures h[k] == (e[..5] + e[6..])[k] {
    }
  }

  /** Read back line by line, the page's markdown is its header, then the content's lines. */
  lemma DraftMarkdownLines(d: Post)
    requires OneLine(d.title) && OneLine(d.date) && OneLine(d.summary)
    ensures Split(DraftMarkdown(d), '\n') == DraftHeader(d) + Split(d.content, '\n')
  {
    var h := DraftHeader(d);
    forall k | 0 <= k < |h| ensures '\n' !in h[k] {
    }
    SplitLines(h, d.content);
  }

  /** `{...draft, status: "published", markdown}`. */
  function PublishedOf(d: Post): (p: PublishedPost)
    ensures p.post.status == Published && p.post.(status := d.status) == d
    ensures p.markdown == DraftMarkdown(d)
  {
    PublishedPost(d.(status := Published), DraftMarkdown(d))
  }

  /** What the page shows. */
  datatype Screen = Spinner | Login | DraftList(drafts: seq<Post>)

  class DraftsPageState {
    var isAuthenticated: bool
    var isLoading: bool
    var drafts: seq<Post>

    constructor ()
      ensures !isAuthenticated && isLoading && drafts == []
    {
      isAuthenticated := false;
      isLoading := true;
      drafts := [];
    }

    /**
     * The mount check with the one-day window: an accepted session
     * authenticates the page and loads the stored drafts, an expired one
     * loses both keys, and loading ends whatever the outcome.
     */
    method CheckAuth(store: Store, storage: DraftStorage, now: int)
      modifies this, store
      ensures isAuthenticated == (old(isAuthenticated) || Accepts(old(store.items), now, DraftsWindow))
      ensures drafts == if Accepts(old(store.items), now, DraftsWindow) then storage.drafts else old(drafts)
      ensures store.items == AfterCheck(old(store.items), now, DraftsWindow)
      ensures !isLoading
    {
      var authStatus := store.GetItem(AuthKey);
      var authTime := store.GetItem(AuthTimeKey);
      if authStatus == Some("true") && Truthy(authTime) {
        var isExpired := Expired(authTime.value, now, DraftsWindow);
        if !isExpired {
          isAuthenticated := true;
          LoadDrafts(storage);
        } else {
          store.RemoveItem(AuthKey);
          store.RemoveItem(AuthTimeKey);
          assert store.items == old(store.items) - {AuthKey, AuthTimeKey};
        }
      }
      isLoading := false;
    }

    /** The stored drafts become the page's list. */
    method LoadDrafts(storage: DraftStorage)
      modifies this`drafts
      ensures drafts == storage.drafts
    {
      drafts := storage.drafts;
    }

    /** The login form's success callback: authenticate and load the drafts. */
    method HandleAuthSuccess(storage: DraftStorage)
      modifies this`isAuthenticated, this`drafts
      ensures isAuthenticated && drafts == storage.drafts
    {
      isAuthenticated := true;
      LoadDrafts(storage);
    }

    /** A confirmed delete removes the drafts with that id from the list and from storage. */
    method HandleDeleteDraft(storage: DraftStorage, draftId: string, confirmed: bool)
      modifies this`drafts, storage`drafts
      ensures confirmed ==> drafts == RemoveId(old(drafts), draftId) && storage.drafts == drafts
      ensures !confirmed ==> drafts == old(drafts) && storage.drafts == old(storage.drafts)
    {
      if confirmed {
        var updatedDrafts := RemoveId(drafts, draftId);
        storage.drafts := updatedDrafts;
        drafts := updatedDrafts;
      }
    }

    /**
     * Edit hands the draft with that id to the editor through session storage;
     * an unknown id changes nothing. The result says whether the page
     * navigates to the editor.
     */
    method HandleEditDraft(storage: DraftStorage, draftId: string) returns (navigated: bool)
      modifies storage`editing
      ensures navigated <==> Find(drafts, draftId).Some?
      ensures navigated ==> storage.editing == Find(drafts, draftId)
      ensures !navigated ==> storage.editing == old(storage.editing)
    {
      var draft := Find(drafts, draftId);
      if draft.Some? {
        storage.editing := draft;
        navigated := true;
      } else {
        navigated := false;
      }
    }

    /**
     * Publish appends the draft with that id, marked published and with its
     * markdown, to the stored published list, and removes the id from the
     * drafts; an unknown id changes nothing.
     */
    method HandlePublishDraft(storage: DraftStorage, draftId: string)
      modifies this`drafts, storage`drafts, storage`published
      ensures Find(old(drafts), draftId).None? ==>
                drafts == old(drafts) && storage.drafts == old(storage.drafts) && storage.published == old(storage.published)
      ensures Find(old(drafts), draftId).Some? ==>
                storage.published == old(storage.published) + [PublishedOf(Find(old(drafts), draftId).value)] &&
                drafts == RemoveId(old(drafts), draftId) && storage.drafts == drafts
    {
      var draft := Find(drafts, draftId);
      if draft.Some? {
        var markdownContent := DraftMarkdown(draft.value);
        var publishedPosts := storage.published;
        publishedPosts := publishedPosts + [PublishedPost(draft.value.(status := Published), markdownContent)];
        storage.published := publishedPosts;
        var updatedDrafts := RemoveId(drafts, draftId);
        storage.drafts := updatedDrafts;
        drafts := updatedDrafts;
      }
    }

    /** The spinner while loading, then the login form or the list. */
    function View(): (s: Screen)
      reads this
      ensures s.DraftList? <==> !isLoading && isAuthenticated
      ensures s.DraftList? ==> s.drafts == drafts
      ensures s == Spinner <==> isLoading
    {
      if isLoading then Spinner
      else if !isAuthenticated then Login
      else DraftList(drafts)
    }
  }

  /**
   * Edit on the drafts page followed by the editor's load gives the editor
   * the very draft that was chosen, and leaves no pending hand-off behind.
   */
  method EditHandOff(page: DraftsPageState, editor: Editor, storage: DraftStorage, draftId: string, now: nat, today: string)
    requires Find(page.drafts, draftId).Some?
    modifies storage, editor
    ensures editor.post == Find(page.drafts, draftId).value
    ensures storage.editing.None?
  {
    var navigated := page.HandleEditDraft(storage, draftId);
    editor.Load(storage, now, today);
  }
}
