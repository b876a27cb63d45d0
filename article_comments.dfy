/**
 * The comment box under an article: comments are kept in browser storage under
 * `article-comments-<articleId>`, loaded newest first, and a non-blank comment
 * is trimmed, put in front of the list and written back.
 */
module ArticleComments {
  import opened Wrappers
  import opened Strings
  import opened Lists

  /** A stored comment; `timestamp` is its creation time in milliseconds. */
  datatype Comment = Comment(id: string, content: string, timestamp: int, createdAt: string)

  function Timestamp(): Comment -> int {
    (c: Comment) => c.timestamp
  }

  /** The storage key of one article's comments. */
  function CommentsKey(articleId: string): (k: string)
    ensures StartsWith(k, "article-comments-")
  {
    "article-comments-" + articleId
  }

  /** Different articles never share a key. */
  lemma CommentsKeyInjective(a: string, b: string)
    requires CommentsKey(a) == CommentsKey(b)
    ensures a == b
  {
    var p := "article-comments-";
    assert a == CommentsKey(a)[|p|..] && b == CommentsKey(b)[|p|..];
  }

  /** The comment lists in browser storage, by key (the JSON encoding is not modelled). */
  class CommentStorage {
    var saved: map<string, seq<Comment>>

    constructor (initial: map<string, seq<Comment>>)
      ensures saved == initial
    {
      saved := initial;
    }

    /** `localStorage.setItem`: one key is (re)written. */
    method Put(key: string, value: seq<Comment>)
      modifies this`saved
      ensures saved == old(saved)[key := value]
    {
      saved := saved[key := value];
    }
  }

  /** The comment written for an input: the trimmed text, stamped with the submission time. */
  function NewComment(input: string, now: nat, createdAt: string): (c: Comment)
    ensures c.content == Trim(input) && c.timestamp == now
    ensures ParseInt(c.id) == Some(now as int)
  {
    ParseIntNatToString(now);
    Comment(NatToString(now), Trim(input), now, createdAt)
  }

  /** Prepending a comment no older than the rest keeps the list newest first. */
  lemma PrependKeepsOrder(c: Comment, cs: seq<Comment>)
    requires SortedDesc(cs, Timestamp())
    requires forall k | 0 <= k < |cs| :: cs[k].timestamp <= c.timestamp
    ensures SortedDesc([c] + cs, Timestamp())
  {
    var r := [c] + cs;
    forall i, j | 0 <= i < j < |r| ensures r[i].timestamp >= r[j].timestamp {
      assert r[j] == cs[j - 1];
      if i > 0 {
        assert r[i] == cs[i - 1];
      }
    }
  }

  class ArticleCommentsState {
    var articleId: string
    var comments: seq<Comment>
    var newComment: string
    var isSubmitting: bool
    var showComments: bool

    constructor (id: string)
      ensures articleId == id && comments == [] && newComment == "" && !isSubmitting && !showComments
    {
      articleId := id;
      comments := [];
      newComment := "";
      isSubmitting := false;
      showComments := false;
    }

    /** `loadComments`: stored comments, if any, replace the list, newest first. */
    method LoadComments(storage: CommentStorage)
      modifies this`comments
      ensures CommentsKey(articleId) in storage.saved ==>
                comments == SortDesc(storage.saved[CommentsKey(articleId)], Timestamp())
      ensures CommentsKey(articleId) !in storage.saved ==> comments == old(comments)
    {
      var key := CommentsKey(articleId);
      if key in storage.saved {
        comments := SortDesc(storage.saved[key], Timestamp());
      }
    }

    /**
     * A new `articleId` prop: the `[articleId]` effect loads that article's
     * comments. When none are stored the previous article's list stays on
     * screen; an unchanged prop does not rerun the effect.
     */
    method SetArticleId(id: string, storage: CommentStorage)
      modifies this`articleId, this`comments
      ensures articleId == id
      ensures id != old(articleId) && CommentsKey(id) in storage.saved ==>
                comments == SortDesc(storage.saved[CommentsKey(id)], Timestamp())
      ensures id == old(articleId) || CommentsKey(id) !in storage.saved ==> comments == old(comments)
    {
      if id != articleId {
        articleId := id;
        LoadComments(storage);
      }
    }

    /** The text area's change handler. */
    method SetNewComment(value: string)
      modifies this`newComment
      ensures newComment == value
    {
      newComment := value;
    }

    /** The show/hide button. */
    method ToggleComments()
      modifies this`showComments
      ensures showComments == !old(showComments)
    {
      showComments := !showComments;
    }

    /**
     * `handleSubmit`: a blank input changes nothing; otherwise the trimmed
     * comment goes in front of the list, the list is written under this
     * article's key only, and the input is cleared.
     */
    method HandleSubmit(storage: CommentStorage, now: nat, createdAt: string)
      modifies this`comments, this`newComment, this`isSubmitting, storage`saved
      ensures IsBlank(old(newComment)) ==>
                comments == old(comments) && newComment == old(newComment) &&
                isSubmitting == old(isSubmitting) && storage.saved == old(storage.saved)
      ensures !IsBlank(old(newComment)) ==> comments == [NewComment(old(newComment), now, createdAt)] + old(comments)
      ensures !IsBlank(old(newComment)) ==> storage.saved == old(storage.saved)[CommentsKey(articleId) := comments]
      ensures !IsBlank(old(newComment)) ==> newComment == "" && !isSubmitting
    {
      if !IsBlank(newComment) {
        var updated := [NewComment(newComment, now, createdAt)] + comments;
        isSubmitting := true;
        storage.Put(CommentsKey(articleId), updated);
        comments := updated;
        newComment := "";
        isSubmitting := false;
      }
    }

    /** The submit button is disabled while submitting or while the input is blank. */
    function SubmitDisabled(): (d: bool)
      reads this
      ensures d <==> isSubmitting || IsBlank(newComment)
    {
      isSubmitting || Trim(newComment) == ""
    }
  }

  /**
   * A submission grows the list by one, keeps the older comments in their
   * order behind the new one, and its content is non-blank and trimmed.
   */
  lemma SubmittedComment(old_comments: seq<Comment>, input: string, now: nat, createdAt: string)
    requires !IsBlank(input)
    ensures var updated := [NewComment(input, now, createdAt)] + old_comments;
            |updated| == |old_comments| + 1 && updated[1..] == old_comments &&
            updated[0].content != "" && Trim(updated[0].content) == updated[0].content
  {
    TrimIdempotent(input);
  }
}
