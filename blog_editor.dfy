/**
 * The post editor (src/components/editor/BlogEditor.tsx): drafts kept by id
 * in local storage, the comma-separated tag field, the markdown front matter
 * of a published post, and the hand-off of a draft through session storage.
 */
module BlogEditor {
  import opened Wrappers
  import opened Strings
  import opened Lists

  datatype Status = Draft | Published

  /** A post being written or stored as a draft. */
  datatype Post = Post(
    id: string,
    title: string,
    content: string,
    summary: string,
    date: string,
    status: Status,
    featured: bool,
    tags: string)

  /** The editor's state before anything is loaded. */
  const BlankPost: Post := Post("", "", "", "", "", Draft, false, "")

  /** Saving and publishing both need a title and a content that are not blank. */
  predicate Publishable(p: Post) {
    !IsBlank(p.title) && !IsBlank(p.content)
  }

  // ---------------------------------------------------------------- drafts by id

  /** `drafts.findIndex(d => d.id === id)`. */
  function FindIndex(drafts: seq<Post>, id: string): (i: int)
    ensures -1 <= i < |drafts|
    ensures 0 <= i ==> drafts[i].id == id && forall j | 0 <= j < i :: drafts[j].id != id
    ensures i < 0 ==> forall j | 0 <= j < |drafts| :: drafts[j].id != id
  {
    if drafts == [] then -1
    else if drafts[0].id == id then 0
    else
      var k := FindIndex(drafts[1..], id);
      if k < 0 then -1 else k + 1
  }

  /** `drafts.find(d => d.id === id)`: the first draft with that id. */
  function Find(drafts: seq<Post>, id: string): (d: Option<Post>)
    ensures d.Some? ==> d.value in drafts && d.value.id == id
    ensures d.None? <==> forall j | 0 <= j < |drafts| :: drafts[j].id != id
  {
    var i := FindIndex(drafts, id);
    if i >= 0 then Some(drafts[i]) else None
  }

  /** `{...post, status: "draft"}`. */
  function AsDraft(p: Post): (d: Post)
    ensures d.status == Draft && d.(status := p.status) == p
  {
    p.(status := Draft)
  }

  /** The draft list after saving `d`: the draft with its id is replaced, or `d` is appended. */
  function Upsert(drafts: seq<Post>, d: Post): seq<Post> {
    var i := FindIndex(drafts, d.id);
    if i >= 0 then drafts[i := d] else drafts + [d]
  }

  /** The two ways the source applies a save, as one function. */
  lemma UpsertCases(drafts: seq<Post>, d: Post, r: seq<Post>)
    requires FindIndex(drafts, d.id) >= 0 ==> r == drafts[FindIndex(drafts, d.id) := d]
    requires FindIndex(drafts, d.id) < 0 ==> r == drafts + [d]
    ensures r == Upsert(drafts, d)
  {
  }

  /** Saving an id that exists replaces that draft in place; the others and the length stay. */
  lemma UpsertExisting(drafts: seq<Post>, d: Post)
    requires Find(drafts, d.id).Some?
    ensures var i := FindIndex(drafts, d.id);
            var r := Upsert(drafts, d);
            |r| == |drafts| && r[i] == d && forall j | 0 <= j < |r| && j != i :: r[j] == drafts[j]
  {
  }

  /** Saving a new id appends it at the end. */
  lemma UpsertNew(drafts: seq<Post>, d: Post)
    requires Find(drafts, d.id).None?
    ensures Upsert(drafts, d) == drafts + [d]
  {
  }

  /** After saving, looking the id up finds what was saved. */
  lemma UpsertFind(drafts: seq<Post>, d: Post)
    ensures Find(Upsert(drafts, d), d.id) == Some(d)
  {
    var i := FindIndex(drafts, d.id);
    var r := Upsert(drafts, d);
    var k := if i >= 0 then i else |drafts|;
    assert r[k] == d;
    assert forall j | 0 <= j < k :: r[j] == drafts[j];
    FindIndexAt(r, d.id, k);
  }

  /** The first index with an id, seen from a position that holds it with none before. */
  lemma {:induction false} FindIndexAt(drafts: seq<Post>, id: string, k: int)
    requires 0 <= k < |drafts| && drafts[k].id == id
    requires forall j | 0 <= j < k :: drafts[j].id != id
    ensures FindIndex(drafts, id) == k
  {
    if k > 0 {
      FindIndexAt(drafts[1..], id, k - 1);
    }
  }

  /** Saving the same draft twice is saving it once. */
  lemma UpsertTwice(drafts: seq<Post>, d: Post)
    ensures Upsert(Upsert(drafts, d), d) == Upsert(drafts, d)
  {
    var r := Upsert(drafts, d);
    UpsertFind(drafts, d);
    assert r[FindIndex(r, d.id)] == d;
    assert r[FindIndex(r, d.id) := d] == r;
  }

  function OtherId(id: string): Post -> bool {
    (d: Post) => d.id != id
  }

  function HasId(id: string): Post -> bool {
    (d: Post) => d.id == id
  }

  /** `drafts.filter(d => d.id !== id)`. */
  function RemoveId(drafts: seq<Post>, id: string): (r: seq<Post>)
    ensures |r| <= |drafts|
  {
    Filter(drafts, OtherId(id))
  }

  /**
   * Removal drops exactly the drafts with that id and keeps the rest in
   * their order.
   */
  lemma RemoveIdSpec(drafts: seq<Post>, id: string)
    ensures var r := RemoveId(drafts, id);
            (forall x :: x in r <==> x in drafts && x.id != id) &&
            IsSubsequence(r, drafts) &&
            Find(r, id).None? &&
            |r| == |drafts| - Count(drafts, HasId(id))
  {
    var r := RemoveId(drafts, id);
    FilterMembers(drafts, OtherId(id));
    FilterKept(drafts, OtherId(id));
    assert forall j | 0 <= j < |r| :: r[j].id != id;
    CountDisjoint(drafts, OtherId(id), HasId(id), (d: Post) => true);
    FilterAll(drafts, (d: Post) => true);
  }

  /** Removing an id that no draft has changes nothing. */
  lemma RemoveAbsentId(drafts: seq<Post>, id: string)
    requires Find(drafts, id).None?
    ensures RemoveId(drafts, id) == drafts
  {
    FilterAll(drafts, OtherId(id));
  }

  // ---------------------------------------------------------------- tags

  /** Each part trimmed, as `parts.map(t => t.trim())`. */
  function TrimAll(parts: seq<string>): seq<string> {
    seq(|parts|, k requires 0 <= k < |parts| => Trim(parts[k]))
  }

  /** One element per part, each a trimmed slice of its part: trimming it again changes nothing. */
  lemma TrimAllClean(parts: seq<string>)
    ensures |TrimAll(parts)| == |parts|
    ensures forall k | 0 <= k < |parts| :: Contains(parts[k], TrimAll(parts)[k]) && Trim(TrimAll(parts)[k]) == TrimAll(parts)[k]
  {
    forall k | 0 <= k < |parts| ensures Trim(TrimAll(parts)[k]) == TrimAll(parts)[k] {
      TrimIdempotent(parts[k]);
    }
  }

  function NonEmpty(): string -> bool {
    (t: string) => t != ""
  }

  /**
   * The tag field: nothing when it is empty, else the comma-separated parts,
   * trimmed, with the empty ones dropped.
   */
  function ParseTags(tags: string): seq<string> {
    if tags == "" then [] else Filter(TrimAll(Split(tags, ',')), NonEmpty())
  }

  /** A tag as the parser emits it: non-empty, trimmed and without a comma. */
  predicate CleanTag(t: string) {
    t != "" && Trim(t) == t && ',' !in t
  }

  /** A character absent from a string is absent from its trim. */
  lemma TrimAvoids(s: string, c: char)
    requires c !in s
    ensures c !in Trim(s)
  {
    PartAvoids(s, Trim(s), c);
  }

  /** A character absent from a string is absent from every part of it. */
  lemma PartAvoids(s: string, p: string, c: char)
    requires Contains(s, p) && c !in s
    ensures c !in p
  {
    var i :| 0 <= i <= |s| - |p| && OccursAt(s, p, i);
    forall k | 0 <= k < |p| ensures p[k] != c {
      assert p[k] == s[i..i + |p|][k] == s[i + k];
    }
  }

  /** Every tag the parser emits is clean. */
  lemma ParseTagsClean(tags: string)
    ensures forall k | 0 <= k < |ParseTags(tags)| :: CleanTag(ParseTags(tags)[k])
  {
    if tags != "" {
      var parts := Split(tags, ',');
      var trimmed := TrimAll(parts);
      var q := (t: string) => Trim(t) == t && ',' !in t;
      forall k | 0 <= k < |trimmed| ensures q(trimmed[k]) {
        TrimIdempotent(parts[k]);
        TrimAvoids(parts[k], ',');
      }
      FilterKeeps(trimmed, NonEmpty(), q);
    }
  }

  /** Clean tags joined with commas parse back to themselves. */
  lemma ParseTagsJoin(tags: seq<string>)
    requires forall k | 0 <= k < |tags| :: CleanTag(tags[k])
    ensures ParseTags(Join(tags, ",")) == tags
  {
    if tags != [] {
      var s := Join(tags, ",");
      JoinNonEmpty(tags, ",");
      SplitJoin(tags, ',');
      assert TrimAll(tags) == tags;
      FilterAll(tags, NonEmpty());
    }
  }

  /** Joining parts whose first is non-empty gives a non-empty text. */
  lemma JoinNonEmpty(parts: seq<string>, sep: string)
    requires |parts| >= 1 && parts[0] != ""
    ensures Join(parts, sep) != ""
  {
    if |parts| > 1 {
      assert Join(parts, sep)[0] == parts[0][0];
    }
  }

  // ---------------------------------------------------------------- front matter

  function Quote(t: string): string {
    "\"" + t + "\""
  }

  function QuoteAll(tags: seq<string>): seq<string> {
    seq(|tags|, k requires 0 <= k < |tags| => Quote(tags[k]))
  }

  /** `${b}` for a boolean. */
  function BoolText(b: bool): (t: string)
    ensures t == "true" || t == "false"
    ensures t == "true" <==> b
  {
    if b then "true" else "false"
  }

  /** The lines of the front-matter block of a published post, the blank line included. */
  function EditorHeader(p: Post, tags: seq<string>): seq<string> {
    [ "---",
      "title: " + Quote(p.title),
      "date: " + Quote(p.date),
      "summary: " + Quote(p.summary),
      "featured: " + BoolText(p.featured),
      "tags: [" + Join(QuoteAll(tags), ", ") + "]",
      "---",
      "" ]
  }

  /** The markdown file of a published post: the front matter, a blank line, the content. */
  function FrontMatter(p: Post, tags: seq<string>): string {
    JoinLines(EditorHeader(p, tags)) + p.content
  }

  /** No line break in a text. */
  predicate OneLine(s: string) {
    '\n' !in s
  }

  /**
   * Read back line by line, the markdown is the header lines followed by the
   * lines of the content, when the fields and tags have no line break.
   */
  lemma FrontMatterLines(p: Post, tags: seq<string>)
    requires OneLine(p.title) && OneLine(p.date) && OneLine(p.summary)
    requires forall k | 0 <= k < |tags| :: OneLine(tags[k])
    ensures Split(FrontMatter(p, tags), '\n') == EditorHeader(p, tags) + Split(p.content, '\n')
  {
    var q := QuoteAll(tags);
    forall k | 0 <= k < |q| ensures '\n' !in q[k] {
      assert q[k] == "\"" + tags[k] + "\"";
    }
    JoinAvoids(q, ", ", '\n');
    var h := EditorHeader(p, tags);
    forall k | 0 <= k < |h| ensures '\n' !in h[k] {
    }
    SplitLines(h, p.content);
  }

  // ---------------------------------------------------------------- storage

  /** A published post: the draft with status "published" and its markdown. */
  datatype PublishedPost = PublishedPost(post: Post, markdown: string)

  /**
   * The decoded `blog-drafts` and `blog-published` lists of local storage
   * (a missing key reads as the empty list) and the `editing-draft` entry of
   * session storage.
   */
  class DraftStorage {
    var drafts: seq<Post>
    var published: seq<PublishedPost>
    var editing: Option<Post>

    constructor (drafts0: seq<Post>, published0: seq<PublishedPost>, editing0: Option<Post>)
      ensures drafts == drafts0 && published == published0 && editing == editing0
    {
      drafts := drafts0;
      published := published0;
      editing := editing0;
    }
  }

  // ---------------------------------------------------------------- the editor

  /** How the repository's contents endpoint answered the commit of the file. */
  datatype PutOutcome =
    | Accepted
    | Refused(message: OptString)
    | Threw(errorMessage: Option<string>)

  /** The editor's status line. */
  datatype SaveStatus =
    | NoStatus
    | EmptyFields
    | Saved
    | Publishing
    | NoToken
    | PublishedOk
    | PublishRefused(message: OptString)
    | PublishThrew(errorMessage: Option<string>)

  /** The text shown for each status. */
  function StatusText(s: SaveStatus): string {
    match s
    case NoStatus => ""
    case EmptyFields => "标题和内容不能为空"
    case Saved => "草稿保存成功！"
    case Publishing => "🚀 正在发布文章..."
    case NoToken => "❌ 请配置 GitHub Token 以实现自动发布功能"
    case PublishedOk => "🎉 文章发布成功！正在自动部署中，请稍候..."
    case PublishRefused(message) => "❌ 发布失败：" + OrElse(message, "未知错误")
    case PublishThrew(errorMessage) => "❌ 发布失败: " + errorMessage.GetOr("请重试")
  }

  /** `blog-${timestamp}.md`. */
  function FileName(now: nat): string {
    "blog-" + NatToString(now) + ".md"
  }

  /** The status once the commit has been attempted. */
  function OutcomeStatus(outcome: PutOutcome): SaveStatus {
    match outcome
    case Accepted => PublishedOk
    case Refused(message) => PublishRefused(message)
    case Threw(errorMessage) => PublishThrew(errorMessage)
  }

  /** The file the publish action sends: a blank post or a missing token sends nothing. */
  function PublishRequest(p: Post, now: nat, token: OptString): (sent: Option<(string, string)>)
    ensures sent.Some? <==> Publishable(p) && Truthy(token)
  {
    if Publishable(p) && Truthy(token) then Some((FileName(now), FrontMatter(p, ParseTags(p.tags)))) else None
  }

  /** The status line the publish action leaves. */
  function PublishStatus(p: Post, token: OptString, outcome: PutOutcome): SaveStatus {
    if !Publishable(p) then EmptyFields
    else if !Truthy(token) then NoToken
    else OutcomeStatus(outcome)
  }

  /**
   * The file sent is named after the time and holds the front matter with the
   * parsed tags, and the message tells which of the four outcomes happened.
   */
  lemma PublishRequestSpec(p: Post, now: nat, token: OptString, outcome: PutOutcome)
    ensures PublishRequest(p, now, token).Some? ==>
              PublishRequest(p, now, token).value.0 == "blog-" + NatToString(now) + ".md" &&
              PublishRequest(p, now, token).value.1 == JoinLines(EditorHeader(p, ParseTags(p.tags))) + p.content
    ensures PublishRequest(p, now, token).None? ==> PublishStatus(p, token, outcome) in {EmptyFields, NoToken}
    ensures PublishRequest(p, now, token).Some? && outcome.Accepted? ==> PublishStatus(p, token, outcome) == PublishedOk
  {
  }

  class Editor {
    var post: Post
    var isSaving: bool
    var saveStatus: SaveStatus

    constructor ()
      ensures post == BlankPost && !isSaving && saveStatus == NoStatus
    {
      post := BlankPost;
      isSaving := false;
      saveStatus := NoStatus;
    }

    /**
     * On mount: a pending draft in session storage becomes the post and its
     * key is removed; otherwise the post gets the id `blog-<now>` and today's
     * date key.
     */
    method Load(storage: DraftStorage, now: nat, today: string)
      modifies this`post, storage`editing
      ensures old(storage.editing).Some? ==> post == old(storage.editing).value
      ensures old(storage.editing).None? ==> post == old(post).(id := "blog-" + NatToString(now), date := today)
      ensures storage.editing.None?
    {
      if storage.editing.Some? {
        post := storage.editing.value;
        storage.editing := None;
      } else {
        post := post.(id := "blog-" + NatToString(now), date := today);
      }
    }

    /**
     * Save: a blank title or content only sets the message; otherwise the
     * post, marked as a draft, is upserted into the stored drafts.
     */
    method SaveDraft(storage: DraftStorage)
      modifies this`isSaving, this`saveStatus, storage`drafts
      ensures !Publishable(old(post)) ==> storage.drafts == old(storage.drafts) && saveStatus == EmptyFields && isSaving == old(isSaving)
      ensures Publishable(old(post)) ==> storage.drafts == Upsert(old(storage.drafts), AsDraft(old(post))) && saveStatus == Saved && !isSaving
    {
      if !Publishable(post) {
        saveStatus := EmptyFields;
        return;
      }
      isSaving := true;
      var drafts := storage.drafts;
      var existingIndex := FindIndex(drafts, post.id);
      var draftToSave := AsDraft(post);
      ghost var before := drafts;
      if existingIndex >= 0 {
        drafts := drafts[existingIndex := draftToSave];
      } else {
        drafts := drafts + [draftToSave];
      }
      UpsertCases(before, draftToSave, drafts);
      storage.drafts := drafts;
      saveStatus := Saved;
      isSaving := false;
    }

    /**
     * Publish: a blank title or content only sets the message; without a
     * token nothing is sent; otherwise the post's file is sent, and only an
     * accepted commit removes the post's id from the stored drafts. The
     * result is the file sent, if any.
     */
    method PublishPost(storage: DraftStorage, now: nat, token: OptString, outcome: PutOutcome)
      returns (sent: Option<(string, string)>)
      modifies this`isSaving, this`saveStatus, storage`drafts
      ensures sent == PublishRequest(old(post), now, token)
      ensures storage.drafts == if sent.Some? && outcome.Accepted? then RemoveId(old(storage.drafts), post.id) else old(storage.drafts)
      ensures saveStatus == PublishStatus(post, token, outcome)
      ensures isSaving == (old(isSaving) && !Publishable(post))
    {
      if !Publishable(post) {
        saveStatus := EmptyFields;
        return None;
      }
      isSaving := true;
      saveStatus := Publishing;
      var fileName := FileName(now);
      var tagsArray := ParseTags(post.tags);
      var markdownContent := FrontMatter(post, tagsArray);
      if !Truthy(token) {
        saveStatus := NoToken;
        isSaving := false;
        return None;
      }
      sent := Some((fileName, markdownContent));
      if outcome.Accepted? {
        storage.drafts := RemoveId(storage.drafts, post.id);
      }
      saveStatus := OutcomeStatus(outcome);
      isSaving := false;
    }
  }
}
