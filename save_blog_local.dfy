/**
 * The local-save route: given a post's fields in a JSON body it answers 400
 * when the title or the content is missing, otherwise 200 with a file name
 * built from the current time, the Markdown file text and manual steps for
 * committing it; any exception becomes a 500.
 */
module SaveBlogLocal {
  import opened Wrappers
  import opened Strings
  import opened BlogEditor
  import opened DraftsPage

  /** The request: a body that could not be read, or the fields it holds. */
  datatype Request =
    | Unreadable(message: string)
    | Fields(title: OptString, content: OptString, summary: OptString, date: OptString, featured: Option<bool>)

  /** The three answers: 400 with an error, 200 with the file, 500 with the failure. */
  datatype Response =
    | BadRequest(error: string)
    | Written(message: string, fileName: string, content: string, instructionsTitle: string, steps: seq<string>)
    | ServerError(error: string, details: string)

  function StatusCode(r: Response): nat {
    match r
    case BadRequest(_) => 400
    case Written(_, _, _, _, _) => 200
    case ServerError(_, _) => 500
  }

  const MissingFields: string := "标题和内容不能为空"
  const SaveFailed: string := "保存文章失败"
  const SyncMessage: string := "文章已保存到本地，请手动同步到GitHub仓库"
  const StepsTitle: string := "手动同步步骤"
  const BlogFolder: string := "src/content/blog/"

  /** `${date}`: an absent date prints as `undefined`. */
  function DateText(date: OptString): string {
    if date.Some? then date.value else "undefined"
  }

  /** `${featured || false}`. */
  function FeaturedText(featured: Option<bool>): (t: string)
    ensures t == "true" <==> featured == Some(true)
  {
    BoolText(featured == Some(true))
  }

  /** The front-matter lines of the file, the blank line after it included. */
  function LocalHeader(title: string, date: OptString, summary: OptString, featured: Option<bool>): seq<string> {
    [ "---",
      "title: " + Quote(title),
      "date: " + Quote(DateText(date)),
      "summary: " + Quote(OrElse(summary, "")),
      "featured: " + FeaturedText(featured),
      "---",
      "" ]
  }

  /** The file text: the front matter, then the content. */
  function LocalMarkdown(title: string, content: string, date: OptString, summary: OptString, featured: Option<bool>): string {
    JoinLines(LocalHeader(title, date, summary, featured)) + content
  }

  /** The manual steps; the third names where the file goes. */
  function Steps(fileName: string): (r: seq<string>)
    ensures |r| == 5 && r[2] == "3. 文件路径：" + BlogFolder + fileName
  {
    [ "1. 复制下面的Markdown内容",
      "2. 在GitHub仓库中创建新文件",
      "3. 文件路径：" + BlogFolder + fileName,
      "4. 粘贴内容并提交",
      "5. Netlify将自动重新部署" ]
  }

  /** `POST`: validate, name the file after `now`, and answer with the file text and the steps. */
  function Handle(req: Request, now: nat): Response {
    match req
    case Unreadable(message) => ServerError(SaveFailed, message)
    case Fields(title, content, summary, date, featured) =>
      if !Truthy(title) || !Truthy(content) then BadRequest(MissingFields)
      else
        var fileName := FileName(now);
        Written(SyncMessage, fileName, LocalMarkdown(title.value, content.value, date, summary, featured),
                 StepsTitle, Steps(fileName))
  }

  /**
   * The answer is 400 with the missing-fields error exactly when the title or
   * the content is missing or empty, and 500 exactly when the body could not
   * be read.
   */
  lemma HandleStatus(req: Request, now: nat)
    ensures StatusCode(Handle(req, now)) == 500 <==> req.Unreadable?
    ensures StatusCode(Handle(req, now)) == 400 <==> req.Fields? && (!Truthy(req.title) || !Truthy(req.content))
    ensures Handle(req, now).BadRequest? ==> Handle(req, now).error == MissingFields
  {
  }

  /**
   * A 200 answer names the file `blog-<now>.md`, carries the Markdown text,
   * and its third step names the file's path under the blog folder.
   */
  lemma HandleWritten(req: Request, now: nat)
    requires req.Fields? && Truthy(req.title) && Truthy(req.content)
    ensures var r := Handle(req, now);
            r.Written? && r.fileName == FileName(now) &&
            r.content == LocalMarkdown(req.title.value, req.content.value, req.date, req.summary, req.featured) &&
            |r.steps| == 5 && r.steps[2] == "3. 文件路径：" + BlogFolder + r.fileName
  {
  }

  /** A missing summary is written as `""` and a missing flag as `false`. */
  lemma HeaderDefaults(title: string, date: OptString)
    ensures LocalHeader(title, date, None, None)[3] == "summary: \"\""
    ensures LocalHeader(title, date, None, None)[4] == "featured: false"
  {
  }

  /** With one-line fields, the file splits into the header lines followed by the content's lines. */
  lemma LocalMarkdownLines(title: string, content: string, date: OptString, summary: OptString, featured: Option<bool>)
    requires OneLine(title) && OneLine(DateText(date)) && OneLine(OrElse(summary, ""))
    ensures Split(LocalMarkdown(title, content, date, summary, featured), '\n') ==
            LocalHeader(title, date, summary, featured) + Split(content, '\n')
  {
    var h := LocalHeader(title, date, summary, featured);
    forall k | 0 <= k < |h| ensures '\n' !in h[k] {
    }
    SplitLines(h, content);
  }

  /** Sending a draft's own fields yields the same file text the drafts page stores when it publishes that draft. */
  lemma MatchesDraftsPage(d: Post, now: nat)
    requires d.title != "" && d.content != ""
    ensures var r := Handle(Fields(Some(d.title), Some(d.content), Some(d.summary), Some(d.date), Some(d.featured)), now);
            r.Written? && r.content == DraftMarkdown(d)
  {
    var h := LocalHeader(d.title, Some(d.date), Some(d.summary), Some(d.featured));
    assert h == DraftHeader(d) by {
      if d.summary == "" {
        assert OrElse(Some(d.summary), "") == d.summary;
      }
    }
  }

  /** Different times give different file names. */
  lemma FileNamesDiffer(t1: nat, t2: nat)
    requires t1 != t2
    ensures FileName(t1) != FileName(t2)
  {
    if FileName(t1) == FileName(t2) {
      var a, b := NatToString(t1), NatToString(t2);
      assert |a| == |b|;
      assert a == FileName(t1)[5..5 + |a|] && b == FileName(t2)[5..5 + |b|];
      ParseIntNatToString(t1);
      ParseIntNatToString(t2);
    }
  }
}
