# A verified model of the computations inside the zhaowyblog front end

zhaowyblog is a personal blog built with Next.js and React. Its pages and components run a number of small list, map and string computations inside their handlers and effects:

- the analytics dashboard folds the stored visit records into totals, page buckets, device counts, a top-ten article table and a seven-day series;
- the visit tracker classifies the user agent and fills in the record it stores;
- the editor keeps drafts by id in `localStorage`, parses the comma-separated tag field, writes a Markdown front matter and hands a draft over through `sessionStorage`;
- the write page, the drafts page and the two password forms share a login flag with a time window;
- the guestbook form validates the message and the contact;
- the tag cloud counts tags, the blog page and the home page filter and order posts, and the featured list filters by tag;
- the draft card builds a plain-text preview;
- the article comment box prepends comments;
- the local-save route validates a post and builds its file;
- the tab strip picks the active tab.

Each of these is modelled here in Dafny, one module per source file, with two helper modules (`Strings`, `Lists`) and a `Wrappers` module for `Option`.

- Code that is a chain of expressions becomes functions with lemmas.
- Handlers that update React state or storage become methods of a class whose fields are that state.
- Counting loops become methods with loop invariants, each proved equal to the function that specifies it.
- Browser storage is a class with a `map<string, string>` field. Storage for decoded JSON lists is a class with fields of the decoded types.
- The clock, the configured password, `confirm` answers, the outcome of network calls and the build-time base path are parameters.

JavaScript's conventions are written out:

- truthiness of an optional string is `Some` and non-empty (`Strings.Truthy`), and `a || b` is `Strings.OrElse`;
- `trim` and the regex class `\s` use the exact set of ECMAScript white-space and line-terminator characters (`Strings.IsSpace`);
- `parseInt` of a numeric text is `Strings.ParseInt`, with `None` standing for `NaN`;
- the regex `.` excludes the four line terminators (`Strings.IsLineTerminator`);
- `Array.prototype.sort` is taken as stable (a stable insertion sort, `Lists.SortDesc`).

Where the source does something its authors evidently did not intend (see "## Findings"), the model computes what the source does, and the intended version is defined and proved beside it.

## Model

| member | source | states |
|---|---|---|
| AnalyticsDataProvider.TodayVisits | src/components/AnalyticsDataProvider.tsx:101-104 | Today's visits are those stamped at or after the start of today, never more than all records. |
| AnalyticsDataProvider.IpSet | src/components/AnalyticsDataProvider.tsx:107 | An address is in the set iff some record carries it as a non-empty IP. |
| AnalyticsDataProvider.IpSetBound | src/components/AnalyticsDataProvider.tsx:107-108 | There are never more distinct IPs than records. |
| AnalyticsDataProvider.UniqueVisitors | src/components/AnalyticsDataProvider.tsx:106-108 | The distinct-visitor figure is at most the number of records. |
| AnalyticsDataProvider.IpSetFilter | src/components/AnalyticsDataProvider.tsx:147-154 | A filtered part of the records has a subset of their IPs. |
| AnalyticsDataProvider.PagesPartitionVisits | src/components/AnalyticsDataProvider.tsx:121-144 | Each record lands in exactly one of the six buckets, so the bucket visits add up to the number of records. |
| AnalyticsDataProvider.CountPageVisits | src/components/AnalyticsDataProvider.tsx:120-144 | The counting loop leaves each counter equal to the bucket's visit count (a missing path counts as homepage), summing to the number of records. |
| AnalyticsDataProvider.PageUniqueBounds | src/components/AnalyticsDataProvider.tsx:146-161 | With the bucket decided as for the visits, a bucket's distinct visitors are at most its visits and at most all distinct visitors. |
| AnalyticsDataProvider.PageIpsAsWrittenWithinAll | src/components/AnalyticsDataProvider.tsx:146-161 | Under the path filters as written, a bucket's distinct visitors are among all distinct visitors. |
| AnalyticsDataProvider.PageUniqueAsWrittenBounds | src/components/AnalyticsDataProvider.tsx:147-151 | For the five named pages, the source's own path filter still keeps both bounds. |
| AnalyticsDataProvider.OtherUniqueExceedsVisitsAsWritten | src/components/AnalyticsDataProvider.tsx:127-154 | One record with an empty path: no `other` visit, yet one `other` distinct visitor under the source's filter. |
| AnalyticsDataProvider.DevicesPartition | src/components/AnalyticsDataProvider.tsx:170-174 | mobile + desktop + tablet + records with any other device type = all records. |
| AnalyticsDataProvider.CountDevices | src/components/AnalyticsDataProvider.tsx:164-174 | The device loop's three counters equal the per-type counts, and together they leave out exactly the unclassified records. |
| AnalyticsDataProvider.SlugKey | src/components/AnalyticsDataProvider.tsx:181 | An article's table key is its slug when truthy, else `unknown`, so never empty. |
| AnalyticsDataProvider.FirstSeenKeys | src/components/AnalyticsDataProvider.tsx:180-189 | The keys in insertion order are exactly the keys that occur among the article views. |
| AnalyticsDataProvider.FirstSeenDistinct | src/components/AnalyticsDataProvider.tsx:182 | Each key enters the table once. |
| AnalyticsDataProvider.FirstTitleNew | src/components/AnalyticsDataProvider.tsx:182-189 | When a key first appears, its entry's title is taken from that view (or `未知标题`). |
| AnalyticsDataProvider.FirstTitleSnoc | src/components/AnalyticsDataProvider.tsx:182 | Later views of a key never change its title. |
| AnalyticsDataProvider.TallySnocSeen | src/components/AnalyticsDataProvider.tsx:190-192 | A further view of a known key adds one view and its IP to that entry. |
| AnalyticsDataProvider.TallySnocNew | src/components/AnalyticsDataProvider.tsx:182-192 | A first view creates the entry with its title, its key as slug, one view and its IP. |
| AnalyticsDataProvider.TallySnocOther | src/components/AnalyticsDataProvider.tsx:190-192 | A view leaves the entries of other keys unchanged. |
| AnalyticsDataProvider.TallyBlogViews | src/components/AnalyticsDataProvider.tsx:177-193 | The map-filling loop yields the keys in insertion order and, for every key, the entry tallied from the views with that key. |
| AnalyticsDataProvider.Rows | src/components/AnalyticsDataProvider.tsx:195-199 | One row per key in insertion order, each the row of its own key. |
| AnalyticsDataProvider.RowsDistinct | src/components/AnalyticsDataProvider.tsx:195-199 | No row appears twice, and every key that occurs has its row. |
| AnalyticsDataProvider.TopSorted | src/components/AnalyticsDataProvider.tsx:200 | Sorting by views and keeping ten gives a list sorted by views, of length min(rows, 10). |
| AnalyticsDataProvider.TopMembers | src/components/AnalyticsDataProvider.tsx:200 | The kept rows are rows of the table, none twice. |
| AnalyticsDataProvider.TopLeftOut | src/components/AnalyticsDataProvider.tsx:200 | A row left out means ten rows were kept, and it has no more views than the tenth. |
| AnalyticsDataProvider.KeyNonEmpty | src/components/AnalyticsDataProvider.tsx:181 | Every key that occurs is non-empty. |
| AnalyticsDataProvider.RowBounds | src/components/AnalyticsDataProvider.tsx:197-240 | In every row, unique views ≤ views, today's views ≤ views, and today's distinct viewers ≤ today's views. |
| AnalyticsDataProvider.BlogTableRows | src/components/AnalyticsDataProvider.tsx:195-241 | Every row of the shown table is the row of its own key with today's figures added, and its figures nest. |
| AnalyticsDataProvider.BlogTableDistinct | src/components/AnalyticsDataProvider.tsx:182-200 | No article appears twice in the table. |
| AnalyticsDataProvider.RankRowsSorted | src/components/AnalyticsDataProvider.tsx:200-241 | Adding today's figures keeps the ranked rows sorted and their number. |
| AnalyticsDataProvider.RankRowsTop | src/components/AnalyticsDataProvider.tsx:200 | A row whose slug is not in the ranked table means ten were kept, and it has no more views than the last one. |
| AnalyticsDataProvider.BlogTableSorted | src/components/AnalyticsDataProvider.tsx:195-200 | The table holds min(article count, 10) rows, sorted by views from most to least. |
| AnalyticsDataProvider.BlogTableTop | src/components/AnalyticsDataProvider.tsx:195-200 | An article left out of the table has no more views than the table's tenth row. |
| AnalyticsDataProvider.ComputeBlogStats | src/components/AnalyticsDataProvider.tsx:176-241 | The imperative computation (map tally, insertion order, sort, slice, today's figures) equals the article table function. |
| AnalyticsDataProvider.DayOf | src/components/AnalyticsDataProvider.tsx:208-222 | A day's entry starts at its first millisecond and has distinct visitors ≤ visits. |
| AnalyticsDataProvider.DayStartStep | src/components/AnalyticsDataProvider.tsx:204-208 | Consecutive days of the series start one day apart. |
| AnalyticsDataProvider.DailyStats | src/components/AnalyticsDataProvider.tsx:203-223 | The loop over i = 0..6 yields the seven-day series, today first. |
| AnalyticsDataProvider.Series | src/components/AnalyticsDataProvider.tsx:203-223 | The series of n days has n entries, and entry i covers the day i days before today. |
| AnalyticsDataProvider.SeriesSnoc | src/components/AnalyticsDataProvider.tsx:218-222 | Each loop pass appends the next older day. |
| AnalyticsDataProvider.WindowSplit | src/components/AnalyticsDataProvider.tsx:209-214 | Day windows are disjoint, and the last n days are the last n − 1 plus the day before them. |
| AnalyticsDataProvider.SeriesCoversLastDays | src/components/AnalyticsDataProvider.tsx:203-223 | The series' visits add up to the number of records in the last n days, each counted once. |
| AnalyticsDataProvider.SeriesBound | src/components/AnalyticsDataProvider.tsx:203-223 | The seven days never count more visits than there are records. |
| AnalyticsDataProvider.FirstDayWithinToday | src/components/AnalyticsDataProvider.tsx:211-214 | Today's entry of the series counts no more than the today figure of lines 102-104. |
| AnalyticsDataProvider.Aggregate | src/components/AnalyticsDataProvider.tsx:98-251 | The whole step-by-step aggregation equals the summary function, whose per-page distinct visitors are picked by the raw-path filters of the source. |
| AnalyticsDataProvider.SummaryConsistent | src/components/AnalyticsDataProvider.tsx:99-223 | distinct visitors ≤ total, today ≤ total, the three devices ≤ total, at most 10 article rows, exactly 7 days, the days' visits ≤ total, and day 0 ≤ today. |
| AnalyticsDataProvider.SummaryPages | src/components/AnalyticsDataProvider.tsx:121-144 | The six page buckets' visits add up to the total. |
| AnalyticsDataProvider.SummaryPageVisitors | src/components/AnalyticsDataProvider.tsx:146-161 | In the summary every bucket's distinct visitors fit within all distinct visitors, and each named page's fit within its visits (the `other` bucket's need not). |
| AnalyticsDataProvider.AnalyticsState.constructor | src/components/AnalyticsDataProvider.tsx:43-63 | The hook starts with all figures zero, empty lists, and loading on. |
| AnalyticsDataProvider.AnalyticsState.FetchAnalytics | src/components/AnalyticsDataProvider.tsx:65-257 | A fetched body replaces the figures with the summary of its results (an empty list when missing), per-page distinct visitors as the source filters them; a failure keeps them; loading ends either way. |
| AnalyticsTracker.DeviceName | src/components/AnalyticsTracker.tsx:164 | The stored device type is one of `mobile`, `desktop`, `tablet`. |
| AnalyticsTracker.IPadIsTablet | src/components/AnalyticsTracker.tsx:166-168 | An agent containing iPad in any case is a tablet, as written and as corrected. |
| AnalyticsTracker.AndroidMobileIsTabletAsWritten | src/components/AnalyticsTracker.tsx:166-168 | As written, Android followed later on its line by the word Mobile is classified tablet. |
| AnalyticsTracker.AndroidIsMobilePattern | src/components/AnalyticsTracker.tsx:165 | Any agent containing Android matches the mobile pattern. |
| AnalyticsTracker.AndroidPhoneIsMobile | src/components/AnalyticsTracker.tsx:165-169 | With the corrected tablet pattern, a non-iPad agent whose every Android is followed by the word Mobile is mobile. |
| AnalyticsTracker.AndroidWithoutMobileIsTablet | src/components/AnalyticsTracker.tsx:166-168 | With the corrected pattern, Android not followed by the word Mobile is a tablet. |
| AnalyticsTracker.OtherIsDesktop | src/components/AnalyticsTracker.tsx:168-170 | An agent matching neither pattern is a desktop. |
| AnalyticsTracker.PhoneClassifiedAsTabletAsWritten | src/components/AnalyticsTracker.tsx:166-169 | The agent `Android 13; Mobile` is a tablet as written and mobile once corrected. |
| AnalyticsTracker.FirstMatch | src/components/AnalyticsTracker.tsx:173-188 | The index found is the first rule whose pattern occurs: none before it occurs, and it does unless no rule matched. |
| AnalyticsTracker.ClassifyStep | src/components/AnalyticsTracker.tsx:173-188 | An ordered classifier gives the first rule's name when it matches, else the rest's answer, ending in the fallback. |
| AnalyticsTracker.BrowserIsFirstMatch | src/components/AnalyticsTracker.tsx:173-179 | The browser chain is the first match over Chrome, Firefox, Safari, Edge, else Other. |
| AnalyticsTracker.OSIsFirstMatch | src/components/AnalyticsTracker.tsx:181-188 | The system chain is the first match over Windows, Mac, Linux, Android, iOS, else Other. |
| AnalyticsTracker.ChromeBeforeSafari | src/components/AnalyticsTracker.tsx:174-176 | An agent naming both Chrome and Safari is Chrome. |
| AnalyticsTracker.MacBeforeIOS | src/components/AnalyticsTracker.tsx:182-186 | An agent naming Mac and not Windows is macOS, so iOS devices report macOS. |
| AnalyticsTracker.LinuxBeforeAndroid | src/components/AnalyticsTracker.tsx:182-185 | An agent naming Linux and Android, and neither Windows nor Mac, is Linux. |
| AnalyticsTracker.OrNull | src/components/AnalyticsTracker.tsx:87-88 | `value \|\| null` is the value exactly when it is truthy. |
| AnalyticsTracker.PayloadDefaults | src/components/AnalyticsTracker.tsx:76-89 | Every field of the record: kind, path, title (props, then document, then `Unknown`), agent (`Unknown` when empty) and referrer take the supplied value when truthy, else their default; the timestamp reads back as `now`; the article slug and title are kept when truthy, else null; the IP is the resolved one; device, browser and system are the classifiers' answers, with the tablet pattern as written. |
| AnalyticsTracker.StoredVisitReadsBack | src/components/AnalyticsTracker.tsx:76-149 | A stored view reads back with time `now`, a non-empty path, one of the three device types, the given kind or `page_view`, and the page's slug or `unknown` as its article key. |
| BlogEditor.FindIndex | src/components/editor/BlogEditor.tsx:86 | The index is the first draft with the id, or −1 when none has it. |
| BlogEditor.Find | src/components/editor/BlogEditor.tsx:86 | The draft found has the id; none is found iff no draft has it. |
| BlogEditor.AsDraft | src/components/editor/BlogEditor.tsx:88-91 | The saved draft is the post with status forced to draft and nothing else changed. |
| BlogEditor.UpsertCases | src/components/editor/BlogEditor.tsx:93-97 | Both branches of the save (replace at the found index, or push) are the upsert function. |
| BlogEditor.UpsertExisting | src/components/editor/BlogEditor.tsx:86-94 | Saving an existing id replaces that draft at its index; length and all other drafts stay. |
| BlogEditor.UpsertNew | src/components/editor/BlogEditor.tsx:95-96 | Saving a new id appends it at the end. |
| BlogEditor.UpsertFind | src/components/editor/BlogEditor.tsx:86-97 | After saving, looking up the id finds exactly what was saved. |
| BlogEditor.UpsertTwice | src/components/editor/BlogEditor.tsx:86-97 | Saving the same draft twice is the same as saving it once. |
| BlogEditor.FindIndexAt | src/components/editor/BlogEditor.tsx:86 | A position holding the id with none before it is the index found. |
| BlogEditor.RemoveId | src/components/editor/BlogEditor.tsx:180 | Removal never lengthens the list. |
| BlogEditor.RemoveIdSpec | src/components/editor/BlogEditor.tsx:179-181 | Removal keeps exactly the drafts with another id, in their order, leaves none with the id, and shortens the list by the number removed. |
| BlogEditor.RemoveAbsentId | src/components/editor/BlogEditor.tsx:180 | Removing an id no draft has changes nothing. |
| BlogEditor.TrimAllClean | src/components/editor/BlogEditor.tsx:127 | One element per part, each a slice of its part that trimming again leaves unchanged. |
| BlogEditor.TrimAvoids | src/components/editor/BlogEditor.tsx:127 | Trimming introduces no character. |
| BlogEditor.ParseTagsClean | src/components/editor/BlogEditor.tsx:127 | Every parsed tag is non-empty, trimmed and free of commas. |
| BlogEditor.ParseTagsJoin | src/components/editor/BlogEditor.tsx:127 | Clean tags joined with commas parse back to the same list. |
| BlogEditor.BoolText | src/components/editor/BlogEditor.tsx:133 | A boolean prints as `true` exactly when it is true, else `false`. |
| BlogEditor.FrontMatterLines | src/components/editor/BlogEditor.tsx:129-137 | Read line by line, the file is `---`, the quoted title, date and summary, `featured`, the `tags: [...]` line, `---`, a blank line, then the content's lines. |
| BlogEditor.DraftStorage.constructor | src/components/editor/BlogEditor.tsx:85 | The decoded stores start as given. |
| BlogEditor.PublishRequest | src/components/editor/BlogEditor.tsx:110-153 | A file is sent iff the title and content are not blank and a token is available. |
| BlogEditor.PublishRequestSpec | src/components/editor/BlogEditor.tsx:125-194 | The file sent is `blog-<now>.md` holding the front matter with the parsed tags; no file means the empty-fields or no-token message; an accepted commit shows the success message. |
| BlogEditor.Editor.constructor | src/components/editor/BlogEditor.tsx:18-29 | The editor starts with a blank post, not saving, and no message. |
| BlogEditor.Editor.Load | src/components/editor/BlogEditor.tsx:31-53 | A pending editing draft becomes the post; otherwise the post gets the id `blog-<now>` and today's date; either way no hand-off remains. |
| BlogEditor.Editor.SaveDraft | src/components/editor/BlogEditor.tsx:76-107 | A blank title or content only sets the error message; otherwise the post, marked draft, is upserted into storage, the success message is set and saving ends. |
| BlogEditor.Editor.PublishPost | src/components/editor/BlogEditor.tsx:109-198 | The file sent is the publish request; only an accepted commit removes the post's id from the stored drafts; the status is the outcome's message. |
| DraftsPage.DraftHeaderDropsTags | src/app/write/drafts/page.tsx:98-105 | The drafts page's front matter is the editor's with the `tags` line removed. |
| DraftsPage.DraftMarkdownLines | src/app/write/drafts/page.tsx:98-105 | Read line by line, the stored markdown is the header (no tags line), then the content's lines. |
| DraftsPage.PublishedOf | src/app/write/drafts/page.tsx:109-113 | The published entry is the draft with status published, plus its markdown. |
| DraftsPage.DraftsPageState.constructor | src/app/write/drafts/page.tsx:19-21 | The page starts unauthenticated, loading, with no drafts. |
| DraftsPage.DraftsPageState.CheckAuth | src/app/write/drafts/page.tsx:24-52 | With the one-day window, an accepted session authenticates and loads the drafts, an expired one loses both keys, and loading ends. |
| DraftsPage.DraftsPageState.LoadDrafts | src/app/write/drafts/page.tsx:54-64 | The stored drafts become the list. |
| DraftsPage.DraftsPageState.HandleAuthSuccess | src/app/write/drafts/page.tsx:66-69 | Authenticated, with the stored drafts loaded. |
| DraftsPage.DraftsPageState.HandleDeleteDraft | src/app/write/drafts/page.tsx:72-82 | A confirmed delete removes exactly the drafts with that id from the list and storage; a declined one changes nothing. |
| DraftsPage.DraftsPageState.HandleEditDraft | src/app/write/drafts/page.tsx:84-91 | A known id is handed over through `editing-draft` and the page navigates; an unknown id changes nothing. |
| DraftsPage.DraftsPageState.HandlePublishDraft | src/app/write/drafts/page.tsx:93-128 | A known id's draft is appended, published and with its markdown, to the published list, and removed from the drafts; an unknown id changes nothing. |
| DraftsPage.DraftsPageState.View | src/app/write/drafts/page.tsx:130-150 | The spinner while loading, the list only when loaded and authenticated. |
| DraftsPage.EditHandOff | src/app/write/drafts/page.tsx:84-91 | Edit followed by the editor's load gives the editor exactly the chosen draft and leaves no hand-off behind. |
| AuthSession.CheckEffect | src/app/write/page.tsx:26-42 | A missing flag or time leaves storage alone and is refused; an accepted session leaves storage alone; an expired one removes exactly the two auth keys. |
| AuthSession.GrantedStores | src/components/auth/PasswordAuth.tsx:26-27 | After a correct password the flag is `true` and the stored time reads back as the login time. |
| AuthSession.GrantedAccepted | src/components/auth/PasswordAuth.tsx:26-27 | A login checked within the window is accepted and storage stays. |
| AuthSession.GrantedExpires | src/app/write/page.tsx:33-41 | A login checked after the window is refused and loses both keys. |
| AuthSession.SevenDaysExactly | src/app/write/page.tsx:33 | The comparison is strict: exactly seven days later the editor page still accepts the login, one millisecond more it does not. |
| AuthSession.DraftsStricterThanWrite | src/app/write/drafts/page.tsx:34 | Whatever the drafts page accepts, the write page accepts. |
| AuthSession.WindowsDisagree | src/app/write/drafts/page.tsx:34 | Two days after login the write page accepts and the drafts page refuses. |
| AuthSession.UnparsedTimeNeverExpires | src/app/write/page.tsx:32-33 | A stored time that does not parse is `NaN`, so the session is accepted and kept. |
| BrowserStorage.Store.constructor | src/app/write/page.tsx:26-27 | The store starts with the given entries. |
| BrowserStorage.Store.GetItem | src/app/write/page.tsx:26-27 | `getItem` gives the stored text exactly when the key is present. |
| BrowserStorage.Store.SetItem | src/components/auth/PasswordAuth.tsx:26-27 | `setItem` writes one key and leaves the rest. |
| BrowserStorage.Store.RemoveItem | src/app/write/page.tsx:39-40 | `removeItem` removes one key and leaves the rest. |
| WritePage.WritePageState.constructor | src/app/write/page.tsx:19-20 | The page starts unauthenticated and loading. |
| WritePage.WritePageState.CheckAuth | src/app/write/page.tsx:22-51 | With the seven-day window, an accepted session authenticates, an expired one loses both keys, and loading ends whatever the outcome. |
| WritePage.WritePageState.HandleAuthSuccess | src/app/write/page.tsx:53-55 | Authenticated, with loading unchanged. |
| WritePage.WritePageState.View | src/app/write/page.tsx:58-68 | The spinner while loading, the editor only when loaded and authenticated. |
| PasswordAuth.PasswordAuthForm.constructor | src/components/auth/PasswordAuth.tsx:12-14 | The form starts empty, with no error, not loading. |
| PasswordAuth.PasswordAuthForm.SetPassword | src/components/auth/PasswordAuth.tsx:12 | Typing changes only the password. |
| PasswordAuth.PasswordAuthForm.HandleSubmit | src/components/auth/PasswordAuth.tsx:17-39 | Success iff the password is the configured one: it writes both auth keys at `now` and leaves no error; any other sets the error and leaves storage; the field stays and loading ends. |
| PasswordModal.PasswordModalForm.constructor | src/components/auth/PasswordModal.tsx:13-15 | The modal starts empty, with no error, not loading. |
| PasswordModal.PasswordModalForm.View | src/components/auth/PasswordModal.tsx:48 | Nothing is drawn iff the modal is closed; otherwise the form shows the field and error. |
| PasswordModal.PasswordModalForm.SetPassword | src/components/auth/PasswordModal.tsx:13 | Typing changes only the password. |
| PasswordModal.PasswordModalForm.HandleSubmit | src/components/auth/PasswordModal.tsx:18-40 | The configured password writes both keys, reports success, closes and clears the field; any other sets the error and leaves storage and the field; loading ends. |
| PasswordModal.PasswordModalForm.HandleClose | src/components/auth/PasswordModal.tsx:42-46 | Closing clears the password and the error before `onClose`. |
| GuestbookForm.ErrorText | src/app/guestbook/components/GuestbookForm.tsx:24-36 | Every error has a non-empty message. |
| GuestbookForm.ValidateAccepts | src/app/guestbook/components/GuestbookForm.tsx:20-42 | The form is valid iff the trimmed message has 10 to 500 code units and the contact is blank, a handle or address-shaped. |
| GuestbookForm.ContentAccepted | src/app/guestbook/components/GuestbookForm.tsx:23-29 | The message is accepted iff its trimmed length is within 10..500. |
| GuestbookForm.ContactAccepted | src/app/guestbook/components/GuestbookForm.tsx:31-38 | A contact is accepted iff it is blank, starts with `@`, or has the address shape. |
| GuestbookForm.PaddedAddressRefused | src/app/guestbook/components/GuestbookForm.tsx:31-35 | ` a@b.c` is refused: the pattern is matched against the untrimmed text. |
| GuestbookForm.PlainAddressAccepted | src/app/guestbook/components/GuestbookForm.tsx:32-35 | `a@b.c` is accepted. |
| GuestbookForm.IdentityNeverChecked | src/app/guestbook/components/GuestbookForm.tsx:20-42 | Validation does not depend on the identity. |
| GuestbookForm.GuestbookFormState.constructor | src/app/guestbook/components/GuestbookForm.tsx:11-18 | The form starts with empty fields, no errors, not submitting. |
| GuestbookForm.GuestbookFormState.ValidateForm | src/app/guestbook/components/GuestbookForm.tsx:20-42 | The errors found replace the old ones, and the result is true iff there are none. |
| GuestbookForm.GuestbookFormState.HandleInputChange | src/app/guestbook/components/GuestbookForm.tsx:68-73 | Typing updates only that field and clears only that field's error. |
| GuestbookForm.GuestbookFormState.HandleSubmit | src/app/guestbook/components/GuestbookForm.tsx:44-66 | An invalid form only shows its errors; a valid one is submitted, a successful callback resets all fields and errors, and submitting ends. |
| GuestbookItem.Avatar | src/app/guestbook/components/GuestbookItem.tsx:14 | The avatar is the identity's first character, or `匿`. |
| GuestbookItem.DisplayName | src/app/guestbook/components/GuestbookItem.tsx:19 | The name is the identity, or `匿名用户`. |
| GuestbookItem.AvatarStartsName | src/app/guestbook/components/GuestbookItem.tsx:14-19 | A named entry's avatar is the first character of its shown name. |
| GuestbookItem.ContactLine | src/app/guestbook/components/GuestbookItem.tsx:21-25 | The contact line appears iff the contact is non-empty. |
| GuestbookItem.LabelAgreesWithForm | src/app/guestbook/components/GuestbookItem.tsx:23 | For a contact the form accepts, the WeChat label is given iff it is a handle, and the email label only to a blank or address-shaped contact. |
| Blogs.SortByDate | src/app/blog/page.tsx:23-24 | Sorting by date gives a permutation, newest first. |
| Blogs.SortByDateTwice | src/app/page.tsx:16-21 | Sorting an already sorted list again changes nothing. |
| Blogs.TagListMatchesExactly | src/app/blog/page.tsx:28-29 | For list fields, a post carries a tag iff the tag is an element of its tags or keywords. |
| Blogs.TextFieldMatchesPart | src/app/blog/page.tsx:28-29 | For a text field, `includes` is a substring test: a tag inside a longer text matches. |
| BlogPage.FilteredBlogsSpec | src/app/blog/page.tsx:23-31 | The list is newest first and an order-preserving part of the sorted posts; with no tag it holds all posts; with a tag exactly the posts carrying it. |
| BlogPage.Toggle | src/app/blog/page.tsx:34 | Clicking the selected tag clears it; clicking any other tag selects it. |
| BlogPage.ToggleTwice | src/app/blog/page.tsx:34 | Two clicks on the same tag restore no selection or that tag, and clear any other selection. |
| BlogPage.WithSelection | src/app/blog/page.tsx:38-43 | The `tag` parameter is set iff a tag is selected; other parameters stay. |
| BlogPage.UrlRoundTrip | src/app/blog/page.tsx:16-43 | Reading the parameter back on a fresh page gives the selection that was written. |
| BlogPage.BlogPageState.constructor | src/app/blog/page.tsx:12-13 | The page starts with no tag and the given parameters. |
| BlogPage.BlogPageState.ReadTagParam | src/app/blog/page.tsx:16-21 | A truthy `tag` parameter becomes the selection; otherwise the selection stays. |
| BlogPage.BlogPageState.HandleTagClick | src/app/blog/page.tsx:33-45 | The selection toggles and the URL parameters follow it. |
| HomePage.FeaturedBlogsSpec | src/app/page.tsx:16-18 | The featured list is exactly the posts with `featured`, newest first. |
| HomePage.Slugs | src/app/page.tsx:25 | The slug list has one slug per post, in order. |
| HomePage.RecentBlogsSpec | src/app/page.tsx:116 | At most 4 posts, newest first, each a non-featured post whose slug no featured post has, and a prefix of the remaining posts of the date-sorted, tag-filtered list of lines 20-32. |
| HomePage.RecentAvoidsFeatured | src/app/page.tsx:116 | No recent post shares a slug with a featured post. |
| HomePage.Resolve | src/app/page.tsx:43-46 | Each declared item becomes its name with the configured link for its key. |
| HomePage.SocialLinksSpec | src/app/page.tsx:36-47 | The links keep the declared order, all have an address, and an item is dropped iff it has none. |
| HomePage.SiteSocialLinks | src/app/page.tsx:36-47 | With the site's configuration the links are 小红书, 公众号, GitHub, in that order. |
| HomePage.PresentTexts | src/app/page.tsx:57-60 | Dropping absent entries never lengthens the list. |
| HomePage.SameAsSpec | src/app/page.tsx:57-60 | `sameAs` holds exactly the configured GitHub and Xiaohongshu addresses, GitHub first. |
| FeaturedBlogsList.ShownSpec | src/components/FeaturedBlogsList.tsx:16-27 | With no tag the initial list is shown; with a tag exactly the initial posts carrying it, in their order. |
| FeaturedBlogsList.ShownSorted | src/components/FeaturedBlogsList.tsx:19-22 | A newest-first initial list stays newest first. |
| FeaturedBlogsList.ShownIdempotent | src/components/FeaturedBlogsList.tsx:16-27 | Filtering the shown list again by the same tag changes nothing. |
| FeaturedBlogsList.HomeShowsFeatured | src/app/page.tsx:112-115 | On the home page, where no tag is selected, the list is every featured post, newest first. |
| FeaturedBlogsList.ShownAgreesWithBlogPage | src/components/FeaturedBlogsList.tsx:19-22 | Over the date-sorted posts the featured filter agrees with the blog page's filter. |
| TagList.CleanNamesClean | src/components/ui/TagList.tsx:29-32 | Every name a list contributes is trimmed and non-empty. |
| TagList.AllNamesClean | src/components/ui/TagList.tsx:25-45 | Every name pooled from tags and keywords is trimmed and non-empty. |
| TagList.NonListFieldsIgnored | src/components/ui/TagList.tsx:27-37 | A post whose tags and keywords are not lists adds no name. |
| TagList.TallyFromCounts | src/components/ui/TagList.tsx:31-41 | Counting names into a map adds each name's occurrences to its count. |
| TagList.TallyCounts | src/components/ui/TagList.tsx:23-45 | From the empty map, a name has an entry iff it occurs, with its number of occurrences. |
| TagList.CountEach | src/components/ui/TagList.tsx:28-33 | The inner loop adds one per non-blank entry under its trimmed name. |
| TagList.CountTags | src/components/ui/TagList.tsx:23-45 | The nested loops give the tally of all pooled names. |
| TagList.FirstOccurrences | src/components/ui/TagList.tsx:48 | Each name once, and exactly the names that occur. |
| TagList.Entries | src/components/ui/TagList.tsx:48-49 | One name/count pair per distinct name. |
| TagList.TagArraySpec | src/components/ui/TagList.tsx:48-50 | The tag array is sorted by count, non-increasing, has each name once, and each name's count is its total number of occurrences. |
| TagList.EntriesExact | src/components/ui/TagList.tsx:48-49 | Each entry pairs a name with its tally. |
| TagList.TagListState.constructor | src/components/ui/TagList.tsx:18-19 | No tags, collapsed. |
| TagList.TagListState.LoadTags | src/components/ui/TagList.tsx:21-53 | The effect stores the sorted tag array of the posts' pooled names. |
| TagList.TagListState.ToggleExpanded | src/components/ui/TagList.tsx:79 | The button flips the expanded flag. |
| TagList.TagListState.View | src/components/ui/TagList.tsx:55-84 | Nothing is drawn when there are no tags; the list is clipped unless expanded; the toggle appears iff there are more than 6 tags. |
| TagList.ToggleLabelNamesCount | src/components/ui/TagList.tsx:82 | The collapsed label shows the tag count in decimal, the expanded one `收起`. |
| DraftItem.FindOnLine | src/components/editor/DraftItem.tsx:34-37 | A lazy `.*?` stops at the first occurrence of the pattern not past a line terminator, or finds none before the line ends. |
| DraftItem.HashRun | src/components/editor/DraftItem.tsx:33 | The leading run of `#`, exactly. |
| DraftItem.SpaceRun | src/components/editor/DraftItem.tsx:33 | The leading run of white space, exactly. |
| DraftItem.StripHeadings | src/components/editor/DraftItem.tsx:33 | Removing heading markers never lengthens the text. |
| DraftItem.Unwrap | src/components/editor/DraftItem.tsx:34-35 | Removing a delimiter pair never lengthens the text. |
| DraftItem.BracketEnd | src/components/editor/DraftItem.tsx:36-37 | A bracketed reference ends after at least the opener, `](` and `)`. |
| DraftItem.Relabel | src/components/editor/DraftItem.tsx:36-37 | Replacing references by a label no longer than the shortest reference never lengthens the text. |
| DraftItem.PlainText | src/components/editor/DraftItem.tsx:32-37 | The plain text is never longer than the content. |
| DraftItem.Truncate | src/components/editor/DraftItem.tsx:39 | A text of at most 100 characters is kept; a longer one becomes its first 100 characters and `...`, 103 in all. |
| DraftItem.ContentPreviewBound | src/components/editor/DraftItem.tsx:30-40 | The preview has at most 103 characters, at most 3 more than the content, and is the plain text itself when the content is short. |
| DraftItem.StripHeadingsWithoutHash | src/components/editor/DraftItem.tsx:33 | Text without `#` is left alone. |
| DraftItem.UnwrapWithout | src/components/editor/DraftItem.tsx:34-35 | Text without the delimiter is left alone. |
| DraftItem.RelabelWithout | src/components/editor/DraftItem.tsx:36-37 | Text without `[` is left alone. |
| DraftItem.PlainTextWithoutMarkup | src/components/editor/DraftItem.tsx:32-37 | Text without `#`, `*` or `[` passes through all five replacements unchanged. |
| DraftItem.FindOnLineAt | src/components/editor/DraftItem.tsx:34-37 | A lazy scan stops exactly at the first occurrence on the line. |
| DraftItem.FirstAt | src/components/editor/DraftItem.tsx:34-37 | A lazy scan finds the pattern at the first position on the line where it occurs, when no character before it there could start the pattern. |
| DraftItem.HeadingEndAt | src/components/editor/DraftItem.tsx:33 | A marker of one to six `#` followed by white space ends where that white space ends. |
| DraftItem.StripHeadingsStep | src/components/editor/DraftItem.tsx:33 | One to six `#` followed by white space are dropped with all of that white space, and the scan goes on after it. |
| DraftItem.StripHeadingsKeep | src/components/editor/DraftItem.tsx:33 | A character other than `#` is kept, and the scan goes on after it. |
| DraftItem.StripHeadingsKeepHash | src/components/editor/DraftItem.tsx:33 | A `#` that starts no marker (its run is longer than six, ends the text, or is not followed by white space) is kept, and the scan goes on after it. |
| DraftItem.UnwrapStep | src/components/editor/DraftItem.tsx:34-35 | A delimited span on one line, with no delimiter character in its text, becomes its text, and the scan goes on after it. |
| DraftItem.UnwrapKeep | src/components/editor/DraftItem.tsx:34-35 | A character that cannot start the delimiter is kept. |
| DraftItem.BracketEndAt | src/components/editor/DraftItem.tsx:36-37 | A reference ends just after the first `)` that follows its first `](` on the line. |
| DraftItem.RelabelStep | src/components/editor/DraftItem.tsx:36-37 | A reference `O x](u)` on one line, with no `]` in `x` and no `)` in `u`, becomes the label, and the scan goes on after it. |
| DraftItem.RelabelKeep | src/components/editor/DraftItem.tsx:36-37 | A character that cannot start the opener is kept. |
| DraftItem.PlainTextBold | src/components/editor/DraftItem.tsx:32-37 | `**x**` previews as `x` for plain one-line text `x`. |
| DraftItem.PlainTextHeading | src/components/editor/DraftItem.tsx:32-37 | A heading of plain text previews as its text, without the marker and its white space. |
| DraftItem.HeadingMarkerDropped | src/components/editor/DraftItem.tsx:33 | `## Hi` becomes `Hi`. |
| DraftItem.LongMarkerKeepsFirst | src/components/editor/DraftItem.tsx:33 | Seven `#` and white space: the first `#` is kept and the other six go with the white space, so `####### x` becomes `#x`. |
| DraftItem.HashRunIs | src/components/editor/DraftItem.tsx:33 | The run of `#` is read off the first non-`#` character. |
| DraftItem.ImageLabelled | src/components/editor/DraftItem.tsx:36 | `![a](b)` becomes `[图片]`. |
| DraftItem.ImageLabelThenParensIsLink | src/components/editor/DraftItem.tsx:36-37 | The image label is itself bracketed: the link replacement turns `[图片](c)`, which is what an image directly followed by `(c)` has become, into `[链接]`. |
| DraftItem.CardTitle | src/components/editor/DraftItem.tsx:47 | The title shown is the draft's when non-empty, and `无标题` exactly when it is empty. |
| DraftItem.CardOf | src/components/editor/DraftItem.tsx:46-60 | The card shows the title as chosen, the summary line iff the summary is non-empty, the content's preview (at most 103 characters) and the featured flag. |
| ArticleComments.CommentsKey | src/components/comments/ArticleComments.tsx:28-62 | The storage key starts with `article-comments-`. |
| ArticleComments.CommentsKeyInjective | src/components/comments/ArticleComments.tsx:28-62 | Different articles never share a key. |
| ArticleComments.CommentStorage.constructor | src/components/comments/ArticleComments.tsx:28 | The stored lists start as given. |
| ArticleComments.CommentStorage.Put | src/components/comments/ArticleComments.tsx:62 | Writing a key changes that key only. |
| ArticleComments.NewComment | src/components/comments/ArticleComments.tsx:48-59 | The comment's content is the trimmed input, its timestamp `now`, and its id the decimal text of `now`. |
| ArticleComments.PrependKeepsOrder | src/components/comments/ArticleComments.tsx:31-61 | Prepending a comment no older than the rest keeps the list newest first. |
| ArticleComments.ArticleCommentsState.constructor | src/components/comments/ArticleComments.tsx:17-20 | No comments, empty input, not submitting, hidden. |
| ArticleComments.ArticleCommentsState.LoadComments | src/components/comments/ArticleComments.tsx:26-36 | Stored comments replace the list, sorted newest first; with none stored the list stays. |
| ArticleComments.ArticleCommentsState.SetArticleId | src/components/comments/ArticleComments.tsx:22-36 | A new article id loads that article's stored comments, newest first; with none stored the previous article's list stays; an unchanged id changes nothing. |
| ArticleComments.ArticleCommentsState.SetNewComment | src/components/comments/ArticleComments.tsx:92 | The text area sets the input. |
| ArticleComments.ArticleCommentsState.ToggleComments | src/components/comments/ArticleComments.tsx:79 | The button flips visibility. |
| ArticleComments.ArticleCommentsState.HandleSubmit | src/components/comments/ArticleComments.tsx:38-70 | A blank input changes nothing; otherwise the trimmed comment is prepended, only this article's key is written with the new list, the input is cleared and submitting ends. |
| ArticleComments.ArticleCommentsState.SubmitDisabled | src/components/comments/ArticleComments.tsx:100 | The button is disabled iff submitting or the input is blank. |
| ArticleComments.SubmittedComment | src/components/comments/ArticleComments.tsx:50-61 | A submission grows the list by one, keeps the older comments in order behind it, and its content is non-empty and trimmed. |
| SaveBlogLocal.FeaturedText | src/app/api/save-blog-local/route.ts:29 | `featured \|\| false` prints `true` exactly when featured is true. |
| SaveBlogLocal.Steps | src/app/api/save-blog-local/route.ts:44-50 | Five steps, the third naming `src/content/blog/<fileName>`. |
| SaveBlogLocal.HandleStatus | src/app/api/save-blog-local/route.ts:9-62 | 500 iff the body could not be read; 400 with the missing-fields error iff the title or content is missing or empty. |
| SaveBlogLocal.HandleWritten | src/app/api/save-blog-local/route.ts:19-52 | With both fields present the answer is 200, names the file `blog-<now>.md`, carries the markdown, and step 3 names its path. |
| SaveBlogLocal.HeaderDefaults | src/app/api/save-blog-local/route.ts:28-29 | A missing summary is written `""` and a missing flag `false`. |
| SaveBlogLocal.LocalMarkdownLines | src/app/api/save-blog-local/route.ts:25-32 | Read line by line, the file is the front matter followed by the content's lines. |
| SaveBlogLocal.MatchesDraftsPage | src/app/api/save-blog-local/route.ts:25-32 | Sending a draft's fields yields the same file the drafts page stores on publishing. |
| SaveBlogLocal.FileNamesDiffer | src/app/api/save-blog-local/route.ts:20-21 | Different times give different file names. |
| Tabs.InitialTab | src/components/ui/tabs.tsx:17 | The active tab starts as the default when truthy, else the first item's id; it is absent iff there is neither. |
| Tabs.FindItem | src/components/ui/tabs.tsx:19 | The item found is the first with the active id; none is found iff no item has it. |
| Tabs.Find | src/components/ui/tabs.tsx:19 | The first index from a position with the id, or none. |
| Tabs.TabsState.constructor | src/components/ui/tabs.tsx:16-17 | The tab strip starts on the initial tab. |
| Tabs.TabsState.Click | src/components/ui/tabs.tsx:28 | A click makes that item's id active. |
| Tabs.TabsState.ActiveContent | src/components/ui/tabs.tsx:19-42 | Content is shown iff some item has the active id, and it is such an item's content. |
| Tabs.ClickShowsItem | src/components/ui/tabs.tsx:19-42 | With distinct ids, after clicking item k the item found is k. |
| Tabs.ClickHighlightsItem | src/components/ui/tabs.tsx:28-33 | With distinct ids, after clicking item k exactly its button is highlighted. |
| Tabs.AtMostOneHighlighted | src/components/ui/tabs.tsx:29-33 | With distinct ids, at most one button is drawn as the active one. |
| Tabs.FirstTabShown | src/components/ui/tabs.tsx:17-19 | Without a default the first item is the one shown. |
| Tabs.NoItemsNoContent | src/components/ui/tabs.tsx:17-19 | No default and no items: nothing is active and no content is shown. |
| Tabs.UnknownDefaultShowsNothing | src/components/ui/tabs.tsx:17-42 | A default naming no item leaves the content area empty. |
| Strings.Trim | src/app/guestbook/components/GuestbookForm.tsx:23-31 | `trim` gives a slice of the text, no longer than it, that neither starts nor ends with white space. |
| Strings.TrimSlice | src/app/guestbook/components/GuestbookForm.tsx:23-31 | `trim` cuts only white space, and only at the ends: the result is a slice `s[i..j]` with only white space before `i` and from `j` on. |
| Strings.IsBlank | src/components/comments/ArticleComments.tsx:41 | `!s.trim()` holds iff every character is white space, iff the trimmed text is empty. |
| Strings.TrimIdempotent | src/components/editor/BlogEditor.tsx:127 | Trimming a trimmed text changes nothing. |
| Strings.Lower | src/components/AnalyticsTracker.tsx:165-166 | The case-insensitive match folds each character, keeping the length, and no ASCII upper-case letter is left. |
| Strings.LowerIdempotent | src/components/AnalyticsTracker.tsx:165-166 | Folding a folded text changes nothing. |
| Strings.Utf16Length | src/app/guestbook/components/GuestbookForm.tsx:25-27 | A text's JavaScript length is between its character count and twice it, and equals it when every character is in the Basic Multilingual Plane. |
| Strings.ParseIntNatToString | src/components/comments/ArticleComments.tsx:49 | The decimal text of a time reads back as that time. |
| Strings.SplitJoin | src/components/editor/BlogEditor.tsx:127 | Splitting the join of separator-free parts gives back the parts. |
| Lists.SortDesc | src/app/blog/page.tsx:24 | The comparator sort yields a permutation of its input, sorted from largest key to smallest. |

## Left out

- Network I/O is not modelled: the analytics fetch, the tracker's IP lookup and SDK save, the editor's runtime-env fetch and GitHub commit. Each becomes a parameter holding its outcome (`Response`, `lookup`, `token`, `PutOutcome`).
- JSON encoding and decoding of stored lists and of request bodies are left out. Storage holds the decoded values, and a body that cannot be read is the `Unreadable` request. JSON values of the wrong type (a numeric title, a non-string tag element) are not modelled.
- Base64 encoding, `encodeURIComponent` and the device fingerprint are foreign browser calls; the resolved IP or fingerprint is a parameter.
- Calendar arithmetic is left out. `setHours`/`setDate` local-midnight days are fixed windows of 86,400,000 ms counted back from a given `todayStart`, so daylight-saving days are not modelled. `toISOString` date keys, `toLocaleString` and `formatDate` are not modelled: a day is identified by its first millisecond, and `createdAt` and `today` are parameters.
- AnalyticsDataProvider.DayOf: the source reads timestamps with `parseInt` in the daily and today-article filters and compares the raw stored value elsewhere. The model reads every record's timestamp once as an optional integer, so a stored text with trailing non-digits is not modelled.
- Exceptions are not modelled: storage quota errors, a failing `JSON.parse` and errors thrown by callbacks (other than the guestbook callback's boolean outcome).
- `confirm`, `alert`, `setTimeout`, `requestIdleCallback`, `router.push`, `window.location` and `window.history.replaceState` are left out. A confirm answer is a boolean parameter; a navigation is a boolean result.
- The rich-text editors and the editor's field change handlers are plain setters and are not modelled.
- Strings are sequences of code points, while JavaScript measures `length`, `substring` and `charAt` in UTF-16 code units. This affects `DraftItem.Truncate` (characters outside the Basic Multilingual Plane count once here, twice in the source) and `GuestbookItem.Avatar` (`charAt(0)` of such a character is half a surrogate pair). The guestbook length limits use `Strings.Utf16Length` and are exact.
- Lists.SortDesc: `Array.prototype.sort` is taken to be stable (as engines since ES2019 are). Dates that do not parse (a `NaN` comparator) are not modelled; a post's date is an integer `time`.
- TagList.TagArraySpec: `Object.entries` lists integer-like keys first, in numeric order; the model lists every name in first-occurrence order before the stable sort. So the order among tags with equal counts can differ for numeric tag names. Names equal to `Object.prototype` members (`constructor`, `__proto__`) are not modelled.
- BlogPage.BlogPageState.ReadTagParam: the source applies `decodeURIComponent` to a parameter the URL API has already decoded. The model takes the parameter as it is, so a tag containing `%` (which can throw there) is not modelled.
- DraftItem.StripHeadings: its own contract only bounds the length; `StripHeadingsStep`, `StripHeadingsKeep` and `StripHeadingsKeepHash` together determine its result on every input.
- DraftItem.Unwrap: its own contract only bounds the length; `UnwrapStep` and `UnwrapKeep` cover spans whose text holds no delimiter character, not a span such as `*a**b*`.
- DraftItem.Relabel: its own contract only bounds the length; `RelabelStep` and `RelabelKeep` cover references with no `]` in the label and no `)` in the target.
- DraftItem.PlainText: its own contract only bounds the length; what the five replacements do together is stated for text without markup, a bold span and a heading (`PlainTextWithoutMarkup`, `PlainTextBold`, `PlainTextHeading`), not for all inputs.
- ArticleComments.NewComment: the two `Date.now()` calls are taken as one instant `now`.
- The tag buttons' highlighting and click wiring in `TagList.tsx`, and the tag links of the post lists, are pure rendering.
- The draft card's buttons only pass the id to the drafts page's handlers, which are modelled.
- The word count shown on post lists (`word-count` package) is a foreign call.
- The build-time base path (`NODE_ENV`) and the `content-collections` post list are parameters (`basePath`, `all`).
- Avatar/fingerprint details, LeanCloud SDK initialisation and the tracker's scheduling are I/O.
- The GitHub and file-writing save routes (`save-blog-github`, `save-blog`) are not part of this model. They do the same validation and markdown building as the local route, which is modelled.

## Findings

| source | as written | input that shows it | evidently intended | confidence | as-written member | corrected member |
|---|---|---|---|---|---|---|
| src/components/AnalyticsDataProvider.tsx:152-154 | The `other` bucket's distinct-visitor filter keeps records whose raw path is not one of the five named paths. A missing or empty path is therefore `other`, although the visit counter (line 122, 127) files it under the homepage. | one record with path `""` and IP `10.0.0.1`: `other.visits` is 0, `other.uniqueVisitors` is 1 | The bucket of the distinct-visitor sets is decided as for the visit counts, so each bucket's distinct visitors are at most its visits | not executed | AnalyticsDataProvider.OtherUniqueExceedsVisitsAsWritten | AnalyticsDataProvider.PageUniqueBounds |
| src/components/AnalyticsTracker.tsx:166 | `/iPad\|Android(?=.*\bMobile\b)/i` calls an Android agent a tablet exactly when it does announce `Mobile`, that is, when it is a phone. | the agent `Android 13; Mobile` is classified `tablet` | A negative lookahead, `Android(?!.*\bMobile\b)`: Android without `Mobile` is a tablet and an Android phone is mobile | not executed | AnalyticsTracker.PhoneClassifiedAsTabletAsWritten | AnalyticsTracker.AndroidPhoneIsMobile |
