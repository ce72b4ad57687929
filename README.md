# Recoll resource logic in Dafny

Recoll is a personal bookmarking application. A user saves resources, each
an uploaded file or a link, with a title and free-form tags. This project
models the logic of the application that does not belong to the user
interface or the hosted backend, and proves properties of it:

- **Classification of URLs** (`resource_types.dfy`). A URL is sorted into
  the categories video, document and web. The video tests come first and
  win: a URL that mentions YouTube or an Instagram reel is a video. Next
  comes a case-sensitive test for a document extension at the very end of
  the URL. The module also holds the display table of the categories and
  the favicon address.
- **Extraction of a YouTube video id and an Instagram reel id**
  (`resource_types.dfy`, on top of `patterns.dfy`). Each regular
  expression `(?:p1|p2)([c]+)` is written out as an explicit predicate:
  the leftmost match, alternatives tried in order, and a greedy,
  non-empty run of class characters. The exact ECMAScript `\s` set is
  included. The extractors are proved to return exactly that match's
  group, and concrete URLs are worked through.
- **Link previews** (`link_preview.dfy`). A second, different video test
  classifies a link as a video preview or a plain link. Lemmas show where
  the two classifiers agree and where they diverge (Vimeo, Instagram
  reels).
- **The resource list** (`app.dfy`):
  - the stable three-criteria filter (text search, conjunctive tags,
    category);
  - the tag list gathered in first-seen order;
  - the selected-tag toggle;
  - the component state as a class whose methods are the fetch, clearing
    on sign-out, and the handlers.
- **The add-resource form** (`add_resource_form.dfy`). A class with the
  form's fields and handlers:
  - a dropped file;
  - tag add and remove;
  - link edit;
  - the submission, with its guards, the storage key
    `<timestamp>.<extension>`, the inserted row, the sequence of backend
    calls and the reset after success.
- **Card helpers** (`resource_card.dfy`):
  - the YouTube-player test;
  - the storage key taken from the last `/` segment of a file url;
  - the order of the steps of a delete.

`text.dfy` and `lists.dfy` model the JavaScript built-ins the code relies
on, each with the property that defines it: `includes`, `endsWith`,
`toLowerCase`, `split(c)[0]`, `split(c).pop()`, decimal rendering of a
number, and `filter` with a membership test.

The backend (database queries, storage, authentication) is represented
only by the outcomes the code branches on. These are parameters of the
methods, and the methods return the sequence of backend calls they make.
The clock (`Date.now()`) and the platform's URL parser are parameters too.

The document test is on the whole URL string, not on its path, so
`a.pdf?x=1` is web.

## Model

| member | source | states |
|---|---|---|
| ResourceTypes.Config | src/utils/resourceTypes.ts:10-29 | the RESOURCE_TYPES entry of a category is labelled with that category's name, and only that one; its icon (camera, page, globe) likewise belongs to that category alone |
| ResourceTypes.DetectResourceType | src/utils/resourceTypes.ts:31-42 | video iff the URL contains "youtube.com", "youtu.be" or "instagram.com/reel"; document iff not video and the URL ends in ".pdf", ".doc" or ".docx"; web iff neither; total, with one of the three for every string |
| ResourceTypes.YouTubeWinsOverExtension | src/utils/resourceTypes.ts:31-37 | any string with "youtube.com" or "youtu.be" anywhere is a video, whatever it ends in |
| ResourceTypes.DocumentByExtension | src/utils/resourceTypes.ts:34-39 | any URL outside the video patterns that ends in ".pdf", ".doc" or ".docx" is a document |
| ResourceTypes.UpperCaseExtensionIsWeb | src/utils/resourceTypes.ts:34-41 | the extension test is case-sensitive: any URL outside the video patterns ending in ".PDF" is web |
| ResourceTypes.QueryAfterExtensionIsWeb | src/utils/resourceTypes.ts:34-41 | the extension must end the string: any URL outside the video patterns ending in ".pdf?x=1" is web |
| ResourceTypes.ReelsPathIsVideo | src/utils/resourceTypes.ts:33-37 | any URL containing "instagram.com/reels" is a video, because it contains "instagram.com/reel" |
| ResourceTypes.NotVideoWithoutYAndI | src/utils/resourceTypes.ts:32-33 | a URL with neither 'y' nor 'i' cannot match a video pattern |
| Patterns.Capture | src/utils/resourceTypes.ts:45-47 | `s.match(re)?.[1]` for `(?:alts)([c]+)`: absent iff no alternative is followed by a class character anywhere; otherwise the group of a leftmost match |
| Patterns.SearchFrom | src/utils/resourceTypes.ts:46 | the engine's scan: no match before the reported start, first matching alternative there, greedy maximal run |
| Patterns.LeftmostMatchUnique | src/utils/resourceTypes.ts:46 | the leftmost match (first alternative, greedy run) is unique |
| Patterns.MatchOfJoin | src/utils/resourceTypes.ts:45-46 | in `pre + alt + id + rest` the leftmost match is the one after `pre` when `pre` holds no start of an alternative and `rest` does not continue the run |
| ResourceTypes.GetYouTubeVideoId | src/utils/resourceTypes.ts:44-48 | null iff no "youtube.com/watch?v=" or "youtu.be/" is followed by a character other than '&' and whitespace; otherwise the group of the leftmost match |
| ResourceTypes.GetInstagramReelId | src/utils/resourceTypes.ts:50-54 | null iff no "instagram.com/reel/" is followed by a character other than '/' and '?'; otherwise the group of the leftmost match |
| ResourceTypes.CapturedIdIsMaximal | src/utils/resourceTypes.ts:45-47 | a captured group is non-empty, made of class characters, directly after a prefix, and followed by a non-class character or the end |
| ResourceTypes.YouTubeIdIsMaximal | src/utils/resourceTypes.ts:45-47 | a YouTube id is non-empty, has no '&' or whitespace, follows a prefix and cannot be extended |
| ResourceTypes.ReelIdIsMaximal | src/utils/resourceTypes.ts:51-53 | a reel id is non-empty, has no '/' or '?', follows "instagram.com/reel/" and cannot be extended |
| ResourceTypes.YouTubeIdMeansVideo | src/utils/resourceTypes.ts:32-45 | whenever a YouTube id is extracted, the URL is a video |
| ResourceTypes.ReelIdMeansVideo | src/utils/resourceTypes.ts:33-51 | whenever a reel id is extracted, the URL is a video |
| ResourceTypes.YouTubeIdOfLeftmostMatch | src/utils/resourceTypes.ts:45-47 | the YouTube id is exactly the group of the leftmost match |
| ResourceTypes.ReelIdOfLeftmostMatch | src/utils/resourceTypes.ts:51-53 | the reel id is exactly the group of the leftmost match |
| ResourceTypes.ShortLinkExample | src/utils/resourceTypes.ts:44-48 | "https://youtu.be/abc123" gives "abc123" |
| ResourceTypes.WatchLinkExample | src/utils/resourceTypes.ts:44-48 | a watch URL's id stops at the '&' of the next parameter |
| ResourceTypes.NoYouTubeIdExample | src/utils/resourceTypes.ts:44-48 | "https://example.com" gives null |
| ResourceTypes.ReelExample | src/utils/resourceTypes.ts:50-54 | a reel id stops at the next '/' |
| ResourceTypes.ReelsPathHasNoReelId | src/utils/resourceTypes.ts:50-54 | an "instagram.com/reels" URL has no reel id, although it is a video, when neither side of the path contains "instagram.com/reel/": the prefix needs "reel/" |
| ResourceTypes.GetFaviconUrl | src/utils/resourceTypes.ts:56-63 | "" iff the URL does not parse; otherwise exactly the favicon service prefix, the host and "&sz=128" |
| ResourceTypes.FaviconNamesHost | src/utils/resourceTypes.ts:58-59 | the favicon address of a parsed URL contains its host |
| LinkPreview.GetLinkPreview | src/utils/linkPreview.ts:1-21 | never null; the url is returned unchanged; type video iff the URL contains "youtube.com", "youtu.be" or "vimeo.com", link otherwise |
| LinkPreview.YouTubeAgrees | src/utils/linkPreview.ts:3 | a YouTube URL is a video for the preview and for the category |
| LinkPreview.VimeoDiverges | src/utils/linkPreview.ts:4-6 | a Vimeo URL outside the category's video patterns is a video preview but not a video category |
| LinkPreview.ReelDiverges | src/utils/linkPreview.ts:3-16 | an Instagram reel without YouTube or Vimeo is a video category but a link preview |
| LinkPreview.ClassifiersAgreeElsewhere | src/utils/linkPreview.ts:3-6 | without Vimeo and Instagram reels, preview video iff category video |
| LinkPreview.VimeoLinkHasNoCategoryPattern | src/utils/resourceTypes.ts:32-33 | a "https://vimeo.com/" link with a numeric id matches no video pattern of the categories |
| LinkPreview.VimeoLinkHasNoExtension | src/utils/resourceTypes.ts:34 | a "https://vimeo.com/" link with a numeric id has no document extension |
| LinkPreview.VimeoLinkExample | src/utils/linkPreview.ts:4-10 | a "https://vimeo.com/" link with a numeric id is a video preview and a web category |
| App.MatchesSearch | src/App.tsx:94-95 | the lower-cased term is a substring of the lower-cased title or of some lower-cased tag |
| App.MatchesTags | src/App.tsx:97-98 | the selected tags form a subset of the resource's tags, so the empty selection passes every resource |
| App.MatchesType | src/App.tsx:100-101 | no type selected passes; with a type selected, an absent or empty url fails and a non-empty url passes iff its category is the selected one |
| App.Keep | src/App.tsx:93-103 | a resource is kept iff it passes the search, tag and type criteria; the criteria of a fresh page keep every resource |
| App.Filter | src/App.tsx:93-104 | a subsequence of the resources; exactly the kept resources; each kept one as often as in the input |
| App.FilterKeepsAllKept | src/App.tsx:93 | a list whose every element passes is returned unchanged |
| App.FilterIdempotent | src/App.tsx:93-104 | filtering twice with the same criteria equals filtering once |
| App.NoCriteriaKeepsResource | src/App.tsx:93-101 | every resource passes the empty criteria, because every string includes "" |
| App.NoCriteriaKeepsAll | src/App.tsx:93-104 | with no term, tags or type, the filter returns all resources |
| App.SearchIgnoresTermCase | src/App.tsx:94-95 | the search term's case does not matter |
| App.SearchIgnoresTitleCase | src/App.tsx:94 | the title's case does not matter |
| App.MatchesTagsConjunctive | src/App.tsx:97-98 | selecting the tags of `a + b` shows a resource iff both the tags of `a` and those of `b` would |
| App.TagComparisonIsExact | src/App.tsx:98 | tags are compared exactly: a resource tagged only "ml" is hidden when "ML" is selected |
| App.MoreTagsShowLess | src/App.tsx:97-98 | selecting more tags never shows more resources |
| App.NoUrlHiddenByType | src/App.tsx:100-101 | with a type selected, a resource without a url or with an empty one is hidden |
| App.VideoTypeKeepsVideoUrls | src/App.tsx:100-101 | with "video" selected, a resource with a url passes iff the url has a video pattern |
| App.TagsAloneDecide | src/App.tsx:94-101 | with nothing typed and no type selected, a resource is shown iff it has every selected tag |
| App.FilterPair | src/App.tsx:93-104 | filtering two resources tests each on its own and keeps their order |
| App.TagFilterExample | src/App.tsx:97-98 | both example resources carry "ml" and both are shown |
| App.TypeFilterExample | src/App.tsx:100-101 | only the YouTube resource passes the video type |
| App.SearchFilterExample | src/App.tsx:94-95 | the search "talk" shows only the resource titled "Talk" |
| App.PaperIsNoVideo | src/App.tsx:100-101 | "x.pdf" fails the video type |
| App.TalkIsVideo | src/App.tsx:100-101 | "https://youtu.be/1" passes the video type |
| App.SearchMissesWithoutFirstLetter | src/App.tsx:94-95 | a search misses a resource whose title and tags contain the first letter of the term in neither case |
| App.PaperDoesNotMatchTalk | src/App.tsx:94-95 | neither "Paper A" nor "ml" contains "talk" |
| App.TalkMatchesTalk | src/App.tsx:94 | "Talk" contains "talk" once lower-cased |
| App.AllTags | src/App.tsx:72-75 | a tag is in the list iff some loaded resource has it |
| App.AllTagsPrefix | src/App.tsx:72-74 | the tags of the first k resources are a prefix of the list (first-seen order) |
| App.AllTagsNoDup | src/App.tsx:73 | the list has no duplicates when no resource lists a tag twice |
| App.RepeatedTagInOneResource | src/App.tsx:73 | only tags from earlier resources are skipped: a tag listed twice by one resource appears twice |
| App.Toggle | src/App.tsx:175-181 | a selected tag is removed and the rest keep their order; an unselected one is appended at the end; no duplicates are introduced |
| App.ToggleTwice | src/App.tsx:175-181 | toggling an unselected tag twice restores the selection |
| Lists.FilterOutAppend | src/App.tsx:178 | filtering a concatenation filters each part |
| App.AppState.constructor | src/App.tsx:22-28 | the initial state: no resources, term, tags, type or tag list |
| App.AppState.Visible | src/App.tsx:93-104 | the resources shown are exactly the loaded ones that pass the criteria |
| App.AppState.FetchResources | src/App.tsx:61-80 | on rows the resources are the rows (none for null) and the tag list is gathered from them; on an error nothing changes; the selection is kept |
| App.AppState.ClearResources | src/App.tsx:56-58 | without a user the resources are emptied; the tag list and the selection stay |
| App.AppState.ToggleTag | src/App.tsx:175-181 | the selection becomes its toggle and stays duplicate-free; nothing else changes |
| App.AppState.SetSearchTerm | src/App.tsx:159 | only the search term changes |
| App.AppState.SelectType | src/App.tsx:165-168 | only the selected type changes |
| Lists.FilterOut | src/components/AddResourceForm.tsx:45 | `filter(x => !drop.includes(x))`: a subsequence of the input holding exactly the elements outside `drop`, and the input itself when nothing is dropped |
| Lists.FilterOutCounts | src/components/AddResourceForm.tsx:45 | every occurrence of an element outside `drop` survives the filter, and no occurrence of one inside it |
| Lists.FilterOutNoDup | src/components/AddResourceForm.tsx:45 | filtering keeps a list duplicate-free |
| Lists.NoDupAppend | src/components/AddResourceForm.tsx:39 | appending an element that is absent keeps a list duplicate-free |
| Text.BeforeFirst | src/components/AddResourceForm.tsx:25 | `split(c)[0]`: the prefix before the first `c`, or the whole string |
| Text.AfterLast | src/components/ResourceCard.tsx:38 | `split(c).pop()`: the suffix after the last `c`, or the whole string |
| Text.Includes | src/App.tsx:94-95 | `s.includes(p)`: true iff `p` occurs in `s` at some position |
| Text.ToLower | src/App.tsx:94-95 | `toLowerCase`: the same length, each character lower-cased (ASCII) |
| Text.DecimalString | src/components/AddResourceForm.tsx:82 | `${Date.now()}`: a non-empty string of decimal digits without a leading zero |
| Text.DecimalRoundTrip | src/components/AddResourceForm.tsx:82 | the decimal rendering of a timestamp reads back as the timestamp |
| AddResourceForm.TitleFromFileName | src/components/AddResourceForm.tsx:25 | the suggested title is the file name's prefix before the first '.' |
| AddResourceForm.DotFileSuggestsNoTitle | src/components/AddResourceForm.tsx:24-25 | a name starting with '.' suggests the empty title |
| AddResourceForm.NoDotNameIsTitle | src/components/AddResourceForm.tsx:25 | a name without '.' is its own title |
| AddResourceForm.Extension | src/components/AddResourceForm.tsx:81 | a suffix of the name without '.': the whole name when it has no '.', otherwise the text after its last '.' |
| AddResourceForm.UploadKey | src/components/AddResourceForm.tsx:81-82 | the key has no '/' when the name has none |
| AddResourceForm.UploadKeyRoundTrip | src/components/AddResourceForm.tsx:81-82 | before the key's first '.' is the timestamp, and after its last '.' is the extension |
| AddResourceForm.UploadKeysDiffer | src/components/AddResourceForm.tsx:82 | uploads at different instants get different keys |
| AddResourceForm.NoDotNameKey | src/components/AddResourceForm.tsx:81-82 | a name without '.' is stored as `<now>.<name>` |
| AddResourceForm.Form.constructor | src/components/AddResourceForm.tsx:13-19 | an empty form in file mode |
| AddResourceForm.Form.OnDrop | src/components/AddResourceForm.tsx:21-30 | the first file is selected, the mode is file and the link is cleared; the title is suggested only when empty; an empty list changes nothing |
| AddResourceForm.Form.HandleAddTag | src/components/AddResourceForm.tsx:37-42 | a non-empty new tag is appended and the input cleared; otherwise nothing changes; tags stay duplicate-free |
| AddResourceForm.Form.HandleRemoveTag | src/components/AddResourceForm.tsx:44-46 | the tag is removed and the others keep their order |
| AddResourceForm.Form.HandleLinkChange | src/components/AddResourceForm.tsx:48-52 | the link is stored, the mode is link and the file is dropped |
| AddResourceForm.Form.SetTitle | src/components/AddResourceForm.tsx:142 | only the title changes |
| AddResourceForm.Form.SetCurrentTag | src/components/AddResourceForm.tsx:228 | only the tag input changes |
| AddResourceForm.Form.SetResourceType | src/components/AddResourceForm.tsx:151-161 | only the mode changes; a selected file or a typed link stays |
| AddResourceForm.Submit | src/components/AddResourceForm.tsx:54-130 | the reference definition of a submission: no backend call exactly when a guard stops the draft, and at most three calls |
| AddResourceForm.SubmitGuards | src/components/AddResourceForm.tsx:57-65 | the outcome is "missing title" iff the title is empty, and "missing link" iff there is a title, the mode is link and the link is empty |
| AddResourceForm.SubmitAsksForUserFirst | src/components/AddResourceForm.tsx:67-75 | past the guards the first call asks for the user; the outcome is "signed out" iff there is none, and then that is the only call |
| AddResourceForm.SubmitUploadFailure | src/components/AddResourceForm.tsx:80-88 | the outcome is "upload failed" iff the guards pass, a user is signed in, a file is submitted in file mode and the storage reports an error; the calls are then the user request and that upload |
| AddResourceForm.SubmitUploadsOnlyTheFile | src/components/AddResourceForm.tsx:80-86 | any upload is the second call, happens only in file mode with a file, and uses the key `<now>.<ext>` of that file |
| AddResourceForm.SubmitInsertsOnce | src/components/AddResourceForm.tsx:67-116 | once past the guards, with a user and no failed upload, the calls are exactly the user request, the upload when a file is submitted, and one insert as the last call; the outcome is "added" with that row iff the insert succeeds, "insert failed" otherwise |
| AddResourceForm.SubmitInsertedRow | src/components/AddResourceForm.tsx:77-113 | the inserted row holds the form's title, tags and mode and the user's id; in link mode the link and its preview; in file mode no preview, "" without a file, and with one the public url of the key when the upload returned data, "" otherwise |
| AddResourceForm.Form.UploadOrLink | src/components/AddResourceForm.tsx:77-100 | the upload calls, the url and the preview are those `Submit` uses for the form's draft, and the step fails iff a file is uploaded and the storage reports an error |
| AddResourceForm.Form.SaveResource | src/components/AddResourceForm.tsx:77-123 | once the user is known, the remaining calls and the outcome are those of `Submit`; success resets title, tags, file and link, failure changes nothing; the flag and the tag input are untouched |
| AddResourceForm.Form.HandleSubmit | src/components/AddResourceForm.tsx:54-130 | the outcome and the backend calls are those `Submit` gives for the draft the form held; success resets title, tags, file and link and keeps the mode and the tag input, any other outcome changes no input; the form is no longer submitting afterwards |
| ResourceCard.IsYouTube | src/components/ResourceCard.tsx:26 | true iff the url is present and contains "youtube.com" or "youtu.be" |
| ResourceCard.YouTubeCardIsVideo | src/components/ResourceCard.tsx:26 | a card that embeds a player shows a video-category resource |
| ResourceCard.ReelCardHasNoPlayer | src/components/ResourceCard.tsx:26 | an Instagram reel is a video category but gets no player |
| ResourceCard.StorageKey | src/components/ResourceCard.tsx:38 | the text after the last '/', or the whole url without one |
| ResourceCard.TrailingSlashGivesNoKey | src/components/ResourceCard.tsx:38-39 | a url ending in '/' gives the empty key, so nothing is removed |
| ResourceCard.StorageKeyOfUpload | src/components/ResourceCard.tsx:38 | a public url ending in "/" + upload key gives back that key |
| ResourceCard.RemovesObject | src/components/ResourceCard.tsx:37-39 | storage removal is attempted iff the resource is a file with a url whose last segment is non-empty |
| ResourceCard.HandleDelete | src/components/ResourceCard.tsx:28-54 | the row is deleted first; on its error nothing else happens and onDelete is not called; a file with a url and a non-empty key is removed next; onDelete only after every attempted step succeeded |

## Left out

- React rendering, toasts, the drop zone's configuration, the video
  player and the card's play/pause state (`isPlaying`). These are user
  interface behaviour with no logic of their own.
- `src/lib/supabase.ts`, `src/components/AuthModal.tsx`,
  `src/components/FilterChips.tsx` and `handleSignOut`. They are client
  set-up, calls to the hosted authentication service, and rendering.
- Backend semantics: queries, inserts, uploads, removals and
  `getPublicUrl`. Only the outcomes the code branches on are parameters,
  and the public url is an uninterpreted function of the key.
- The user session. The `user` effect is represented by
  `FetchResources` and `ClearResources`. The signed-in user passed to
  `HandleSubmit` is a parameter.
- Asynchrony. Each handler runs as one step. Events arriving while a
  submission awaits the backend are not modelled. `isSubmitting` (which
  only disables the submit button) is true only inside `HandleSubmit`,
  and false between events.
- `onSuccess` and `onDelete`. Only whether they are called is modelled:
  the `Added` outcome for the form, and the `notified` result for a delete.
- The `preview` column. It is typed `any`, and is read back as an
  optional preview value.
- Resource rows are taken to be well-formed (a title string, a tags
  array). A row whose tags are null would make the source throw, and is
  not modelled.
- App.MatchesSearch: `toLowerCase` is modelled as ASCII lower-casing
  (`Text.ToLower`). Case mappings outside 'A'..'Z' are not captured.
- ResourceTypes.GetFaviconUrl: the platform URL parser is not modelled.
  The host it yields, or its failure, is a parameter.
- LinkPreview.GetLinkPreview: the promise around the result is not
  modelled. The error log of the unreachable `catch` is left out.
