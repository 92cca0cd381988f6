# Login-Blog: a verified model of the blog rules

This project models the core of a small blog application, in Dafny. The
application has an Express/Mongoose server and a React client. The model
covers these parts:

- **Document rules on the server** (`backend/routes/blogRoutes.js`). These are
  the create, update, delete and per-user listing handlers. The collection is
  a map from document id to document, and the uploads directory is a set of
  file names. Each handler is a function from the old collection and disk to
  a status and the new collection and disk. The class `BlogRoutes.BlogServer`
  runs the same handlers step by step, including the `forEach` that unlinks
  media files one at a time, and is proved equal to those functions. For the
  update, it is proved equal to the corrected rule described under Findings.
- **The blog schema** (`backend/Models/Blog.js`), as the predicate
  `BlogModel.ValidBlog`. It covers the required paths, the category and
  `fileType` enumerations, and the trimming setter on the title.
- **The client state machines**:
  - the four-per-page pager with its like and comment updates (`Blog.jsx`);
  - the create form's validated media selection, kept as three index-aligned lists (`BlogsList.jsx`);
  - the edit form's new media and its existing/deleted media bookkeeping (`EditBlog.jsx`);
  - the admin panel's filter, derived counts and delete bookkeeping (`AdminDashboard.jsx`);
  - the route guards and route table (`App.jsx`).

  Each component's `useState` fields are the fields of a class. Each handler
  is a method that states the new value of every field it changes. The
  `map`/`filter` expressions are functions, and the properties the
  components rely on are lemmas.

JavaScript built-ins are modelled in `JsBuiltins`:
- `trim`, with ECMAScript's white-space and line-terminator set;
- `slice`, with clamping and negative positions;
- `startsWith`;
- `filter`, both by predicate and by index.

Truthiness of a string is non-emptiness.

Server errors follow the code, not the application's general description.
That description says a validation failure gives 400. In the code, 400 comes
from two checks only: the create handler's missing-field check and the
per-user listing's malformed-id check. A failed `save()` validation lands in
the handlers' `catch` and gives 500. So does a malformed id passed to
`findById` in the update, delete and single-document handlers. The model does
the same.

Ids accepted by `ObjectId.isValid` are modelled as 24 hexadecimal digits in
either case. `findById` reads an id's digits in either case, so the handlers
look a document up by the lower-case spelling of the id (`CanonicalId`). Stored
owner ids are the lower-case text that `ObjectId.toString()` prints.

Both routers match a route's own text ignoring letter case. React Router, in
App's table, also accepts any number of trailing slashes (`RoutePath`). The
Express router of the blog routes accepts one (`ComparedSegments`). A route
parameter keeps the spelling it was sent with.

## Model

| member | source | states |
|---|---|---|
| JsBuiltins.Trim | backend/Models/Blog.js:8 | the result is the input with only white space cut from its two ends; it is empty exactly when every character is white space, and otherwise starts and ends with a non-white-space character |
| JsBuiltins.TrimIdempotent | backend/Models/Blog.js:8 | trimming an already trimmed title changes nothing |
| JsBuiltins.TrimFixedPoints | backend/Models/Blog.js:8 | `trim` leaves a string unchanged exactly when neither of its ends is white space |
| JsBuiltins.JsSlice | src/Compo/User/Pages/Blog.jsx:32 | for non-negative positions, the slice is the sub-sequence between the positions clamped to the length |
| JsBuiltins.WithoutIndex | src/Compo/User/Pages/BlogsList.jsx:88 | filtering by index drops exactly that position, keeps the rest in order, and changes nothing for an index out of range |
| JsBuiltins.WithoutIndexMultiset | src/Compo/User/Pages/EditBlog.jsx:77 | dropping a position loses exactly the element there |
| JsBuiltins.Filter | src/Compo/Admin/AdminDashboard.jsx:38 | `filter` keeps exactly the elements satisfying the test, each as many times as it occurs, in their order |
| BrowserFile.PreviewOf | src/Compo/User/Pages/BlogsList.jsx:68-71 | a preview shows its file, and is an image preview exactly when the MIME type starts with "image", a video preview otherwise |
| BrowserFile.PreviewsOf | src/Compo/User/Pages/EditBlog.jsx:65 | one preview per file, index by index |
| BrowserFile.PreviewsMatchAppend | src/Compo/User/Pages/EditBlog.jsx:64-65 | appending files and their previews together keeps them aligned |
| BrowserFile.PreviewsMatchRemove | src/Compo/User/Pages/EditBlog.jsx:70-71 | removing the same index from files and previews keeps them aligned |
| BlogModel.CategoriesAreNine | backend/Models/Blog.js:13 | the category enumeration has exactly nine distinct values |
| BlogModel.ValidMedia | backend/Models/Blog.js:15-19 | a media entry is valid exactly when it has a URL and its type is "image", "video" or "gif" |
| BlogModel.ValidTitleIsSetterFixed | backend/Models/Blog.js:5-9 | the title of a valid document is non-empty and is one the `trim` setter leaves unchanged |
| BlogModel.ValidWithTrimmedTitle | backend/Models/Blog.js:4-34 | a document whose title went through the setter is valid exactly when the trimmed title, content and owner are non-empty, the category is one of the nine, and every media entry is valid |
| BlogRoutes.Descriptor | backend/routes/blogRoutes.js:48-51 | a descriptor's URL is "/uploads/" followed by the stored name; its type is "image" exactly when the MIME type starts with "image", otherwise "video", and it satisfies the media schema |
| BlogRoutes.Descriptors | backend/routes/blogRoutes.js:112-115 | one descriptor per uploaded file in order, all schema-valid and none of type "gif" |
| BlogRoutes.LastSegment | backend/routes/blogRoutes.js:108 | `split("/").pop()` is never longer than the URL |
| BlogRoutes.LastSegmentIsSuffix | backend/routes/blogRoutes.js:142 | the last segment is a suffix of the URL, holds no "/", and is preceded by "/" when shorter than the URL |
| BlogRoutes.LastSegmentAfterSlash | backend/routes/blogRoutes.js:108 | a name without "/" after a prefix ending in "/" is the last segment |
| BlogRoutes.UploadNameRoundTrip | backend/routes/blogRoutes.js:49 | for a stored name without "/", the last segment of the descriptor URL is that name, so cleanup targets the stored file |
| BlogRoutes.StoredFilenameRoundTrip | backend/routes/blogRoutes.js:24-26 | multer's `<time>-<original name>` is recovered from the descriptor URL whenever the client's name holds no "/" |
| BlogRoutes.StoredFilename | backend/routes/blogRoutes.js:24-26 | the stored name is the clock text, a "-", then the client's name, and holds no "/" when the client's name holds none |
| BlogRoutes.MediaNames | backend/routes/blogRoutes.js:141-144 | the names cleanup unlinks are exactly the last URL segments of the media entries |
| BlogRoutes.IsObjectId | backend/routes/blogRoutes.js:164 | a well-formed id has 24 characters and no "/", so it fills one path segment |
| BlogRoutes.CanonicalId | backend/routes/blogRoutes.js:99 | a well-formed id's lookup key is its lower-case spelling: same length, only the digits A-F change, and an id already in lower case is its own key |
| BlogRoutes.CreateOutcome | backend/routes/blogRoutes.js:31-69 | a missing field gives exactly 400 and stores nothing; with all fields present, no user gives exactly 401; creation (201) happens exactly when the fields are present, the user is known, the trimmed title is non-empty, the category is one of the nine and the id is fresh, and then only the new document is added; the disk never changes |
| BlogRoutes.CreateRequestOutcome | backend/routes/blogRoutes.js:31-48 | a multipart request is answered as `CreateOutcome`; a JSON request leaves `req.files` undefined and, with store and disk unchanged, answers 400 exactly for a missing field, 401 exactly for a missing user, and 500 exactly when both checks pass |
| BlogRoutes.JsonCreateFails | backend/routes/blogRoutes.js:31-48 | a complete JSON create request answers 500 and stores nothing, while the same fields sent as a multipart form without files create the document |
| BlogRoutes.Merged | backend/routes/blogRoutes.js:112-120 | the merged document keeps its owner and creation time, and a valid document sent no files and no fields comes back unchanged |
| BlogRoutes.UpdateOutcome | backend/routes/blogRoutes.js:96-129 | a malformed id gives 500; 404 exactly for a well-formed unknown id and 403 exactly for another owner, both leaving store and disk unchanged; 200 exactly when the owner's merged document is valid, storing it under the id's lower-case spelling; an owner's invalid document gives 500; the store is unchanged whenever the answer is not 200; for the owner the disk loses exactly the old media files when files arrived, whether the save then succeeds or fails, and is untouched otherwise |
| BlogRoutes.UpdateRequestOutcome | backend/routes/blogRoutes.js:96-106 | a multipart request is answered as `UpdateOutcome`; a JSON request leaves `req.files` undefined and, with store and disk unchanged, answers 404 exactly for a well-formed unknown id, 403 exactly for another owner, and 500 for a malformed id or on the owner's path |
| BlogRoutes.JsonUpdateFails | backend/routes/blogRoutes.js:96-106 | the owner's JSON update answers 500 and changes nothing, while the same fields sent as a multipart form without files are stored when they leave the document valid |
| BlogRoutes.UpdateMergeRule | backend/routes/blogRoutes.js:118-120 | on a permitted update, each text field takes the request value when it is non-empty and keeps the stored one otherwise; owner and creation time stay |
| BlogRoutes.UpdateMediaRule | backend/routes/blogRoutes.js:106-116 | with new files the media list is replaced by their descriptors and the old files are unlinked; without files both list and disk stay |
| BlogRoutes.FailedSaveLosesMedia | backend/routes/blogRoutes.js:106-122 | as written, an owner's update with files whose merged document fails validation answers 500 and keeps the stored document, yet every file it names is gone from disk, and no other file |
| BlogRoutes.FailedSaveWithoutFilesKeepsDisk | backend/routes/blogRoutes.js:106-122 | an owner's update without files whose merged document fails validation answers 500 and leaves store and disk as they were |
| BlogRoutes.BlankTitleNeverValid | backend/routes/blogRoutes.js:118 | a title of two spaces, merged into any document, makes it invalid, since the setter trims it to nothing |
| BlogRoutes.BlankTitleUpdateExample | backend/routes/blogRoutes.js:118-122 | concretely, for any well-formed id and owner: a blank title with one new file answers 500, keeps the document, and removes its stored image |
| BlogRoutes.CheckedUpdateOutcome | backend/routes/blogRoutes.js:106-122 | validating before unlinking: on every failure neither store nor disk changes |
| BlogRoutes.CheckedUpdateAgrees | backend/routes/blogRoutes.js:96-129 | the corrected rule answers every request with the handler's status, and a successful update stores and unlinks exactly what the handler does |
| BlogRoutes.DeleteOutcome | backend/routes/blogRoutes.js:132-153 | 500 exactly for a malformed id, 404 exactly for a well-formed unknown id, 403 exactly for another owner, all three changing nothing; 200 exactly for the owner of a stored document, and then exactly that id leaves the store, every other document stays, and exactly the files its media name leave the disk |
| BlogRoutes.HandlersKeepStoreValid | backend/routes/blogRoutes.js:122 | create, update and delete keep every stored document schema-valid |
| BlogRoutes.CreateKeepsStoreValid | backend/routes/blogRoutes.js:54-62 | a created document passes validation, so the collection stays valid |
| BlogRoutes.UpdateKeepsStoreValid | backend/routes/blogRoutes.js:118-122 | an updated document passes validation, so the collection stays valid |
| BlogRoutes.ComparedSegments | backend/routes/blogRoutes.js:10 | the non-strict router drops one empty last segment, which is one trailing slash, and nothing else |
| BlogRoutes.MatchGet | backend/routes/blogRoutes.js:72-155 | GET routes are tried in order, comparing a route's text in any letter case after one trailing slash: "all" lists everything, "blogs" and one id reach the single-document read, and any other single segment is the per-user listing, with the parameter spelled as sent |
| BlogRoutes.MatchGetIgnoresCaseAndTrailingSlash | backend/routes/blogRoutes.js:72-84 | "ALL" and "all/" reach the full listing, and "Blogs/<id>" with or without a trailing slash reaches the single-document read |
| BlogRoutes.FetchBlog | backend/routes/blogRoutes.js:84-93 | a malformed id gives 500, an unknown one 404, otherwise 200 with the document stored under the id's lower-case spelling |
| BlogRoutes.AnySpellingFindsDocument | backend/routes/blogRoutes.js:86 | an id in any mix of upper- and lower-case digits finds the document stored under its lower-case spelling |
| BlogRoutes.UserBlogs | backend/routes/blogRoutes.js:155-183 | checks in order: 400 for a malformed id, 403 when the path is not the requester's id, 404 when the user has no documents, otherwise 200 listing each of that user's documents exactly once, with its id, newest first |
| BlogRoutes.IsUserQuery | backend/routes/blogRoutes.js:172 | the query's answer lists each of the user's documents once, newest first, and is empty exactly when the user owns none |
| BlogRoutes.BlogServer.UnlinkMedia | backend/routes/blogRoutes.js:141-144 | the loop removes from disk exactly the files the media list names |
| BlogRoutes.BlogServer.constructor | backend/routes/blogRoutes.js:10-16 | the server starts over a valid collection and the given uploads directory |
| BlogRoutes.BlogServer.Create | backend/routes/blogRoutes.js:31-69 | the handler's steps yield exactly `CreateOutcome` and keep the collection valid |
| BlogRoutes.BlogServer.Update | backend/routes/blogRoutes.js:96-129 | the handler's steps, with the field-by-field assignment and the unlink loop moved after validation, yield exactly `CheckedUpdateOutcome` |
| BlogRoutes.BlogServer.Delete | backend/routes/blogRoutes.js:132-153 | the handler's steps yield exactly `DeleteOutcome` |
| BlogPage.PageOf | src/Compo/User/Pages/Blog.jsx:30-32 | for every page from 1 on, the shown run is `blogs[(p-1)*4 .. min(p*4, n)]` and holds at most four blogs |
| BlogPage.BlogOnItsPage | src/Compo/User/Pages/Blog.jsx:30-32 | every blog is shown on page `i/4 + 1` at position `i%4` |
| BlogPage.PrevPage | src/Compo/User/Pages/Blog.jsx:177-178 | Previous never goes below page 1, moves back one from later pages, and stands still exactly where it is disabled |
| BlogPage.NextPage | src/Compo/User/Pages/Blog.jsx:185-190 | Next moves on by at most one, and stands still exactly where it is disabled (`p*4 >= n`) |
| BlogPage.PagingStaysInRange | src/Compo/User/Pages/Blog.jsx:177-190 | Previous and Next keep the pager on a page that exists |
| BlogPage.PageInRangeNotEmpty | src/Compo/User/Pages/Blog.jsx:185-189 | a page the pager can reach shows at least one blog whenever there are any |
| BlogPage.WithLikes | src/Compo/User/Pages/Blog.jsx:42-48 | a like replaces the likes of the matching blog only; ids, order and every other field stay |
| BlogPage.WithComments | src/Compo/User/Pages/Blog.jsx:75-81 | a comment replaces the comments of the matching blog only; ids, order and every other field stay |
| BlogPage.UnknownIdChangesNothing | src/Compo/User/Pages/Blog.jsx:42-48 | a like or comment for an id not on the list changes nothing |
| BlogPage.CommentAccepted | src/Compo/User/Pages/Blog.jsx:63-67 | a comment is sent exactly when the blog's input exists and is not all white space |
| BlogPage.AllBlog.CurrentBlogs | src/Compo/User/Pages/Blog.jsx:30-32 | the shown blogs are `PageOf` the list at the current page: at most four, and at least one when the list is non-empty |
| BlogPage.AllBlog.constructor | src/Compo/User/Pages/Blog.jsx:8-11 | an empty list on page 1 with no comment inputs |
| BlogPage.AllBlog.Loaded | src/Compo/User/Pages/Blog.jsx:15-27 | a 200 answer becomes the list, anything else keeps it |
| BlogPage.AllBlog.Previous | src/Compo/User/Pages/Blog.jsx:177 | the page becomes `PrevPage` of the old page and stays in range |
| BlogPage.AllBlog.Next | src/Compo/User/Pages/Blog.jsx:185-189 | the page becomes `NextPage` of the old page and stays in range |
| BlogPage.AllBlog.LikeBlog | src/Compo/User/Pages/Blog.jsx:35-54 | only a 200 answer updates the list, by `WithLikes` |
| BlogPage.AllBlog.HandleCommentChange | src/Compo/User/Pages/Blog.jsx:57-59 | only that blog's input is set |
| BlogPage.AllBlog.SubmitComment | src/Compo/User/Pages/Blog.jsx:62-89 | a blank or missing input sends nothing and changes nothing; a 200 answer updates only that blog's comments and clears only its input |
| BlogsList.FormCategoriesAreSchemaCategories | src/Compo/User/Pages/BlogsList.jsx:8-11 | the create form's select offers exactly the schema's nine categories |
| BlogsList.Acceptable | src/Compo/User/Pages/BlogsList.jsx:49-59 | a file without a type or over 5 MiB is refused, and an accepted file whose preview says "video" has a video type |
| BlogsList.ValidFiles | src/Compo/User/Pages/BlogsList.jsx:49-59 | every kept file is at most 5 MiB with an image or video type; a selected file is kept exactly when it passes, as many times as it was selected; the kept files are an order-preserving subsequence of the selection |
| BlogsList.Names | src/Compo/User/Pages/BlogsList.jsx:74 | one name per file, index by index |
| BlogsList.AlignedAppend | src/Compo/User/Pages/BlogsList.jsx:63-74 | appending to files, previews and names together keeps the three lists aligned |
| BlogsList.AlignedRemove | src/Compo/User/Pages/BlogsList.jsx:85-92 | removing one index from all three lists keeps them aligned |
| BlogsList.Submission | src/Compo/User/Pages/BlogsList.jsx:111-131 | nothing is sent exactly when a field is empty or there is no user id; otherwise the form with the user's id |
| BlogsList.SentFormIsCreated | src/Compo/User/Pages/BlogsList.jsx:123-141 | a sent form with a category from the select and a non-blank title is created by the server under a fresh id, owned by the user the token names whatever the body's `userId` says |
| BlogsList.BlankTitleFailsOnServer | src/Compo/User/Pages/BlogsList.jsx:111-115 | a white-space title passes the client check and the server's 400 check, then fails validation with 500, for any signed-in user |
| BlogsList.CreateBlogForm.constructor | src/Compo/User/Pages/BlogsList.jsx:19-27 | an empty, aligned form |
| BlogsList.CreateBlogForm.HandleChange | src/Compo/User/Pages/BlogsList.jsx:41-43 | only the named field changes |
| BlogsList.CreateBlogForm.HandleMediaChange | src/Compo/User/Pages/BlogsList.jsx:46-75 | the acceptable files, their previews and their names are appended, keeping the lists aligned; with none acceptable nothing changes |
| BlogsList.CreateBlogForm.RemoveMedia | src/Compo/User/Pages/BlogsList.jsx:85-101 | one index leaves all three lists, which stay aligned |
| BlogsList.CreateBlogForm.HandleSubmit | src/Compo/User/Pages/BlogsList.jsx:104-161 | what is sent is `Submission` of the form; a 201 answer empties the fields and all three lists, anything else keeps them |
| EditBlog.FormCategoriesAreSchemaCategories | src/Compo/User/Pages/EditBlog.jsx:8 | the edit form's select offers exactly the schema's nine categories |
| EditBlog.EditSubmission | src/Compo/User/Pages/EditBlog.jsx:84-94 | nothing is sent exactly when a field is empty; otherwise the fields, new files and deleted media |
| EditBlog.DeletedMediaIsIgnored | src/Compo/User/Pages/EditBlog.jsx:94 | the update handler reads no `deletedMedia`: whatever it answers, a put of the form's fields without new files unlinks no file and leaves the document's stored media as they were |
| EditBlog.EditFetchHitsUserListing | src/Compo/User/Pages/EditBlog.jsx:40 | as written, the edit form's fetch reaches the per-user listing with the blog id as user id, and is answered 403 |
| EditBlog.CorrectedEditFetchFindsBlog | backend/routes/blogRoutes.js:84-93 | through the single-document path, a stored blog's id is answered 200 with that document |
| EditBlog.EditBlogForm.constructor | src/Compo/User/Pages/EditBlog.jsx:16-19 | an empty form with empty media lists |
| EditBlog.EditBlogForm.Populate | src/Compo/User/Pages/EditBlog.jsx:51-54 | copies title, content and category, empties the new files and takes the blog's media as existing media |
| EditBlog.EditBlogForm.HandleChange | src/Compo/User/Pages/EditBlog.jsx:57 | only the named field changes |
| EditBlog.EditBlogForm.HandleMediaChange | src/Compo/User/Pages/EditBlog.jsx:60-66 | the selection and its previews are appended in order, keeping them aligned; an empty selection changes nothing |
| EditBlog.EditBlogForm.RemoveMedia | src/Compo/User/Pages/EditBlog.jsx:69-72 | one index leaves the new files and previews, which stay aligned; stored media untouched |
| EditBlog.EditBlogForm.RemoveExistingMedia | src/Compo/User/Pages/EditBlog.jsx:75-78 | the entry moves from existing to deleted; the two lists together keep the same entries and total length |
| EditBlog.EditBlogForm.HandleSubmit | src/Compo/User/Pages/EditBlog.jsx:81-94 | what is sent is `EditSubmission` of the form |
| AdminDashboard.MineOf | src/Compo/Admin/AdminDashboard.jsx:38 | exactly the blogs with that owner, each as many times as it occurs, as an order-preserving subsequence |
| AdminDashboard.WithoutBlog | src/Compo/Admin/AdminDashboard.jsx:83-84 | every blog except those with the deleted id, each as many times as it occurs, in order |
| AdminDashboard.Filtered | src/Compo/Admin/AdminDashboard.jsx:96-101 | all blogs for "all", the own blogs for "mine", otherwise exactly the blogs whose owner is the filter value, each as many times as it occurs, in order |
| AdminDashboard.FilterKeepsDistinct | src/Compo/Admin/AdminDashboard.jsx:83 | filtering keeps the ids distinct |
| AdminDashboard.DeleteListedDropsOne | src/Compo/Admin/AdminDashboard.jsx:83-85 | deleting a listed id removes exactly one blog, matching the count's decrement |
| AdminDashboard.DeleteCommutesWithMine | src/Compo/Admin/AdminDashboard.jsx:83-84 | deleting from the own list gives the own list of the whole list after the delete |
| AdminDashboard.OwnIdFilterIsMine | src/Compo/Admin/AdminDashboard.jsx:96-101 | filtering by the admin's own id shows the same list as "mine" |
| AdminDashboard.PopulatedOwnersNeverMatch | src/Compo/Admin/AdminDashboard.jsx:38 | as written, on an answer with populated owners "mine" is always empty, and so is the list for any user picked in the select |
| AdminDashboard.OwnBlogMissingFromMine | src/Compo/Admin/AdminDashboard.jsx:101 | the admin's own blog with a populated owner is missing from "mine" as written and present when comparing owner ids |
| AdminDashboard.CorrectedMine | src/Compo/Admin/AdminDashboard.jsx:96-101 | comparing owner ids keeps exactly the blogs whose owner has that id, each as many times as it occurs, in order |
| AdminDashboard.CorrectedMineIsMineOf | src/Compo/Admin/AdminDashboard.jsx:36-38 | reducing owners to their ids and then taking one user's blogs gives the same list as `MineOf`, which the panel's state uses |
| AdminDashboard.OnMount | src/Compo/Admin/AdminDashboard.jsx:20-29 | the panel fetches exactly with a token and an admin user, and otherwise redirects |
| AdminDashboard.MountBehindGuardFetches | src/Compo/Admin/AdminDashboard.jsx:21-24 | the panel fetches exactly when the admin guard renders it |
| AdminDashboard.AdminDashboardState.constructor | src/Compo/Admin/AdminDashboard.jsx:12-17 | empty lists, a zero count and the "all" filter |
| AdminDashboard.AdminDashboardState.FilteredBlogs | src/Compo/Admin/AdminDashboard.jsx:96-101 | the shown list is `Filtered` of the state's lists and filter; under "mine" it is the admin's own blogs, and every shown blog is on the whole list |
| AdminDashboard.AdminDashboardState.Load | src/Compo/Admin/AdminDashboard.jsx:31-44 | on success the count is the list's length and the own blogs are exactly the user's; on failure nothing changes |
| AdminDashboard.AdminDashboardState.HandleFilterChange | src/Compo/Admin/AdminDashboard.jsx:92-94 | the filter becomes the chosen value |
| AdminDashboard.AdminDashboardState.HandleDelete | src/Compo/Admin/AdminDashboard.jsx:77-90 | the deleted id leaves both lists, everything else stays in order and the count drops by one; without confirmation or on failure nothing changes; the state stays consistent for a listed id |
| AppRoutes.ProtectedRoute | src/App.jsx:20-32 | no token redirects to /login, an admin is redirected to /admin, anyone else sees the page |
| AppRoutes.AdminProtectedRoute | src/App.jsx:35-43 | the page exactly for an admin with a token, otherwise a redirect to /dashboard |
| AppRoutes.GuardsSplitSessions | src/App.jsx:20-43 | with a token exactly one guard lets its page through; without one neither does |
| AppRoutes.StripTrailingSlashes | src/App.jsx:49-63 | the result is a prefix of the path that does not end in "/", and only slashes are cut |
| AppRoutes.TableRoute | src/App.jsx:49-63 | in the compared form, only /admin sits behind the admin guard; exactly /dashboard, /create-blog and /categories sit behind the user guard; exactly /login, /signup and /forgot-password are plain pages; every other path is `Main` |
| AppRoutes.RouteOf | src/App.jsx:49-63 | the same table for any spelling of a path: letter case and trailing slashes do not matter |
| AppRoutes.RouteIgnoresCaseAndTrailingSlash | src/App.jsx:49-63 | a path routes as its lower-case spelling does, and as itself with a slash added |
| AppRoutes.VariantSpellingsReachGuards | src/App.jsx:57-62 | "/Admin" and "/admin/" reach the admin guard, and "/Dashboard" reaches the user guard |
| AppRoutes.RedirectTargetsAreCompared | src/App.jsx:24-39 | the guards' redirect targets /login, /admin and /dashboard are already in the compared form |
| AppRoutes.Render | src/App.jsx:49-63 | redirects never cycle: two hops reach a page from every path and session, and one hop does unless the path is /admin, in any spelling, without a token |
| AppRoutes.AdminPanelOnlyForAdmins | src/App.jsx:62 | however many redirects are followed, the admin panel is shown only to an admin with a token |
| AppRoutes.UserPagesOnlyForUsers | src/App.jsx:57-59 | through App's own route table, the user pages are shown only with a token and never to an admin |

## Left out

- HTTP, the mounting of the routers in `Server.js` and axios calls are left out. A request is its parameters, and a response is a status plus the data the handler reads. Only the GET routes below the `/blogs` mount are matched (`BlogRoutes.MatchGet`).
- Percent-decoding of paths is not modelled. Paths and segments are taken as already decoded.
- Toasts, `console` output, rendering and `navigate` calls are left out, other than the redirect decisions.
- The JWT check of `authMiddleware` is out of scope. Its result is the requester id passed to each handler.
- Multer's storage is not modelled: the five-file limit, the `UPLOADS_DIR` directory and the `Date.now()` clock. Uploaded files arrive already named, and the clock is the opaque text `stamp`.
- `BlogRoutes.BlogServer.Create` and `BlogRoutes.BlogServer.Update` take multipart requests only, so their files are always a list. A JSON request, for which `req.files` stays undefined, is covered by `CreateRequestOutcome` and `UpdateRequestOutcome`.
- Files multer writes for a request that is then rejected stay on disk. The disk models only the unlinking.
- The upload directory is written through `UPLOADS_DIR`, while cleanup reads `./uploads/`. The model assumes they are the same directory.
- The database internals are left out: queries, `populate` and sort. The per-user query's answer is a parameter constrained by `IsUserQuery`, which says that user's documents appear exactly once each, newest first.
- `ObjectId.isValid` also accepts any 12-character string. The model accepts only 24 hexadecimal digits.
- Keys in the modelled collection are not required to be lower-case ids. A key in another spelling is never found, as no `ObjectId` prints it.
- Validation on `save()` is modelled as a check of the whole document. By default Mongoose validates every modified path and every required path, which covers title, category, content and userId on each save. The only paths it may skip are unmodified media entries, and those are valid in every stored document (`HandlersKeepStoreValid`).
- `GET /blogs/all` is not modelled. Its answer is the list given to `BlogPage.AllBlog.Loaded` and `AdminDashboard.AdminDashboardState.Load`.
- The panel's state keeps each owner as its id text, the corrected comparison of the second Findings row. `AdminDashboard.AsWrittenMine` and `AdminDashboard.AsWrittenOwnerFilter` keep the comparisons as written.
- The like and comment arrays hold whatever the server returns. No server handler for `/like` or `/comment` exists in the repository.
- `CreateBlogForm.loading`, the user count and user list fetches, sessionStorage caching and `fileInputRef`/`DataTransfer` syncing are left out.
- Object URLs from `URL.createObjectURL` are represented by the file they denote. Revocation is not modelled.
- `EditBlog.EditBlogForm.RemoveExistingMedia`: requires an index in range. The component only calls it for listed entries. An out-of-range index would append `undefined` to the deleted list. The model also treats a click on the ✖ button as the removal alone. The button (EditBlog.jsx:128) sits inside the form without `type="button"`, so in the page the click also submits the form: `handleSubmit` sends the PUT and navigates away.
- `EditBlog.EditBlogForm.RemoveMedia`: treats a click on the ✖ button as the removal alone. That button (EditBlog.jsx:142) also has no `type="button"`, so the click also submits the form. The create form's buttons (BlogsList.jsx:183 and 198) do set the type.
- `AppRoutes.UserPagesOnlyForUsers`: holds for App's own route table only. `RouteOf` sends every path it does not name to `Main`, whose nested routes are not part of this model. `Main` serves the create form at /BlogsList (Main.jsx:31) with no guard, and the admin panel links there (AdminDashboard.jsx:109), so an admin with a token sees that form.
- `BlogPage.AllBlog.Loaded`: requires the list to be still empty, as it is when the mount fetch answers. Until then Next is disabled and the pager is on page 1.
- `AdminDashboard.AdminDashboardState.Load`: requires distinct ids in the answer, because they are document ids.
- `BlogRoutes.LastSegment`: its own contract states only the length bound. The suffix facts are in `LastSegmentIsSuffix`.
- Login, sign-up, password reset, the user model and the pure display pages are not part of this model.

## Findings

| source | as written | input that shows it | evidently intended | confidence | as-written member | corrected member |
|---|---|---|---|---|---|---|
| backend/routes/blogRoutes.js:106-122 | the old media files are unlinked before the merged document is saved, so a save that fails validation leaves the stored document pointing at deleted files | the owner puts a title of two spaces with one new file: the setter trims the title to "", validation fails with 500, and the stored image "1-a.png" is gone | validate the merged document first and unlink only when the save succeeds | medium, not executed | BlogRoutes.FailedSaveLosesMedia | BlogRoutes.CheckedUpdateOutcome |
| src/Compo/Admin/AdminDashboard.jsx:38 | `blog.userId` is compared with the user's id as a string (also at line 101), but the whole-list answer populates `userId` into an object (blogRoutes.js:74) | the admin's own blog, whose `userId` arrives as `{ _id, name, email }`: `===` with the id text is false and `String(...)` gives "[object Object]", so "mine" and every per-user filter show nothing | compare the owner's `_id` with the user's id | medium, not executed | AdminDashboard.PopulatedOwnersNeverMatch | AdminDashboard.CorrectedMine |
| src/Compo/User/Pages/EditBlog.jsx:40 | the edit form fetches `/blogs/${id}`, which under the `/blogs` mount (Server.js:50) matches the per-user listing, not the single-document route `/blogs/:id` | a user opens the edit form of their own blog: the blog id is taken for a user id, differs from the user's, and the answer is 403, so the form stays empty | request `/blogs/blogs/${id}`, the single-document route | medium, not executed | EditBlog.EditFetchHitsUserListing | EditBlog.CorrectedEditFetchFindsBlog |

`BlogRoutes.BlankTitleUpdateExample` gives the concrete input of the first row,
and `AdminDashboard.OwnBlogMissingFromMine` that of the second. For the second
row, `AdminDashboard.CorrectedMineIsMineOf` shows that the corrected comparison
is what the panel's state uses. The third row's corrected path is what
`EditBlog.EditBlogForm.Populate` assumes: it takes the stored blog. For the
first row, `BlogRoutes.BlogServer.Update` uses the corrected rule. On every
successful update it agrees with the handler as written
(`BlogRoutes.CheckedUpdateAgrees`).
