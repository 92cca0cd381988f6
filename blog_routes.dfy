/** The `/blogs` router: create, update, delete and list blog documents.
    The collection is a map from document id to document, the uploads
    directory the set of file names in it. Each handler is specified by a
    function from the old store and disk to its status and the new store and
    disk; `BlogServer` runs the handlers step by step against that state. */
module BlogRoutes {
  import opened JsBuiltins
  import opened BlogModel

  /** A file multer has already written: its name on disk and its MIME type. */
  datatype UploadedFile = UploadedFile(filename: string, mimetype: string)

  /** The text fields of a create or update request body. */
  datatype BlogFields = BlogFields(title: string, content: string, category: string)

  type Store = map<string, Blog>
  type Disk = set<string>

  /** The status a handler answers with and the store and disk it leaves. */
  datatype Outcome = Outcome(status: int, store: Store, disk: Disk)

  /** A listed document with its id. */
  datatype Entry = Entry(id: string, blog: Blog)

  /** The status and the documents a listing handler answers with. */
  datatype Listing = Listing(status: int, entries: seq<Entry>)

  const UrlPrefix: string := "/uploads/"

  // ---------------------------------------------------------------------
  // Media descriptors and the file names they lead back to

  /** The descriptor stored for an uploaded file. */
  function Descriptor(f: UploadedFile): (m: Media)
    ensures m.fileUrl == UrlPrefix + f.filename
    ensures m.fileType == "image" <==> StartsWith(f.mimetype, "image")
    ensures m.fileType == "image" || m.fileType == "video"
    ensures ValidMedia(m)
  {
    Media(UrlPrefix + f.filename, if StartsWith(f.mimetype, "image") then "image" else "video")
  }

  /** `req.files.map(...)`: one descriptor per uploaded file, in order; none
      of them is ever a "gif" and all satisfy the schema. */
  function Descriptors(files: seq<UploadedFile>): (ms: seq<Media>)
    ensures |ms| == |files|
    ensures forall i :: 0 <= i < |files| ==> ms[i] == Descriptor(files[i])
    ensures forall i :: 0 <= i < |ms| ==> ValidMedia(ms[i]) && ms[i].fileType != "gif"
  {
    seq(|files|, i requires 0 <= i < |files| => Descriptor(files[i]))
  }

  /** `url.split("/").pop()`: the text after the last "/", or all of `url`
      when it has none. */
  function LastSegment(url: string): (name: string)
    ensures |name| <= |url|
  {
    if url == [] then []
    else if url[|url| - 1] == '/' then []
    else LastSegment(url[..|url| - 1]) + [url[|url| - 1]]
  }

  /** The last segment is a suffix of the URL without "/", and whatever
      precedes it is a "/". */
  lemma {:induction false} LastSegmentIsSuffix(url: string)
    ensures var name := LastSegment(url);
            && '/' !in name && name == url[|url| - |name|..]
            && (|name| < |url| ==> url[|url| - |name| - 1] == '/')
  {
    if url != [] && url[|url| - 1] != '/' {
      var u := url[..|url| - 1];
      LastSegmentIsSuffix(u);
      var name := LastSegment(u);
      assert u[|u| - |name|..] + [url[|url| - 1]] == url[|url| - |name| - 1..];
    }
  }

  /** Whatever follows a "/" and holds none is the last segment. */
  lemma {:induction false} LastSegmentAfterSlash(prefix: string, name: string)
    requires prefix != [] && prefix[|prefix| - 1] == '/'
    requires '/' !in name
    ensures LastSegment(prefix + name) == name
  {
    if name != [] {
      var u := prefix + name;
      assert u[..|u| - 1] == prefix + name[..|name| - 1];
      LastSegmentAfterSlash(prefix, name[..|name| - 1]);
      assert name == name[..|name| - 1] + [name[|name| - 1]];
    } else {
      assert prefix + name == prefix;
    }
  }

  /** The descriptor URL of a file whose name holds no "/" leads back to that
      name, so the cleanup at deletion targets the file that was stored. */
  lemma UploadNameRoundTrip(f: UploadedFile)
    requires '/' !in f.filename
    ensures LastSegment(Descriptor(f).fileUrl) == f.filename
  {
    LastSegmentAfterSlash(UrlPrefix, f.filename);
  }

  /** multer's disk name `Date.now() + "-" + originalname`; the clock
      reading is the decimal text `stamp`. The name holds no "/" when the
      client's name holds none. */
  function StoredFilename(stamp: string, originalName: string): (name: string)
    ensures |name| == |stamp| + 1 + |originalName| && name[|stamp|] == '-'
    ensures name[..|stamp|] == stamp && name[|stamp| + 1..] == originalName
    ensures (forall i :: 0 <= i < |stamp| ==> '0' <= stamp[i] <= '9') && '/' !in originalName ==> '/' !in name
  {
    var name := stamp + "-" + originalName;
    assert forall i :: |stamp| < i < |name| ==> name[i] == originalName[i - |stamp| - 1];
    name
  }

  /** For a client file name without "/", the stored name is recovered from
      the descriptor URL. */
  lemma StoredFilenameRoundTrip(stamp: string, originalName: string, mimetype: string)
    requires forall i :: 0 <= i < |stamp| ==> '0' <= stamp[i] <= '9'
    requires '/' !in originalName
    ensures LastSegment(Descriptor(UploadedFile(StoredFilename(stamp, originalName), mimetype)).fileUrl)
            == StoredFilename(stamp, originalName)
  {
    UploadNameRoundTrip(UploadedFile(StoredFilename(stamp, originalName), mimetype));
  }

  /** The file names `./uploads/<last segment>` that a media list points
      at: exactly the last segments of its entries' URLs. */
  function MediaNames(ms: seq<Media>): (names: set<string>)
    ensures forall name :: name in names <==> exists i :: 0 <= i < |ms| && LastSegment(ms[i].fileUrl) == name
  {
    if ms == [] then {}
    else
      var front := ms[..|ms| - 1];
      assert forall i :: 0 <= i < |front| ==> front[i] == ms[i];
      MediaNames(front) + {LastSegment(ms[|ms| - 1].fileUrl)}
  }

  /** One more entry adds its file name. */
  lemma MediaNamesStep(ms: seq<Media>, i: nat)
    requires i < |ms|
    ensures MediaNames(ms[..i + 1]) == MediaNames(ms[..i]) + {LastSegment(ms[i].fileUrl)}
  {
    assert ms[..i + 1][..i] == ms[..i];
  }

  /** Unlinking one more entry's file from what the earlier entries left
      leaves the disk without the files of all of them. */
  lemma UnlinkStep(before: Disk, disk: Disk, ms: seq<Media>, i: nat)
    requires i < |ms| && disk == before - MediaNames(ms[..i])
    ensures disk - {LastSegment(ms[i].fileUrl)} == before - MediaNames(ms[..i + 1])
  {
    MediaNamesStep(ms, i);
  }

  // ---------------------------------------------------------------------
  // Ids

  predicate IsHexDigit(c: char) {
    ('0' <= c <= '9') || ('a' <= c <= 'f') || ('A' <= c <= 'F')
  }

  /** `ObjectId.isValid` for strings: 24 hexadecimal digits in either case.
      Such an id fills exactly one path segment. */
  predicate IsObjectId(s: string)
    ensures IsObjectId(s) ==> |s| == 24 && '/' !in s
  {
    |s| == 24 && forall i :: 0 <= i < |s| ==> IsHexDigit(s[i])
  }

  /** An id as `ObjectId.toString()` prints it: lower-case digits only. */
  predicate IsCanonicalId(s: string) {
    |s| == 24 && forall i :: 0 <= i < |s| ==> ('0' <= s[i] <= '9') || ('a' <= s[i] <= 'f')
  }

  function LowerHexDigit(c: char): char {
    if 'A' <= c <= 'F' then (c as int - 'A' as int + 'a' as int) as char else c
  }

  /** The key a lookup by `findById` uses: the id cast to an `ObjectId`
      reads its digits in either case, so an id is looked up by its
      lower-case spelling. */
  function CanonicalId(s: string): (r: string)
    ensures |r| == |s|
    ensures IsObjectId(s) ==> IsCanonicalId(r)
    ensures IsCanonicalId(s) ==> r == s
    ensures forall i :: 0 <= i < |s| && !('A' <= s[i] <= 'F') ==> r[i] == s[i]
  {
    seq(|s|, i requires 0 <= i < |s| => LowerHexDigit(s[i]))
  }

  /** Every stored document passed validation. */
  predicate StoreValid(store: Store) {
    forall id :: id in store ==> ValidBlog(store[id])
  }


  // ---------------------------------------------------------------------
  // POST /create

  /** The create handler: 400 for a missing field, 401 without a user, then
      the document is built (the title through the trimming setter) and
      saved; a failed validation or an id already taken is a 500. */
  function CreateOutcome(store: Store, disk: Disk, requester: string, body: BlogFields,
                         files: seq<UploadedFile>, newId: string, now: int): (o: Outcome)
    ensures o.disk == disk
    ensures o.status == 201 || o.status == 400 || o.status == 401 || o.status == 500
    ensures o.status == 400 <==> body.title == [] || body.content == [] || body.category == []
    ensures o.status == 401 <==> body.title != [] && body.content != [] && body.category != [] && requester == []
    ensures o.status != 201 ==> o.store == store
    ensures o.status == 201 <==>
              && body.title != [] && body.content != [] && body.category != [] && requester != []
              && Trim(body.title) != [] && body.category in Categories && newId !in store
    ensures o.status == 201 ==>
              && o.store.Keys == store.Keys + {newId}
              && (forall k :: k in store ==> o.store[k] == store[k])
              && o.store[newId] == Blog(Trim(body.title), body.category, Descriptors(files),
                                        body.content, requester, now)
  {
    if body.title == [] || body.content == [] || body.category == [] then Outcome(400, store, disk)
    else if requester == [] then Outcome(401, store, disk)
    else
      var blog := Blog(Trim(body.title), body.category, Descriptors(files), body.content, requester, now);
      ValidWithTrimmedTitle(blog, body.title);
      if !ValidBlog(blog) || newId in store then Outcome(500, store, disk)
      else Outcome(201, store[newId := blog], disk)
  }

  /** The create handler for a request of either kind. Multer fills
      `req.files` only for a multipart body (`Some`); a JSON body (`None`)
      leaves it undefined, so once the 400 and 401 checks pass,
      `req.files.map` throws and the answer is 500 with nothing stored. */
  function CreateRequestOutcome(store: Store, disk: Disk, requester: string, body: BlogFields,
                                files: Option<seq<UploadedFile>>, newId: string, now: int): (o: Outcome)
    ensures files.Some? ==> o == CreateOutcome(store, disk, requester, body, files.value, newId, now)
    ensures files.None? ==> o.store == store && o.disk == disk
    ensures files.None? ==> (o.status == 400 <==> body.title == [] || body.content == [] || body.category == [])
    ensures files.None? ==> (o.status == 401 <==>
              body.title != [] && body.content != [] && body.category != [] && requester == [])
    ensures files.None? ==> (o.status == 500 <==>
              body.title != [] && body.content != [] && body.category != [] && requester != [])
  {
    match files
    case Some(fs) => CreateOutcome(store, disk, requester, body, fs, newId, now)
    case None =>
      if body.title == [] || body.content == [] || body.category == [] then Outcome(400, store, disk)
      else if requester == [] then Outcome(401, store, disk)
      else Outcome(500, store, disk)
  }

  /** A complete JSON create request is refused, while the same fields sent
      as a multipart form without files create the document. */
  lemma JsonCreateFails(store: Store, disk: Disk, requester: string, body: BlogFields,
                        newId: string, now: int)
    requires body.content != [] && requester != []
    requires Trim(body.title) != [] && body.category in Categories && newId !in store
    ensures CreateRequestOutcome(store, disk, requester, body, None, newId, now) == Outcome(500, store, disk)
    ensures CreateRequestOutcome(store, disk, requester, body, Some([]), newId, now).status == 201
  {
  }

  // ---------------------------------------------------------------------
  // PUT /:id

  /** The document after the update handler's assignments: the media list
      when files arrived, then title (through the setter), content and
      category, each from the body when it is non-empty. Owner and creation
      time are never touched, and a valid document sent no files and no
      fields comes back as it was. */
  function Merged(b: Blog, body: BlogFields, files: seq<UploadedFile>): (r: Blog)
    ensures r.userId == b.userId && r.createdAt == b.createdAt
    ensures ValidBlog(b) && body == BlogFields([], [], []) && files == [] ==> r == b
  {
    b.(mediaFiles := if |files| > 0 then Descriptors(files) else b.mediaFiles,
       title := Trim(if body.title != [] then body.title else b.title),
       content := if body.content != [] then body.content else b.content,
       category := if body.category != [] then body.category else b.category)
  }

  /** The update handler as written: a malformed id fails the lookup (500),
      a missing document is a 404 and another owner's a 403; otherwise the
      old media files are unlinked as soon as new files arrived, the fields
      are merged, and the save either stores the document (200) or fails
      validation (500). */
  function UpdateOutcome(store: Store, disk: Disk, id: string, requester: string,
                         body: BlogFields, files: seq<UploadedFile>): (o: Outcome)
    ensures o.status == 200 || o.status == 403 || o.status == 404 || o.status == 500
    ensures o.status == 404 <==> IsObjectId(id) && CanonicalId(id) !in store
    ensures o.status == 403 <==>
              IsObjectId(id) && CanonicalId(id) in store && store[CanonicalId(id)].userId != requester
    ensures o.status == 200 <==>
              IsObjectId(id) && CanonicalId(id) in store && store[CanonicalId(id)].userId == requester
              && ValidBlog(Merged(store[CanonicalId(id)], body, files))
    ensures o.status == 500 <==>
              !IsObjectId(id)
              || (CanonicalId(id) in store && store[CanonicalId(id)].userId == requester
                  && !ValidBlog(Merged(store[CanonicalId(id)], body, files)))
    ensures o.status != 200 ==> o.store == store
    ensures o.status == 200 ==>
              o.store == store[CanonicalId(id) := Merged(store[CanonicalId(id)], body, files)]
    ensures o.status == 403 || o.status == 404 || !IsObjectId(id) ==> o.disk == disk
    ensures IsObjectId(id) && CanonicalId(id) in store && store[CanonicalId(id)].userId == requester ==>
              o.disk == if |files| > 0 then disk - MediaNames(store[CanonicalId(id)].mediaFiles) else disk
  {
    var key := CanonicalId(id);
    if !IsObjectId(id) then Outcome(500, store, disk)
    else if key !in store then Outcome(404, store, disk)
    else if store[key].userId != requester then Outcome(403, store, disk)
    else
      var disk' := if |files| > 0 then disk - MediaNames(store[key].mediaFiles) else disk;
      var blog := Merged(store[key], body, files);
      if ValidBlog(blog) then Outcome(200, store[key := blog], disk') else Outcome(500, store, disk')
  }

  /** The update handler for a request of either kind. A JSON body (`None`)
      leaves `req.files` undefined: the lookup and the owner check answer as
      usual, but on the owner's path `req.files.length` throws before
      anything is unlinked or assigned, and the answer is 500. */
  function UpdateRequestOutcome(store: Store, disk: Disk, id: string, requester: string,
                                body: BlogFields, files: Option<seq<UploadedFile>>): (o: Outcome)
    ensures files.Some? ==> o == UpdateOutcome(store, disk, id, requester, body, files.value)
    ensures files.None? ==> o.store == store && o.disk == disk
    ensures files.None? ==> (o.status == 404 <==> IsObjectId(id) && CanonicalId(id) !in store)
    ensures files.None? ==> (o.status == 403 <==>
              IsObjectId(id) && CanonicalId(id) in store && store[CanonicalId(id)].userId != requester)
    ensures files.None? ==> (o.status == 500 <==>
              !IsObjectId(id) || (CanonicalId(id) in store && store[CanonicalId(id)].userId == requester))
  {
    match files
    case Some(fs) => UpdateOutcome(store, disk, id, requester, body, fs)
    case None =>
      var key := CanonicalId(id);
      if !IsObjectId(id) then Outcome(500, store, disk)
      else if key !in store then Outcome(404, store, disk)
      else if store[key].userId != requester then Outcome(403, store, disk)
      else Outcome(500, store, disk)
  }

  /** An owner's JSON update never succeeds, whatever it sends, while the
      same fields sent as a multipart form without files are stored when
      they leave the document valid. */
  lemma JsonUpdateFails(store: Store, disk: Disk, id: string, requester: string, body: BlogFields)
    requires IsObjectId(id) && CanonicalId(id) in store && store[CanonicalId(id)].userId == requester
    ensures UpdateRequestOutcome(store, disk, id, requester, body, None) == Outcome(500, store, disk)
    ensures ValidBlog(Merged(store[CanonicalId(id)], body, [])) ==>
              UpdateRequestOutcome(store, disk, id, requester, body, Some([])).status == 200
  {
  }

  /** On a permitted update each text field takes the request value when it
      is non-empty and otherwise keeps the stored one; a stored title stays
      as it is because it is already trimmed. */
  lemma UpdateMergeRule(store: Store, disk: Disk, id: string, requester: string,
                        body: BlogFields, files: seq<UploadedFile>)
    requires StoreValid(store)
    requires UpdateOutcome(store, disk, id, requester, body, files).status == 200
    ensures var old_ := store[CanonicalId(id)];
            var b := UpdateOutcome(store, disk, id, requester, body, files).store[CanonicalId(id)];
            && b.title == (if body.title != [] then Trim(body.title) else old_.title)
            && b.content == (if body.content != [] then body.content else old_.content)
            && b.category == (if body.category != [] then body.category else old_.category)
            && b.userId == old_.userId && b.createdAt == old_.createdAt
  {
    ValidTitleIsSetterFixed(store[CanonicalId(id)]);
  }

  /** Media on a permitted update: with files the list is replaced wholesale
      by their descriptors and the old files are unlinked; without files
      list and disk stay as they were. */
  lemma UpdateMediaRule(store: Store, disk: Disk, id: string, requester: string,
                        body: BlogFields, files: seq<UploadedFile>)
    requires UpdateOutcome(store, disk, id, requester, body, files).status == 200
    ensures var key := CanonicalId(id);
            var o := UpdateOutcome(store, disk, id, requester, body, files);
            && (|files| > 0 ==> o.store[key].mediaFiles == Descriptors(files)
                                && o.disk == disk - MediaNames(store[key].mediaFiles))
            && (|files| == 0 ==> o.store[key].mediaFiles == store[key].mediaFiles && o.disk == disk)
  {
  }

  /** As written, a save that fails validation after new files arrived has
      already unlinked the old media: the answer is 500 and the stored
      document is unchanged, yet every file it names is gone from disk, and
      only those files. */
  lemma FailedSaveLosesMedia(store: Store, disk: Disk, id: string, requester: string,
                             body: BlogFields, files: seq<UploadedFile>)
    requires IsObjectId(id) && CanonicalId(id) in store && store[CanonicalId(id)].userId == requester
    requires |files| > 0 && !ValidBlog(Merged(store[CanonicalId(id)], body, files))
    ensures var media := store[CanonicalId(id)].mediaFiles;
            var o := UpdateOutcome(store, disk, id, requester, body, files);
            && o.status == 500 && o.store == store
            && o.disk == disk - MediaNames(media)
            && forall i :: 0 <= i < |media| ==> LastSegment(media[i].fileUrl) !in o.disk
  {
  }

  /** A save that fails validation without new files unlinks nothing: the
      answer is 500 and store and disk are as they were. */
  lemma FailedSaveWithoutFilesKeepsDisk(store: Store, disk: Disk, id: string, requester: string,
                                        body: BlogFields)
    requires IsObjectId(id) && CanonicalId(id) in store && store[CanonicalId(id)].userId == requester
    requires !ValidBlog(Merged(store[CanonicalId(id)], body, []))
    ensures UpdateOutcome(store, disk, id, requester, body, []) == Outcome(500, store, disk)
  {
  }

  /** A title of two spaces, merged into any document, leaves it invalid:
      the setter trims it to nothing. */
  lemma BlankTitleNeverValid(b: Blog, files: seq<UploadedFile>)
    ensures !ValidBlog(Merged(b, BlogFields("  ", "", ""), files))
  {
    assert AllTrimmable("  ");
  }

  /** A concrete run of the defect: the owner sends a blank title (truthy,
      so it passes the handler's checks) with one new file; the setter trims
      it to "", validation fails, and the stored image "1-a.png" is gone. */
  lemma BlankTitleUpdateExample(id: string, owner: string)
    requires IsCanonicalId(id) && owner != []
    ensures var store := map[id := Blog("Trip", "Travel", [Media(UrlPrefix + "1-a.png", "image")], "Notes", owner, 0)];
            var o := UpdateOutcome(store, {"1-a.png"}, id, owner, BlogFields("  ", "", ""),
                                   [UploadedFile("2-b.png", "image/png")]);
            o.status == 500 && o.store == store && "1-a.png" !in o.disk
  {
    var store := map[id := Blog("Trip", "Travel", [Media(UrlPrefix + "1-a.png", "image")], "Notes", owner, 0)];
    var body := BlogFields("  ", "", "");
    var files := [UploadedFile("2-b.png", "image/png")];
    assert IsObjectId(id) && CanonicalId(id) == id;
    BlankTitleNeverValid(store[id], files);
    LastSegmentAfterSlash(UrlPrefix, "1-a.png");
    assert "1-a.png" in MediaNames(store[id].mediaFiles);
    FailedSaveLosesMedia(store, {"1-a.png"}, id, owner, body, files);
  }

  /** The update rule as evidently intended: the merged document is
      validated before any file is unlinked. */
  function CheckedUpdateOutcome(store: Store, disk: Disk, id: string, requester: string,
                                body: BlogFields, files: seq<UploadedFile>): (o: Outcome)
    ensures o.status != 200 ==> o.store == store && o.disk == disk
  {
    var key := CanonicalId(id);
    if !IsObjectId(id) then Outcome(500, store, disk)
    else if key !in store then Outcome(404, store, disk)
    else if store[key].userId != requester then Outcome(403, store, disk)
    else
      var blog := Merged(store[key], body, files);
      if !ValidBlog(blog) then Outcome(500, store, disk)
      else
        var disk' := if |files| > 0 then disk - MediaNames(store[key].mediaFiles) else disk;
        Outcome(200, store[key := blog], disk')
  }

  /** The corrected rule answers every request with the handler's status,
      and a successful update stores and unlinks exactly what the handler
      does: only the failed saves differ. */
  lemma CheckedUpdateAgrees(store: Store, disk: Disk, id: string, requester: string,
                            body: BlogFields, files: seq<UploadedFile>)
    ensures var c := CheckedUpdateOutcome(store, disk, id, requester, body, files);
            var u := UpdateOutcome(store, disk, id, requester, body, files);
            c.status == u.status && (c.status == 200 ==> c == u)
  {
  }

  // ---------------------------------------------------------------------
  // DELETE /:id

  /** The delete handler: the same lookup and ownership ladder as update;
      then every media file that exists is unlinked and the document goes. */
  function DeleteOutcome(store: Store, disk: Disk, id: string, requester: string): (o: Outcome)
    ensures o.status == 200 || o.status == 403 || o.status == 404 || o.status == 500
    ensures o.status == 500 <==> !IsObjectId(id)
    ensures o.status == 404 <==> IsObjectId(id) && CanonicalId(id) !in store
    ensures o.status == 403 <==>
              IsObjectId(id) && CanonicalId(id) in store && store[CanonicalId(id)].userId != requester
    ensures o.status == 200 <==>
              IsObjectId(id) && CanonicalId(id) in store && store[CanonicalId(id)].userId == requester
    ensures o.status != 200 ==> o.store == store && o.disk == disk
    ensures o.status == 200 ==>
              && o.store.Keys == store.Keys - {CanonicalId(id)}
              && (forall k :: k in o.store ==> o.store[k] == store[k])
              && o.disk == disk - MediaNames(store[CanonicalId(id)].mediaFiles)
  {
    var key := CanonicalId(id);
    if !IsObjectId(id) then Outcome(500, store, disk)
    else if key !in store then Outcome(404, store, disk)
    else if store[key].userId != requester then Outcome(403, store, disk)
    else Outcome(200, store - {key}, disk - MediaNames(store[key].mediaFiles))
  }

  /** Every handler that writes keeps the collection valid. */
  lemma HandlersKeepStoreValid(store: Store, disk: Disk, requester: string, body: BlogFields,
                               files: seq<UploadedFile>, id: string, now: int)
    requires StoreValid(store)
    ensures StoreValid(CreateOutcome(store, disk, requester, body, files, id, now).store)
    ensures StoreValid(UpdateOutcome(store, disk, id, requester, body, files).store)
    ensures StoreValid(CheckedUpdateOutcome(store, disk, id, requester, body, files).store)
    ensures StoreValid(DeleteOutcome(store, disk, id, requester).store)
  {
    CreateKeepsStoreValid(store, disk, requester, body, files, id, now);
    UpdateKeepsStoreValid(store, disk, requester, body, files, id);
    CheckedUpdateAgrees(store, disk, id, requester, body, files);
    var d := DeleteOutcome(store, disk, id, requester);
    assert forall k :: k in d.store ==> k in store && d.store[k] == store[k];
  }

  lemma CreateKeepsStoreValid(store: Store, disk: Disk, requester: string, body: BlogFields,
                              files: seq<UploadedFile>, newId: string, now: int)
    requires StoreValid(store)
    ensures StoreValid(CreateOutcome(store, disk, requester, body, files, newId, now).store)
  {
    var o := CreateOutcome(store, disk, requester, body, files, newId, now);
    if o.status == 201 {
      var b := Blog(Trim(body.title), body.category, Descriptors(files), body.content, requester, now);
      ValidWithTrimmedTitle(b, body.title);
      assert o.store == store[newId := b];
    }
  }

  lemma UpdateKeepsStoreValid(store: Store, disk: Disk, requester: string, body: BlogFields,
                              files: seq<UploadedFile>, id: string)
    requires StoreValid(store)
    ensures StoreValid(UpdateOutcome(store, disk, id, requester, body, files).store)
  {
    var o := UpdateOutcome(store, disk, id, requester, body, files);
    if o.status == 200 {
      var key := CanonicalId(id);
      var b := Merged(store[key], body, files);
      assert ValidBlog(b);
      assert o.store == store[key := b];
      forall k | k in o.store ensures ValidBlog(o.store[k]) {
        if k != key {
          assert o.store[k] == store[k];
        }
      }
    }
  }

  // ---------------------------------------------------------------------
  // GET routes

  /** Where a GET below the mount point lands. The router tries `/all`,
      then `/blogs/:id`, then `/:userId`, in that order, and a route
      parameter matches one non-empty path segment. */
  datatype GetRoute = ListAll | SingleBlog(id: string) | UserListing(userId: string) | NoGetRoute

  /** The segments the router compares. A path below the mount point is
      given as its segments between slashes, so a trailing slash leaves one
      empty last segment; Express's default router is not strict and
      accepts one trailing slash, which is dropped here. */
  function ComparedSegments(segments: seq<string>): (r: seq<string>)
    ensures r == segments || (|segments| > 1 && segments == r + [[]])
    ensures |r| >= 1 <==> |segments| >= 1
  {
    if |segments| > 1 && segments[|segments| - 1] == [] then segments[..|segments| - 1] else segments
  }

  /** The router matches a route's own text ignoring letter case; a
      parameter keeps the spelling it was sent with. */
  function MatchGet(segments: seq<string>): (r: GetRoute)
    ensures var s := ComparedSegments(segments);
            && (r == ListAll <==> |s| == 1 && AsciiLower(s[0]) == "all")
            && (r.SingleBlog? <==> |s| == 2 && AsciiLower(s[0]) == "blogs" && s[1] != [])
            && (r.UserListing? <==> |s| == 1 && s[0] != [] && AsciiLower(s[0]) != "all")
            && (r.SingleBlog? ==> r.id == s[1])
            && (r.UserListing? ==> r.userId == s[0])
  {
    var s := ComparedSegments(segments);
    if |s| == 1 && AsciiLower(s[0]) == "all" then ListAll
    else if |s| == 2 && AsciiLower(s[0]) == "blogs" && s[1] != [] then SingleBlog(s[1])
    else if |s| == 1 && s[0] != [] then UserListing(s[0])
    else NoGetRoute
  }

  /** A route's text in any letter case, and with one trailing slash,
      reaches the same handler: `/ALL` lists every document and
      `/Blogs/<id>/` reads one. */
  lemma MatchGetIgnoresCaseAndTrailingSlash(id: string)
    requires id != []
    ensures MatchGet(["ALL"]) == ListAll
    ensures MatchGet(["all", []]) == ListAll
    ensures MatchGet(["Blogs", id]) == SingleBlog(id)
    ensures MatchGet(["Blogs", id, []]) == SingleBlog(id)
  {
    LowersTo("ALL", "all");
    LowersTo("all", "all");
    LowersTo("Blogs", "blogs");
    assert ["all", []][..1] == ["all"];
    assert ["Blogs", id, []][..2] == ["Blogs", id];
  }

  /** The single-document read: a malformed id fails the lookup (500), a
      missing one is a 404, otherwise the document. */
  function FetchBlog(store: Store, id: string): (r: (int, Option<Blog>))
    ensures r.0 == 200 <==> IsObjectId(id) && CanonicalId(id) in store
    ensures r.0 == 404 <==> IsObjectId(id) && CanonicalId(id) !in store
    ensures r.0 == 500 <==> !IsObjectId(id)
    ensures r.1.Some? <==> r.0 == 200
    ensures r.1.Some? ==> r.1.value == store[CanonicalId(id)]
  {
    var key := CanonicalId(id);
    if !IsObjectId(id) then (500, None)
    else if key !in store then (404, None)
    else (200, Some(store[key]))
  }

  /** Every spelling of an id finds the document stored under its
      lower-case spelling: `key` is `id` with each digit A-F lowered. */
  lemma AnySpellingFindsDocument(store: Store, id: string, key: string)
    requires IsObjectId(id) && key in store
    requires |key| == |id| && forall i :: 0 <= i < |id| ==> key[i] == LowerHexDigit(id[i])
    ensures FetchBlog(store, id) == (200, Some(store[key]))
  {
    assert CanonicalId(id) == key;
  }

  predicate NewestFirst(es: seq<Entry>) {
    forall i, j :: 0 <= i < j < |es| ==> es[i].blog.createdAt >= es[j].blog.createdAt
  }

  /** What `Blog.find({ userId }).sort({ createdAt: -1 })` returns: each of
      that user's documents exactly once, with its id, newest first. Such
      an answer is empty exactly when the user owns no document. */
  predicate IsUserQuery(store: Store, userId: string, found: seq<Entry>)
    ensures IsUserQuery(store, userId, found) && found != [] ==>
              found[0].id in store && store[found[0].id].userId == userId
    ensures IsUserQuery(store, userId, found) ==>
              (found == [] <==> forall id :: id in store ==> store[id].userId != userId)
  {
    && (forall i :: 0 <= i < |found| ==>
          found[i].id in store && store[found[i].id] == found[i].blog && found[i].blog.userId == userId)
    && (forall id :: id in store && store[id].userId == userId ==>
          exists i :: 0 <= i < |found| && found[i].id == id)
    && (forall i, j :: 0 <= i < j < |found| ==> found[i].id != found[j].id)
    && NewestFirst(found)
  }

  /** The per-user listing, with the query's answer as the parameter
      `found`: its guards run in order 400, 403, 404, and 200 carries each
      of that user's documents exactly once, newest first. The requester's
      id is compared with the path as text. */
  function UserBlogs(store: Store, requester: string, userId: string, found: seq<Entry>): (r: Listing)
    requires IsUserQuery(store, userId, found)
    ensures r.status == 400 <==> !IsObjectId(userId)
    ensures r.status == 403 <==> IsObjectId(userId) && requester != userId
    ensures r.status == 404 <==>
              IsObjectId(userId) && requester == userId && (forall id :: id in store ==> store[id].userId != userId)
    ensures r.status == 200 <==>
              IsObjectId(userId) && requester == userId && (exists id :: id in store && store[id].userId == userId)
    ensures r.status != 200 ==> r.entries == []
    ensures r.status == 200 ==>
              && |r.entries| > 0 && NewestFirst(r.entries)
              && (forall i :: 0 <= i < |r.entries| ==>
                    r.entries[i].id in store && store[r.entries[i].id] == r.entries[i].blog
                    && r.entries[i].blog.userId == userId)
              && (forall id :: id in store && store[id].userId == userId ==>
                    exists i :: 0 <= i < |r.entries| && r.entries[i].id == id)
              && (forall i, j :: 0 <= i < j < |r.entries| ==> r.entries[i].id != r.entries[j].id)
  {
    if !IsObjectId(userId) then Listing(400, [])
    else if requester != userId then Listing(403, [])
    else if |found| == 0 then Listing(404, [])
    else Listing(200, found)
  }

  // ---------------------------------------------------------------------
  // The handlers run against the state

  class BlogServer {
    var store: Store
    var disk: Disk

    ghost predicate Valid()
      reads this
    {
      StoreValid(store)
    }

    constructor (store0: Store, disk0: Disk)
      requires StoreValid(store0)
      ensures Valid() && store == store0 && disk == disk0
    {
      store, disk := store0, disk0;
    }

    /** The `forEach` that unlinks each media file that exists. */
    method UnlinkMedia(media: seq<Media>)
      modifies this`disk
      ensures disk == old(disk) - MediaNames(media)
    {
      var i := 0;
      while i < |media|
        invariant 0 <= i <= |media|
        invariant disk == old(disk) - MediaNames(media[..i])
      {
        var name := LastSegment(media[i].fileUrl);
        UnlinkStep(old(disk), disk, media, i);
        if name in disk {
          disk := disk - {name};
        } else {
          assert disk == disk - {name};
        }
        i := i + 1;
      }
      assert media[..i] == media;
    }

    method Create(requester: string, body: BlogFields, files: seq<UploadedFile>, newId: string, now: int)
      returns (status: int)
      requires Valid()
      modifies this`store
      ensures Valid()
      ensures Outcome(status, store, disk) == CreateOutcome(old(store), disk, requester, body, files, newId, now)
    {
      if body.title == [] || body.content == [] || body.category == [] {
        return 400;
      }
      if requester == [] {
        return 401;
      }
      var blog := Blog(Trim(body.title), body.category, Descriptors(files), body.content, requester, now);
      if !ValidBlog(blog) || newId in store {
        return 500;
      }
      store := store[newId := blog];
      return 201;
    }

    /** The update handler with the corrected ordering: the document is
        merged field by field and validated before any old file is
        unlinked. */
    method Update(id: string, requester: string, body: BlogFields, files: seq<UploadedFile>)
      returns (status: int)
      requires Valid()
      modifies this
      ensures Valid()
      ensures Outcome(status, store, disk) == CheckedUpdateOutcome(old(store), old(disk), id, requester, body, files)
    {
      if !IsObjectId(id) {
        return 500;
      }
      var key := CanonicalId(id);
      if key !in store {
        return 404;
      }
      var blog := store[key];
      if blog.userId != requester {
        return 403;
      }
      if |files| > 0 {
        blog := blog.(mediaFiles := Descriptors(files));
      }
      blog := blog.(title := Trim(if body.title != [] then body.title else blog.title));
      blog := blog.(content := if body.content != [] then body.content else blog.content);
      blog := blog.(category := if body.category != [] then body.category else blog.category);
      if !ValidBlog(blog) {
        return 500;
      }
      if |files| > 0 {
        UnlinkMedia(store[key].mediaFiles);
      }
      store := store[key := blog];
      return 200;
    }

    method Delete(id: string, requester: string) returns (status: int)
      requires Valid()
      modifies this
      ensures Valid()
      ensures Outcome(status, store, disk) == DeleteOutcome(old(store), old(disk), id, requester)
    {
      if !IsObjectId(id) {
        return 500;
      }
      var key := CanonicalId(id);
      if key !in store {
        return 404;
      }
      var blog := store[key];
      if blog.userId != requester {
        return 403;
      }
      UnlinkMedia(blog.mediaFiles);
      store := store - {key};
      return 200;
    }
  }
}
