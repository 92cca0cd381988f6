/** The create form (`CreateBlogForm`): text fields, a media selection
    validated on the client and kept as three parallel lists (files,
    previews, names), and the submit check in front of `POST /blogs/create`. */
module BlogsList {
  import opened JsBuiltins
  import opened BrowserFile
  import BlogModel
  import BlogRoutes

  /** The options of the category select. */
  const FormCategories: seq<string> :=
    ["Technology", "Health", "Finance", "Education", "Entertainment", "Food", "Travel", "Science", "Others"]

  /** The client's size limit: 5 MiB. */
  const MaxFileSize: nat := 5 * 1024 * 1024

  /** The select offers exactly the schema's categories, in the same order. */
  lemma FormCategoriesAreSchemaCategories()
    ensures FormCategories == BlogModel.Categories
    ensures |FormCategories| == 9
  {
  }

  // ---------------------------------------------------------------------
  // Media selection

  /** The selection filter's test: within the size limit and an image or
      video MIME type. A file without a type or over the limit is refused,
      and an accepted file that is not an image really is a video, so its
      "video" preview is right. */
  predicate Acceptable(f: File)
    ensures f.mimeType == [] || f.size > MaxFileSize ==> !Acceptable(f)
    ensures Acceptable(f) && PreviewOf(f).kind == "video" ==> StartsWith(f.mimeType, "video")
  {
    f.size <= MaxFileSize && (StartsWith(f.mimeType, "image") || StartsWith(f.mimeType, "video"))
  }

  /** The files a selection keeps: every kept file is within the limit and
      of an image or video type, a selected file is kept exactly when it
      passes, as often as it was selected, and the kept files keep their
      order. */
  function ValidFiles(files: seq<File>): (r: seq<File>)
    ensures |r| <= |files|
    ensures forall i :: 0 <= i < |r| ==>
              r[i].size <= MaxFileSize && (StartsWith(r[i].mimeType, "image") || StartsWith(r[i].mimeType, "video"))
    ensures forall f :: f in r <==> f in files && Acceptable(f)
    ensures forall f :: multiset(r)[f] == if Acceptable(f) then multiset(files)[f] else 0
    ensures IsSubsequence(r, files)
  {
    Filter(files, Acceptable)
  }

  /** `files.map((file) => file.name)` */
  function Names(files: seq<File>): (ns: seq<string>)
    ensures |ns| == |files|
    ensures forall i :: 0 <= i < |files| ==> ns[i] == files[i].name
  {
    seq(|files|, i requires 0 <= i < |files| => files[i].name)
  }

  /** The three lists describe the same files, index by index. */
  predicate Aligned(files: seq<File>, previews: seq<Preview>, names: seq<string>) {
    PreviewsMatch(files, previews) && names == Names(files)
  }

  /** Appending files to all three lists keeps them aligned. */
  lemma AlignedAppend(files: seq<File>, previews: seq<Preview>, names: seq<string>, more: seq<File>)
    requires Aligned(files, previews, names)
    ensures Aligned(files + more, previews + PreviewsOf(more), names + Names(more))
  {
  }

  /** Removing one index from all three lists keeps them aligned. */
  lemma AlignedRemove(files: seq<File>, previews: seq<Preview>, names: seq<string>, index: int)
    requires Aligned(files, previews, names)
    ensures Aligned(WithoutIndex(files, index), WithoutIndex(previews, index), WithoutIndex(names, index))
  {
  }

  // ---------------------------------------------------------------------
  // Submission

  /** What `handleSubmit` posts: the three fields, the user id and the files. */
  datatype CreatePayload = CreatePayload(title: string, content: string, category: string,
                                         userId: string, mediaFiles: seq<File>)

  /** The submit check: nothing is sent when a field is empty or there is
      no user id (`user` missing, or `user._id` empty); otherwise the form
      as it stands. */
  function Submission(title: string, content: string, category: string, files: seq<File>,
                      userId: Option<string>): (r: Option<CreatePayload>)
    ensures r.None? <==> title == [] || content == [] || category == [] || userId.None? || userId.value == []
    ensures r.Some? ==> r.value == CreatePayload(title, content, category, userId.value, files)
  {
    if title == [] || content == [] || category == [] then None
    else if userId.None? || userId.value == [] then None
    else Some(CreatePayload(title, content, category, userId.value, files))
  }

  /** The request body fields of a payload. */
  function Fields(p: CreatePayload): BlogRoutes.BlogFields {
    BlogRoutes.BlogFields(p.title, p.content, p.category)
  }

  /** A sent form with a category from the select and a title that is not
      blank is created by the server for the signed-in user, given a fresh
      id: its checks and the schema accept what the form let through. The
      handler takes the owner from the token (`requester`), never from the
      body's `userId`, so that field plays no part. */
  lemma SentFormIsCreated(p: CreatePayload, requester: string, store: BlogRoutes.Store,
                          disk: BlogRoutes.Disk, uploaded: seq<BlogRoutes.UploadedFile>,
                          newId: string, now: int)
    requires p.title != [] && p.content != [] && requester != []
    requires p.category in FormCategories && !AllTrimmable(p.title)
    requires newId !in store
    ensures var o := BlogRoutes.CreateOutcome(store, disk, requester, Fields(p), uploaded, newId, now);
            o.status == 201 && o.store[newId].userId == requester
  {
  }

  /** The client checks only that the title is non-empty: a sent title of
      white space passes them and the server's 400 check, and the schema's
      trimmed title then fails validation, so the answer is 500 whoever the
      token names. */
  lemma BlankTitleFailsOnServer(p: CreatePayload, requester: string, store: BlogRoutes.Store,
                                disk: BlogRoutes.Disk, uploaded: seq<BlogRoutes.UploadedFile>,
                                newId: string, now: int)
    requires p.title != [] && p.content != [] && p.category != [] && requester != []
    requires AllTrimmable(p.title)
    ensures BlogRoutes.CreateOutcome(store, disk, requester, Fields(p), uploaded, newId, now).status == 500
  {
  }

  // ---------------------------------------------------------------------
  // The form's state

  class CreateBlogForm {
    var title: string
    var content: string
    var category: string
    var mediaFiles: seq<File>
    var previews: seq<Preview>
    var fileNames: seq<string>

    ghost predicate Valid()
      reads this
    {
      Aligned(mediaFiles, previews, fileNames)
    }

    /** The form is empty: the initial state and the state after a
        successful submit. */
    ghost predicate Empty()
      reads this
    {
      title == [] && content == [] && category == [] && mediaFiles == [] && previews == [] && fileNames == []
    }

    constructor ()
      ensures Valid() && Empty()
    {
      title, content, category := [], [], [];
      mediaFiles, previews, fileNames := [], [], [];
    }

    method HandleChange(field: FieldName, value: string)
      modifies this`title, this`content, this`category
      ensures title == (if field == TitleField then value else old(title))
      ensures content == (if field == ContentField then value else old(content))
      ensures category == (if field == CategoryField then value else old(category))
    {
      match field
      case TitleField => title := value;
      case ContentField => content := value;
      case CategoryField => category := value;
    }

    /** A selection: the acceptable files are appended to the files, their
        previews and their names; with none acceptable nothing changes. */
    method HandleMediaChange(files: seq<File>)
      requires Valid()
      modifies this`mediaFiles, this`previews, this`fileNames
      ensures Valid()
      ensures mediaFiles == old(mediaFiles) + ValidFiles(files)
      ensures previews == old(previews) + PreviewsOf(ValidFiles(files))
      ensures fileNames == old(fileNames) + Names(ValidFiles(files))
      ensures ValidFiles(files) == [] ==>
                mediaFiles == old(mediaFiles) && previews == old(previews) && fileNames == old(fileNames)
    {
      var validFiles := ValidFiles(files);
      if |validFiles| == 0 {
        return;
      }
      AlignedAppend(mediaFiles, previews, fileNames, validFiles);
      mediaFiles := mediaFiles + validFiles;
      previews := previews + PreviewsOf(validFiles);
      fileNames := fileNames + Names(validFiles);
    }

    /** Removes one index from all three lists. */
    method RemoveMedia(index: int)
      requires Valid()
      modifies this`mediaFiles, this`previews, this`fileNames
      ensures Valid()
      ensures mediaFiles == WithoutIndex(old(mediaFiles), index)
      ensures previews == WithoutIndex(old(previews), index)
      ensures fileNames == WithoutIndex(old(fileNames), index)
    {
      AlignedRemove(mediaFiles, previews, fileNames, index);
      mediaFiles := WithoutIndex(mediaFiles, index);
      previews := WithoutIndex(previews, index);
      fileNames := WithoutIndex(fileNames, index);
    }

    /** Submit: returns what is posted, if anything; a 201 answer empties the
        form, anything else leaves it as it was. */
    method HandleSubmit(userId: Option<string>, responseStatus: int) returns (sent: Option<CreatePayload>)
      requires Valid()
      modifies this
      ensures Valid()
      ensures sent == Submission(old(title), old(content), old(category), old(mediaFiles), userId)
      ensures sent.Some? && responseStatus == 201 ==> Empty()
      ensures sent.None? || responseStatus != 201 ==>
                && title == old(title) && content == old(content) && category == old(category)
                && mediaFiles == old(mediaFiles) && previews == old(previews) && fileNames == old(fileNames)
    {
      if title == [] || content == [] || category == [] {
        return None;
      }
      if userId.None? || userId.value == [] {
        return None;
      }
      sent := Some(CreatePayload(title, content, category, userId.value, mediaFiles));
      if responseStatus == 201 {
        title, content, category := [], [], [];
        mediaFiles := [];
        previews := [];
        fileNames := [];
      }
    }
  }
}
