/** The edit form (`EditBlog`): populated from a stored blog, it collects
    new files with their previews, moves stored media into a deleted list,
    and checks the fields before `PUT /blogs/:id`. */
module EditBlog {
  import opened JsBuiltins
  import opened BrowserFile
  import opened BlogModel
  import BlogRoutes

  /** The options of the category select. */
  const FormCategories: seq<string> :=
    ["Technology", "Health", "Finance", "Education", "Entertainment", "Food", "Travel", "Science", "Others"]

  /** The select offers exactly the schema's categories, in the same order. */
  lemma FormCategoriesAreSchemaCategories()
    ensures FormCategories == Categories
  {
  }

  /** What `handleSubmit` puts: the fields, the new files and the media the
      user removed. */
  datatype EditPayload = EditPayload(title: string, content: string, category: string,
                                     mediaFiles: seq<File>, deletedMedia: seq<Media>)

  /** The submit check: nothing is sent when a field is empty, otherwise the
      form as it stands. */
  function EditSubmission(title: string, content: string, category: string, files: seq<File>,
                          deleted: seq<Media>): (r: Option<EditPayload>)
    ensures r.None? <==> title == [] || content == [] || category == []
    ensures r.Some? ==> r.value == EditPayload(title, content, category, files, deleted)
  {
    if title == [] || content == [] || category == [] then None
    else Some(EditPayload(title, content, category, files, deleted))
  }

  /** The update handler reads no `deletedMedia`: a put of the form's
      fields without new files, whatever its answer, keeps every file on
      disk and leaves the stored media of the document untouched, whatever
      the user removed in the form. */
  lemma DeletedMediaIsIgnored(p: EditPayload, store: BlogRoutes.Store, disk: BlogRoutes.Disk,
                              id: string, requester: string)
    ensures var o := BlogRoutes.UpdateOutcome(store, disk, id, requester,
                                              BlogRoutes.BlogFields(p.title, p.content, p.category), []);
            && o.disk == disk
            && (BlogRoutes.CanonicalId(id) in store ==>
                  BlogRoutes.CanonicalId(id) in o.store
                  && o.store[BlogRoutes.CanonicalId(id)].mediaFiles == store[BlogRoutes.CanonicalId(id)].mediaFiles)
  {
    var fields := BlogRoutes.BlogFields(p.title, p.content, p.category);
    var o := BlogRoutes.UpdateOutcome(store, disk, id, requester, fields, []);
    if o.status == 200 {
      BlogRoutes.UpdateMediaRule(store, disk, id, requester, fields, []);
    }
  }

  // ---------------------------------------------------------------------
  // Loading the blog to edit

  /** The path segments below the `/blogs` mount that `fetchBlog` requests:
      `/blogs/${id}` is the single segment `id`. */
  function EditFetchSegments(id: string): seq<string> {
    [id]
  }

  /** As written, the fetch lands on the per-user listing with the blog's id
      taken for a user id. A signed-in user's own id is never a blog's id,
      so the answer is 403 and the form is never filled. */
  lemma EditFetchHitsUserListing(store: BlogRoutes.Store, requester: string, id: string,
                                 found: seq<BlogRoutes.Entry>)
    requires BlogRoutes.IsObjectId(id) && requester != id
    requires BlogRoutes.IsUserQuery(store, id, found)
    ensures BlogRoutes.MatchGet(EditFetchSegments(id)) == BlogRoutes.UserListing(id)
    ensures BlogRoutes.UserBlogs(store, requester, id, found).status == 403
  {
  }

  /** The path as evidently intended: `/blogs/blogs/${id}`, the
      single-document route. */
  function CorrectedEditFetchSegments(id: string): seq<string> {
    ["blogs", id]
  }

  /** Through the intended path a stored blog's id reaches the
      single-document route, which answers with that document: what
      `Populate` takes. */
  lemma CorrectedEditFetchFindsBlog(store: BlogRoutes.Store, id: string)
    requires BlogRoutes.IsObjectId(id) && BlogRoutes.CanonicalId(id) in store
    ensures BlogRoutes.MatchGet(CorrectedEditFetchSegments(id)) == BlogRoutes.SingleBlog(id)
    ensures BlogRoutes.FetchBlog(store, id) == (200, Some(store[BlogRoutes.CanonicalId(id)]))
  {
    LowersTo("blogs", "blogs");
  }

  class EditBlogForm {
    var title: string
    var content: string
    var category: string
    var mediaFiles: seq<File>
    var previews: seq<Preview>
    var existingMedia: seq<Media>
    var deletedMedia: seq<Media>

    /** The new files and their previews are index-aligned. */
    ghost predicate Valid()
      reads this
    {
      PreviewsMatch(mediaFiles, previews)
    }

    constructor ()
      ensures Valid()
      ensures title == [] && content == [] && category == []
      ensures mediaFiles == [] && previews == [] && existingMedia == [] && deletedMedia == []
    {
      title, content, category := [], [], [];
      mediaFiles, previews := [], [];
      existingMedia, deletedMedia := [], [];
    }

    /** `populateBlogData`: copies the text fields, empties the new files and
        takes the blog's media as the existing media. Previews and the
        deleted list are not touched, so the form stays aligned only when
        no preview was shown yet. */
    method Populate(b: Blog)
      modifies this`title, this`content, this`category, this`mediaFiles, this`existingMedia
      ensures title == b.title && content == b.content && category == b.category
      ensures mediaFiles == [] && existingMedia == b.mediaFiles
      ensures old(previews) == [] ==> Valid()
    {
      title, content, category := b.title, b.content, b.category;
      mediaFiles := [];
      existingMedia := b.mediaFiles;
    }

    method HandleChange(field: FieldName, value: string)
      modifies this`title, this`content, this`category
      ensures title == (if field == TitleField then value else old(title))
      ensures content == (if field == ContentField then value else old(content))
      ensures category == (if field == CategoryField then value else old(category))
    {
      match field
      case TitleField => title := value;
      case ContentField => content := value;
      case CategoryField => category := value;
    }

    /** A selection: every selected file is appended, unvalidated, with its
        preview; an empty selection changes nothing. */
    method HandleMediaChange(files: seq<File>)
      requires Valid()
      modifies this`mediaFiles, this`previews
      ensures Valid()
      ensures mediaFiles == old(mediaFiles) + files
      ensures previews == old(previews) + PreviewsOf(files)
    {
      if |files| == 0 {
        return;
      }
      PreviewsMatchAppend(mediaFiles, previews, files);
      mediaFiles := mediaFiles + files;
      previews := previews + PreviewsOf(files);
    }

    /** Removes one index from the new files and their previews; the stored
        media lists are not touched. */
    method RemoveMedia(index: int)
      requires Valid()
      modifies this`mediaFiles, this`previews
      ensures Valid()
      ensures mediaFiles == WithoutIndex(old(mediaFiles), index)
      ensures previews == WithoutIndex(old(previews), index)
    {
      PreviewsMatchRemove(mediaFiles, previews, index);
      mediaFiles := WithoutIndex(mediaFiles, index);
      previews := WithoutIndex(previews, index);
    }

    /** Moves a stored media entry to the deleted list: no entry is lost or
        duplicated between the two lists. */
    method RemoveExistingMedia(index: int)
      requires 0 <= index < |existingMedia|
      modifies this`existingMedia, this`deletedMedia
      ensures deletedMedia == old(deletedMedia) + [old(existingMedia)[index]]
      ensures existingMedia == WithoutIndex(old(existingMedia), index)
      ensures multiset(existingMedia) + multiset(deletedMedia) == multiset(old(existingMedia)) + multiset(old(deletedMedia))
      ensures |existingMedia| + |deletedMedia| == |old(existingMedia)| + |old(deletedMedia)|
    {
      WithoutIndexMultiset(existingMedia, index);
      deletedMedia := deletedMedia + [existingMedia[index]];
      existingMedia := WithoutIndex(existingMedia, index);
    }

    /** Submit: what is put, if anything; the form itself does not change. */
    method HandleSubmit() returns (sent: Option<EditPayload>)
      ensures sent == EditSubmission(title, content, category, mediaFiles, deletedMedia)
    {
      if title == [] || content == [] || category == [] {
        return None;
      }
      sent := Some(EditPayload(title, content, category, mediaFiles, deletedMedia));
    }
  }
}
