/** The `Blog` document schema: which records the collection accepts. */
module BlogModel {
  import opened JsBuiltins

  /** The category enumeration, in the schema's order. */
  const Categories: seq<string> :=
    ["Technology", "Health", "Finance", "Education", "Entertainment", "Food", "Travel", "Science", "Others"]

  /** The `fileType` enumeration of a media entry. */
  const FileTypes: seq<string> := ["image", "video", "gif"]

  /** One entry of `mediaFiles`. */
  datatype Media = Media(fileUrl: string, fileType: string)

  /** A blog document; `userId` is the owner's id as a string and
      `createdAt` the creation time in milliseconds. */
  datatype Blog = Blog(
    title: string,
    category: string,
    mediaFiles: seq<Media>,
    content: string,
    userId: string,
    createdAt: int)

  /** A `required: true` string path rejects the empty string. */
  predicate Present(s: string) {
    s != []
  }

  /** A media entry: both paths are required and the type is one of the
      enum, so an entry is valid exactly when it has a URL and is an image,
      a video or a gif. */
  predicate ValidMedia(m: Media)
    ensures ValidMedia(m) <==> m.fileUrl != [] && (m.fileType == "image" || m.fileType == "video" || m.fileType == "gif")
  {
    Present(m.fileUrl) && Present(m.fileType) && m.fileType in FileTypes
  }

  /** What validation admits: every required path present, the category and
      every media type from their enums, and the title in its trimmed form
      (the schema's `trim` setter runs on every assignment of the title).
      A valid title neither starts nor ends with white space. */
  predicate ValidBlog(b: Blog) {
    && Present(b.title) && TrimmedForm(b.title)
    && Present(b.category) && b.category in Categories
    && (forall i :: 0 <= i < |b.mediaFiles| ==> ValidMedia(b.mediaFiles[i]))
    && Present(b.content)
    && Present(b.userId)
  }

  /** The title of a valid document is one the setter leaves unchanged:
      assigning a stored title again stores the same text. */
  lemma ValidTitleIsSetterFixed(b: Blog)
    requires ValidBlog(b)
    ensures b.title != [] && Trim(b.title) == b.title
  {
    TrimFixedPoints(b.title);
  }

  /** The category enumeration has exactly nine distinct values. */
  lemma CategoriesAreNine()
    ensures |Categories| == 9
    ensures forall i, j :: 0 <= i < j < |Categories| ==> Categories[i] != Categories[j]
  {
  }

  /** A document built with the title passed through the setter is valid
      exactly when the trimmed title is non-empty and the remaining paths
      are valid: the trimmed-title condition then holds by itself. */
  lemma ValidWithTrimmedTitle(b: Blog, title: string)
    requires b.title == Trim(title)
    ensures ValidBlog(b) <==>
              && Trim(title) != []
              && b.category in Categories
              && (forall i :: 0 <= i < |b.mediaFiles| ==> ValidMedia(b.mediaFiles[i]))
              && b.content != [] && b.userId != []
  {
  }
}
