/** What the two blog forms have in common: the inputs they edit, the
    browser `File` objects they collect and the preview entries they render
    for them. */
module BrowserFile {
  import opened JsBuiltins

  /** The inputs `handleChange` writes, by their `name` attribute. */
  datatype FieldName = TitleField | ContentField | CategoryField

  /** A selected file: its name, its size in bytes and its MIME type. */
  datatype File = File(name: string, size: nat, mimeType: string)

  /** A preview entry `{ url, type }`. The object URL that
      `URL.createObjectURL` makes is represented by the file it denotes. */
  datatype Preview = Preview(source: File, kind: string)

  /** The preview of one file: an image preview exactly when its MIME type
      starts with "image", a video preview otherwise. */
  function PreviewOf(f: File): (p: Preview)
    ensures p.source == f
    ensures p.kind == "image" <==> StartsWith(f.mimeType, "image")
    ensures p.kind == "image" || p.kind == "video"
  {
    Preview(f, if StartsWith(f.mimeType, "image") then "image" else "video")
  }

  /** `files.map(...)` building one preview per file, in order. */
  function PreviewsOf(files: seq<File>): (ps: seq<Preview>)
    ensures |ps| == |files|
    ensures forall i :: 0 <= i < |files| ==> ps[i].source == files[i]
    ensures forall i :: 0 <= i < |files| ==> ps[i] == PreviewOf(files[i])
  {
    seq(|files|, i requires 0 <= i < |files| => PreviewOf(files[i]))
  }

  /** The previews are index-aligned with the files they show. */
  predicate PreviewsMatch(files: seq<File>, previews: seq<Preview>) {
    |previews| == |files| && forall i :: 0 <= i < |files| ==> previews[i] == PreviewOf(files[i])
  }

  /** Appending files and their previews together keeps previews aligned. */
  lemma PreviewsMatchAppend(files: seq<File>, previews: seq<Preview>, more: seq<File>)
    requires PreviewsMatch(files, previews)
    ensures PreviewsMatch(files + more, previews + PreviewsOf(more))
  {
  }

  /** Removing the same index from files and previews keeps them aligned. */
  lemma PreviewsMatchRemove(files: seq<File>, previews: seq<Preview>, index: int)
    requires PreviewsMatch(files, previews)
    ensures PreviewsMatch(WithoutIndex(files, index), WithoutIndex(previews, index))
  {
  }
}
