/** Image file checks: `handleFile` on the home page and `handleImageUpload`
    with its drop pre-filter on the search page. Both cap the size at 5 MiB,
    but they check size and type in opposite orders and accept different
    types. */
module Uploads {
  import opened Maybe
  import opened Strings

  /** A `File`: its name, MIME `type` and `size` in bytes. */
  datatype File = File(name: string, mime: string, size: nat)

  /** `5 * 1024 * 1024`. */
  const MaxImageBytes: nat := 5 * 1024 * 1024

  /** `files[0]`, `undefined` for an empty list. */
  function First(files: seq<File>): Option<File>
  {
    if |files| == 0 then None else Some(files[0])
  }

  // ---------------------------------------------------------------------
  // Home page

  const WrongFormatMessage: string := "Vui lòng chọn đúng định dạng hình ảnh!"
  const TooLargeMessage: string := "Kích thước ảnh vượt quá 5MB!"

  /** The drop zone's markup once a file is accepted. */
  function PreviewHtml(file: File): string
  {
    "<p>📷 Hình đã chọn: <b>" + file.name + "</b></p>"
  }

  /** What `handleFile(file)` does: nothing without a file, an error
      notification, or the preview plus an image search. */
  datatype HomeUpload = Ignored | Notify(message: string) | StartImageSearch(file: File, preview: string)

  /** `handleFile(file)`: the type must start with `image/` (checked first),
      then the size must not exceed 5 MiB. */
  function HandleFile(file: Option<File>): (r: HomeUpload)
    ensures file.None? <==> r == Ignored
    ensures r.StartImageSearch? <==>
              file.Some? && StartsWith(file.value.mime, "image/") && file.value.size <= MaxImageBytes
    ensures r.StartImageSearch? ==> r.file == file.value && r.preview == PreviewHtml(file.value)
    ensures r == Notify(WrongFormatMessage) <==> file.Some? && !StartsWith(file.value.mime, "image/")
    ensures r == Notify(TooLargeMessage) <==>
              file.Some? && StartsWith(file.value.mime, "image/") && file.value.size > MaxImageBytes
  {
    if file.None? then Ignored
    else if !StartsWith(file.value.mime, "image/") then Notify(WrongFormatMessage)
    else if file.value.size > MaxImageBytes then Notify(TooLargeMessage)
    else StartImageSearch(file.value, PreviewHtml(file.value))
  }

  /** Both the drop zone and the file input pass only the first file. */
  function HomeFilesChosen(files: seq<File>): (r: HomeUpload)
    ensures |files| == 0 ==> r == Ignored
    ensures r.StartImageSearch? <==>
              |files| > 0 && StartsWith(files[0].mime, "image/") && files[0].size <= MaxImageBytes
    ensures r.StartImageSearch? ==> r.file == files[0]
    ensures |files| > 0 ==> r == HandleFile(Some(files[0]))
  {
    HandleFile(First(files))
  }

  // ---------------------------------------------------------------------
  // Search page

  const FileTooLargeAlert: string := "File quá lớn. Vui lòng chọn file nhỏ hơn 5MB."
  const UnsupportedTypeAlert: string := "Chỉ hỗ trợ file JPG, PNG, GIF."
  const DropImagesOnlyAlert: string := "Vui lòng chỉ kéo thả file hình ảnh."

  /** `allowedTypes`. */
  const AllowedTypes: seq<string> := ["image/jpeg", "image/jpg", "image/png", "image/gif"]

  /** What `handleImageUpload` shows: nothing, an error alert, or the
      success alert for an accepted file. The handler logs the file name and
      sends it nowhere. */
  datatype SearchUpload = NoUpload | Alert(message: string) | Accepted(file: File)

  /** `handleImageUpload(event)` on `event.target.files`: the size is checked
      first, then the type against the allowlist. */
  function HandleImageUpload(files: seq<File>): (r: SearchUpload)
    ensures |files| == 0 <==> r == NoUpload
    ensures r.Accepted? <==> |files| > 0 && files[0].size <= MaxImageBytes && files[0].mime in AllowedTypes
    ensures r.Accepted? ==> r.file == files[0]
    ensures r == Alert(FileTooLargeAlert) <==> |files| > 0 && files[0].size > MaxImageBytes
    ensures r == Alert(UnsupportedTypeAlert) <==>
              |files| > 0 && files[0].size <= MaxImageBytes && files[0].mime !in AllowedTypes
  {
    match First(files)
    case None => NoUpload
    case Some(file) =>
      if file.size > MaxImageBytes then Alert(FileTooLargeAlert)
      else if file.mime !in AllowedTypes then Alert(UnsupportedTypeAlert)
      else Accepted(file)
  }

  /** The drop handler: only the first file counts, and a file whose type does
      not start with `image/` is refused before `handleImageUpload`. */
  function DropOnSearchPage(files: seq<File>): (r: SearchUpload)
    ensures |files| == 0 ==> r == NoUpload
    ensures |files| > 0 && !StartsWith(files[0].mime, "image/") ==> r == Alert(DropImagesOnlyAlert)
    ensures |files| > 0 && StartsWith(files[0].mime, "image/") ==> r == HandleImageUpload([files[0]])
  {
    if |files| == 0 then NoUpload
    else
      var file := files[0];
      if StartsWith(file.mime, "image/") then HandleImageUpload([file])
      else Alert(DropImagesOnlyAlert)
  }

  // ---------------------------------------------------------------------
  // Properties

  /** The drop pre-filter never changes whether a file is accepted: dropping
      files gets the success alert exactly when choosing them would. */
  lemma DropAcceptsAsUpload(files: seq<File>)
    ensures DropOnSearchPage(files).Accepted? <==> HandleImageUpload(files).Accepted?
    ensures DropOnSearchPage(files).Accepted? ==> DropOnSearchPage(files) == HandleImageUpload(files)
  {
  }

  /** Only the first file is looked at, on either page. */
  lemma OnlyFirstFileCounts(files: seq<File>)
    requires |files| > 0
    ensures HandleImageUpload(files) == HandleImageUpload(files[..1])
    ensures DropOnSearchPage(files) == DropOnSearchPage(files[..1])
    ensures HomeFilesChosen(files) == HomeFilesChosen(files[..1])
  {
  }

  /** Exactly 5 MiB passes both size checks; one byte more fails both. */
  lemma SizeBoundary(name: string, mime: string)
    requires mime in AllowedTypes
    ensures MaxImageBytes == 5242880
    ensures HandleImageUpload([File(name, mime, 5242880)]).Accepted?
    ensures HandleImageUpload([File(name, mime, 5242881)]) == Alert(FileTooLargeAlert)
    ensures HandleFile(Some(File(name, mime, 5242880))).StartImageSearch?
    ensures HandleFile(Some(File(name, mime, 5242881))) == Notify(TooLargeMessage)
  {
  }

  /** The two pages check in opposite orders: an oversize non-image file is
      refused for its type at home and for its size on the search page. */
  lemma OppositeCheckOrder(f: File)
    requires f.size > MaxImageBytes && !StartsWith(f.mime, "image/")
    ensures HandleFile(Some(f)) == Notify(WrongFormatMessage)
    ensures HandleImageUpload([f]) == Alert(FileTooLargeAlert)
  {
  }

  /** An oversize file of an image type outside the allowlist reports the
      size, not the type, on the search page. */
  lemma SizeBeforeType(f: File)
    requires f.size > MaxImageBytes && f.mime !in AllowedTypes
    ensures HandleImageUpload([f]) == Alert(FileTooLargeAlert)
  {
  }

  /** `image/webp` is accepted at home and refused on the search page. */
  lemma WebpDiffers(name: string, size: nat)
    requires size <= MaxImageBytes
    ensures HandleFile(Some(File(name, "image/webp", size))).StartImageSearch?
    ensures HandleImageUpload([File(name, "image/webp", size)]) == Alert(UnsupportedTypeAlert)
  {
  }
}
