/** The checks every image-accepting function applies to the `image` field of a multipart
    form, and the file-name handling of the storage paths. */
module Uploads {
  import opened Wrappers
  import opened Text

  /** An uploaded file: its client-side name, MIME type and size in bytes. */
  datatype File = File(name: string, mime: string, size: nat)

  /** `formData.get(field)`: nothing, a text value, or a file. */
  datatype FormValue = Absent | TextValue(text: string) | FileValue(file: File)

  const AllowedTypes: seq<string> := ["image/jpeg", "image/jpg", "image/png", "image/webp"]
  const Mebibyte: nat := 1024 * 1024

  /** Why an image field is refused. */
  datatype ImageError = NoFile | BadType | TooLarge

  /** The image checks in their order: a falsy field, then the MIME type, then the size. A
      non-empty text value is truthy and has no `type`, so it fails the type check. */
  function CheckImage(v: FormValue, maxSize: nat): (r: Result<File, ImageError>)
    ensures r.Success? <==> v.FileValue? && v.file.mime in AllowedTypes && v.file.size <= maxSize
    ensures r.Success? ==> r.value == v.file
    ensures r == Failure(NoFile) <==> v.Absent? || v == TextValue("")
    ensures r == Failure(TooLarge) <==> v.FileValue? && v.file.mime in AllowedTypes && v.file.size > maxSize
  {
    match v
    case Absent => Failure(NoFile)
    case TextValue(t) => if t == [] then Failure(NoFile) else Failure(BadType)
    case FileValue(f) =>
      if f.mime !in AllowedTypes then Failure(BadType)
      else if f.size > maxSize then Failure(TooLarge)
      else Success(f)
  }

  /** `name.split('.').pop()`: the text after the last dot, or the whole name. */
  function Extension(name: string): string {
    PopPiece(name, '.')
  }
}
