/** `validateFile`, the browser-side gate exported by both client
    libraries (the media upload component calls it before `uploadToR2`; the
    upload functions themselves do not): a 100 MiB ceiling on the byte size,
    checked first, and an allow-list of four image and three video MIME
    types. The two libraries carry identical copies; it is modelled once. */
module FileValidation {
  import opened Wrappers

  /** The parts of a browser `File` the clients read. */
  datatype FileInfo = FileInfo(name: string, fileType: string, size: nat)

  /** `{ valid, error? }`. */
  datatype Validation = Validation(valid: bool, error: Option<string>)

  /** `MAX_SIZE`: 100 MiB. */
  const MaxSize: nat := 100 * 1024 * 1024

  const ImageTypes: seq<string> := ["image/jpeg", "image/png", "image/gif", "image/webp"]
  const VideoTypes: seq<string> := ["video/mp4", "video/webm", "video/quicktime"]

  /** `[...ALLOWED_IMAGE_TYPES, ...ALLOWED_VIDEO_TYPES]`. */
  const AllowedTypes: seq<string> := ImageTypes + VideoTypes

  const TooLarge: string := "File quá lớn. Kích thước tối đa là 100MB."
  const Unsupported: string := "Định dạng file không được hỗ trợ."

  /** `Array.prototype.includes` for strings: a scan from the front that
      stops at the first equal element. */
  function Includes(xs: seq<string>, x: string): (b: bool)
    ensures b <==> x in xs
  {
    if |xs| == 0 then false
    else if xs[0] == x then true
    else
      assert xs == [xs[0]] + xs[1..];
      Includes(xs[1..], x)
  }

  /** The size test first, then the type test, then acceptance. */
  function ValidateFile(file: FileInfo): (v: Validation)
    ensures v.valid <==> file.size <= MaxSize && file.fileType in AllowedTypes
    ensures v.valid <==> v.error == None
    ensures file.size > MaxSize ==> v.error == Some(TooLarge)
    ensures file.size <= MaxSize && file.fileType !in AllowedTypes ==> v.error == Some(Unsupported)
  {
    if file.size > MaxSize then Validation(false, Some(TooLarge))
    else if !Includes(AllowedTypes, file.fileType) then Validation(false, Some(Unsupported))
    else Validation(true, None)
  }

  /** The allow-list holds seven distinct entries, exactly the four image
      and three video types. */
  lemma AllowedTypesListed()
    ensures |AllowedTypes| == 7
    ensures forall i, j :: 0 <= i < j < |AllowedTypes| ==> AllowedTypes[i] != AllowedTypes[j]
    ensures forall t :: t in AllowedTypes <==> t in ImageTypes || t in VideoTypes
  {
    assert AllowedTypes == ["image/jpeg", "image/png", "image/gif", "image/webp",
                            "video/mp4", "video/webm", "video/quicktime"];
  }

  /** The ceiling is inclusive: a file of exactly 104857600 bytes of an
      allowed type passes, and one byte more is refused for its size whatever
      its type. */
  lemma SizeBoundary(name: string, fileType: string)
    ensures fileType in AllowedTypes ==> ValidateFile(FileInfo(name, fileType, 104857600)).valid
    ensures ValidateFile(FileInfo(name, fileType, 104857601)) == Validation(false, Some(TooLarge))
  {
    assert MaxSize == 104857600;
  }

  /** Whether a file passes does not depend on its name, and a file that
      passes keeps passing when it shrinks. */
  lemma ValidationMonotone(a: FileInfo, b: FileInfo)
    requires a.fileType == b.fileType && b.size <= a.size
    requires ValidateFile(a).valid
    ensures ValidateFile(b).valid
  {
  }

  /** `formatFileSize(0)`: a zero size is shown as `0 Bytes`; every other
      size goes through floating-point logarithms and rounding, which this
      model leaves out (None). */
  function FormatFileSize(bytes: nat): (r: Option<string>)
    ensures r.Some? <==> bytes == 0
    ensures bytes == 0 ==> r == Some("0 Bytes")
  {
    if bytes == 0 then Some("0 Bytes") else None
  }
}
