/** The evidence-image uploader (`client/src/components/ImageUpload.tsx`):
    file validation, the five-image cap, appending what the server stored, and
    removal by public id. */
module ImageUpload {
  import opened Wrappers
  import Seqs

  /** A picked file: its MIME type and its size in bytes. */
  datatype File = File(mime: string, size: int)

  /** An uploaded image as the server describes it. */
  datatype Image = Image(url: string, publicId: string)

  const AllowedMimes: seq<string> := ["image/jpeg", "image/png", "image/gif", "image/webp"]
  const MaxSize: int := 5 * 1024 * 1024
  const MaxImages: int := 5

  const WrongType: string := "Only JPEG, PNG, GIF, and WebP images are allowed"
  const TooLarge: string := "File size must be less than 5MB"
  const TooMany: string := "Maximum 5 images allowed per report"
  const UploadFailed: string := "Upload failed"
  const BadFormat: string := "Invalid response format from server"
  const DeleteFailed: string := "Failed to delete image"

  /** Why a file is refused, if it is: the type is checked before the size. */
  function Rejection(f: File): (reason: Option<string>)
    ensures reason == None <==> f.mime in AllowedMimes && f.size <= MaxSize
    ensures reason == Some(WrongType) <==> f.mime !in AllowedMimes
    ensures reason == Some(TooLarge) <==> f.mime in AllowedMimes && f.size > MaxSize
  {
    if f.mime !in AllowedMimes then Some(WrongType)
    else if f.size > MaxSize then Some(TooLarge)
    else None
  }

  predicate Acceptable(f: File) { Rejection(f) == None }

  /** The size limit is inclusive: a file of exactly 5 MiB passes, one byte
      more does not. */
  lemma SizeLimitInclusive(mime: string)
    requires mime in AllowedMimes
    ensures Acceptable(File(mime, 5 * 1024 * 1024))
    ensures Rejection(File(mime, 5 * 1024 * 1024 + 1)) == Some(TooLarge)
  {
  }

  /** The reason of the last refused file, which is the error left showing. */
  function LastRejection(files: seq<File>): (reason: Option<string>)
    ensures reason.Some? <==> exists i :: 0 <= i < |files| && !Acceptable(files[i])
    ensures reason.Some? ==> reason.value == WrongType || reason.value == TooLarge
  {
    if files == [] then None
    else if Rejection(files[|files| - 1]).Some? then Rejection(files[|files| - 1])
    else
      var r := LastRejection(files[..|files| - 1]);
      assert forall i :: 0 <= i < |files| - 1 ==> files[..|files| - 1][i] == files[i];
      r
  }

  /** The validation loop of `handleFiles`: the acceptable files in order, and
      the error the loop leaves, if any. */
  method ValidateFiles(files: seq<File>) returns (valid: seq<File>, error: Option<string>)
    ensures valid == Seqs.Filter(files, Acceptable)
    ensures error == LastRejection(files)
  {
    valid := [];
    error := None;
    for i := 0 to |files|
      invariant valid == Seqs.Filter(files[..i], Acceptable)
      invariant error == LastRejection(files[..i])
    {
      var seen := files[..i + 1];
      assert seen == files[..i] + [files[i]];
      assert seen[..i] == files[..i] && seen[i] == files[i];
      Seqs.FilterSnoc(files[..i], files[i], Acceptable);
      var reason := Rejection(files[i]);
      if reason.Some? {
        error := reason;
        continue;
      }
      valid := valid + [files[i]];
    }
    assert files[..|files|] == files;
  }

  /** What the upload request brings back: a non-OK response with the
      optional `message` of its body, an OK response whose `data` is an array
      (`Some`) or is not (`None`), or a thrown error with its message. */
  datatype UploadReply = NotOk(message: Option<string>) | Ok(data: Option<seq<Image>>) | Thrown(reason: string)

  /** The error a failed upload leaves; `None` for a successful one. */
  function UploadError(reply: UploadReply): (e: Option<string>)
    ensures e.None? <==> reply.Ok? && reply.data.Some?
  {
    match reply
    case NotOk(m) => Some(if m.Some? && m.value != "" then m.value else UploadFailed)
    case Ok(d) => if d.None? then Some(BadFormat) else None
    case Thrown(m) => Some(m)
  }

  /** The images left after removing the ones with `publicId`. */
  function Without(images: seq<Image>, publicId: string): seq<Image> {
    Seqs.Filter(images, (img: Image) => img.publicId != publicId)
  }

  /** Removal drops exactly the images with that public id and keeps the
      others in order. */
  lemma WithoutSpec(images: seq<Image>, publicId: string)
    ensures Seqs.IsSubsequence(Without(images, publicId), images)
    ensures forall img :: img in Without(images, publicId) <==> img in images && img.publicId != publicId
    ensures forall img :: multiset(Without(images, publicId))[img] ==
              if img.publicId != publicId then multiset(images)[img] else 0
  {
    var p := (img: Image) => img.publicId != publicId;
    forall img ensures multiset(Seqs.Filter(images, p))[img] == if p(img) then multiset(images)[img] else 0 {
      Seqs.FilterCount(images, p, img);
    }
    Seqs.FilterIsSubsequence(images, p);
    forall img ensures img in Seqs.Filter(images, p) <==> img in images && p(img) {
      Seqs.FilterMembership(images, p, img);
    }
  }

  class Uploader {
    var images: seq<Image>
    var uploadError: Option<string>
    var isUploading: bool

    constructor(uploadedImages: seq<Image>)
      ensures images == uploadedImages && uploadError.None? && !isUploading
    {
      images := uploadedImages;
      uploadError := None;
      isUploading := false;
    }

    /** `handleFiles`, with the upload's answer given as `reply` (used only
        when the request is sent).  With no acceptable file nothing is sent
        and only the validation error may change; past the cap nothing is sent
        and the cap error shows; otherwise the files are sent, and on success
        the server's images are appended in order. */
    method HandleFiles(files: seq<File>, reply: UploadReply) returns (sent: seq<File>)
      modifies this
      ensures isUploading == (old(isUploading) && sent == [])
      ensures var valid := Seqs.Filter(files, Acceptable);
              sent == (if valid == [] || |old(images)| + |valid| > MaxImages then [] else valid)
      ensures Seqs.Filter(files, Acceptable) == [] ==>
                images == old(images) &&
                uploadError == (if LastRejection(files).Some? then LastRejection(files) else old(uploadError))
      ensures Seqs.Filter(files, Acceptable) != [] && |old(images)| + |Seqs.Filter(files, Acceptable)| > MaxImages ==>
                images == old(images) && uploadError == Some(TooMany)
      ensures sent != [] ==>
                uploadError == UploadError(reply) &&
                images == if uploadError.None? then old(images) + reply.data.value else old(images)
    {
      var valid, error := ValidateFiles(files);
      if error.Some? {
        uploadError := error;
      }
      if |valid| == 0 {
        return [];
      }
      if |images| + |valid| > MaxImages {
        uploadError := Some(TooMany);
        return [];
      }
      uploadError := None;
      isUploading := true;
      sent := valid;
      match reply {
        case NotOk(m) =>
          uploadError := Some(if m.Some? && m.value != "" then m.value else UploadFailed);
        case Ok(d) =>
          if d.None? {
            uploadError := Some(BadFormat);
          } else {
            images := images + d.value;
          }
        case Thrown(m) =>
          uploadError := Some(m);
      }
      isUploading := false;
    }

    /** `removeImage`, with `deleted` saying whether the server answered OK. */
    method RemoveImage(publicId: string, deleted: bool)
      modifies this
      ensures deleted ==> images == Without(old(images), publicId) && uploadError == old(uploadError)
      ensures !deleted ==> images == old(images) && uploadError == Some(DeleteFailed)
      ensures isUploading == old(isUploading)
    {
      if deleted {
        images := Without(images, publicId);
      } else {
        uploadError := Some(DeleteFailed);
      }
    }
  }
}
