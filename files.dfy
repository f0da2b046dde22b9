/** `FilesService` (src/files/files.service.ts): an upload goes through the
    S3 service and is recorded as a `File` row built from the upload's
    result; a base64 upload first picks the MIME type from the file name's
    extension. The base64 decoding (`Buffer.from(base64, 'base64')`) and
    the row insert are outside the model: the decoded bytes and whether the
    insert succeeds are inputs, and the row is the data handed to
    `prisma.file.create`. */
module Files {
  import opened Wrappers
  import opened Text
  import opened Encoding
  import opened S3

  /** The `data` of `prisma.file.create`. */
  datatype FileRow = FileRow(
    name: string, extension: string, baseUrl: string, folder: string,
    file: string, url: string, size: nat)

  /** The row recorded for a file uploaded to `uploaded`. */
  function RowOf(file: MulterFile, folder: string, uploaded: UploadResult): (row: FileRow)
    ensures row.name == uploaded.name && row.folder == folder
    ensures row.file == uploaded.key && row.url == uploaded.url && row.size == uploaded.size
    ensures '.' !in row.extension && EndsWith(file.originalname, row.extension)
    ensures '.' !in file.originalname ==> row.extension == file.originalname
    ensures row.baseUrl == ReplaceFirst(uploaded.url, uploaded.key, "")
  {
    LastSegmentIsSuffix(file.originalname, '.');
    FileRow(uploaded.name, LastSegment(file.originalname, '.'),
            ReplaceFirst(uploaded.url, uploaded.key, ""), folder,
            uploaded.key, uploaded.url, uploaded.size)
  }

  /** The extension is what follows the last dot, letter case kept. */
  lemma RowExtension(file: MulterFile, folder: string, uploaded: UploadResult, stem: string, ext: string)
    requires file.originalname == stem + "." + ext && '.' !in ext
    ensures RowOf(file, folder, uploaded).extension == ext
  {
    var parts := Split(stem, '.');
    JoinSplit(stem, '.');
    SplitJoin(parts + [ext], '.');
    JoinSnoc(parts, ext, '.');
  }

  lemma {:induction false} JoinSnoc(parts: seq<string>, last: string, c: char)
    requires |parts| >= 1
    ensures Join(parts + [last], c) == Join(parts, c) + [c] + last
    decreases |parts|
  {
    if |parts| == 1 {
      assert parts + [last] == [parts[0], last];
    } else {
      assert (parts + [last])[1..] == parts[1..] + [last];
      JoinSnoc(parts[1..], last, c);
    }
  }

  // ---------------------------------------------------------------- MIME

  /** `(filename.split('.').pop() ?? 'jpg').toLowerCase()`: `split` never
      yields an empty array, so the `'jpg'` fallback is never taken. */
  function Base64Ext(filename: string): (ext: string)
    ensures ext == ToLower(LastSegment(filename, '.'))
  {
    var parts := Split(filename, '.');
    var popped := if |parts| > 0 then Some(parts[|parts| - 1]) else None;
    ToLower(if popped.Some? then popped.value else "jpg")
  }

  /** The MIME type chosen for a lower-cased extension. */
  function MimeFor(ext: string): (mime: string)
  {
    if ext == "svg" then "image/svg+xml"
    else if ext == "jpg" || ext == "jpeg" then "image/jpeg"
    else if ext == "png" then "image/png"
    else "application/octet-stream"
  }

  /** The four image types are recognised in any letter case; every other
      extension, and a name without a dot, is `application/octet-stream`. */
  lemma MimeOfName(stem: string, ext: string)
    requires '.' !in ext
    ensures var mime := MimeFor(Base64Ext(stem + "." + ext));
      && (ToLower(ext) == "svg" ==> mime == "image/svg+xml")
      && (ToLower(ext) in {"jpg", "jpeg"} ==> mime == "image/jpeg")
      && (ToLower(ext) == "png" ==> mime == "image/png")
      && (ToLower(ext) !in {"svg", "jpg", "jpeg", "png"} ==> mime == "application/octet-stream")
  {
    var parts := Split(stem, '.');
    JoinSplit(stem, '.');
    SplitJoin(parts + [ext], '.');
    JoinSnoc(parts, ext, '.');
  }

  /** A name without a dot is its own extension: it is not taken for a
      JPEG, so `photo` is uploaded as `application/octet-stream`. */
  lemma NoDotNoJpeg(filename: string)
    requires '.' !in filename
    ensures Base64Ext(filename) == ToLower(filename)
    ensures MimeFor(Base64Ext("photo")) == "application/octet-stream"
  {
    LastSegmentIsSuffix(filename, '.');
    LastSegmentIsSuffix("photo", '.');
  }

  /** The MIME type depends only on the extension's lower-case form. */
  lemma MimeCaseInsensitive(a: string, b: string)
    requires ToLower(LastSegment(a, '.')) == ToLower(LastSegment(b, '.'))
    ensures MimeFor(Base64Ext(a)) == MimeFor(Base64Ext(b))
  {
  }

  // ------------------------------------------------------------- service

  class FilesService {
    const s3: S3Service

    constructor(s3: S3Service)
      ensures this.s3 == s3
    {
      this.s3 := s3;
    }

    /** `upload(file, folder)`: the S3 upload, then the row; a failure of
        either becomes a 500 `Failed to upload file`. */
    method Upload(file: MulterFile, folder: string, now: nat, putOk: bool, createOk: bool)
      returns (r: Result<FileRow, ServerError>)
      modifies s3`emitted, s3`sent
      ensures s3.sent == old(s3.sent) + [PutObject(s3.bucket, ObjectKey(folder, now, file.originalname), file.buffer)]
      ensures putOk ==> s3.emitted == old(s3.emitted) + Notify(s3.listeners, ResultOf(s3.bucket, folder, now, file))
      ensures !putOk ==> s3.emitted == old(s3.emitted)
      ensures putOk && createOk ==> r == Success(RowOf(file, folder, ResultOf(s3.bucket, folder, now, file)))
      ensures !(putOk && createOk) ==> r == Failure(InternalServerError(UploadFailed))
    {
      var uploaded := s3.Upload(file, folder, now, putOk);
      if uploaded.Failure? || !createOk {
        return Failure(InternalServerError(UploadFailed));
      }
      r := Success(RowOf(file, folder, uploaded.value));
    }

    /** `uploadBase64(base64, filename, folder)`: the decoded bytes as a file
        named `filename` with the MIME type of its extension, uploaded as
        `upload` does. */
    method UploadBase64(buffer: seq<byte>, filename: string, folder: string, now: nat, putOk: bool, createOk: bool)
      returns (r: Result<FileRow, ServerError>)
      modifies s3`emitted, s3`sent
      ensures var file := Base64File(buffer, filename, MimeFor(Base64Ext(filename)));
        && s3.sent == old(s3.sent) + [PutObject(s3.bucket, ObjectKey(folder, now, filename), buffer)]
        && (putOk && createOk ==> r == Success(RowOf(file, folder, ResultOf(s3.bucket, folder, now, file))))
        && (!(putOk && createOk) ==> r == Failure(InternalServerError(UploadFailed)))
      ensures r.Success? ==> r.value.size == |buffer| && r.value.name == filename
    {
      var ext := Base64Ext(filename);
      var file := Base64File(buffer, filename, MimeFor(ext));
      r := Upload(file, folder, now, putOk, createOk);
    }
  }

  /** The row of an S3 upload: the base URL followed by the stored key is
      the URL, as long as the key does not occur earlier in the URL. */
  lemma RowUrlSplits(bucket: string, folder: string, now: nat, file: MulterFile)
    requires var key := ObjectKey(folder, now, file.originalname);
      forall j :: 0 <= j < |"https://" + bucket + UrlHost| ==> !OccursAt(ObjectUrl(bucket, key), key, j)
    ensures var row := RowOf(file, folder, ResultOf(bucket, folder, now, file));
      && row.baseUrl == "https://" + bucket + UrlHost
      && row.baseUrl + row.file == row.url
  {
    UrlShape(bucket, ObjectKey(folder, now, file.originalname));
  }
}
