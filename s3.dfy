/** `S3Service` (src/s3/s3.service.ts): an upload stores the file under a
    key made of the folder, the current time in milliseconds and the
    original name, answers with the object's public URL, and tells every
    `uploaded` listener about the result before returning it. The clock
    (`Date.now()`), the bucket name from `S3_BUCKET_NAME` and whether the
    `PutObject` request succeeds are inputs; listeners are named by the
    order in which they were registered. */
module S3 {
  import opened Wrappers
  import opened Text
  import opened Encoding

  /** An `InternalServerErrorException` and its message. */
  datatype ServerError = InternalServerError(message: string)

  const UploadFailed := "Failed to upload file"

  /** The fields of an `Express.Multer.File` the services read or set. */
  datatype MulterFile = MulterFile(
    buffer: seq<byte>, fieldname: string, originalname: string,
    encoding: string, mimetype: string, size: nat)

  /** `UploadResult`. */
  datatype UploadResult = UploadResult(key: string, url: string, size: nat, name: string)

  /** The `PutObjectCommand` sent to S3. */
  datatype PutObject = PutObject(bucket: string, key: string, body: seq<byte>)

  // ------------------------------------------------------------- the key

  /** `<folder>/<now>-<name>`, or `<now>-<name>` when the folder is empty. */
  function ObjectKey(folder: string, now: nat, originalname: string): (key: string)
    ensures folder != "" ==> key == folder + "/" + NatToString(now) + "-" + originalname
    ensures folder == "" ==> key == NatToString(now) + "-" + originalname
  {
    var stamped := NatToString(now) + "-" + originalname;
    if folder != "" then folder + "/" + stamped else stamped
  }

  const UrlHost := ".s3.amazonaws.com/"

  /** The object's virtual-hosted URL. */
  function ObjectUrl(bucket: string, key: string): (url: string)
  {
    "https://" + bucket + UrlHost + key
  }

  /** The key starts with the folder and a slash when a folder is given,
      and ends with a dash and the original name. */
  lemma KeyShape(folder: string, now: nat, originalname: string)
    ensures var key := ObjectKey(folder, now, originalname);
      && EndsWith(key, "-" + originalname)
      && (folder != "" ==> StartsWith(key, folder + "/"))
      && (folder == "" ==> StartsWith(key, NatToString(now) + "-"))
  {
    var key := ObjectKey(folder, now, originalname);
    var stamped := NatToString(now) + "-" + originalname;
    assert stamped == NatToString(now) + ("-" + originalname);
    EndsWithConcat(NatToString(now), "-" + originalname);
    if folder != "" {
      assert key == (folder + "/") + stamped;
      StartsWithConcat(folder + "/", stamped);
      EndsWithConcat(folder + "/", stamped);
    } else {
      assert key == (NatToString(now) + "-") + originalname;
      StartsWithConcat(NatToString(now) + "-", originalname);
    }
  }

  /** Two uploads of the same name into the same folder get different keys
      when they happen at different milliseconds. */
  lemma {:induction false} KeysDifferInTime(folder: string, t1: nat, t2: nat, originalname: string)
    requires t1 != t2
    ensures ObjectKey(folder, t1, originalname) != ObjectKey(folder, t2, originalname)
  {
    var s1 := NatToString(t1);
    var s2 := NatToString(t2);
    var k1 := ObjectKey(folder, t1, originalname);
    var k2 := ObjectKey(folder, t2, originalname);
    var p := if folder != "" then folder + "/" else "";
    var tail := "-" + originalname;
    assert k1 == p + s1 + tail;
    assert k2 == p + s2 + tail;
    if k1 == k2 {
      assert |s1| == |s2|;
      assert s1 == k1[|p|..|p| + |s1|];
      assert s2 == k2[|p|..|p| + |s2|];
      PrintedInjective(t1, t2);
    }
  }

  /** The URL ends with the key; removing the key's first occurrence gives
      the bucket's base URL whenever the key does not already occur earlier
      in the URL. */
  lemma UrlShape(bucket: string, key: string)
    ensures EndsWith(ObjectUrl(bucket, key), key)
    ensures (forall j :: 0 <= j < |"https://" + bucket + UrlHost| ==> !OccursAt(ObjectUrl(bucket, key), key, j)) ==>
      ReplaceFirst(ObjectUrl(bucket, key), key, "") == "https://" + bucket + UrlHost
  {
    var base := "https://" + bucket + UrlHost;
    assert ObjectUrl(bucket, key) == base + key;
    EndsWithConcat(base, key);
    if forall j :: 0 <= j < |"https://" + bucket + UrlHost| ==> !OccursAt(ObjectUrl(bucket, key), key, j) {
      RemoveFirstAfterPrefix("https://" + bucket + UrlHost, key);
    }
  }

  /** The result `upload` hands back and emits. */
  function ResultOf(bucket: string, folder: string, now: nat, file: MulterFile): (r: UploadResult)
    ensures r.key == ObjectKey(folder, now, file.originalname)
    ensures r.url == ObjectUrl(bucket, r.key)
    ensures r.size == file.size && r.name == file.originalname
  {
    var key := ObjectKey(folder, now, file.originalname);
    UploadResult(key, ObjectUrl(bucket, key), file.size, file.originalname)
  }

  /** The file `uploadBase64` makes of the decoded bytes. */
  function Base64File(buffer: seq<byte>, filename: string, mimetype: string): (f: MulterFile)
    ensures f.originalname == filename && f.size == |buffer| && f.buffer == buffer && f.mimetype == mimetype
  {
    MulterFile(buffer, "file", filename, "7bit", mimetype, |buffer|)
  }

  // ----------------------------------------------------------- the service

  /** The calls `emit('uploaded', result)` makes: every listener, in the
      order registered, with the same result. */
  function Notify(listeners: seq<nat>, r: UploadResult): (calls: seq<(nat, UploadResult)>)
    ensures |calls| == |listeners|
    ensures forall i :: 0 <= i < |listeners| ==> calls[i] == (listeners[i], r)
  {
    if listeners == [] then [] else [(listeners[0], r)] + Notify(listeners[1..], r)
  }

  class S3Service {
    const bucket: string
    /** The `uploaded` listeners, in the order `on` registered them. */
    var listeners: seq<nat>
    /** Every listener call made so far, oldest first. */
    var emitted: seq<(nat, UploadResult)>
    /** Every `PutObject` request sent, oldest first. */
    var sent: seq<PutObject>

    constructor(bucket: string)
      ensures this.bucket == bucket && listeners == [] && emitted == [] && sent == []
    {
      this.bucket := bucket;
      listeners := [];
      emitted := [];
      sent := [];
    }

    /** `on('uploaded', listener)`. */
    method On(listener: nat)
      modifies this`listeners
      ensures listeners == old(listeners) + [listener]
    {
      listeners := listeners + [listener];
    }

    /** `upload(file, folder)`: sends the object, then tells every listener
        about the result and returns it; a failed request emits nothing and
        becomes a 500 `Failed to upload file`. */
    method Upload(file: MulterFile, folder: string, now: nat, putOk: bool)
      returns (r: Result<UploadResult, ServerError>)
      modifies this`emitted, this`sent
      ensures var key := ObjectKey(folder, now, file.originalname);
        sent == old(sent) + [PutObject(bucket, key, file.buffer)]
      ensures putOk ==> r == Success(ResultOf(bucket, folder, now, file))
      ensures putOk ==> emitted == old(emitted) + Notify(listeners, r.value)
      ensures !putOk ==> r == Failure(InternalServerError(UploadFailed)) && emitted == old(emitted)
    {
      var key := ObjectKey(folder, now, file.originalname);
      sent := sent + [PutObject(bucket, key, file.buffer)];
      if !putOk {
        return Failure(InternalServerError(UploadFailed));
      }
      var url := ObjectUrl(bucket, key);
      var result := UploadResult(key, url, file.size, file.originalname);
      emitted := emitted + Notify(listeners, result);
      r := Success(result);
    }

    /** `uploadBase64(base64, filename, folder)`: the decoded bytes as an
        `application/octet-stream` file named `filename`, uploaded as
        `upload` does. */
    method UploadBase64(buffer: seq<byte>, filename: string, folder: string, now: nat, putOk: bool)
      returns (r: Result<UploadResult, ServerError>)
      modifies this`emitted, this`sent
      ensures var file := Base64File(buffer, filename, "application/octet-stream");
        && sent == old(sent) + [PutObject(bucket, ObjectKey(folder, now, filename), buffer)]
        && (putOk ==> r == Success(ResultOf(bucket, folder, now, file))
                      && emitted == old(emitted) + Notify(listeners, r.value))
        && (!putOk ==> r == Failure(InternalServerError(UploadFailed)) && emitted == old(emitted))
      ensures r.Success? ==> r.value.size == |buffer| && r.value.name == filename
    {
      var file := Base64File(buffer, filename, "application/octet-stream");
      r := Upload(file, folder, now, putOk);
    }
  }
}
