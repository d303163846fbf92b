/**
 * What the file readers and writers (svc/utils/file_reader.py, svc/utils/file_writer.py)
 * share: the settings keys they dispatch on, the errors their calls can raise, the
 * uploaded file they save, and the storage they reach through Flask and boto3 — the
 * local filesystem and the S3 buckets, held as maps in one `Store` object.
 */
module Storage {
  import opened Wrappers
  import opened Configuration

  const UPLOAD_TYPE_KEY: string := "UPLOAD_TYPE"
  const S3_BUCKET_KEY: string := "S3_BUCKET_NAME"
  const UPLOAD_PATH_KEY: string := "UPLOAD_PATH"
  const LOCAL_UPLOAD: string := "lcl"
  const S3_UPLOAD: string := "s3"

  newtype byte = x: int | 0 <= x < 256

  /** The two families of exceptions botocore raises: a service answer such as `NoSuchKey`, and a client-side failure. */
  datatype BotoError = ClientError(code: string) | BotoCoreError(reason: string)

  /**
   * The exceptions the storage calls end in: werkzeug's `NotFound` (HTTP 404); `TypeError`
   * from a missing upload directory or a bucket name that is not a string; `ValueError`
   * from boto3 when a bucket name is missing; `AttributeError` from calling a method on
   * `None`; `OSError` from the filesystem; and a botocore exception that nothing caught.
   */
  datatype Error = NotFound | TypeError | ValueError | AttributeError | OSError(reason: string) | Boto(cause: BotoError)

  /** The botocore error for a request parameter its validation refuses. */
  const ParamValidationError: Error := Boto(BotoCoreError("ParamValidationError"))

  /**
   * A fault of the local filesystem during `FileStorage.save`: `open` failing, which
   * leaves the disk as it was, or the copy (or the close) failing after `open` created or
   * emptied the destination and `written` bytes reached it.
   */
  datatype DiskFault = OpenFailed(reason: string) | CopyFailed(reason: string, written: nat)

  /** werkzeug's `FileStorage` as the writers use it: its name, declared `content_type` (possibly `None`) and bytes. */
  datatype UploadedFile = UploadedFile(filename: string, contentType: Option<string>, stream: seq<byte>)

  predicate BucketNameChar(c: char)
  {
    'a' <= c <= 'z' || 'A' <= c <= 'Z' || '0' <= c <= '9' || c == '.' || c == '-' || c == '_'
  }

  /** 1 to 255 letters, digits, dots, hyphens and underscores. */
  predicate BucketNameBody(name: string)
  {
    1 <= |name| <= 255 && forall k | 0 <= k < |name| :: BucketNameChar(name[k])
  }

  /**
   * What botocore's `VALID_BUCKET.search` accepts: the pattern `^[a-zA-Z0-9.\-_]{1,255}$`,
   * whose `$` also matches before a single final newline.
   */
  predicate ValidBucketName(name: string)
  {
    BucketNameBody(name) || (|name| >= 2 && name[|name| - 1] == '\n' && BucketNameBody(name[..|name| - 1]))
  }

  /** A name with one trailing newline passes botocore's check; with two it does not. */
  lemma TrailingNewlineAccepted()
    ensures ValidBucketName("abc\n") && !ValidBucketName("abc\n\n") && !ValidBucketName("")
  {
    assert "abc\n"[..3] == "abc";
    assert "abc\n\n"[..4] == "abc\n";
    assert !BucketNameChar('\n');
    assert "abc\n"[3] == '\n';
  }

  /**
   * botocore's checks of the `Bucket` and `Key` parameters, made before any request is
   * sent: matching a bucket name that is not a string against the pattern raises
   * `TypeError`; a string that does not match, or an empty key, is a parameter
   * validation error.
   */
  function CheckObjectParams(bucket: Value, key: string): (r: Outcome<Error>)
    ensures r == Fail(TypeError) <==> !bucket.Str?
    ensures r.Pass? <==> bucket.Str? && ValidBucketName(bucket.s) && key != ""
    ensures r.Fail? && bucket.Str? ==> r.error == ParamValidationError
  {
    if !bucket.Str? then Fail(TypeError)
    else if !ValidBucketName(bucket.s) || key == "" then Fail(ParamValidationError)
    else Pass
  }

  /** An S3 object: its body and the `ContentType` it was stored with. */
  datatype S3Object = S3Object(body: seq<byte>, contentType: string)

  /** The storage outside the service. */
  class Store {
    /** The local filesystem: the contents of each file, by path. */
    var disk: map<string, seq<byte>>
    /** S3: each object, by bucket and key. */
    var objects: map<(string, string), S3Object>

    constructor ()
      ensures disk == map[] && objects == map[]
    {
      disk := map[];
      objects := map[];
    }
  }
}
