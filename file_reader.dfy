/**
 * svc/utils/file_reader.py: serving a stored file back as an HTTP response, from the
 * local upload directory or from an S3 bucket, with the reader chosen by `UPLOAD_TYPE`.
 */
module FileReaders {
  import opened Wrappers
  import opened Configuration
  import opened Storage
  import Paths

  /** How the response's Content-Type is set: guessed by Flask from the file name, or the type S3 stored. */
  datatype ContentType = GuessedFrom(fileName: string) | Declared(mediaType: string)

  /** A Flask response carrying a file. */
  datatype Response = Response(body: seq<byte>, contentType: ContentType)

  /**
   * `LocalFileReader` and `S3FileReader`. Both keep the settings they were built with;
   * `BucketName()` is the S3 reader's `_bucket_name`.
   */
  datatype FileReader = LocalFileReader(config: Config) | S3FileReader(config: Config)
  {
    function BucketName(): Option<Value>
    {
      Lookup(config, S3_BUCKET_KEY)
    }

    /**
     * `get_response(file_name)`, reading the store. `outage` is the fault, if any, the S3
     * service answers the fetch with; `readFault` the one, if any, raised while the
     * fetched body is read.
     */
    function GetResponse(store: Store, fileName: string, outage: Option<BotoError>, readFault: Option<BotoError>)
      : (r: Result<Response, Error>)
      reads store
      ensures LocalFileReader? ==> r == SendFromDirectory(store.disk, Lookup(config, UPLOAD_PATH_KEY), fileName)
      ensures S3FileReader? ==> r == S3Response(store.objects, BucketName(), fileName, outage, readFault)
    {
      match this
      case LocalFileReader(_) => SendFromDirectory(store.disk, Lookup(config, UPLOAD_PATH_KEY), fileName)
      case S3FileReader(_) => S3Response(store.objects, BucketName(), fileName, outage, readFault)
    }
  }

  /**
   * `get_file_reader(config)`: the local reader exactly when `UPLOAD_TYPE` is "lcl", the
   * S3 reader exactly when it is "s3", and `None` for any other value or none at all.
   * The reader keeps `config` as it is.
   */
  function GetFileReader(config: Config): (r: Option<FileReader>)
    ensures r == Some(LocalFileReader(config)) <==> Lookup(config, UPLOAD_TYPE_KEY) == Some(Str(LOCAL_UPLOAD))
    ensures r == Some(S3FileReader(config)) <==> Lookup(config, UPLOAD_TYPE_KEY) == Some(Str(S3_UPLOAD))
    ensures r.None? <==> Lookup(config, UPLOAD_TYPE_KEY) !in {Some(Str(LOCAL_UPLOAD)), Some(Str(S3_UPLOAD))}
  {
    var uploadType := Lookup(config, UPLOAD_TYPE_KEY);
    if uploadType == Some(Str(LOCAL_UPLOAD)) then Some(LocalFileReader(config))
    else if uploadType == Some(Str(S3_UPLOAD)) then Some(S3FileReader(config))
    else None
  }

  /**
   * `os.path.isfile(path)` on the local filesystem: a stored file whose path can name a
   * regular file (a path with a NUL character makes `isfile` answer false).
   */
  predicate IsFile(disk: map<string, seq<byte>>, path: string)
  {
    path in disk && !Paths.NamesDirectory(path) && '\0' !in path
  }

  /**
   * Flask's `send_from_directory(directory, name)` over the local filesystem: `TypeError`
   * when the directory is not a string; `NotFound` when `safe_join` refuses the name or no
   * regular file is at the path it gives; otherwise that file's contents, typed after
   * the last component of that path.
   */
  function SendFromDirectory(disk: map<string, seq<byte>>, directory: Option<Value>, fileName: string)
    : (r: Result<Response, Error>)
    ensures !(directory.Some? && directory.value.Str?) <==> r == Failure(TypeError)
    ensures r.Failure? && directory.Some? && directory.value.Str? ==> r.error == NotFound
    ensures r.Success? <==>
      directory.Some? && directory.value.Str? &&
      Paths.SafeJoin(directory.value.s, fileName).Some? && IsFile(disk, Paths.SafeJoin(directory.value.s, fileName).value)
    ensures r.Success? ==>
      var path := Paths.SafeJoin(directory.value.s, fileName).value;
      r.value == Response(disk[path], GuessedFrom(Paths.LastComponent(path)))
  {
    if !(directory.Some? && directory.value.Str?) then Failure(TypeError)
    else
      match Paths.SafeJoin(directory.value.s, fileName)
      case None => Failure(NotFound)
      case Some(path) => if IsFile(disk, path) then Success(Response(disk[path], GuessedFrom(Paths.LastComponent(path)))) else Failure(NotFound)
  }

  /**
   * `S3FileReader._get_file`: what `Object(bucket, key).get()` answers. boto3 raises
   * `ValueError` for a missing bucket name before any request; botocore then checks the
   * bucket name and the key (`CheckObjectParams`); a fault answers with that fault; a
   * missing object answers `NoSuchKey`.
   */
  function GetFile(objects: map<(string, string), S3Object>, bucket: Option<Value>, key: string, outage: Option<BotoError>)
    : (r: Result<S3Object, Error>)
    ensures r.Success? <==>
      bucket.Some? && bucket.value.Str? && ValidBucketName(bucket.value.s) && key != "" &&
      outage.None? && (bucket.value.s, key) in objects
    ensures r.Success? ==> r.value == objects[(bucket.value.s, key)]
    ensures r == Failure(ValueError) <==> bucket.None?
    ensures r == Failure(TypeError) <==> bucket.Some? && !bucket.value.Str?
    ensures r.Failure? ==> r.error.Boto? || r.error == ValueError || r.error == TypeError
  {
    if bucket.None? then Failure(ValueError)
    else match CheckObjectParams(bucket.value, key)
      case Fail(e) => Failure(e)
      case Pass =>
        if outage.Some? then Failure(Boto(outage.value))
        else if (bucket.value.s, key) !in objects then Failure(Boto(ClientError("NoSuchKey")))
        else Success(objects[(bucket.value.s, key)])
  }

  /**
   * `S3FileReader.get_response`: every botocore error from the fetch becomes `NotFound`,
   * and any other error from it passes through. Reading the fetched body happens outside
   * the handler, so a botocore error raised there (`readFault`) reaches the caller raw.
   * On success the response carries the object's body with Content-Type set to the type
   * it was stored with.
   */
  function S3Response(objects: map<(string, string), S3Object>, bucket: Option<Value>, fileName: string,
                      outage: Option<BotoError>, readFault: Option<BotoError>): (r: Result<Response, Error>)
    ensures GetFile(objects, bucket, fileName, outage).Failure? && GetFile(objects, bucket, fileName, outage).error.Boto?
      ==> r == Failure(NotFound)
    ensures GetFile(objects, bucket, fileName, outage).Failure? && !GetFile(objects, bucket, fileName, outage).error.Boto?
      ==> r == Failure(GetFile(objects, bucket, fileName, outage).error)
    ensures (r.Failure? && r.error.Boto?) <==> GetFile(objects, bucket, fileName, outage).Success? && readFault.Some?
    ensures GetFile(objects, bucket, fileName, outage).Success? && readFault.Some? ==> r == Failure(Boto(readFault.value))
    ensures r.Success? <==> GetFile(objects, bucket, fileName, outage).Success? && readFault.None?
    ensures r.Success? ==>
      var obj := GetFile(objects, bucket, fileName, outage).value;
      r.value == Response(obj.body, Declared(obj.contentType))
  {
    match GetFile(objects, bucket, fileName, outage)
    case Success(obj) =>
      if readFault.Some? then Failure(Boto(readFault.value)) else Success(Response(obj.body, Declared(obj.contentType)))
    case Failure(Boto(_)) => Failure(NotFound)
    case Failure(e) => Failure(e)
  }

  /** When the body is read without fault, no botocore error reaches the caller. */
  lemma FetchErrorsAreNotRaw(objects: map<(string, string), S3Object>, bucket: Option<Value>, fileName: string,
                             outage: Option<BotoError>)
    ensures S3Response(objects, bucket, fileName, outage, None).Failure? ==>
      !S3Response(objects, bucket, fileName, outage, None).error.Boto?
  {
  }

  /** A botocore error raised while the fetched body is read escapes the handler: the caller sees it raw, not a 404. */
  lemma ReadFaultEscapes(config: Config, store: Store, fileName: string, fault: BotoError)
    requires Lookup(config, S3_BUCKET_KEY).Some? && Lookup(config, S3_BUCKET_KEY).value.Str?
    requires ValidBucketName(config[S3_BUCKET_KEY].s) && fileName != ""
    requires (config[S3_BUCKET_KEY].s, fileName) in store.objects
    ensures S3FileReader(config).GetResponse(store, fileName, None, Some(fault)) == Failure(Boto(fault))
  {
  }

  /** An S3 reader with a string bucket name answers `NotFound` whenever the service is failing, whatever the key. */
  lemma S3OutageIsNotFound(config: Config, store: Store, fileName: string, fault: BotoError)
    requires Lookup(config, S3_BUCKET_KEY).Some? && Lookup(config, S3_BUCKET_KEY).value.Str?
    ensures forall readFault :: S3FileReader(config).GetResponse(store, fileName, Some(fault), readFault) == Failure(NotFound)
  {
  }

  /**
   * A bucket name that is set but not a string makes botocore's check raise `TypeError`,
   * which the reader does not catch: the caller sees an internal error, not a 404.
   */
  lemma NonStringBucketIsNotCaught(config: Config, store: Store, fileName: string, outage: Option<BotoError>,
                                   readFault: Option<BotoError>)
    requires Lookup(config, S3_BUCKET_KEY).Some? && !Lookup(config, S3_BUCKET_KEY).value.Str?
    ensures S3FileReader(config).GetResponse(store, fileName, outage, readFault) == Failure(TypeError)
  {
  }
}
