/**
 * svc/utils/file_writer.py: saving an uploaded file under a name, into the local upload
 * directory or into an S3 bucket, with the writer chosen by `UPLOAD_TYPE`; and what a
 * reader of the same kind then finds under that name.
 */
module FileWriters {
  import opened Wrappers
  import opened Configuration
  import opened Storage
  import opened FileReaders
  import Paths

  /**
   * `LocalFileWriter` and `S3FileWriter`. Both keep the settings they were built with;
   * `BucketName()` is the S3 writer's `_bucket_name`.
   */
  datatype FileWriter = LocalFileWriter(config: Config) | S3FileWriter(config: Config)
  {
    function BucketName(): Option<Value>
    {
      Lookup(config, S3_BUCKET_KEY)
    }

    /**
     * `save(file_obj, file_name)`. The local writer opens the file `UPLOAD_PATH` joined
     * with the name reaches and copies the file's bytes into it (`LocalSave`); the S3
     * writer issues one `put_object` with the configured bucket, the name as key, the
     * bytes as body and the file's content type (`PutObject`). `diskFault` is the fault,
     * if any, the filesystem answers the open or the copy with; `outage` the fault, if
     * any, the S3 service answers with. A local save changes only the disk, and only once
     * the file is opened; an S3 save changes only the buckets, and only when it succeeds.
     */
    method Save(store: Store, file: UploadedFile, fileName: string, diskFault: Option<DiskFault>, outage: Option<BotoError>)
      returns (outcome: Outcome<Error>)
      modifies store
      ensures LocalFileWriter? ==>
        var written := LocalSave(old(store.disk), config, fileName, file.stream, diskFault);
        outcome == written.outcome && store.disk == written.disk && store.objects == old(store.objects)
      ensures S3FileWriter? ==>
        match PutObject(old(store.objects), BucketName(), fileName, file, outage)
        case Success(objects) =>
          outcome == Pass && store.objects == objects && store.disk == old(store.disk)
        case Failure(e) =>
          outcome == Fail(e) && store.disk == old(store.disk) && store.objects == old(store.objects)
    {
      match this
      case LocalFileWriter(_) =>
        var written := LocalSave(store.disk, config, fileName, file.stream, diskFault);
        store.disk := written.disk;
        return written.outcome;
      case S3FileWriter(_) =>
        var put := PutObject(store.objects, BucketName(), fileName, file, outage);
        if put.Failure? {
          return Fail(put.error);
        }
        store.objects := put.value;
        return Pass;
    }
  }

  /**
   * `get_file_writer(config)`: the local writer exactly when `UPLOAD_TYPE` is "lcl", the
   * S3 writer exactly when it is "s3", and `None` for any other value or none at all.
   * The writer keeps `config` as it is.
   */
  function GetFileWriter(config: Config): (r: Option<FileWriter>)
    ensures r == Some(LocalFileWriter(config)) <==> Lookup(config, UPLOAD_TYPE_KEY) == Some(Str(LOCAL_UPLOAD))
    ensures r == Some(S3FileWriter(config)) <==> Lookup(config, UPLOAD_TYPE_KEY) == Some(Str(S3_UPLOAD))
    ensures r.None? <==> Lookup(config, UPLOAD_TYPE_KEY) !in {Some(Str(LOCAL_UPLOAD)), Some(Str(S3_UPLOAD))}
  {
    var uploadType := Lookup(config, UPLOAD_TYPE_KEY);
    if uploadType == Some(Str(LOCAL_UPLOAD)) then Some(LocalFileWriter(config))
    else if uploadType == Some(Str(S3_UPLOAD)) then Some(S3FileWriter(config))
    else None
  }

  /**
   * Where the local writer saves: `os.path.join(UPLOAD_PATH, file_name)`, or `TypeError`
   * when `UPLOAD_PATH` is missing or not a string.
   */
  function Destination(config: Config, fileName: string): (r: Result<string, Error>)
    ensures r.Success? <==> Lookup(config, UPLOAD_PATH_KEY).Some? && Lookup(config, UPLOAD_PATH_KEY).value.Str?
    ensures r.Failure? ==> r.error == TypeError
    ensures r.Success? ==> r.value == Paths.Join(config[UPLOAD_PATH_KEY].s, fileName)
    ensures r.Success? && !Paths.IsAbsolute(fileName) ==>
      var dir := config[UPLOAD_PATH_KEY].s;
      |r.value| >= |dir| + |fileName| && r.value[..|dir|] == dir && r.value[|r.value| - |fileName|..] == fileName
  {
    match Lookup(config, UPLOAD_PATH_KEY)
    case Some(Str(dir)) => Success(Paths.Join(dir, fileName))
    case _ => Failure(TypeError)
  }

  /**
   * The file a destination reaches: `UPLOAD_PATH` joined with the name once the operating
   * system has resolved its `.` and `..` components, so that every spelling of one
   * relative name reaches the same file. `None` without a string `UPLOAD_PATH`.
   */
  function StoredFile(config: Config, fileName: string): (r: Option<string>)
    ensures r.Some? <==> Destination(config, fileName).Success?
    ensures r.Some? && !Paths.IsAbsolute(fileName) && fileName != "" ==>
      r.value == Paths.Join(config[UPLOAD_PATH_KEY].s, Paths.NormPath(fileName))
    ensures r.Some? && (Paths.IsAbsolute(fileName) || fileName == "") ==> r.value == Destination(config, fileName).value
  {
    match Lookup(config, UPLOAD_PATH_KEY)
    case Some(Str(dir)) => Some(Paths.ResolvedJoin(dir, fileName))
    case _ => None
  }

  /** The disk after a local save, and what the save answers. */
  datatype LocalWrite = LocalWrite(disk: map<string, seq<byte>>, outcome: Outcome<Error>)

  /**
   * True when `open(destination, "wb")` succeeds: the destination exists, has no NUL
   * character, neither it nor the file it reaches can name a regular file's opposite (a
   * path ending in a separator, `.` or `..`), and the filesystem does not refuse the open.
   */
  predicate Opens(config: Config, fileName: string, diskFault: Option<DiskFault>)
  {
    && Destination(config, fileName).Success?
    && '\0' !in Destination(config, fileName).value
    && !Paths.NamesDirectory(Destination(config, fileName).value)
    && !Paths.NamesDirectory(StoredFile(config, fileName).value)
    && !(diskFault.Some? && diskFault.value.OpenFailed?)
  }

  /**
   * `file_obj.save(destination)` on the local filesystem: `open(destination, "wb")`, then
   * a copy of the bytes. `TypeError` without a string `UPLOAD_PATH`; `ValueError` from
   * `open` for a destination with a NUL character, before the filesystem is asked;
   * `OSError` when the destination cannot name a regular file or the filesystem refuses
   * the open, all leaving the disk as it was. Once opened, the file holds the bytes
   * copied: all of them, or, when the copy or the close fails, the first `written` of
   * them with that `OSError` as the answer.
   */
  function LocalSave(disk: map<string, seq<byte>>, config: Config, fileName: string, data: seq<byte>,
                     diskFault: Option<DiskFault>): (w: LocalWrite)
    ensures w.outcome == Pass <==> Opens(config, fileName, diskFault) && diskFault.None?
    ensures w.outcome == Fail(TypeError) <==> Destination(config, fileName).Failure?
    ensures w.outcome == Fail(ValueError) <==>
      Destination(config, fileName).Success? && '\0' in Destination(config, fileName).value
    ensures w.outcome.Fail? && w.outcome.error != TypeError && w.outcome.error != ValueError ==> w.outcome.error.OSError?
    ensures Opens(config, fileName, diskFault) && diskFault.Some? ==> w.outcome == Fail(OSError(diskFault.value.reason))
    ensures !Opens(config, fileName, diskFault) ==> w.disk == disk
    ensures Opens(config, fileName, diskFault) ==>
      var file := StoredFile(config, fileName).value;
      && w.disk.Keys == disk.Keys + {file}
      && w.disk[file] <= data
      && (diskFault.None? ==> w.disk[file] == data)
      && (diskFault.Some? ==> |w.disk[file]| == Min(diskFault.value.written, |data|))
      && IsFile(w.disk, file)
      && forall other | other in disk && other != file :: w.disk[other] == disk[other]
  {
    match Destination(config, fileName)
    case Failure(e) => LocalWrite(disk, Fail(e))
    case Success(path) =>
      var file := StoredFile(config, fileName).value;
      if '\0' in path then LocalWrite(disk, Fail(ValueError))
      else if Paths.NamesDirectory(path) || Paths.NamesDirectory(file) then LocalWrite(disk, Fail(OSError("IsADirectoryError")))
      else
        StoredFileAvoidsNul(config[UPLOAD_PATH_KEY].s, fileName);
        match diskFault
        case None => LocalWrite(disk[file := data], Pass)
        case Some(OpenFailed(reason)) => LocalWrite(disk, Fail(OSError(reason)))
        case Some(CopyFailed(reason, written)) =>
          LocalWrite(disk[file := data[..Min(written, |data|)]], Fail(OSError(reason)))
  }

  function Min(a: nat, b: nat): nat
  {
    if a < b then a else b
  }

  /** A destination without a NUL character reaches a file whose path has none either. */
  lemma StoredFileAvoidsNul(directory: string, fileName: string)
    requires '\0' !in Paths.Join(directory, fileName)
    ensures '\0' !in Paths.ResolvedJoin(directory, fileName)
  {
    if fileName != "" && !Paths.IsAbsolute(fileName) {
      var path := Paths.Join(directory, fileName);
      assert forall k | 0 <= k < |directory| :: directory[k] == path[..|directory|][k];
      assert forall k | 0 <= k < |fileName| :: fileName[k] == path[|path| - |fileName|..][k];
      Paths.ResolvedJoinAvoidsNul(directory, fileName);
    }
  }

  /**
   * Two spellings of one relative name, such as "x" and "./x", reach one file: after a
   * save under the first, the local reader serves the saved bytes under the second.
   */
  lemma SpellingsOfOneFile(config: Config, disk: map<string, seq<byte>>, saved: string, asked: string, data: seq<byte>)
    requires Lookup(config, UPLOAD_PATH_KEY).Some? && Lookup(config, UPLOAD_PATH_KEY).value.Str?
    requires saved != "" && asked != "" && !Paths.IsAbsolute(saved) && !Paths.IsAbsolute(asked)
    requires Paths.NormPath(saved) == Paths.NormPath(asked) && !Paths.Escapes(asked)
    requires LocalSave(disk, config, saved, data, None).outcome == Pass
    ensures SendFromDirectory(LocalSave(disk, config, saved, data, None).disk, Lookup(config, UPLOAD_PATH_KEY), asked).Success?
    ensures SendFromDirectory(LocalSave(disk, config, saved, data, None).disk, Lookup(config, UPLOAD_PATH_KEY), asked).value.body == data
  {
  }

  /** The instance of `SpellingsOfOneFile` with "x" saved and "./x" asked for. */
  lemma DotSpellingServed(config: Config, disk: map<string, seq<byte>>, data: seq<byte>)
    requires Lookup(config, UPLOAD_PATH_KEY).Some? && Lookup(config, UPLOAD_PATH_KEY).value.Str?
    requires LocalSave(disk, config, "x", data, None).outcome == Pass
    ensures SendFromDirectory(LocalSave(disk, config, "x", data, None).disk, Lookup(config, UPLOAD_PATH_KEY), "./x")
            == Success(Response(data, GuessedFrom("x")))
  {
    Paths.DotComponentVanishes();
    Paths.PlainNameIsNormal("x");
    Paths.LastComponentOfJoin(config[UPLOAD_PATH_KEY].s, "x");
    SpellingsOfOneFile(config, disk, "x", "./x", data);
  }

  /**
   * boto3's `put_object(Bucket=bucket, Key=key, Body=file, ContentType=file.content_type)`
   * on the buckets: the object stored under (bucket, key) with the file's bytes and type.
   * Before any request botocore checks the bucket name: a missing one fails with
   * `TypeError` like any other non-string, an invalid one, an empty key or a missing
   * content type with a parameter validation error. A fault answers with that fault.
   */
  function PutObject(objects: map<(string, string), S3Object>, bucket: Option<Value>, key: string,
                     file: UploadedFile, outage: Option<BotoError>): (r: Result<map<(string, string), S3Object>, Error>)
    ensures r.Success? <==>
      bucket.Some? && bucket.value.Str? && ValidBucketName(bucket.value.s) && key != "" &&
      file.contentType.Some? && outage.None?
    ensures r == Failure(TypeError) <==> !(bucket.Some? && bucket.value.Str?)
    ensures r.Failure? && r.error != TypeError ==> r.error.Boto?
    ensures r.Success? ==>
      r.value.Keys == objects.Keys + {(bucket.value.s, key)} &&
      r.value[(bucket.value.s, key)] == S3Object(file.stream, file.contentType.value) &&
      forall k | k in objects && k != (bucket.value.s, key) :: r.value[k] == objects[k]
  {
    if bucket.None? then Failure(TypeError)
    else match CheckObjectParams(bucket.value, key)
      case Fail(e) => Failure(e)
      case Pass =>
        if file.contentType.None? then Failure(ParamValidationError)
        else if outage.Some? then Failure(Boto(outage.value))
        else Success(objects[(bucket.value.s, key) := S3Object(file.stream, file.contentType.value)])
  }

  /** A string bucket name that botocore's pattern refuses, such as "", stores nothing and is never read back. */
  lemma InvalidBucketRefused(objects: map<(string, string), S3Object>, name: string, key: string,
                             file: UploadedFile, outage: Option<BotoError>)
    requires !ValidBucketName(name)
    ensures PutObject(objects, Some(Str(name)), key, file, outage) == Failure(ParamValidationError)
    ensures forall readFault :: S3Response(objects, Some(Str(name)), key, outage, readFault) == Failure(NotFound)
  {
  }

  /** The example the local writer's test checks: "/upload/path" with "test.png" gives "/upload/path/test.png". */
  lemma LocalDestinationExample()
    ensures Destination(map[UPLOAD_PATH_KEY := Str("/upload/path")], "test.png") == Success("/upload/path/test.png")
  {
    var config := map[UPLOAD_PATH_KEY := Str("/upload/path")];
    assert Lookup(config, UPLOAD_PATH_KEY) == Some(Str("/upload/path"));
    assert !Paths.IsAbsolute("test.png");
    assert Paths.Join("/upload/path", "test.png") == "/upload/path" + "/" + "test.png";
    assert "/upload/path" + "/" + "test.png" == "/upload/path/test.png";
  }

  /**
   * Read after write, local variant: with an absolute upload directory without a NUL
   * character (the writer resolves a relative one against the working directory, Flask
   * against the application root),
   * the "lcl" writer's save of `data` under a plain name succeeds, and the "lcl" reader of
   * the same settings serves exactly `data` under that name.
   */
  lemma LocalReadAfterWrite(config: Config, disk: map<string, seq<byte>>, fileName: string, data: seq<byte>)
    requires Lookup(config, UPLOAD_TYPE_KEY) == Some(Str(LOCAL_UPLOAD))
    requires Lookup(config, UPLOAD_PATH_KEY).Some? && Lookup(config, UPLOAD_PATH_KEY).value.Str?
    requires Paths.IsAbsolute(config[UPLOAD_PATH_KEY].s) && '\0' !in config[UPLOAD_PATH_KEY].s
    requires Paths.PlainName(fileName)
    ensures GetFileWriter(config) == Some(LocalFileWriter(config))
    ensures GetFileReader(config) == Some(LocalFileReader(config))
    ensures LocalSave(disk, config, fileName, data, None).outcome == Pass
    ensures SendFromDirectory(LocalSave(disk, config, fileName, data, None).disk, Lookup(config, UPLOAD_PATH_KEY), fileName)
            == Success(Response(data, GuessedFrom(fileName)))
  {
    Paths.PlainNameIsSafe(config[UPLOAD_PATH_KEY].s, fileName);
    Paths.PlainNameIsNormal(fileName);
    Paths.LastComponentOfJoin(config[UPLOAD_PATH_KEY].s, fileName);
  }

  /**
   * A copy that fails after `open` is not undone: under a plain name the local reader then
   * serves the bytes that reached the file, while the save answers with the fault.
   */
  lemma FailedCopyServedTruncated(config: Config, disk: map<string, seq<byte>>, fileName: string, data: seq<byte>,
                                  reason: string, written: nat)
    requires Lookup(config, UPLOAD_PATH_KEY).Some? && Lookup(config, UPLOAD_PATH_KEY).value.Str?
    requires Paths.IsAbsolute(config[UPLOAD_PATH_KEY].s) && '\0' !in config[UPLOAD_PATH_KEY].s
    requires Paths.PlainName(fileName)
    ensures LocalSave(disk, config, fileName, data, Some(CopyFailed(reason, written))).outcome == Fail(OSError(reason))
    ensures SendFromDirectory(LocalSave(disk, config, fileName, data, Some(CopyFailed(reason, written))).disk,
                              Lookup(config, UPLOAD_PATH_KEY), fileName)
            == Success(Response(data[..Min(written, |data|)], GuessedFrom(fileName)))
  {
    Paths.PlainNameIsSafe(config[UPLOAD_PATH_KEY].s, fileName);
    Paths.PlainNameIsNormal(fileName);
    Paths.LastComponentOfJoin(config[UPLOAD_PATH_KEY].s, fileName);
  }

  /**
   * The writer joins without `safe_join`: a name that is absolute or, once normalised,
   * leads out of the upload directory has a destination, but the local reader never
   * serves it.
   */
  lemma UnsafeNameNeverServed(config: Config, disk: map<string, seq<byte>>, fileName: string)
    requires Lookup(config, UPLOAD_PATH_KEY).Some? && Lookup(config, UPLOAD_PATH_KEY).value.Str?
    requires Paths.IsAbsolute(fileName) || Paths.Escapes(fileName)
    ensures Destination(config, fileName).Success?
    ensures SendFromDirectory(disk, Lookup(config, UPLOAD_PATH_KEY), fileName) == Failure(NotFound)
  {
  }

  /**
   * Read after write, S3 variant: with a bucket name botocore accepts, a non-empty key and
   * a declared content type, the "s3" writer's put succeeds, and the "s3" reader of the
   * same settings answers with the file's bytes and its content type.
   */
  lemma S3ReadAfterWrite(config: Config, objects: map<(string, string), S3Object>, fileName: string, file: UploadedFile)
    requires Lookup(config, UPLOAD_TYPE_KEY) == Some(Str(S3_UPLOAD))
    requires Lookup(config, S3_BUCKET_KEY).Some? && Lookup(config, S3_BUCKET_KEY).value.Str?
    requires ValidBucketName(config[S3_BUCKET_KEY].s)
    requires fileName != "" && file.contentType.Some?
    ensures GetFileWriter(config) == Some(S3FileWriter(config))
    ensures GetFileReader(config) == Some(S3FileReader(config))
    ensures PutObject(objects, S3FileWriter(config).BucketName(), fileName, file, None).Success?
    ensures S3Response(PutObject(objects, S3FileWriter(config).BucketName(), fileName, file, None).value,
                       S3FileReader(config).BucketName(), fileName, None, None)
            == Success(Response(file.stream, Declared(file.contentType.value)))
  {
  }
}
