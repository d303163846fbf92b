/**
 * svc/controllers/images.py: the images controller. It keeps the settings it was built
 * with and serves a stored image through the reader those settings select.
 */
module Controllers {
  import opened Wrappers
  import opened Configuration
  import opened Storage
  import opened FileReaders
  import FileWriters
  import Entities
  import Paths

  /** `ImagesController(config)`: `_config` is set once and never changed. */
  datatype ImagesController = ImagesController(config: Config)
  {
    /** `_get_reader()`: the reader `get_file_reader` picks for the stored settings. */
    function GetReader(): Option<FileReader>
    {
      GetFileReader(config)
    }

    /**
     * `view_image(image_name)`: one call of the selected reader's `get_response` with the
     * name as given, its answer returned unchanged (a `NotFound` included). With no reader
     * selected, the call on `None` fails with `AttributeError`.
     */
    function ViewImage(store: Store, imageName: string, outage: Option<BotoError>, readFault: Option<BotoError>)
      : (r: Result<Response, Error>)
      reads store
      ensures GetFileReader(config).Some? ==> r == GetFileReader(config).value.GetResponse(store, imageName, outage, readFault)
      ensures GetFileReader(config).None? ==> r == Failure(AttributeError)
    {
      match GetReader()
      case None => Failure(AttributeError)
      case Some(reader) => reader.GetResponse(store, imageName, outage, readFault)
    }
  }

  /**
   * With `UPLOAD_TYPE` neither "lcl" nor "s3" (or absent), viewing any image fails, and
   * not with `NotFound`: the caller sees an internal error rather than a 404.
   */
  lemma UnrecognisedUploadTypeFails(controller: ImagesController, store: Store, imageName: string,
                                    outage: Option<BotoError>, readFault: Option<BotoError>)
    requires Lookup(controller.config, UPLOAD_TYPE_KEY) != Some(Str(LOCAL_UPLOAD))
    requires Lookup(controller.config, UPLOAD_TYPE_KEY) != Some(Str(S3_UPLOAD))
    ensures controller.ViewImage(store, imageName, outage, readFault).Failure?
    ensures controller.ViewImage(store, imageName, outage, readFault).error != NotFound
  {
  }

  /**
   * The history round trip on the local backend: once the local writer has saved `data`
   * under a plain name in an absolute upload directory (without a NUL character) and a row records that name, the
   * `image_name` of the row's serialised form, viewed through the controller, gives back `data`.
   */
  lemma HistoryImageViewable(controller: ImagesController, store: Store, image: Entities.Image,
                             baseUrl: string, isoformat: int -> string)
    requires Lookup(controller.config, UPLOAD_TYPE_KEY) == Some(Str(LOCAL_UPLOAD))
    requires Lookup(controller.config, UPLOAD_PATH_KEY).Some? && Lookup(controller.config, UPLOAD_PATH_KEY).value.Str?
    requires Paths.IsAbsolute(controller.config[UPLOAD_PATH_KEY].s) && '\0' !in controller.config[UPLOAD_PATH_KEY].s
    requires Paths.PlainName(image.path)
    requires FileWriters.Destination(controller.config, image.path).Success?
    requires FileWriters.Destination(controller.config, image.path).value in store.disk
    ensures controller.ViewImage(store, Entities.Serialize(image, baseUrl, isoformat).imageName, None, None)
            == Success(Response(store.disk[FileWriters.Destination(controller.config, image.path).value], GuessedFrom(image.path)))
  {
    var path := FileWriters.Destination(controller.config, image.path).value;
    FileWriters.LocalReadAfterWrite(controller.config, store.disk, image.path, store.disk[path]);
    Paths.PlainNameIsNormal(image.path);
    assert FileWriters.LocalSave(store.disk, controller.config, image.path, store.disk[path], None).disk == store.disk;
  }

  /**
   * The same round trip on S3: a row whose name was put into the configured bucket, one
   * whose name botocore accepts, is served through the controller with the stored bytes and
   * content type.
   */
  lemma HistoryImageViewableOnS3(controller: ImagesController, store: Store, image: Entities.Image,
                                 baseUrl: string, isoformat: int -> string)
    requires Lookup(controller.config, UPLOAD_TYPE_KEY) == Some(Str(S3_UPLOAD))
    requires Lookup(controller.config, S3_BUCKET_KEY).Some? && Lookup(controller.config, S3_BUCKET_KEY).value.Str?
    requires ValidBucketName(controller.config[S3_BUCKET_KEY].s) && image.path != ""
    requires (controller.config[S3_BUCKET_KEY].s, image.path) in store.objects
    ensures var obj := store.objects[(controller.config[S3_BUCKET_KEY].s, image.path)];
            controller.ViewImage(store, Entities.Serialize(image, baseUrl, isoformat).imageName, None, None)
            == Success(Response(obj.body, Declared(obj.contentType)))
  {
  }
}
