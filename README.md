# img-process: settings, storage backends and image records

A Dafny model of the layer the img-process service is built on:

- **Settings** (`svc/config.py`): the shared settings, the overrides of the production
  (`prd`), staging (`stg`) and development (`dev`) environments, the merge of the two, and
  the choice of environment from the `ENV` variable (anything else, or nothing, means dev).
- **Storage backends** (`svc/utils/file_reader.py`, `svc/utils/file_writer.py`): the
  factories that pick the local (`"lcl"`) or S3 (`"s3"`) reader and writer from
  `UPLOAD_TYPE`, or nothing for any other value; the writers that put an uploaded file into
  the upload directory or a bucket; and the readers that serve it back, with every botocore
  error raised by the S3 fetch turned into a 404 (`NotFound`).
- **Image records** (`svc/models/entities.py`): the `images` table, adding one row per
  processed upload, reading rows back newest first a page at a time, and serialising a row.
- **The images controller** (`svc/controllers/images.py`): viewing an image through the
  reader the controller's settings select.

Files: `wrappers.dfy` (Option/Result/Outcome), `paths.dfy` (the POSIX path functions the
code relies on), `configuration.dfy`, `storage.dfy` (settings keys, errors, the `Store`
holding the filesystem and the buckets), `file_reader.dfy`, `file_writer.dfy`,
`entities.dfy`, `controllers.dfy`.

How the source's runtime is represented:

- `os.environ` and the package directory `BASEDIR` are a `Process` value passed to the
  settings functions.
- The local filesystem and the S3 buckets are two `map` fields of one `Store` object: the
  writers' `Save` changes them, and the readers read them. The filesystem map is keyed by
  the path a name resolves to, so "x" and "./x" under one directory are one file. An S3
  fault (a network failure, an access error) is an `outage` parameter, and a filesystem
  fault on a write a `diskFault` parameter: a failed open (a missing upload directory, a
  denied permission), which leaves the disk as it was, or a copy that fails after a given
  number of bytes, which leaves those bytes in the opened file. Each is empty when nothing
  goes wrong.
- Exceptions are `Result`/`Outcome` values: `NotFound` (werkzeug's 404), `TypeError` (a
  missing or non-string `UPLOAD_PATH`, or a bucket name botocore cannot match against its
  pattern), `ValueError` (boto3 refusing a missing bucket name), `AttributeError` (a call
  on `None`), `OSError` (a failed write), and an uncaught botocore error.
- Readers, writers and the controller are values holding the settings they were given,
  and the settings are an immutable map (see "## Left out"). The S3 client handle is the
  `Store`.
- Timestamps are integers (a later time is larger). `datetime.utcnow()` becomes the `now`
  argument of `SaveResults`, and `isoformat` becomes a function argument of `Serialize`.

The backend selectors are `"lcl"` and `"s3"` (svc/utils/file_reader.py:8-9,
svc/utils/file_writer.py:7-8). `MAX_IMAGE_SIZE` is 16 * 1024 * 1024, whatever the comment
beside it says, and nothing in the modelled code enforces it.

## Model

| member | source | states |
|---|---|---|
| `Paths.Join` | svc/utils/file_writer.py:31 | `os.path.join`: an absolute second part replaces the first; otherwise the result starts with the directory and ends with the name, with exactly one separator added between them when the directory is non-empty and does not end in one, and none otherwise |
| `Paths.SafeJoin` | svc/utils/file_reader.py:31-32 | `safe_join` accepts exactly the empty name and the relative names whose normalised form is not `..` and does not start with `../`, and then gives the directory joined with the normalised name, which is the file the operating system reaches through the plain join (`ResolvedJoin`) |
| `Paths.NormaliseComponents` | svc/utils/file_reader.py:31-32 | `normpath` keeps only ordinary components, plus a run of `..` at the start |
| `Paths.AcceptedNameStaysInside` | svc/utils/file_reader.py:31-32 | every component of a name `safe_join` accepts is, once normalised, an ordinary one: nothing leads above the directory |
| `Paths.DotComponentVanishes` | svc/utils/file_reader.py:31-32 | `./x` normalises to `x` |
| `Paths.ParentCancelsComponent` | svc/utils/file_reader.py:31-32 | `a/../b` normalises to `b` and is accepted |
| `Paths.LeadingParentEscapes` | svc/utils/file_reader.py:31-32 | `../x` escapes the directory and is refused |
| `Paths.ResolvedJoinAvoidsNul` | svc/utils/file_writer.py:31-32 | resolving `.` and `..` in a name without a NUL character, joined to a directory without one, gives a path without one |
| `Paths.PlainNameIsNormal` | svc/utils/file_reader.py:32 | `normpath` leaves a single plain component as it is |
| `Paths.PlainNameIsSafe` | svc/utils/file_reader.py:32 | a single plain path component is always accepted and joined as `os.path.join` would |
| `Paths.LastComponentOfJoin` | svc/utils/file_writer.py:31-32 | a directory joined with a plain name ends in that name, so the destination names a regular file |
| `Paths.Dirname` | svc/config.py:8 | `os.path.dirname` gives a prefix of its argument |
| `Paths.DirnameOfJoin` | svc/config.py:8 | `dirname` undoes `join` of a directory and a plain name |
| `Configuration.Merge` | svc/config.py:51-53 | `{**base, **overrides}` has every key of both, and the override's value wherever both have one |
| `Configuration.GetEnvironment` | svc/config.py:43-47 | the environment is `ENV` when that is "dev", "stg" or "prd", and "dev" otherwise, including when `ENV` is unset |
| `Configuration.ConfigMap` | svc/config.py:50-54 | `_config_map` has exactly the three environments as keys, each mapped to the shared settings merged with its overrides |
| `Configuration.MergedSettings` | svc/config.py:10-35 | every environment's merged settings hold all shared and all override keys; `ENV` names the environment; DEBUG is true for dev only (the override wins); the allowed extensions (["txt"]) and MAX_IMAGE_SIZE (16 MiB) are the same everywhere; dev uses "lcl" and its upload directory; stg and prd use "s3", each with its own bucket |
| `Configuration.GetConfig` | svc/config.py:38-40 | `get_config` never returns `None`: it returns the shared settings merged with the overrides of the environment `ENV` selects |
| `Configuration.ConfiguredSettings` | svc/config.py:38-54 | what `get_config` returns has all the properties above for the environment `ENV` selects |
| `Configuration.ResolvedEnvIsStable` | svc/config.py:38-54 | setting `ENV` to the environment that was resolved (the settings' `ENV` entry, by the row above) resolves to the same settings |
| `Configuration.LocalDatabaseBesidePackage` | svc/config.py:3-8 | the default SQLite database is `database.db` in the parent directory of the `svc` package |
| `FileReaders.GetFileReader` | svc/utils/file_reader.py:12-18 | the local reader exactly when `UPLOAD_TYPE` is "lcl", the S3 reader exactly when it is "s3", `None` for any other value or none; the reader holds the settings it was given |
| `FileReaders.FileReader.GetResponse` | svc/utils/file_reader.py:21-50 | the local reader serves from `UPLOAD_PATH` with the name unchanged; the S3 reader fetches from the configured bucket |
| `FileReaders.SendFromDirectory` | svc/utils/file_reader.py:29-32 | a regular file at the path `safe_join` gives is served with its contents, typed after the last component of that path; a refused name or no regular file there gives `NotFound`; a missing `UPLOAD_PATH` gives `TypeError` |
| `Storage.TrailingNewlineAccepted` | svc/utils/file_writer.py:42-47 | botocore's bucket check lets "abc" followed by one newline through, but not two newlines, and refuses the empty name |
| `Storage.CheckObjectParams` | svc/utils/file_reader.py:52-54 | botocore's checks before a request: `TypeError` exactly for a bucket name that is not a string; otherwise a parameter validation error unless the name matches botocore's bucket pattern (`$` letting one trailing newline through) and the key is non-empty |
| `FileReaders.GetFile` | svc/utils/file_reader.py:52-54 | the fetch succeeds exactly when the bucket name is a valid string, the key non-empty, the service up and the object present, and then returns that object; `ValueError` exactly for a missing bucket name, `TypeError` exactly for a non-string one, botocore errors otherwise |
| `FileReaders.S3Response` | svc/utils/file_reader.py:41-50 | every botocore error from the fetch becomes `NotFound`; any other error from it (`ValueError`, `TypeError`) passes through uncaught; a raw botocore error is returned exactly when the fetch succeeded and reading the body (line 48, outside the handler) failed; success exactly when both succeed, with the object's contents and its stored type as Content-Type |
| `FileReaders.FetchErrorsAreNotRaw` | svc/utils/file_reader.py:41-46 | when the body is read without fault, no botocore error reaches the caller |
| `FileReaders.ReadFaultEscapes` | svc/utils/file_reader.py:47-48 | a botocore error while reading a fetched body reaches the caller raw, not as a 404 |
| `FileReaders.S3OutageIsNotFound` | svc/utils/file_reader.py:41-46 | while the S3 service fails, an S3 reader with a string bucket name answers `NotFound` for every name |
| `FileReaders.NonStringBucketIsNotCaught` | svc/utils/file_reader.py:41-46 | a bucket name that is set but not a string ends in an uncaught `TypeError`, not a 404 |
| `FileWriters.GetFileWriter` | svc/utils/file_writer.py:11-17 | the local writer exactly when `UPLOAD_TYPE` is "lcl", the S3 writer exactly when it is "s3", `None` otherwise; the writer holds the settings it was given |
| `FileWriters.FileWriter.Save` | svc/utils/file_writer.py:28-47 | the local save leaves the disk and answers as `LocalSave` says, the buckets untouched; the S3 save writes and answers as `PutObject` says, the disk untouched, and changes nothing on an error |
| `FileWriters.StoredFile` | svc/utils/file_writer.py:30-32 | the file `os.path.join(UPLOAD_PATH, file_name)` reaches exists exactly when `UPLOAD_PATH` is a string; for a non-empty relative name it is `UPLOAD_PATH` joined with the normalised name, so every spelling of one name reaches one file |
| `FileWriters.LocalSave` | svc/utils/file_writer.py:29-32 | `TypeError` exactly without a string `UPLOAD_PATH`, `ValueError` exactly for a destination with a NUL character, `OSError` otherwise; the disk is unchanged unless `open` succeeds; once opened, the file reached holds a prefix of the bytes (all of them exactly when no fault follows, the first `written` on a copy fault, which is answered), is then a regular file, and every other file stays as it was |
| `FileWriters.StoredFileAvoidsNul` | svc/utils/file_writer.py:31-32 | a destination without a NUL character reaches a file whose path has none |
| `FileWriters.SpellingsOfOneFile` | svc/utils/file_writer.py:31-32 | after a successful save under one relative name, the local reader serves the saved bytes under any other non-escaping relative name with the same normalised form |
| `FileWriters.DotSpellingServed` | svc/utils/file_writer.py:31-32 | after saving under "x", asking for "./x" serves the saved bytes, typed after "x" |
| `FileWriters.FailedCopyServedTruncated` | svc/utils/file_writer.py:32 | a copy fault after `open` answers with the fault, and the local reader then serves the bytes that reached the file under the saved name |
| `FileWriters.Destination` | svc/utils/file_writer.py:29-31 | the local destination is `os.path.join(UPLOAD_PATH, name)`, so it begins with `UPLOAD_PATH` and ends with the name; `TypeError` exactly without a string `UPLOAD_PATH` |
| `FileWriters.PutObject` | svc/utils/file_writer.py:41-47 | the put succeeds exactly when the bucket name is a valid string, the key non-empty, the content type set and the service up; it then stores the object under (bucket, name) and leaves every other object as it was; `TypeError` exactly for a missing or non-string bucket name, botocore errors otherwise |
| `FileWriters.InvalidBucketRefused` | svc/utils/file_writer.py:41-47 | a string bucket name outside botocore's pattern (such as "") fails the put with a parameter validation error, and reading from it gives `NotFound` |
| `FileWriters.LocalDestinationExample` | svc/utils/file_writer.py:30-31 | "/upload/path" with "test.png" gives "/upload/path/test.png" |
| `FileWriters.LocalReadAfterWrite` | svc/utils/file_writer.py:29-32 | with "lcl" settings and an absolute `UPLOAD_PATH` without a NUL character, saving bytes under a plain name (one ordinary component, no NUL) succeeds, and the reader of the same settings serves them back unchanged |
| `FileWriters.UnsafeNameNeverServed` | svc/utils/file_writer.py:29-32 | a name that is absolute or whose normalised form leads out of the directory has a destination for the writer, yet the reader answers `NotFound` for it |
| `FileWriters.S3ReadAfterWrite` | svc/utils/file_writer.py:41-47 | with "s3" settings, a bucket name botocore accepts, a non-empty name and a declared content type, the put succeeds and the reader of the same settings reads back the file's bytes and content type |
| `Entities.Serialize` | svc/models/entities.py:27-33 | `image_name` is the row's path; `image_url` is `base_url`, then "/", then the name; `results` is the stored result unchanged; `uploaded_at` is the ISO form of the time |
| `Entities.ImageNameOf` | svc/models/entities.py:30 | a name recovered from a URL is one that, appended to `base_url + "/"`, gives the URL |
| `Entities.UrlNamesImage` | svc/models/entities.py:29-30 | the serialised URL leads back to the image name |
| `Entities.Insert` | svc/models/entities.py:23 | inserting a row into a newest-first sequence keeps it newest first and adds exactly that row |
| `Entities.NewestFirstOrder` | svc/models/entities.py:23 | `ORDER BY uploaded_at DESC` gives a newest-first permutation of the rows |
| `Entities.PageNumber` | svc/models/entities.py:24 | the page actually read is the requested page when that is at least 1, and page 1 otherwise |
| `Entities.PageSize` | svc/models/entities.py:24 | a non-negative page size is used as given, and a negative one reads as 20 |
| `Entities.Paginate` | svc/models/entities.py:24-25 | a page has at most `per_page` rows, those at positions `(page - 1) * per_page` onwards in order, as many as exist; a page past the end is empty, not an error |
| `Entities.PagesCoverRows` | svc/models/entities.py:24-25 | pages 1 to n read one after the other give the first `n * per_page` rows in order, without gaps or repeats |
| `Entities.ImageTable.SaveResults` | svc/models/entities.py:15-19 | adds exactly one row, with the given path and result, a new id and the current time; the earlier rows stay as they were |
| `Entities.ImageTable.GetHistory` | svc/models/entities.py:21-25 | the history is newest first, at most one page long, made of rows of the table, and empty past the last page |
| `Entities.PageOfNewestFirst` | svc/models/entities.py:23-25 | a page of a newest-first sequence is newest first and consists of its rows |
| `Entities.SliceOfNewestFirst` | svc/models/entities.py:24-25 | every contiguous run of a newest-first sequence is newest first and consists of its rows |
| `Entities.NewestSavedComesFirst` | svc/models/entities.py:16-25 | a row newer than every other row is first on page 1 of the history |
| `Controllers.ImagesController.ViewImage` | svc/controllers/images.py:8-13 | `view_image` returns the answer of the reader `get_file_reader` picks for the stored settings, called with the name as given (a `NotFound` passes through unchanged); with no reader, `AttributeError` |
| `Controllers.UnrecognisedUploadTypeFails` | svc/controllers/images.py:8-10 | with `UPLOAD_TYPE` neither "lcl" nor "s3", viewing any image fails, and not with `NotFound` |
| `Controllers.HistoryImageViewable` | svc/controllers/images.py:8-13 | on the local backend with an absolute `UPLOAD_PATH` without a NUL character, a row's serialised `image_name` viewed through the controller gives back the bytes saved under that name |
| `Controllers.HistoryImageViewableOnS3` | svc/controllers/images.py:8-13 | on S3 with a valid bucket name, a row's serialised (non-empty) `image_name` viewed through the controller gives back the object's bytes and content type |

## Left out

- The upload pipeline (`post_image`, upload validation, `_process_image` with per-task failure isolation, and the controller's `get_history`) is not in `svc/controllers/images.py`. The controller there takes only `config`, so the pipeline has no source to model.
- `svc/processors/average_pixel.py` computes a floating-point mean with numpy over an image decoded by PIL. `svc/processors/__init__.py` is a fixed one-element list. Neither is part of this model.
- `svc/api/images.py`, `svc/app.py` and `svc/cmdline.py` (Flask routing, app construction, `db.create_all`, `app.run`) are not part of this model.
- Logging: the factories' warning for an unknown `UPLOAD_TYPE` and the S3 reader's error log have no counterpart. The model keeps only the `None` result and the `NotFound`.
- `FileReaders.GetFileReader`: does not record the warning it logs, because log output is not modelled.
- `FileWriters.GetFileWriter`: does not record the warning it logs, because log output is not modelled.
- `Paths.SafeJoin`: normalises relative names only; an absolute name is refused before normalising, which gives the same answer because `normpath` keeps a name absolute. werkzeug's replacement of an empty directory by `.` is not modelled, since `UPLOAD_PATH` is assumed absolute.
- `FileReaders.SendFromDirectory`: assumes an absolute `UPLOAD_PATH`, because Flask resolves a relative one against the application root, which is not modelled; the read-after-write lemmas therefore require an absolute one. Filesystem faults on a read (a denied permission) are not modelled. The Content-Type is recorded only as "guessed from" the last component of the served path, because MIME-type guessing is not modelled.
- Flask response objects are reduced to a body and a content type. HTTP headers other than Content-Type, streaming and caching are not modelled.
- Which S3 or filesystem fault occurs, and when, is not modelled. They are the `outage` and `diskFault` arguments (a fault of the open, or of the copy after a given number of bytes); only a destination that cannot name a regular file is an `OSError` the model derives itself, recorded as `IsADirectoryError` (the source may raise another `OSError`, such as `FileNotFoundError`, when the directory is missing too).
- `Storage.ValidBucketName`: states what botocore's local check accepts, including a name with one trailing newline; whether S3 itself then refuses such a name, or the bucket does not exist, is not modelled, and that answer stands behind the `outage` argument. It checks only botocore's plain bucket-name pattern; botocore also accepts S3 access-point and outpost ARNs, which the model refuses, because the ARN patterns are not modelled.
- `FileWriters.LocalSave`: the disk is a map from resolved path to bytes, without directories. A `..` is taken to cancel the component before it even when that component is not an existing directory (the operating system would then fail the open), and a missing upload directory is not an error. Two spellings of the upload directory itself, or of an absolute or escaping name, are different keys even where the operating system would reach one file, and symbolic links are not modelled.
- `FileWriters.FileWriter.Save`: stores the whole uploaded stream. The source hands boto3 the file object, which is read from its current position, and stream positions are not modelled.
- The SQLAlchemy session, commits, database failures and the `String(128)` limit on `path` are not modelled. SQLite does not enforce that limit.
- `Entities.NewestFirstOrder`: keeps rows with equal `uploaded_at` in table order. SQL leaves their order open, so the model fixes one of the orders a database may return.
- `Entities.PagesCoverRows`: assumes every page query orders rows with equal `uploaded_at` the same way and that no row is added between the queries; a database may order ties differently from one query to the next.
- Settings are an immutable map. In the source, readers, writers and the controller keep a reference to the caller's dictionary: the local reader and writer read `UPLOAD_PATH` from it at each call (svc/utils/file_reader.py:31, svc/utils/file_writer.py:30) and so see later changes to it, while the S3 reader and writer copy the bucket name when they are built (svc/utils/file_reader.py:38, svc/utils/file_writer.py:38). Changes to the dictionary after construction are not modelled.
- `Entities.Paginate`: follows Flask-SQLAlchemy 2's `paginate` with `error_out=False` (a page below 1 reads as 1, a negative size as 20). Its `request`-argument path and `max_per_page` are not used by the source.
- `Configuration.DatabaseUri` and `Configuration.GetEnvironment` read one `Process`: the source reads `SQLALCHEMY_DATABASE_URI` once, when svc/config.py is imported (line 12), and `ENV` on every call of `get_config` (line 44); a change of the environment between the two is not modelled.
- `datetime.utcnow` and `isoformat` are arguments (`now`, `isoformat`), not clocks or formatters.
