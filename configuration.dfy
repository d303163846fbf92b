/**
 * The service's settings (svc/config.py): shared settings, one dictionary of
 * overrides per environment, and the choice of environment from the `ENV`
 * variable. What the module reads from its process (`os.environ` and the
 * directory the package is installed in) is passed in as a `Process` value.
 */
module Configuration {
  import opened Wrappers
  import Paths

  const PRODUCTION: string := "prd"
  const STAGING: string := "stg"
  const DEV: string := "dev"

  /** A setting's value: the Python literals the settings dictionaries hold. */
  datatype Value = Bool(b: bool) | Int(i: int) | Str(s: string) | StrList(items: seq<string>)

  /** A settings dictionary. */
  type Config = map<string, Value>

  /** `os.environ` and `BASEDIR`, the absolute directory of the `svc` package. */
  datatype Process = Process(environ: map<string, string>, baseDir: string)

  /** `config.get(key)` */
  function Lookup(config: Config, key: string): (r: Option<Value>)
    ensures r.Some? <==> key in config
    ensures r.Some? ==> r.value == config[key]
  {
    if key in config then Some(config[key]) else None
  }

  /** `os.environ.get(name)` */
  function GetEnv(environ: map<string, string>, name: string): Option<string>
  {
    if name in environ then Some(environ[name]) else None
  }

  /** `LOCAL_SQLALCHEMY_URL`: a SQLite file named database.db in the parent of `BASEDIR`. */
  function LocalSqlalchemyUrl(baseDir: string): string
  {
    "sqlite:///" + Paths.Join(Paths.Dirname(baseDir), "database.db")
  }

  /** The `SQLALCHEMY_DATABASE_URI` setting: the environment variable of that name, else `LOCAL_SQLALCHEMY_URL`. */
  function DatabaseUri(p: Process): string
  {
    if "SQLALCHEMY_DATABASE_URI" in p.environ then p.environ["SQLALCHEMY_DATABASE_URI"]
    else LocalSqlalchemyUrl(p.baseDir)
  }

  /** The dev `UPLOAD_PATH`: the `uploads` directory inside the package. */
  function UploadDirectory(p: Process): string
  {
    Paths.Join(p.baseDir, "uploads")
  }

  /** `common_config`, given the database URI it reads from the environment. */
  function CommonConfig(databaseUri: string): Config
  {
    map[
      "DEBUG" := Bool(false),
      "SQLALCHEMY_DATABASE_URI" := Str(databaseUri),
      "SQLALCHEMY_TRACK_MODIFICATIONS" := Bool(false),
      "ALLOWED_IMAGES_EXTENSIONS" := StrList(["txt"]),
      "MAX_IMAGE_SIZE" := Int(16 * 1024 * 1024)
    ]
  }

  /** `prd_config` */
  const PrdConfig: Config :=
    map["ENV" := Str(PRODUCTION), "UPLOAD_TYPE" := Str("s3"), "S3_BUCKET_NAME" := Str("img.process.prd")]

  /** `stg_config` */
  const StgConfig: Config :=
    map["ENV" := Str(STAGING), "UPLOAD_TYPE" := Str("s3"), "S3_BUCKET_NAME" := Str("img.process.stg")]

  /** `dev_config`, given the upload directory it computes. */
  function DevConfig(uploadPath: string): Config
  {
    map["ENV" := Str(DEV), "DEBUG" := Bool(true), "UPLOAD_TYPE" := Str("lcl"), "UPLOAD_PATH" := Str(uploadPath)]
  }

  /** `{**base, **overrides}`: every key of both, the value from `overrides` where both have it. */
  function Merge(base: Config, overrides: Config): (r: Config)
    ensures r.Keys == base.Keys + overrides.Keys
    ensures forall k | k in overrides :: r[k] == overrides[k]
    ensures forall k | k in base && k !in overrides :: r[k] == base[k]
  {
    base + overrides
  }

  /** The overrides dictionary of a known environment. */
  function EnvironmentConfig(envId: string, uploadPath: string): Config
    requires envId in {PRODUCTION, STAGING, DEV}
  {
    if envId == PRODUCTION then PrdConfig
    else if envId == STAGING then StgConfig
    else DevConfig(uploadPath)
  }

  /** `_get_environment()`: the `ENV` variable when it names a known environment, and dev otherwise. */
  function GetEnvironment(environ: map<string, string>): (envId: string)
    ensures envId in {PRODUCTION, STAGING, DEV}
    ensures GetEnv(environ, "ENV") in {Some(DEV), Some(STAGING), Some(PRODUCTION)} ==> Some(envId) == GetEnv(environ, "ENV")
    ensures GetEnv(environ, "ENV") !in {Some(DEV), Some(STAGING), Some(PRODUCTION)} ==> envId == DEV
  {
    var envVar := GetEnv(environ, "ENV");
    if envVar.None? || envVar.value !in [DEV, STAGING, PRODUCTION] then DEV else envVar.value
  }

  /** `_config_map`: each environment's overrides merged over the shared settings. */
  function ConfigMap(databaseUri: string, uploadPath: string): (m: map<string, Config>)
    ensures m.Keys == {PRODUCTION, STAGING, DEV}
    ensures forall envId | envId in m :: m[envId] == Merge(CommonConfig(databaseUri), EnvironmentConfig(envId, uploadPath))
  {
    map envId | envId in {PRODUCTION, STAGING, DEV} :: Merge(CommonConfig(databaseUri), EnvironmentConfig(envId, uploadPath))
  }

  /** The bucket each object-storage environment uploads to. */
  function BucketName(envId: string): (name: string)
    requires envId in {PRODUCTION, STAGING}
    ensures name == "img.process." + envId
  {
    if envId == PRODUCTION then "img.process.prd" else "img.process.stg"
  }

  /** Every shared key and every key of the environment's overrides is a setting. */
  predicate HoldsEveryKey(envId: string, databaseUri: string, uploadPath: string, c: Config)
    requires envId in {PRODUCTION, STAGING, DEV}
  {
    CommonConfig(databaseUri).Keys <= c.Keys && EnvironmentConfig(envId, uploadPath).Keys <= c.Keys
  }

  /** `ENV` names the environment, and DEBUG is on for dev only: the override wins over the shared value. */
  predicate NamesEnvironment(envId: string, c: Config)
  {
    && "ENV" in c && c["ENV"] == Str(envId)
    && "DEBUG" in c && c["DEBUG"] == Bool(envId == DEV)
  }

  /** The database and the upload limits are the shared ones in every environment. */
  predicate SharedLimits(databaseUri: string, c: Config)
  {
    && "SQLALCHEMY_DATABASE_URI" in c && c["SQLALCHEMY_DATABASE_URI"] == Str(databaseUri)
    && "ALLOWED_IMAGES_EXTENSIONS" in c && c["ALLOWED_IMAGES_EXTENSIONS"] == StrList(["txt"])
    && "MAX_IMAGE_SIZE" in c && c["MAX_IMAGE_SIZE"] == Int(16 * 1024 * 1024)
  }

  /** Dev stores uploads in its local directory; stg and prd in their own bucket. */
  predicate StorageFor(envId: string, uploadPath: string, c: Config)
    requires envId in {PRODUCTION, STAGING, DEV}
  {
    && "UPLOAD_TYPE" in c
    && (envId == DEV ==> c["UPLOAD_TYPE"] == Str("lcl") && "UPLOAD_PATH" in c && c["UPLOAD_PATH"] == Str(uploadPath))
    && (envId != DEV ==> c["UPLOAD_TYPE"] == Str("s3") && "S3_BUCKET_NAME" in c && c["S3_BUCKET_NAME"] == Str(BucketName(envId)))
  }

  /** What the merged settings of a known environment hold. */
  predicate ResolvedAs(envId: string, databaseUri: string, uploadPath: string, c: Config)
    requires envId in {PRODUCTION, STAGING, DEV}
  {
    && HoldsEveryKey(envId, databaseUri, uploadPath, c)
    && NamesEnvironment(envId, c)
    && SharedLimits(databaseUri, c)
    && StorageFor(envId, uploadPath, c)
  }

  lemma MergedSettings(envId: string, databaseUri: string, uploadPath: string)
    requires envId in {PRODUCTION, STAGING, DEV}
    ensures ResolvedAs(envId, databaseUri, uploadPath, Merge(CommonConfig(databaseUri), EnvironmentConfig(envId, uploadPath)))
  {
    MergedKeys(envId, databaseUri, uploadPath);
    MergedName(envId, databaseUri, uploadPath);
    MergedLimits(envId, databaseUri, uploadPath);
    MergedStorage(envId, databaseUri, uploadPath);
  }

  lemma MergedKeys(envId: string, databaseUri: string, uploadPath: string)
    requires envId in {PRODUCTION, STAGING, DEV}
    ensures HoldsEveryKey(envId, databaseUri, uploadPath, Merge(CommonConfig(databaseUri), EnvironmentConfig(envId, uploadPath)))
  {
  }

  lemma MergedName(envId: string, databaseUri: string, uploadPath: string)
    requires envId in {PRODUCTION, STAGING, DEV}
    ensures NamesEnvironment(envId, Merge(CommonConfig(databaseUri), EnvironmentConfig(envId, uploadPath)))
  {
  }

  lemma MergedLimits(envId: string, databaseUri: string, uploadPath: string)
    requires envId in {PRODUCTION, STAGING, DEV}
    ensures SharedLimits(databaseUri, Merge(CommonConfig(databaseUri), EnvironmentConfig(envId, uploadPath)))
  {
  }

  lemma MergedStorage(envId: string, databaseUri: string, uploadPath: string)
    requires envId in {PRODUCTION, STAGING, DEV}
    ensures StorageFor(envId, uploadPath, Merge(CommonConfig(databaseUri), EnvironmentConfig(envId, uploadPath)))
  {
  }

  /**
   * `get_config()`: the settings of the environment `ENV` selects. Never `None`: the
   * environment chosen is always a key of `_config_map`.
   */
  function GetConfig(p: Process): (r: Option<Config>)
    ensures r.Some?
    ensures r.value == Merge(CommonConfig(DatabaseUri(p)), EnvironmentConfig(GetEnvironment(p.environ), UploadDirectory(p)))
  {
    var m := ConfigMap(DatabaseUri(p), UploadDirectory(p));
    var envId := GetEnvironment(p.environ);
    if envId in m then Some(m[envId]) else None
  }

  /** What `get_config()` returns has every property of the merged settings of the environment `ENV` selects. */
  lemma ConfiguredSettings(p: Process)
    ensures ResolvedAs(GetEnvironment(p.environ), DatabaseUri(p), UploadDirectory(p), GetConfig(p).value)
  {
    MergedSettings(GetEnvironment(p.environ), DatabaseUri(p), UploadDirectory(p));
  }

  /**
   * Resolving again with `ENV` set to the environment the settings name gives the
   * same settings: the resolved `ENV` entry is a fixed point of `get_config`.
   */
  lemma ResolvedEnvIsStable(p: Process)
    ensures GetConfig(Process(p.environ["ENV" := GetEnvironment(p.environ)], p.baseDir)) == GetConfig(p)
  {
    var q := Process(p.environ["ENV" := GetEnvironment(p.environ)], p.baseDir);
    assert GetEnvironment(q.environ) == GetEnvironment(p.environ);
    assert DatabaseUri(q) == DatabaseUri(p);
  }

  /** With `BASEDIR` a directory `svc` under `root`, the local database is `root/database.db`. */
  lemma LocalDatabaseBesidePackage(root: string)
    requires root != "" && root[|root| - 1] != '/'
    ensures LocalSqlalchemyUrl(Paths.Join(root, "svc")) == "sqlite:///" + Paths.Join(root, "database.db")
  {
    Paths.DirnameOfJoin(root, "svc");
  }
}
