/** Dish images kept in an S3-compatible object store (backend/src/upload/upload.service.ts).
    The store itself is reached over the network: whether a put succeeds is a parameter, and the
    clock and the random suffix of a name are parameters too. */
module Upload {
  import opened Common

  /** The configuration the service keeps once constructed. */
  datatype UploadConfig = UploadConfig(region: string, accessKeyId: string, secretAccessKey: string,
                                       bucketName: string, endpoint: string)

  datatype ConfigError = ConfigurationMissing

  predicate Given(v: Option<string>) {
    v.Some? && v.value != ""
  }

  /** The constructor: every one of the five settings must be present and non-empty. */
  function Configure(region: Option<string>, accessKeyId: Option<string>, secretAccessKey: Option<string>,
                     bucketName: Option<string>, endpoint: Option<string>): (r: Result<UploadConfig, ConfigError>)
    ensures r.Ok? <==> Given(region) && Given(accessKeyId) && Given(secretAccessKey) && Given(bucketName) && Given(endpoint)
    ensures r.Ok? ==> r.value == UploadConfig(region.value, accessKeyId.value, secretAccessKey.value, bucketName.value, endpoint.value)
  {
    if !Given(region) || !Given(accessKeyId) || !Given(secretAccessKey) || !Given(bucketName) || !Given(endpoint) then
      Err(ConfigurationMissing)
    else
      Ok(UploadConfig(region.value, accessKeyId.value, secretAccessKey.value, bucketName.value, endpoint.value))
  }

  /** The multipart file as the request carries it. */
  datatype UploadedFile = UploadedFile(mimetype: string, size: nat, originalname: string)

  datatype UploadError = FileRequired | InvalidType | TooLarge | UploadFailed

  const AllowedMimeTypes: seq<string> := ["image/jpeg", "image/png", "image/jpg", "image/webp"]

  /** 5 MiB. */
  const MaxSize: nat := 5 * 1024 * 1024

  const KeyPrefix := "dishes/dish_"

  /** `originalname.split('.').pop()`: the text after the last '.', or the whole name. */
  function Extension(name: string): (ext: string)
    ensures '.' !in ext
    ensures '.' !in name ==> ext == name
  {
    var parts := Split(name, '.');
    NoDotSplitsToName(name);
    SplitPiecesLackSeparator(name, '.');
    parts[|parts| - 1]
  }

  lemma NoDotSplitsToName(name: string)
    ensures '.' !in name ==> Split(name, '.') == [name]
  {
    if '.' !in name {
      SplitWithoutSeparator(name, '.');
    }
  }

  /** The last piece of a split is what follows the last separator. */
  lemma {:induction false} SplitLast(prefix: string, last: string, sep: char)
    requires sep !in last
    ensures |Split(prefix + [sep] + last, sep)| >= 2
    ensures Split(prefix + [sep] + last, sep)[|Split(prefix + [sep] + last, sep)| - 1] == last
  {
    var s := prefix + [sep] + last;
    if prefix == [] {
      assert s == [sep] + last;
      assert s[1..] == last;
      SplitWithoutSeparator(last, sep);
    } else {
      assert s[1..] == prefix[1..] + [sep] + last;
      SplitLast(prefix[1..], last, sep);
    }
  }

  /** The extension of a name with a dot is exactly what follows its last dot. */
  lemma ExtensionAfterLastDot(stem: string, ext: string)
    requires '.' !in ext
    ensures Extension(stem + "." + ext) == ext
  {
    SplitLast(stem, ext, '.');
  }

  /** The object key: the prefix, the upload time, the random text and the extension. */
  function Key(timestamp: nat, randomString: string, extension: string): string {
    KeyPrefix + NatToString(timestamp) + "_" + randomString + "." + extension
  }

  /** The key keeps the extension of the uploaded name, whatever the random text (which is
      base-36 digits, without a dot). */
  lemma KeyKeepsExtension(timestamp: nat, randomString: string, name: string)
    ensures Extension(Key(timestamp, randomString, Extension(name))) == Extension(name)
    ensures StartsWith(Key(timestamp, randomString, Extension(name)), KeyPrefix)
  {
    var ext := Extension(name);
    var stem := KeyPrefix + NatToString(timestamp) + "_" + randomString;
    assert Key(timestamp, randomString, ext) == stem + "." + ext;
    ExtensionAfterLastDot(stem, ext);
    assert Key(timestamp, randomString, ext)[..|KeyPrefix|] == KeyPrefix;
  }

  /** The public URL of a key: endpoint, bucket and key joined by '/'. */
  function Url(config: UploadConfig, key: string): string {
    config.endpoint + "/" + config.bucketName + "/" + key
  }

  /** uploadDishImage: the checks in their order, then the put; the URL of the new object. */
  function UploadDishImage(config: UploadConfig, file: Option<UploadedFile>, timestamp: nat, randomString: string,
                           stored: bool): (r: Result<string, UploadError>)
    ensures file.None? ==> r == Err(FileRequired)
    ensures file.Some? ==> (r == Err(InvalidType) <==> file.value.mimetype !in AllowedMimeTypes)
    ensures file.Some? && file.value.mimetype in AllowedMimeTypes ==> (r == Err(TooLarge) <==> file.value.size > MaxSize)
    ensures file.Some? && file.value.mimetype in AllowedMimeTypes && file.value.size <= MaxSize ==>
              (r == Err(UploadFailed) <==> !stored)
    ensures r.Ok? <==> file.Some? && file.value.mimetype in AllowedMimeTypes && file.value.size <= MaxSize && stored
    ensures r.Ok? ==> r.value == Url(config, Key(timestamp, randomString, Extension(file.value.originalname)))
  {
    if file.None? then Err(FileRequired)
    else if file.value.mimetype !in AllowedMimeTypes then Err(InvalidType)
    else if file.value.size > MaxSize then Err(TooLarge)
    else if !stored then Err(UploadFailed)
    else Ok(Url(config, Key(timestamp, randomString, Extension(file.value.originalname))))
  }

  /** The size bound is inclusive: exactly 5 MiB passes and one byte more does not. */
  lemma SizeBoundary(config: UploadConfig, mimetype: string, name: string, timestamp: nat, randomString: string)
    requires mimetype in AllowedMimeTypes
    ensures UploadDishImage(config, Some(UploadedFile(mimetype, 5242880, name)), timestamp, randomString, true).Ok?
    ensures UploadDishImage(config, Some(UploadedFile(mimetype, 5242881, name)), timestamp, randomString, true) == Err(TooLarge)
  {
  }

  // ---------------------------------------------------------------- deleteFile

  /** The key deleteFile sends, as written: the URL's '/'-separated pieces from the fourth on. */
  function ExtractKeyAsWritten(fileUrl: string): string {
    Join(Drop(Split(fileUrl, '/'), 3), "/")
  }

  /** The pieces of an object URL whose endpoint has the form scheme://host. */
  lemma SplitObjectUrl(scheme: string, host: string, bucket: string, key: string)
    requires '/' !in scheme && '/' !in host && '/' !in bucket
    ensures Split(scheme + "//" + host + "/" + bucket + "/" + key, '/') == [scheme, "", host, bucket] + Split(key, '/')
  {
    var endpoint := scheme + "//" + host;
    var x := endpoint + "/" + bucket;
    SplitWithoutSeparator(scheme, '/');
    SplitConcat(scheme, "", '/');
    assert Split(scheme + "/" + "", '/') == [scheme, ""];
    SplitWithoutSeparator(host, '/');
    SplitConcat(scheme + "/" + "", host, '/');
    assert endpoint == scheme + "/" + "" + "/" + host;
    assert Split(endpoint, '/') == [scheme, "", host];
    SplitWithoutSeparator(bucket, '/');
    SplitConcat(endpoint, bucket, '/');
    assert Split(x, '/') == [scheme, "", host, bucket];
    SplitConcat(x, key, '/');
  }

  /** For an endpoint of the form scheme://host the pieces from the fourth on start with the
      bucket, so the key sent for deletion is the bucket name, a '/', and the object's key. */
  lemma ExtractKeyIncludesBucket(scheme: string, host: string, bucket: string, region: string, keyId: string,
                                 secret: string, key: string)
    requires '/' !in scheme && '/' !in host && '/' !in bucket
    ensures var config := UploadConfig(region, keyId, secret, bucket, scheme + "//" + host);
      ExtractKeyAsWritten(Url(config, key)) == bucket + "/" + key
  {
    var config := UploadConfig(region, keyId, secret, bucket, scheme + "//" + host);
    var pieces := Split(key, '/');
    SplitObjectUrl(scheme, host, bucket, key);
    assert Drop(Split(Url(config, key), '/'), 3) == [bucket] + pieces;
    assert ([bucket] + pieces)[1..] == pieces;
    JoinSplit(key, '/');
  }

  /** A concrete case: any object of bucket media at https://s3.example.com is deleted under a
      key that starts with "media/". */
  lemma ExtractKeyExample(key: string)
    ensures ExtractKeyAsWritten(Url(UploadConfig("r", "k", "s", "media", "https://s3.example.com"), key)) == "media/" + key
  {
    var scheme, host, bucket := "https:", "s3.example.com", "media";
    assert scheme + "//" + host == "https://s3.example.com";
    assert '/' !in scheme && '/' !in host && '/' !in bucket;
    ExtractKeyIncludesBucket(scheme, host, bucket, "r", "k", "s", key);
  }

  /** The key of one of this service's URLs: what follows endpoint, bucket and '/'; None for a URL
      of somewhere else. */
  function ExtractKey(config: UploadConfig, fileUrl: string): (key: Option<string>)
    ensures key.Some? ==> Url(config, key.value) == fileUrl
  {
    var base := config.endpoint + "/" + config.bucketName + "/";
    if StartsWith(fileUrl, base) then
      assert fileUrl == base + fileUrl[|base|..];
      Some(fileUrl[|base|..])
    else None
  }

  /** Deleting by URL removes the very object the upload created. */
  lemma ExtractKeyRoundTrip(config: UploadConfig, key: string)
    ensures ExtractKey(config, Url(config, key)) == Some(key)
  {
    var base := config.endpoint + "/" + config.bucketName + "/";
    assert Url(config, key) == base + key;
    assert (base + key)[..|base|] == base;
    assert (base + key)[|base|..] == key;
  }
}
