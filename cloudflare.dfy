/**
 * The Cloudflare R2 client: its settings check, the dashboard URL it links
 * to, the object key and URL of an upload, and the two extension helpers.
 * The S3 client, the endpoint resolver and the PutObject call are outside
 * the model; the upload's outcome is an input.
 */
module Cloudflare {
  import opened Wrappers
  import opened Decimal

  /** The fields the client keeps besides its S3 handle; they are set once and never changed. */
  datatype R2Client = R2Client(bucketName: string, accountId: string)

  const MissingSettings: string := "missing required Cloudflare R2 environment variables"
  const ConfigPrefix: string := "failed to load AWS config: "
  const UploadPrefix: string := "failed to upload file to R2: "

  /**
   * `NewCloudflareR2Client` with its four settings passed in; `configError`
   * is what loading the AWS configuration reported, if anything.
   */
  function NewR2Client(accountId: string, accessKeyId: string, accessKeySecret: string,
                       bucketName: string, configError: Option<string>): (r: Result<R2Client, string>)
    ensures r.Success? <==>
      accountId != "" && accessKeyId != "" && accessKeySecret != "" && bucketName != "" && configError.None?
    ensures accountId == "" || accessKeyId == "" || accessKeySecret == "" || bucketName == "" ==>
      r == Failure(MissingSettings)
    ensures r.Success? ==> r.value.accountId == accountId && r.value.bucketName == bucketName
  {
    if accountId == "" || accessKeyId == "" || accessKeySecret == "" || bucketName == "" then
      Failure(MissingSettings)
    else if configError.Some? then
      Failure(ConfigPrefix + configError.value)
    else
      Success(R2Client(bucketName := bucketName, accountId := accountId))
  }

  // ---------------------------------------------------------------------
  // Dashboard URLs

  function DashboardPrefix(c: R2Client): string {
    "https://dash.cloudflare.com/" + c.accountId + "/r2/default/buckets/" + c.bucketName + "/objects/"
  }

  /** The dashboard page of an object: the bucket's object listing followed by the object path. */
  function GetDashboardURL(c: R2Client, objectPath: string): (url: string)
    ensures DashboardPrefix(c) <= url
    ensures url[|DashboardPrefix(c)|..] == objectPath
  {
    "https://dash.cloudflare.com/" + c.accountId + "/r2/default/buckets/" + c.bucketName + "/objects/" + objectPath
  }

  /** Recovers the object path from a dashboard URL of this client. */
  function ObjectPathOf(c: R2Client, url: string): Option<string> {
    var prefix := DashboardPrefix(c);
    if prefix <= url then Some(url[|prefix|..]) else None
  }

  lemma DashboardURLRoundTrip(c: R2Client, objectPath: string)
    ensures ObjectPathOf(c, GetDashboardURL(c, objectPath)) == Some(objectPath)
  {
  }

  /** Different objects of one client get different dashboard pages. */
  lemma DashboardURLInjective(c: R2Client, p: string, q: string)
    requires p != q
    ensures GetDashboardURL(c, p) != GetDashboardURL(c, q)
  {
  }

  // ---------------------------------------------------------------------
  // Uploads

  /** The object key of an upload: `%d%s` of the nanosecond timestamp and the extension. */
  function ObjectKey(timestamp: int64, fileExt: string): (key: string)
    ensures |key| > |fileExt| && key[|key| - |fileExt|..] == fileExt
  {
    FormatInt(timestamp as int) + fileExt
  }

  /** The timestamp is read back from the key once its extension is taken off. */
  lemma ObjectKeyRoundTrip(timestamp: int64, fileExt: string)
    ensures var key := ObjectKey(timestamp, fileExt);
      key[..|key| - |fileExt|] == FormatInt(timestamp as int) &&
      ParseInt64(key[..|key| - |fileExt|]) == Success(timestamp)
  {
    var key := ObjectKey(timestamp, fileExt);
    assert key[..|key| - |fileExt|] == FormatInt(timestamp as int);
    ParseFormatRoundTrip(timestamp);
  }

  /** Uploads at different instants with the same extension never share a key. */
  lemma ObjectKeysDistinct(t1: int64, t2: int64, fileExt: string)
    requires t1 != t2
    ensures ObjectKey(t1, fileExt) != ObjectKey(t2, fileExt)
  {
    ObjectKeyRoundTrip(t1, fileExt);
    ObjectKeyRoundTrip(t2, fileExt);
  }

  datatype PutObjectInput = PutObjectInput(bucket: string, key: string, body: seq<bv8>, contentType: string)

  /** What `UploadFile` sent to the store and returned: a URL, and an error (None is Go's nil). */
  datatype Upload = Upload(put: PutObjectInput, url: string, error: Option<string>)

  /**
   * `UploadFile`. The clock reading, the sniffed content type and the
   * outcome of PutObject (`putError`) are inputs.
   */
  function UploadFile(c: R2Client, fileData: seq<bv8>, fileExt: string, timestamp: int64,
                      contentType: string, putError: Option<string>): (u: Upload)
    ensures u.put == PutObjectInput(c.bucketName, ObjectKey(timestamp, fileExt), fileData, contentType)
    ensures u.error.Some? <==> putError.Some?
    ensures u.error.Some? ==> u.url == ""
    ensures u.error.None? ==> u.url == GetDashboardURL(c, u.put.key) + "/details"
  {
    var fileName := FormatInt(timestamp as int) + fileExt;
    var put := PutObjectInput(c.bucketName, fileName, fileData, contentType);
    match putError
    case Some(e) => Upload(put, "", Some(UploadPrefix + e))
    case None =>
      Upload(put, "https://dash.cloudflare.com/" + c.accountId + "/r2/default/buckets/" + c.bucketName
                  + "/objects/" + fileName + "/details", None)
  }

  /** Recovers the object key from a URL `UploadFile` returned. */
  function ObjectKeyOfDetailsURL(c: R2Client, url: string): Option<string> {
    var suffix := "/details";
    if |suffix| <= |url| && url[|url| - |suffix|..] == suffix then
      ObjectPathOf(c, url[..|url| - |suffix|])
    else None
  }

  /** The URL of a successful upload leads back to the key it stored, and that key to its timestamp. */
  lemma UploadURLNamesObject(c: R2Client, fileData: seq<bv8>, fileExt: string, timestamp: int64,
                             contentType: string)
    ensures var u := UploadFile(c, fileData, fileExt, timestamp, contentType, None);
      ObjectKeyOfDetailsURL(c, u.url) == Some(u.put.key) &&
      ParseInt64(u.put.key[..|u.put.key| - |fileExt|]) == Success(timestamp)
  {
    var u := UploadFile(c, fileData, fileExt, timestamp, contentType, None);
    var dash := GetDashboardURL(c, u.put.key);
    assert u.url[..|u.url| - 8] == dash;
    DashboardURLRoundTrip(c, u.put.key);
    ObjectKeyRoundTrip(timestamp, fileExt);
  }

  // ---------------------------------------------------------------------
  // Extensions

  /** The extension for a sniffed content type; the match is exact, so anything else is ".bin". */
  function GetFileExtension(contentType: string): (ext: string)
    ensures ext in [".jpg", ".png", ".gif", ".webp", ".bin"]
    ensures |ext| > 1 && ext[0] == '.'
    ensures ext == ".jpg" <==> contentType == "image/jpeg"
    ensures ext == ".png" <==> contentType == "image/png"
    ensures ext == ".gif" <==> contentType == "image/gif"
    ensures ext == ".webp" <==> contentType == "image/webp"
  {
    match contentType
    case "image/jpeg" => ".jpg"
    case "image/png" => ".png"
    case "image/gif" => ".gif"
    case "image/webp" => ".webp"
    case _ => ".bin"
  }

  /** A content type with parameters, or in another case, is not recognised. */
  lemma GetFileExtensionIsExact()
    ensures GetFileExtension("image/jpeg; charset=binary") == ".bin"
    ensures GetFileExtension("IMAGE/PNG") == ".bin"
    ensures GetFileExtension("") == ".bin"
  {
  }

  /** Neither a '.' nor a path separator. */
  predicate PlainChar(c: char) { c != '.' && c != '/' }

  /**
   * `GetFileExtensionFromFilename`, which is Go's `filepath.Ext`: scan back
   * from the end of the name, stopping at the first '/'; the suffix from the
   * first '.' met is the extension, and there is none if no '.' is met.
   */
  method GetFileExtensionFromFilename(filename: string) returns (ext: string)
    ensures |ext| <= |filename| && ext == filename[|filename| - |ext|..]
    ensures ext != "" ==> ext[0] == '.' && forall j :: 1 <= j < |ext| ==> PlainChar(ext[j])
    ensures ext == "" ==> forall j :: 0 <= j < |filename| && filename[j] == '.' ==>
      exists k :: j < k < |filename| && filename[k] == '/'
  {
    var i := |filename|;
    while i > 0 && filename[i - 1] != '/'
      invariant 0 <= i <= |filename|
      invariant forall j :: i <= j < |filename| ==> PlainChar(filename[j])
    {
      if filename[i - 1] == '.' {
        return filename[i - 1..];
      }
      i := i - 1;
    }
    ext := "";
    forall j | 0 <= j < |filename| && filename[j] == '.'
      ensures exists k :: j < k < |filename| && filename[k] == '/'
    {
      assert j < i - 1 && filename[i - 1] == '/';
    }
  }
}
