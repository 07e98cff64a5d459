/** The upload and query endpoints of the FastAPI service: `/upload/` stores
    one image under `username/filename` in the upload bucket, `/user/`
    returns a user's stored event list. */
module Api {
  import opened Wrappers
  import opened Records
  import opened Aws
  import opened Ingest

  /** The multipart file part of an upload request. `contentType` is `None`
      when the request carries no content type for the part. */
  datatype UploadedFile = UploadedFile(filename: string, contentType: Option<string>, content: Bytes)

  /** An exception raised inside an endpoint's `try` block. */
  datatype Raised =
    | HttpException(status: int, detail: string)
    | AttributeError   // `None.startswith(...)` when the part has no content type
    | ValidationError  // DynamoDB refuses the empty username as a key

  /** What an endpoint answers. Every exception raised inside the `try` block
      is caught by `except Exception` and re-raised as a 500 that carries it. */
  datatype Response<T> =
    | Ok(message: string, data: T)
    | HttpError(status: int, cause: Raised)

  /** The storage key of an upload, as the Lambda later receives it. */
  function S3Key(username: string, filename: string): (key: string)
    ensures |key| == |username| + 1 + |filename|
    ensures key[..|username|] == username && key[|username|] == '/' && key[|username| + 1..] == filename
  {
    username + "/" + filename
  }

  /** The first validation that an upload fails, if any. The filename check
      comes before the content-type check. */
  function UploadCheck(file: Option<UploadedFile>): (failure: Option<Raised>)
    ensures failure.None? <==>
              file.Some? && file.value.filename != "" &&
              file.value.contentType.Some? && "image/" <= file.value.contentType.value
    ensures file.None? || file.value.filename == "" ==>
              failure == Some(HttpException(400, "No image file provided"))
    ensures file.Some? && file.value.filename != "" && file.value.contentType.None? ==>
              failure == Some(AttributeError)
    ensures file.Some? && file.value.filename != "" && file.value.contentType.Some? &&
            !("image/" <= file.value.contentType.value) ==>
              failure == Some(HttpException(400, "File provided is not an image"))
  {
    if file.None? || file.value.filename == "" then
      Some(HttpException(400, "No image file provided"))
    else if file.value.contentType.None? then
      Some(AttributeError)
    else if !("image/" <= file.value.contentType.value) then
      Some(HttpException(400, "File provided is not an image"))
    else
      None
  }

  /** `upload_file`: a rejected upload writes nothing and answers 500; an
      accepted one writes exactly its bytes under `username/filename` in
      the upload bucket. The table is never touched. */
  method UploadFile(cloud: Cloud, file: Option<UploadedFile>, username: string)
    returns (response: Response<()>)
    modifies cloud
    ensures cloud.items == old(cloud.items)
    ensures UploadCheck(file).Some? ==>
              response == HttpError(500, UploadCheck(file).value) && cloud.objects == old(cloud.objects)
    ensures UploadCheck(file).None? ==>
              response == Ok("File uploaded successfully", ()) &&
              cloud.objects == old(cloud.objects)[Location(UploadBucket, S3Key(username, file.value.filename)) := file.value.content]
  {
    var failure := UploadCheck(file);
    if failure.Some? {
      return HttpError(500, failure.value);
    }
    var s3Key := S3Key(username, file.value.filename);
    cloud.PutObject(UploadBucket, s3Key, file.value.content);
    return Ok("File uploaded successfully", ());
  }

  /** What `get_user_data` answers for a table state. */
  function UserData(items: map<string, Item>, username: string): (response: Response<seq<Event>>)
    ensures response.HttpError? <==> username == "" || username !in items
    ensures username == "" ==> response == HttpError(500, ValidationError)
    ensures username != "" && username !in items ==>
              response == HttpError(500, HttpException(404, "User data not found"))
    ensures response.Ok? ==> response.message == "User data found" && response.data == StoredEvents(items, username)
  {
    if username == "" then HttpError(500, ValidationError)
    else if username !in items then HttpError(500, HttpException(404, "User data not found"))
    else Ok("User data found", items[username].data.GetOr([]))
  }

  /** `get_user_data`: a read-only lookup. A missing user is a 404 resurfaced
      as 500, and so is the table's refusal of an empty username; an existing
      user gets the stored list exactly, or `[]` when the item has no `Data`
      attribute. */
  method GetUserData(cloud: Cloud, username: string) returns (response: Response<seq<Event>>)
    ensures username == "" ==> response == HttpError(500, ValidationError)
    ensures username != "" && username !in cloud.items ==>
              response == HttpError(500, HttpException(404, "User data not found"))
    ensures username != "" && username in cloud.items && cloud.items[username].data.Some? ==>
              response == Ok("User data found", cloud.items[username].data.value)
    ensures username != "" && username in cloud.items && cloud.items[username].data.None? ==>
              response == Ok("User data found", [])
    ensures response == UserData(cloud.items, username)
  {
    var item := cloud.GetItem(username);
    if item.ValidationException? {
      return HttpError(500, ValidationError);
    }
    if item.NoItem? {
      return HttpError(500, HttpException(404, "User data not found"));
    }
    var userdata := item.item.data.GetOr([]);
    return Ok("User data found", userdata);
  }
}
