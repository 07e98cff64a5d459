# Image label history: ingestion Lambda and upload/query API

This project models the per-user label-history bookkeeping of an image
analysis backend. Users upload an image through a FastAPI endpoint
(`/upload/`), which stores it under `username/filename` in the S3 bucket
`aiathelp`. The upload triggers a Lambda. The Lambda takes the username from
the key, classifies the image, copies its bytes to `aiathelpfetch` under
`username/<uuid>.jpg` and appends a classification event to the user's item
in the DynamoDB table `aiathelp`. The item is created with a one-event list
if the user has none. A second endpoint (`/user/`) returns the stored list.

Files:

- `wrappers.dfy`: `Option`.
- `records.dfy`: the values involved. These are classifier labels, label
  entries, events, the DynamoDB item, S3 locations, the trigger notification
  and the bucket names.
- `aws.dfy`: class `Cloud`. It holds the S3 objects as
  `map<Location, Bytes>` and the table as `map<string, Item>`. Its methods
  are the boto3 calls the core makes.
- `ingest.dfy`: `lambda_function/index.py`. It has `str.split`, the
  username extraction, the label mapping, the create-or-append
  specification `AppendEvent` and the `Handler` method proved against it.
- `api.dfy`: `deploy/main.py`. It has upload validation, key construction,
  `UploadFile`, and `GetUserData` proved against `UserData`.
- `history.dfy`: lemmas that connect the two programs. They cover the key
  round trip and the shape of a history after many ingestions.

Modelling choices:

- JSON encoding is treated as an exact round trip. An item's `Data` is
  held as the decoded `seq<Event>`. `None` means the item has no `Data`
  attribute.
- `uuid4()` and `datetime.now()` are parameters of `Handler`. `uuid4()` is
  called twice, once for the copy's key and once for the event's `UUID`, so
  the handler takes two ids. The Rekognition call is a parameter
  `detectLabels: Bytes -> Option<seq<DetectedLabel>>`, where `None` means the
  call raised.
- The image is not resized. The comment at `lambda_function/index.py:39`
  speaks of a resized image, but line 29 passes the fetched bytes on
  unchanged, so the bytes copied to `aiathelpfetch` and given to the
  classifier are exactly the fetched bytes. No label is filtered by
  confidence on write (`lambda_function/index.py:33-36`) or on read
  (`deploy/main.py:88-89`).
- DynamoDB refuses an empty string as a key attribute value. A trigger key
  that starts with `/` gives the username `""`: the copy is written to
  `aiathelpfetch` and then `get_item` fails, leaving the table as it was
  (`Fault.EmptyUsername`). `Api.UserData` and `Api.GetUserData` model the
  body of the `/user/` endpoint function; given an empty username, that body
  answers 500 carrying the validation error.
- `Ingest.StoredEvents` (a user's `Data` list, `[]` when the attribute or the
  item is missing) is the vocabulary shared by the write path, the read path
  and the history lemmas.
- FastAPI's `HTTPException` is an `Exception`. So the 400s for a missing
  file or a non-image, and the 404 for an unknown user, are caught by the
  endpoints' own `except Exception` clauses and answered as status 500
  carrying the original exception (`Response.HttpError(500, cause)`). A file
  part with no content type raises `AttributeError` at `startswith`, which
  is also answered as 500.
- The upload endpoint does not reject a username that contains `/`. The
  Lambda then records that user's images under the part before the first
  `/` (`History.SlashedUsernameKey`).
- The Lambda reads the triggering object from `aiathelp` whatever bucket
  the notification names, and handles only the first record.

## Model

| member | source | states |
|---|---|---|
| Aws.Cloud.GetObject | lambda_function/index.py:27-28 | the body is returned exactly when the location exists, and it is the stored bytes |
| Aws.Cloud.PutObject | lambda_function/index.py:41 | exactly one object is created or overwritten; the table is unchanged |
| Aws.Cloud.GetItem | lambda_function/index.py:54 | a validation error exactly for the empty username; otherwise the item is returned exactly when the username has one |
| Aws.Cloud.PutItem | lambda_function/index.py:76-79 | the whole item for the username is replaced; S3 is unchanged |
| Aws.Cloud.UpdateData | lambda_function/index.py:64-70 | only the `Data` of the username's item is set; S3 is unchanged |
| Ingest.Split | lambda_function/index.py:83 | at least one piece; no piece contains the separator; two or more pieces iff the separator occurs; the first piece followed by the separator is a prefix |
| Ingest.JoinSplit | lambda_function/index.py:83 | joining the pieces with the separator gives the string back |
| Ingest.ExtractUsername | lambda_function/index.py:82-87 | `Some` iff the key contains `/`; then the value has no `/` and is followed by `/` in the key, so it is the text before the first `/` (possibly empty) |
| Ingest.SplitHeadBeforeSep | lambda_function/index.py:83-85 | a slash-free text followed by `/` is the first piece whatever follows |
| Ingest.SplitHeadAppend | lambda_function/index.py:83-85 | text appended after the first `/` does not change the first piece |
| Ingest.MapLabels | lambda_function/index.py:33-36 | same length as the classifier's labels; entry i copies name and confidence of label i; nothing filtered or reordered |
| Ingest.AppendEvent | lambda_function/index.py:54-79 | a missing user gets `[event]`; an existing user's list (its `StoredEvents`) grows by one, with old entries unchanged and in order and the event last; a missing `Data` counts as `[]`; no other user's item changes |
| Ingest.Handler | lambda_function/index.py:19-80 | no records, a missing source object or a failed classification changes nothing; otherwise the fetched bytes are put unchanged at `aiathelpfetch/username/id.jpg`; then an empty username fails with the table unchanged, and any other username makes the table `AppendEvent` of the event with the extracted username, that link, the mapped labels, the event id and the time |
| Api.S3Key | deploy/main.py:61 | the key is the username, one `/`, then the filename |
| Api.UploadCheck | deploy/main.py:56-60 | accepted iff a file with a non-empty filename and an `image/` content type is given; a missing file or empty filename is reported as "No image file provided" before any content-type check |
| Api.UploadFile | deploy/main.py:53-74 | a rejected upload writes nothing and answers 500 carrying the inner exception; an accepted one writes exactly one object, the file's bytes at `aiathelp/username/filename`; the table is never changed |
| Api.UserData | deploy/main.py:82-92 | an error iff the username is empty (500 carrying the validation error) or has no item (500 carrying the 404); otherwise the user's `StoredEvents` |
| Api.GetUserData | deploy/main.py:78-92 | a read-only lookup: an empty username gets 500 carrying the validation error, an unknown user 500 carrying the 404; an existing user gets the stored list exactly, or `[]` without `Data` |
| History.KeyRoundTrip | deploy/main.py:61 | for a username without `/`, extracting the username from the upload key gives it back |
| History.SlashedUsernameKey | lambda_function/index.py:82-85 | a username containing `/` is extracted as its first segment, which differs from it |
| History.HistoryInOrder | lambda_function/index.py:54-79 | after sequential ingestions (repeated `AppendEvent`) the user's `StoredEvents` are the earlier list followed by the new events in order, and the query for a non-empty username returns it |
| History.FirstIngestion | deploy/main.py:86-89 | a non-empty user with no item who has one image ingested is answered with exactly that event |
| History.OtherUsersUnchanged | lambda_function/index.py:54-79 | ingestions for one user leave every other user's item, and its presence, unchanged |

## Left out

- Ingest.Handler: requires that the first record's key contains `/`. With no `/` the username is `None`; the source object would still be fetched and classified, and `put_object` (`lambda_function/index.py:41`) would write the copy under `None/<uuid>.jpg`, since the f-string renders `None` as `"None"`. Only `get_item` (`lambda_function/index.py:54`) receives `None` itself, and what it does with it cannot be determined from this code.
- Ingest.Handler: the read of the item and the write back are two separate steps, so they are not atomic. Concurrent invocations for the same user can lose an update; the model is sequential.
- S3 and DynamoDB transport errors, credential errors (`NoCredentialsError`) and boto3 client setup are left out: they are external services.
- JSON encoding and decoding are taken as an exact round trip. A `Data` attribute that is not valid JSON, which would make `json.loads` raise, is not modelled.
- The Rekognition call itself is left out: it is a foreign service, modelled only as a parameter.
- Confidence values are floats in the code; here they are plain reals that nothing computes with.
- URL-encoding of keys in S3 notifications is not modelled; the key is taken as delivered.
- Aws.Cloud.GetItem: always returns the latest write. The `get_item` calls (`lambda_function/index.py:54`, `deploy/main.py:82`) pass no `ConsistentRead`, so DynamoDB may return an older copy of the item; two ingestions for one user that do not overlap in time can then still lose the first event.
- Aws.Cloud.GetItem: raises the validation error only for the empty username. DynamoDB also refuses a partition key over 2048 bytes, and S3 refuses object keys over 1024 bytes (`lambda_function/index.py:41`, `deploy/main.py:64`); these length limits are not modelled.
- Aws.Cloud.UpdateData: always succeeds. DynamoDB caps an item at 400 KB, and `Data` is one JSON string rewritten in full on every append (`lambda_function/index.py:62-70`); once an append would exceed the cap, `update_item` raises and the event is lost with the table unchanged. The model appends without bound.
- Ingest.Handler: inherits the three idealisations above. Its `cloud.items == AppendEvent(...)` clause, and the sequential reading of `History.HistoryInOrder`, hold only for reads that see the latest write, items under the size cap and keys under the length limits. A crash of `update_item` (after the copy was written) is not modelled as a fault.
- Api.UserData: models the endpoint function's body only. FastAPI answers a request whose required form field (`username` at `deploy/main.py:79`) is missing or empty with 422 before the body runs; that is not modelled.
- Api.UploadFile: likewise models the body only; FastAPI's 422 for a missing file part or an empty required `username` (`deploy/main.py:54`) is not modelled.
- The `print` logging, the FastAPI app/CORS setup, and the `/` and `/list/` endpoints are left out: they are scaffolding.
- `main.py` (a Flask test app with a fixed object key) is not part of this model.
- The exact text of the 500 responses' `detail` (`str(e)`) is left out: it depends on the web framework's exception formatting. The model keeps the inner exception instead.
