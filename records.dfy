/** The values that flow between the upload API, the ingestion Lambda and the
    two AWS stores: image bytes, classifier labels, classification events and
    the per-user DynamoDB item. */
module Records {
  import opened Wrappers

  type Bytes = seq<bv8>

  /** Confidence scores are floats in the source; nothing computes with them,
      so plain reals stand for them. */
  type Confidence = real

  /** One entry of the classifier's `Labels` list (only the two fields the
      ingestion reads). */
  datatype DetectedLabel = DetectedLabel(name: string, confidence: Confidence)

  /** `{'LabelName': ..., 'Confidence': ...}` as stored in an event. */
  datatype LabelEntry = LabelEntry(labelName: string, confidence: Confidence)

  /** `{'labels': [...]}`, the `Results` field of an event. */
  datatype Results = Results(labels: seq<LabelEntry>)

  /** One classification event: the dictionary the Lambda appends to a user's history. */
  datatype Event = Event(
    uuid: string,
    username: string,
    link: string,
    results: Results,
    datetime: string)

  /** A row of the `aiathelp` table, keyed by username. `data` is the decoded
      `Data` attribute (a JSON list of events), `None` when the item has no
      such attribute. */
  datatype Item = Item(data: Option<seq<Event>>)

  /** An object's address in S3. */
  datatype Location = Location(bucket: string, key: string)

  /** The part of an S3 "object created" notification the Lambda reads. */
  datatype S3Record = S3Record(bucket: string, key: string)
  datatype S3Event = S3Event(records: seq<S3Record>)

  /** Bucket that receives uploads and triggers the Lambda. */
  const UploadBucket: string := "aiathelp"
  /** Bucket that receives the Lambda's copy of each image. */
  const FetchBucket: string := "aiathelpfetch"
}
