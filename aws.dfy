/** The AWS state both programs share: the S3 buckets as one map from
    location to bytes and the `aiathelp` DynamoDB table as a map from
    username to item. The methods are the boto3 calls the core makes. */
module Aws {
  import opened Wrappers
  import opened Records

  /** The outcome of `dynamodb.get_item`. DynamoDB refuses an empty string as
      a key attribute value, so an empty username is a validation error. */
  datatype ItemReply = Found(item: Item) | NoItem | ValidationException

  class Cloud {
    var objects: map<Location, Bytes>
    var items: map<string, Item>

    /** `s3.get_object(...)['Body'].read()`; `None` stands for the missing-key error. */
    method GetObject(bucket: string, key: string) returns (body: Option<Bytes>)
      ensures body.Some? <==> Location(bucket, key) in objects
      ensures body.Some? ==> body.value == objects[Location(bucket, key)]
    {
      var loc := Location(bucket, key);
      if loc in objects {
        body := Some(objects[loc]);
      } else {
        body := None;
      }
    }

    /** `s3.put_object` / `s3.upload_fileobj`: creates or overwrites one object. */
    method PutObject(bucket: string, key: string, body: Bytes)
      modifies this
      ensures objects == old(objects)[Location(bucket, key) := body]
      ensures items == old(items)
    {
      objects := objects[Location(bucket, key) := body];
    }

    /** `dynamodb.get_item` on the username key: the item, `NoItem` when the
        reply has no `Item`, or the error raised for an empty username. */
    method GetItem(username: string) returns (reply: ItemReply)
      ensures reply.ValidationException? <==> username == ""
      ensures reply.Found? <==> username != "" && username in items
      ensures reply.Found? ==> reply.item == items[username]
    {
      if username == "" {
        reply := ValidationException;
      } else if username in items {
        reply := Found(items[username]);
      } else {
        reply := NoItem;
      }
    }

    /** `dynamodb.put_item`: replaces the whole item. */
    method PutItem(username: string, item: Item)
      modifies this
      ensures items == old(items)[username := item]
      ensures objects == old(objects)
    {
      items := items[username := item];
    }

    /** `dynamodb.update_item` with `SET #Data = :data`: sets the `Data`
        attribute, creating the item if it does not exist. */
    method UpdateData(username: string, data: seq<Event>)
      modifies this
      ensures items == old(items)[username := Item(Some(data))]
      ensures objects == old(objects)
    {
      items := items[username := Item(Some(data))];
    }
  }
}
