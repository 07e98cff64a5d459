/** The ingestion Lambda: derive the username from the uploaded object's key,
    classify the image, copy it to the fetch bucket and append one
    classification event to the user's history in DynamoDB. */
module Ingest {
  import opened Wrappers
  import opened Records
  import opened Aws

  /** Python's `s.split(sep)`: the pieces between separators, always at least one. */
  function Split(s: string, sep: char): (parts: seq<string>)
    ensures |parts| >= 1
    ensures forall i :: 0 <= i < |parts| ==> sep !in parts[i]
    ensures |parts| >= 2 <==> sep in s
    ensures sep !in s ==> parts == [s]
    ensures sep in s ==> parts[0] + [sep] <= s
    decreases |s|
  {
    if s == [] then [[]]
    else
      var rest := Split(s[1..], sep);
      if s[0] == sep then [[]] + rest
      else
        assert s == [s[0]] + s[1..];
        [[s[0]] + rest[0]] + rest[1..]
  }

  /** Python's `sep.join(parts)`. */
  function Join(parts: seq<string>, sep: char): string
    requires |parts| >= 1
  {
    if |parts| == 1 then parts[0] else parts[0] + [sep] + Join(parts[1..], sep)
  }

  /** Joining the pieces of a split gives the original string back. */
  lemma {:induction false} JoinSplit(s: string, sep: char)
    ensures Join(Split(s, sep), sep) == s
    decreases |s|
  {
    if s != [] {
      var rest := Split(s[1..], sep);
      JoinSplit(s[1..], sep);
      if s[0] == sep {
        assert Split(s, sep)[1..] == rest;
      } else {
        var parts := Split(s, sep);
        if |rest| == 1 {
          assert parts == [[s[0]] + rest[0]];
        } else {
          assert parts[1..] == rest[1..];
          assert Join(rest, sep) == rest[0] + [sep] + Join(rest[1..], sep);
        }
      }
    }
  }

  /** `extract_username_from_key`: the text before the first `/`, or `None`
      when the key has no `/`. */
  function ExtractUsername(key: string): (username: Option<string>)
    ensures username.Some? <==> '/' in key
    ensures username.Some? ==> '/' !in username.value && username.value + "/" <= key
  {
    var parts := Split(key, '/');
    if |parts| >= 2 then Some(parts[0]) else None
  }

  /** When the text before a separator has none itself, it is the first piece. */
  lemma {:induction false} SplitHeadBeforeSep(head: string, sep: char, tail: string)
    requires sep !in head
    ensures Split(head + [sep] + tail, sep)[0] == head
  {
    var s := head + [sep] + tail;
    if head != [] {
      assert s[1..] == head[1..] + [sep] + tail;
      SplitHeadBeforeSep(head[1..], sep, tail);
    }
  }

  /** Text appended after the first separator does not change the first piece. */
  lemma {:induction false} SplitHeadAppend(s: string, sep: char, tail: string)
    requires sep in s
    ensures Split(s + tail, sep)[0] == Split(s, sep)[0]
  {
    if s[0] != sep {
      assert (s + tail)[1..] == s[1..] + tail;
      SplitHeadAppend(s[1..], sep, tail);
    }
  }

  /** The comprehension that turns the classifier's labels into stored entries:
      same length and order, names and confidences copied, nothing filtered. */
  function MapLabels(detected: seq<DetectedLabel>): (labels: seq<LabelEntry>)
    ensures |labels| == |detected|
    ensures forall i :: 0 <= i < |detected| ==>
              labels[i].labelName == detected[i].name && labels[i].confidence == detected[i].confidence
  {
    if detected == [] then []
    else [LabelEntry(detected[0].name, detected[0].confidence)] + MapLabels(detected[1..])
  }

  /** The events a user's item holds: its `Data` list, `[]` when the item has
      no `Data` attribute, and `[]` when there is no item at all. */
  function StoredEvents(items: map<string, Item>, username: string): seq<Event>
  {
    if username in items then items[username].data.GetOr([]) else []
  }

  /** The table after the handler's read-modify-write for `username`: a new
      item holding `[event]` when there was none, otherwise the old list with
      `event` at the end. No other user's item changes. */
  function AppendEvent(items: map<string, Item>, username: string, event: Event): (after: map<string, Item>)
    ensures after.Keys == items.Keys + {username}
    ensures username !in items ==> after[username] == Item(Some([event]))
    ensures username in items ==>
              after[username].data.Some? &&
              var data := after[username].data.value;
              |data| == |StoredEvents(items, username)| + 1 &&
              data[..|data| - 1] == StoredEvents(items, username) &&
              data[|data| - 1] == event
    ensures forall other :: other in items && other != username ==> after[other] == items[other]
  {
    if username in items then
      var existing := items[username].data.GetOr([]);
      items[username := Item(Some(existing + [event]))]
    else
      items[username := Item(Some([event]))]
  }

  /** Why an invocation stopped before updating the table. */
  datatype Fault =
    | NoRecords            // `event['Records'][0]` on an empty list
    | NoSuchKey            // the triggering object is not in the upload bucket
    | DetectLabelsFailed   // the classifier call raised
    | EmptyUsername        // `get_item` rejects the empty key of a key starting with `/`

  datatype Outcome = Completed | Crashed(fault: Fault)

  /** `handler`. The freshly generated ids (`uuid4()` is called twice: once
      for the copy's key, once for the event), the current time and the
      classifier are parameters; `detectLabels` returns `None` when the call
      fails. */
  method Handler(cloud: Cloud, trigger: S3Event, imageId: string, eventId: string, now: string,
                 detectLabels: Bytes -> Option<seq<DetectedLabel>>)
    returns (outcome: Outcome)
    requires trigger.records != [] ==> '/' in trigger.records[0].key
    modifies cloud
    ensures trigger.records == [] ==>
              outcome == Crashed(NoRecords) && unchanged(cloud)
    ensures trigger.records != [] && Location(UploadBucket, trigger.records[0].key) !in old(cloud.objects) ==>
              outcome == Crashed(NoSuchKey) && unchanged(cloud)
    ensures trigger.records != [] && Location(UploadBucket, trigger.records[0].key) in old(cloud.objects) ==>
              var source := old(cloud.objects)[Location(UploadBucket, trigger.records[0].key)];
              var username := ExtractUsername(trigger.records[0].key).value;
              var copyKey := username + "/" + imageId + ".jpg";
              if detectLabels(source).None? then
                outcome == Crashed(DetectLabelsFailed) && unchanged(cloud)
              else
                var event := Event(eventId, username, "s3://aiathelpfetch/" + copyKey,
                                   Results(MapLabels(detectLabels(source).value)), now);
                && cloud.objects == old(cloud.objects)[Location(FetchBucket, copyKey) := source]
                && (username == "" ==>
                      outcome == Crashed(EmptyUsername) && cloud.items == old(cloud.items))
                && (username != "" ==>
                      outcome == Completed && cloud.items == AppendEvent(old(cloud.items), username, event))
  {
    if trigger.records == [] {
      return Crashed(NoRecords);
    }
    var imageKey := trigger.records[0].key;
    var username := ExtractUsername(imageKey).value;

    var image := cloud.GetObject(UploadBucket, imageKey);
    if image.None? {
      return Crashed(NoSuchKey);
    }
    var imageData := image.value;
    var resizedImageData := imageData;

    var response := detectLabels(resizedImageData);
    if response.None? {
      return Crashed(DetectLabelsFailed);
    }
    var labelsAndConfidence := MapLabels(response.value);

    var newImageKey := username + "/" + imageId + ".jpg";
    cloud.PutObject(FetchBucket, newImageKey, resizedImageData);

    var link := "s3://" + FetchBucket + "/" + newImageKey;
    assert link == "s3://aiathelpfetch/" + newImageKey;
    var dynamoData := Event(eventId, username, link, Results(labelsAndConfidence), now);

    var existingItem := cloud.GetItem(username);
    if existingItem.ValidationException? {
      return Crashed(EmptyUsername);
    }
    if existingItem.Found? {
      var existingData := existingItem.item.data.GetOr([]);
      existingData := existingData + [dynamoData];
      cloud.UpdateData(username, existingData);
    } else {
      cloud.PutItem(username, Item(Some([dynamoData])));
    }
    outcome := Completed;
  }
}
