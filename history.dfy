/** Properties that connect the upload API, the ingestion Lambda and the query
    endpoint: the storage key round trip and the shape of a user's history
    after a series of ingestions. */
module History {
  import opened Wrappers
  import opened Records
  import opened Ingest
  import opened Api

  /** For a key delivered as uploaded, a username without `/` is what the
      Lambda extracts from it. */
  lemma KeyRoundTrip(username: string, filename: string)
    requires '/' !in username
    ensures ExtractUsername(S3Key(username, filename)) == Some(username)
  {
    SplitHeadBeforeSep(username, '/', filename);
  }

  /** A username that contains `/` is not rejected at upload; its images are
      recorded under the part before its first `/`, a different user. */
  lemma SlashedUsernameKey(username: string, filename: string)
    requires '/' in username
    ensures ExtractUsername(S3Key(username, filename)) == ExtractUsername(username)
    ensures ExtractUsername(username).value != username
  {
    assert S3Key(username, filename) == username + ("/" + filename);
    SplitHeadAppend(username, '/', "/" + filename);
  }

  /** The table after the handler has recorded `events` for `username`, one
      invocation at a time. */
  function AppendEvents(items: map<string, Item>, username: string, events: seq<Event>): map<string, Item>
    decreases |events|
  {
    if events == [] then items
    else AppendEvents(AppendEvent(items, username, events[0]), username, events[1..])
  }

  /** Sequential ingestions keep the user's history append-only and in order:
      the query returns the earlier list followed by the new events. */
  lemma {:induction false} HistoryInOrder(items: map<string, Item>, username: string, events: seq<Event>)
    ensures StoredEvents(AppendEvents(items, username, events), username) == StoredEvents(items, username) + events
    ensures username != "" && (username in items || events != []) ==>
              UserData(AppendEvents(items, username, events), username) ==
              Ok("User data found", StoredEvents(items, username) + events)
    decreases |events|
  {
    if events != [] {
      var next := AppendEvent(items, username, events[0]);
      assert StoredEvents(next, username) == StoredEvents(items, username) + [events[0]];
      HistoryInOrder(next, username, events[1..]);
      assert events == [events[0]] + events[1..];
    }
  }

  /** A user whose first image is ingested afterwards has exactly that one event. */
  lemma FirstIngestion(items: map<string, Item>, username: string, event: Event)
    requires username != "" && username !in items
    ensures UserData(AppendEvent(items, username, event), username) == Ok("User data found", [event])
  {
  }

  /** Ingestions for one user leave every other user's item as it was. */
  lemma {:induction false} OtherUsersUnchanged(items: map<string, Item>, username: string, events: seq<Event>, other: string)
    requires other != username
    ensures other in AppendEvents(items, username, events) <==> other in items
    ensures other in items ==> AppendEvents(items, username, events)[other] == items[other]
    decreases |events|
  {
    if events != [] {
      OtherUsersUnchanged(AppendEvent(items, username, events[0]), username, events[1..], other);
    }
  }
}
