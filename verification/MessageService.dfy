/** The message service: each method performs its statements in order, and is proved to
    do what its request does in the machine when nothing interrupts it. */
module MessageService {
  import opened Common
  import opened Metadata
  import opened MessageTable
  import opened Paging
  import opened Text
  import opened Chat
  import opened ChatCalls
  import opened ChatOutcomes
  import opened Stores

  const DEFAULT_LIMIT := 50
  const MAX_LIMIT := 100

  function ClampLimit(limit: int): (n: nat)
    ensures 1 <= n <= MAX_LIMIT
    ensures 1 <= limit <= MAX_LIMIT ==> n == limit
    ensures limit > MAX_LIMIT ==> n == MAX_LIMIT
    ensures limit <= 0 ==> n == DEFAULT_LIMIT
  {
    if limit <= 0 then DEFAULT_LIMIT else if limit > MAX_LIMIT then MAX_LIMIT else limit
  }

  datatype ListResponse = ListResponse(data: seq<Response>, nextCursor: Option<MessageId>, hasMore: bool)

  predicate Shows(messages: seq<Message>, rows: Rows, ids: seq<MessageId>) {
    && |messages| == |ids|
    && forall i :: 0 <= i < |ids| ==> ids[i] in rows && messages[i] == Message(ids[i], rows[ids[i]])
  }

  /** Each entry shows the row of its id. */
  ghost predicate Renders(data: seq<Response>, rows: Rows, ids: seq<MessageId>) {
    && |data| == |ids|
    && forall i :: 0 <= i < |ids| ==> ids[i] in rows && Shown(data[i], ids[i], rows[ids[i]])
  }

  /** Cutting what was fetched beyond the limit leaves the rows of the page. */
  lemma TrimmedIsPage(rows: Rows, conversation: ConversationId, cursor: Option<MessageId>, n: nat,
                      messages: seq<Message>)
    requires n > 0
    requires Shows(messages, rows, Query(Descending, IdsOf(rows, conversation), cursor, n + 1))
    ensures var page := PageOf(Descending, IdsOf(rows, conversation), cursor, n);
            var kept := if |messages| > n then messages[..n] else messages;
            && Shows(kept, rows, page.ids)
            && page.next == (if |messages| > n then Some(kept[n - 1].id) else None)
  {
  }

  class MessageService {
    const repository: MessageRepository
    const conversations: ConversationRepository
    const uploads: UploadStore
    const objects: ObjectStore
    const publisher: Publisher

    constructor (repository: MessageRepository, conversations: ConversationRepository,
                 uploads: UploadStore, objects: ObjectStore, publisher: Publisher)
      ensures this.repository == repository && this.conversations == conversations
      ensures this.uploads == uploads && this.objects == objects && this.publisher == publisher
    {
      this.repository := repository;
      this.conversations := conversations;
      this.uploads := uploads;
      this.objects := objects;
      this.publisher := publisher;
    }

    /** The stores a request can change. */
    ghost function View(): Db
      reads repository, uploads, objects, publisher
    {
      Db(repository.rows, uploads.records, objects.objects, objects.removals, publisher.fanouts)
    }

    method GetOtherParticipant(env: Env, user: UserId, conversation: ConversationId) returns (r: Result<UserId>)
      requires env.conversations == conversations.rows
      ensures r == OtherParticipant(env, user, conversation)
    {
      var pair := conversations.GetParticipants(conversation);
      if pair.Err? {
        return Err(pair.error);
      }
      if user != pair.value.low && user != pair.value.high {
        return Err(NotFound);
      }
      if user == pair.value.low {
        return Ok(pair.value.high);
      }
      r := Ok(pair.value.low);
    }

    method FetchMessageInConversation(message: MessageId, conversation: ConversationId) returns (r: Result<Row>)
      ensures r == if message in repository.rows && repository.rows[message].conversation == conversation
                   then Ok(repository.rows[message]) else Err(NotFound)
    {
      var row := repository.GetByID(message);
      if row.Err? {
        return Err(row.error);
      }
      if row.value.conversation != conversation {
        return Err(NotFound);
      }
      r := row;
    }

    /** One page, newest first. */
    method ListMessages(env: Env, user: UserId, conversation: ConversationId, cursor: Option<MessageId>, limit: int)
      returns (r: Result<ListResponse>)
      requires env.conversations == conversations.rows
      ensures r.Err? <==> OtherParticipant(env, user, conversation).Err?
      ensures r.Err? ==> r.error == NotFound
      ensures r.Ok? ==>
                var page := PageOf(Descending, IdsOf(repository.rows, conversation), cursor, ClampLimit(limit));
                && NewestFirst(page, IdsOf(repository.rows, conversation), cursor, ClampLimit(limit))
                && r.value.nextCursor == page.next && r.value.hasMore == page.next.Some?
                && Renders(r.value.data, repository.rows, page.ids)
    {
      var pair := conversations.GetParticipants(conversation);
      if pair.Err? || (user != pair.value.low && user != pair.value.high) {
        return Err(NotFound);
      }
      var n := ClampLimit(limit);
      DescendingIsNewest(IdsOf(repository.rows, conversation), cursor, n);
      var messages, nextCursor := FetchPage(conversation, cursor, n);
      var data := Render(messages);
      r := Ok(ListResponse(data, nextCursor, nextCursor.Some?));
    }

    /** Fetches one row more than the page holds, to know whether there are more. */
    method FetchPage(conversation: ConversationId, cursor: Option<MessageId>, n: nat)
      returns (messages: seq<Message>, nextCursor: Option<MessageId>)
      requires n > 0
      ensures var page := PageOf(Descending, IdsOf(repository.rows, conversation), cursor, n);
              Shows(messages, repository.rows, page.ids) && nextCursor == page.next
    {
      messages := repository.ListByConversation(conversation, cursor, n + 1);
      TrimmedIsPage(repository.rows, conversation, cursor, n, messages);
      nextCursor := None;
      if |messages| > n {
        messages := messages[..n];
        nextCursor := Some(messages[|messages| - 1].id);
      }
    }

    method Render(messages: seq<Message>) returns (data: seq<Response>)
      ensures |data| == |messages|
      ensures forall i :: 0 <= i < |data| ==> Shown(data[i], messages[i].id, messages[i].row)
    {
      data := [];
      for i := 0 to |messages|
        invariant |data| == i
        invariant forall k :: 0 <= k < i ==> Shown(data[k], messages[k].id, messages[k].row)
      {
        data := data + [ToResponse(messages[i].id, messages[i].row)];
      }
    }

    method SendMessage(env: Env, call: SendCall, i: Input) returns (r: Result<Response>)
      requires env.conversations == conversations.rows
      modifies repository, uploads, publisher
      ensures Config(View(), Finished(Send(call), r)) == SendWhole(env, old(View()), call, i)
      ensures r.Ok? <==> MaySend(env, old(View()), call, i.id)
      ensures r.Ok? ==>
                var other := Opposite(env.conversations[call.conversation], call.user);
                Sent(env, old(View()), View(), call, other, i, r.value)
      ensures r.Err? ==> repository.rows == old(repository.rows) && r.error == SendError(env, old(View()), call)
    {
      SendOutcome(env, View(), call, i);
      var other := GetOtherParticipant(env, call.user, call.conversation);
      if other.Err? {
        return Err(other.error);
      }
      if BlockedEitherWay(env.blocks, call.user, other.value) {
        return Err(NotFound);
      }
      if Blank(call.content) && call.attachment.None? {
        return Err(BadRequest);
      }
      if call.replyTo.Some? {
        var reply := repository.GetByID(call.replyTo.value);
        if reply.Err? {
          return Err(reply.error);
        }
        if reply.value.conversation != call.conversation {
          return Err(Forbidden);
        }
        if reply.value.deletedAt.Some? {
          return Err(NotFound);
        }
      }
      r := Deliver(env, call, other.value, i);
    }

    /** The second half of sending: the attachment, the row, the event. */
    method Deliver(env: Env, call: SendCall, other: UserId, i: Input) returns (r: Result<Response>)
      modifies repository, uploads, publisher
      ensures Config(View(), Finished(Send(call), r)) == ConsumeAndInsert(env, old(View()), call, other, i)
    {
      var metadata := None;
      if call.attachment.Some? {
        var record := uploads.PopUploadRecord(call.attachment.value, env.now);
        if record.Err? {
          return Err(record.error);
        }
        if record.value.uploader != call.user {
          return Err(Forbidden);
        }
        metadata := Some(Describe(call.attachment.value, record.value));
      }
      var row := Draft(call, metadata, i.created);
      var created := repository.Create(i.id, row);
      if created.Err? {
        return Err(created.error);
      }
      var response := ToResponse(i.id, row);
      publisher.FanOutToConversation(call.user, other, MessageNew, response, env.blocks);
      r := Ok(response);
    }

    method EditMessage(env: Env, t: Target, text: string, i: Input) returns (r: Result<Response>)
      requires env.conversations == conversations.rows
      modifies repository, publisher
      ensures Config(View(), Finished(Act(t, Edit(text)), r)) == ActWhole(env, old(View()), t, Edit(text), i)
      ensures r.Ok? <==> Permitted(env, old(View()), t, Edit(text), i.checked)
      ensures r.Ok? ==>
                var other := Opposite(env.conversations[t.conversation], t.user);
                Effect(env, old(View()), View(), t, Edit(text), other, i, r.value)
      ensures r.Err? ==> View() == old(View()) && r.error == ActError(env, View(), t, Edit(text))
    {
      ActOutcome(env, View(), t, Edit(text), i);
      if Blank(text) {
        return Err(BadRequest);
      }
      var other := GetOtherParticipant(env, t.user, t.conversation);
      if other.Err? {
        return Err(other.error);
      }
      var row := FetchMessageInConversation(t.message, t.conversation);
      if row.Err? {
        return Err(row.error);
      }
      if row.value.sender != t.user {
        return Err(Forbidden);
      }
      if row.value.deletedAt.Some? {
        return Err(Forbidden);
      }
      if i.checked - row.value.createdAt > EDIT_WINDOW {
        return Err(Forbidden);
      }
      var edited := row.value.(content := Some(text), isEdited := true, updatedAt := Some(i.stamp));
      var updated := repository.EditMessage(t.message, edited.content, edited.updatedAt);
      if updated == Err(NotFound) {
        return Err(NotFound);
      }
      var response := ToResponse(t.message, edited);
      publisher.FanOutToConversation(t.user, other.value, MessageEdited, response, env.blocks);
      r := Ok(response);
    }

    method DeleteMessage(env: Env, t: Target, i: Input) returns (r: Result<Response>)
      requires env.conversations == conversations.rows
      modifies repository, objects, publisher
      ensures Config(View(), Finished(Act(t, Delete), r)) == ActWhole(env, old(View()), t, Delete, i)
      ensures r.Ok? <==> Permitted(env, old(View()), t, Delete, i.checked)
      ensures r.Ok? ==>
                var other := Opposite(env.conversations[t.conversation], t.user);
                Effect(env, old(View()), View(), t, Delete, other, i, r.value)
      ensures r.Err? ==> View() == old(View()) && r.error == ActError(env, View(), t, Delete)
    {
      ActOutcome(env, View(), t, Delete, i);
      var other := GetOtherParticipant(env, t.user, t.conversation);
      if other.Err? {
        return Err(other.error);
      }
      var row := FetchMessageInConversation(t.message, t.conversation);
      if row.Err? {
        return Err(row.error);
      }
      if row.value.sender != t.user {
        return Err(Forbidden);
      }
      if row.value.deletedAt.Some? {
        return Err(Conflict);
      }
      r := Erase(env, t, other.value, row.value, i);
    }

    /** The second half of deleting: the row, its object, the event. */
    method Erase(env: Env, t: Target, other: UserId, row: Row, i: Input) returns (r: Result<Response>)
      modifies repository, objects, publisher
      ensures Config(View(), Finished(Act(t, Delete), r))
              == ApplyAndPublish(env, old(View()), t, Delete, other, row, i)
    {
      var deleted := row.(content := None, deletedBy := Some(t.user), deletedAt := Some(i.stamp));
      var updated := repository.Delete(t.message, deleted.deletedAt, deleted.deletedBy);
      if updated == Err(NotFound) {
        return Err(NotFound);
      }
      if deleted.metadata.Some? {
        DeleteAttachmentObject(deleted.metadata.value, i.removed);
      }
      var response := ToResponse(t.message, deleted);
      publisher.FanOutToConversation(t.user, other, MessageDeleted, response, env.blocks);
      r := Ok(response);
    }

    /** A failure to remove the object does not fail the deletion. */
    method DeleteAttachmentObject(metadata: Json, succeeds: bool)
      modifies objects
      ensures View() == CleanUp(old(View()), Some(metadata), succeeds)
    {
      var key := GetString(Decode(metadata), "object_key");
      if key != "" {
        var _ := objects.DeleteObject(key, succeeds);
      }
    }

    method MarkAsRead(env: Env, t: Target, i: Input) returns (r: Result<Response>)
      requires env.conversations == conversations.rows
      modifies repository, publisher
      ensures Config(View(), Finished(Act(t, Read), r)) == ActWhole(env, old(View()), t, Read, i)
      ensures r.Ok? <==> Permitted(env, old(View()), t, Read, i.checked)
      ensures r.Ok? && !AlreadyDone(old(View()), t, Read) ==>
                var other := Opposite(env.conversations[t.conversation], t.user);
                Effect(env, old(View()), View(), t, Read, other, i, r.value)
      ensures AlreadyDone(old(View()), t, Read) && r.Ok? ==>
                View() == old(View()) && Shown(r.value, t.message, repository.rows[t.message])
      ensures r.Err? ==> View() == old(View()) && r.error == ActError(env, View(), t, Read)
    {
      ActOutcome(env, View(), t, Read, i);
      var other := GetOtherParticipant(env, t.user, t.conversation);
      if other.Err? {
        return Err(other.error);
      }
      if BlockedEitherWay(env.blocks, t.user, other.value) {
        return Err(NotFound);
      }
      var row := FetchMessageInConversation(t.message, t.conversation);
      if row.Err? {
        return Err(row.error);
      }
      if row.value.sender == t.user {
        return Err(Forbidden);
      }
      if row.value.readAt.Some? {
        return Ok(ToResponse(t.message, row.value));
      }
      if row.value.deletedAt.Some? {
        return Err(Forbidden);
      }
      var seen := row.value.(readAt := Some(i.stamp));
      var updated := repository.MarkAsRead(t.message, seen.readAt);
      if updated == Err(NotFound) {
        return Err(NotFound);
      }
      var response := ToResponse(t.message, seen);
      publisher.FanOutToConversation(t.user, other.value, MessageRead, response, env.blocks);
      r := Ok(response);
    }
  }
}
