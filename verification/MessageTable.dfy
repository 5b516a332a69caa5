/** The messages table: its rows, the statements that change it, and the repository
    object that runs them. */
module MessageTable {
  import opened Common
  import opened Metadata
  import opened Paging

  datatype Row = Row(
    conversation: ConversationId,
    sender: UserId,
    content: Option<string>,
    replyTo: Option<MessageId>,
    metadata: Option<Json>,
    isEdited: bool,
    createdAt: Time,
    updatedAt: Option<Time>,
    readAt: Option<Time>,
    deletedAt: Option<Time>,
    deletedBy: Option<UserId>)

  type Rows = map<MessageId, Row>

  datatype Message = Message(id: MessageId, row: Row)

  /** The columns an insert leaves to their defaults are NULL or false. */
  function NewRow(conversation: ConversationId, sender: UserId, content: Option<string>,
                  replyTo: Option<MessageId>, metadata: Option<Json>, createdAt: Time): Row
  {
    Row(conversation, sender, content, replyTo, metadata, false, createdAt, None, None, None, None)
  }

  predicate Carries(row: Row, attachment: string) {
    AttachmentOf(row.metadata) == Some(attachment)
  }

  /** Primary key, reply reference, and the unique index on attachment ids. */
  predicate Insertable(rows: Rows, id: MessageId, row: Row) {
    && id !in rows
    && (row.replyTo.Some? ==> row.replyTo.value in rows || row.replyTo.value == id)
    && (AttachmentOf(row.metadata).Some? ==>
          forall m :: m in rows ==> !Carries(rows[m], AttachmentOf(row.metadata).value))
  }

  /** A table after an UPDATE, and the number of rows it affected. */
  datatype Update = Update(rows: Rows, affected: nat)

  function EditStatement(rows: Rows, id: MessageId, content: Option<string>, at: Option<Time>): Update {
    if id in rows && rows[id].deletedAt.None?
    then Update(rows[id := rows[id].(content := content, isEdited := true, updatedAt := at)], 1)
    else Update(rows, 0)
  }

  function DeleteStatement(rows: Rows, id: MessageId, at: Option<Time>, actor: Option<UserId>): Update {
    if id in rows && rows[id].deletedAt.None?
    then Update(rows[id := rows[id].(content := None, deletedAt := at, deletedBy := actor)], 1)
    else Update(rows, 0)
  }

  function ReadStatement(rows: Rows, id: MessageId, at: Option<Time>): Update {
    if id in rows && rows[id].readAt.None? && rows[id].deletedAt.None?
    then Update(rows[id := rows[id].(readAt := at)], 1)
    else Update(rows, 0)
  }

  function IdsOf(rows: Rows, conversation: ConversationId): set<MessageId> {
    set m | m in rows && rows[m].conversation == conversation
  }

  function WithRows(rows: Rows, ids: seq<MessageId>): (messages: seq<Message>)
    requires forall i :: 0 <= i < |ids| ==> ids[i] in rows
    ensures |messages| == |ids|
    ensures forall i :: 0 <= i < |ids| ==> ids[i] in rows && messages[i] == Message(ids[i], rows[ids[i]])
  {
    if ids == [] then [] else [Message(ids[0], rows[ids[0]])] + WithRows(rows, ids[1..])
  }

  class MessageRepository {
    var rows: Rows

    constructor ()
      ensures rows == map[]
    {
      rows := map[];
    }

    method Create(id: MessageId, row: Row) returns (r: Result<()>)
      modifies this
      ensures Insertable(old(rows), id, row) ==> r == Ok(()) && rows == old(rows)[id := row]
      ensures !Insertable(old(rows), id, row) ==> r == Err(Database) && rows == old(rows)
      ensures r.Ok? <==> && id !in old(rows)
                         && (row.replyTo.Some? && row.replyTo.value != id ==> row.replyTo.value in old(rows))
                         && (AttachmentOf(row.metadata).Some? ==>
                               forall m :: m in old(rows) ==>
                                             AttachmentOf(old(rows)[m].metadata) != AttachmentOf(row.metadata))
    {
      if Insertable(rows, id, row) {
        rows := rows[id := row];
        r := Ok(());
      } else {
        r := Err(Database);
      }
    }

    method GetByID(id: MessageId) returns (r: Result<Row>)
      ensures r == if id in rows then Ok(rows[id]) else Err(NotFound)
    {
      if id in rows {
        r := Ok(rows[id]);
      } else {
        r := Err(NotFound);
      }
    }

    /** The newest ids below the cursor, newest first. */
    method ListByConversation(conversation: ConversationId, cursor: Option<MessageId>, limit: nat)
      returns (messages: seq<Message>)
      ensures |messages| == |Query(Descending, IdsOf(rows, conversation), cursor, limit)|
      ensures forall i :: 0 <= i < |messages| ==>
                            && messages[i].id == Query(Descending, IdsOf(rows, conversation), cursor, limit)[i]
                            && messages[i].id in rows && messages[i].row == rows[messages[i].id]
    {
      var ids := Select(Descending, IdsOf(rows, conversation), cursor, limit);
      forall i | 0 <= i < |ids| ensures ids[i] in rows {
        QueryInTable(Descending, IdsOf(rows, conversation), cursor, limit, i);
      }
      messages := WithRows(rows, ids);
    }

    /** Sets the text, the mark and the time of a row that is not deleted. */
    method EditMessage(id: MessageId, content: Option<string>, at: Option<Time>) returns (r: Result<()>)
      modifies this
      ensures r.Ok? <==> id in old(rows) && old(rows)[id].deletedAt.None?
      ensures r.Ok? ==>
                var x := old(rows)[id];
                rows == old(rows)[id := Row(x.conversation, x.sender, content, x.replyTo, x.metadata, true,
                                            x.createdAt, at, x.readAt, None, x.deletedBy)]
      ensures r.Err? ==> r.error == NotFound && rows == old(rows)
      ensures rows == EditStatement(old(rows), id, content, at).rows
      ensures r == if EditStatement(old(rows), id, content, at).affected == 0 then Err(NotFound) else Ok(())
    {
      r := Err(NotFound);
      if id in rows && rows[id].deletedAt.None? {
        rows := rows[id := rows[id].(content := content, isEdited := true, updatedAt := at)];
        r := Ok(());
      }
    }

    /** Clears the text of a row that is not deleted, and says when and by whom. */
    method Delete(id: MessageId, at: Option<Time>, actor: Option<UserId>) returns (r: Result<()>)
      modifies this
      ensures r.Ok? <==> id in old(rows) && old(rows)[id].deletedAt.None?
      ensures r.Ok? ==>
                var x := old(rows)[id];
                rows == old(rows)[id := Row(x.conversation, x.sender, None, x.replyTo, x.metadata, x.isEdited,
                                            x.createdAt, x.updatedAt, x.readAt, at, actor)]
      ensures r.Err? ==> r.error == NotFound && rows == old(rows)
      ensures rows == DeleteStatement(old(rows), id, at, actor).rows
      ensures r == if DeleteStatement(old(rows), id, at, actor).affected == 0 then Err(NotFound) else Ok(())
    {
      r := Err(NotFound);
      if id in rows && rows[id].deletedAt.None? {
        rows := rows[id := rows[id].(content := None, deletedAt := at, deletedBy := actor)];
        r := Ok(());
      }
    }

    /** Sets the read time of a row that is neither read nor deleted. */
    method MarkAsRead(id: MessageId, at: Option<Time>) returns (r: Result<()>)
      modifies this
      ensures r.Ok? <==> id in old(rows) && old(rows)[id].readAt.None? && old(rows)[id].deletedAt.None?
      ensures r.Ok? ==>
                var x := old(rows)[id];
                rows == old(rows)[id := Row(x.conversation, x.sender, x.content, x.replyTo, x.metadata, x.isEdited,
                                            x.createdAt, x.updatedAt, at, None, x.deletedBy)]
      ensures r.Err? ==> r.error == NotFound && rows == old(rows)
      ensures rows == ReadStatement(old(rows), id, at).rows
      ensures r == if ReadStatement(old(rows), id, at).affected == 0 then Err(NotFound) else Ok(())
    {
      r := Err(NotFound);
      if id in rows && rows[id].readAt.None? && rows[id].deletedAt.None? {
        rows := rows[id := rows[id].(readAt := at)];
        r := Ok(());
      }
    }

    /** Some row that carries the attachment. */
    method FindByAttachmentID(attachment: string) returns (r: Result<Row>)
      ensures r.Err? <==> forall m :: m in rows ==> !Carries(rows[m], attachment)
      ensures r.Err? ==> r.error == NotFound
      ensures r.Ok? ==> Carries(r.value, attachment) && exists m :: m in rows && rows[m] == r.value
    {
      var rest := rows.Keys;
      while rest != {}
        invariant rest <= rows.Keys
        invariant forall m :: m in rows && m !in rest ==> !Carries(rows[m], attachment)
        decreases |rest|
      {
        var m := First(Ascending, rest);
        if Carries(rows[m], attachment) {
          return Ok(rows[m]);
        }
        rest := rest - {m};
      }
      r := Err(NotFound);
    }
  }
}
