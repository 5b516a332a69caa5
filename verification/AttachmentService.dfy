/** The attachment service: Upload stores a file and its record, Download serves it to
    the participants of the conversation it was sent in. */
module AttachmentService {
  import opened Common
  import opened Metadata
  import opened MessageTable
  import opened Mime
  import opened Chat
  import opened ChatCalls
  import opened ChatOutcomes
  import opened Stores

  /** What the uploader is told; the object key and the uploader stay inside. */
  datatype UploadResponse = UploadResponse(attachment: string, filename: string, mime: string, size: nat)

  function Receipt(attachment: string, r: Result<UploadRecord>): Result<UploadResponse> {
    match r
    case Ok(record) => Ok(UploadResponse(attachment, record.filename, record.mime, record.size))
    case Err(e) => Err(e)
  }

  datatype Served = Served(bytes: seq<Byte>, attachment: string, objectKey: string, filename: string, mime: string,
                           size: int)

  /** What a requester gets for an attachment that this row carries. */
  function Serve(conversations: map<ConversationId, Pair>, objects: map<string, seq<Byte>>, row: Row,
                 requester: UserId): Result<Served> {
    if row.metadata.None? || row.deletedAt.Some? then Err(NotFound)
    else
      var m := Decode(row.metadata.value);
      var key := GetString(m, "object_key");
      if key == "" || row.conversation !in conversations then Err(NotFound)
      else
        var pair := conversations[row.conversation];
        if requester != pair.low && requester != pair.high then Err(NotFound)
        else if key !in objects then Err(NotFound)
        else Ok(Served(objects[key], GetString(m, "attachment_id"), key, GetString(m, "filename"),
                       GetString(m, "mime_type"), GetInt64(m, "size")))
  }

  /** The answers the lookup by attachment id allows: one row that carries it decides,
      and if there is none the answer is that there is no such attachment. */
  ghost predicate Answers(rows: Rows, conversations: map<ConversationId, Pair>, objects: map<string, seq<Byte>>,
                          requester: UserId, attachment: string, r: Result<Served>)
  {
    if exists m :: m in rows && Carries(rows[m], attachment)
    then exists m :: m in rows && Carries(rows[m], attachment) && r == Serve(conversations, objects, rows[m], requester)
    else r == Err(NotFound)
  }

  class AttachmentService {
    const objects: ObjectStore
    const uploads: UploadStore
    const messages: MessageRepository
    const conversations: ConversationRepository

    constructor (objects: ObjectStore, uploads: UploadStore, messages: MessageRepository,
                 conversations: ConversationRepository)
      ensures this.objects == objects && this.uploads == uploads
      ensures this.messages == messages && this.conversations == conversations
    {
      this.objects := objects;
      this.uploads := uploads;
      this.messages := messages;
      this.conversations := conversations;
    }

    /** `db` agrees with the stores this service changes. */
    ghost predicate Agrees(db: Db)
      reads objects, uploads
    {
      db.objects == objects.objects && db.removals == objects.removals && db.uploads == uploads.records
    }

    /** Checks size and type from the first bytes, stores the whole file with those
        bytes put back in front, then saves the record. */
    method Upload(env: Env, uploader: UserId, filename: string, size: int, reader: Reader, attachment: string,
                  i: Input, ghost db: Db)
      returns (r: Result<UploadResponse>)
      requires reader.Valid() && reader.pos == 0
      requires Agrees(db)
      modifies reader, objects, uploads
      ensures var c := UploadWhole(env, db, UploadCall(attachment, uploader, filename, size, reader.file), i);
              Agrees(c.db) && c.proc.Uploaded? && r == Receipt(attachment, c.proc.receipt)
      ensures r.Ok? ==>
                && MIN_FILE_SIZE <= size <= MAX_FILE_SIZE && size <= |reader.file.data|
                && DetectMime(reader.file.data[..size]) == Ok(r.value.mime)
                && r.value.attachment == attachment && r.value.filename == filename && r.value.size == size
                && objects.objects == old(objects.objects)[ObjectKey(attachment) := reader.file.data[..size]]
                && (i.saved ==>
                      var record := UploadRecord(uploader, ObjectKey(attachment), r.value.mime, filename, size);
                      uploads.records == old(uploads.records)[attachment := Timed(record, env.now + UPLOAD_RECORD_TTL)])
      ensures r.Err? ==> objects.objects == old(objects.objects)
      ensures r.Err? || !i.saved ==> uploads.records == old(uploads.records)
      ensures r.Err? ==> r.error == UploadError(UploadCall(attachment, uploader, filename, size, reader.file))
    {
      UploadOutcome(env, db, UploadCall(attachment, uploader, filename, size, reader.file), i);
      if size <= 0 || size > MAX_FILE_SIZE {
        return Err(FileTooLarge);
      }
      if size < MIN_FILE_SIZE {
        return Err(BadRequest);
      }
      var header := ReadHeader(reader);
      if header.Err? {
        return Err(header.error);
      }
      var mime := DetectMime(header.value);
      if mime.Err? {
        return Err(UnsupportedMime);
      }
      var key := ObjectKey(attachment);
      var put := objects.PutObject(key, header.value, reader, size);
      if put.Err? {
        return Err(put.error);
      }
      var record := UploadRecord(uploader, key, mime.value, filename, size);
      if i.saved {
        uploads.SaveUploadRecord(attachment, record, env.now);
      }
      r := Ok(UploadResponse(attachment, filename, mime.value, size));
    }

    method Download(requester: UserId, attachment: string) returns (r: Result<Served>)
      ensures Answers(messages.rows, conversations.rows, objects.objects, requester, attachment, r)
    {
      var row := messages.FindByAttachmentID(attachment);
      if row.Err? {
        return Err(NotFound);
      }
      assert exists m :: m in messages.rows && messages.rows[m] == row.value && Carries(messages.rows[m], attachment);
      r := ServeRow(row.value, requester);
    }

    method ServeRow(row: Row, requester: UserId) returns (r: Result<Served>)
      ensures r == Serve(conversations.rows, objects.objects, row, requester)
    {
      if row.metadata.None? || row.deletedAt.Some? {
        return Err(NotFound);
      }
      var metadata := Decode(row.metadata.value);
      var key := GetString(metadata, "object_key");
      if key == "" {
        return Err(NotFound);
      }
      var pair := conversations.GetParticipants(row.conversation);
      if pair.Err? {
        return Err(pair.error);
      }
      if requester != pair.value.low && requester != pair.value.high {
        return Err(NotFound);
      }
      var bytes := objects.GetObject(key);
      if bytes.Err? {
        return Err(bytes.error);
      }
      r := Ok(Served(bytes.value, GetString(metadata, "attachment_id"), key, GetString(metadata, "filename"),
                     GetString(metadata, "mime_type"), GetInt64(metadata, "size")));
    }
  }
}
