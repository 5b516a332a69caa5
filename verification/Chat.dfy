/** The requests of the message and attachment services, one statement at a time.

    A `Config` is the shared stores together with one request in flight. `Advance`
    performs the request's next access to a store, with the local checks that follow
    it, so any interleaving of requests is a sequence of `Advance` steps. `Solo` is a
    request that nothing interrupts. */
module Chat {
  import opened Common
  import opened Metadata
  import opened MessageTable
  import opened Mime
  import opened Text

  /** Seconds. */
  const UPLOAD_RECORD_TTL: Time := 3600
  const EDIT_WINDOW: Time := 15 * 60

  /** A key with a time to live: it is there strictly before its expiry. */
  datatype Timed = Timed(record: UploadRecord, expiry: Time)

  datatype Response = Response(
    id: MessageId,
    conversation: ConversationId,
    sender: UserId,
    content: Option<string>,
    replyTo: Option<MessageId>,
    metadata: Option<Json>,
    isEdited: bool,
    isDeleted: bool,
    createdAt: Time,
    updatedAt: Option<Time>,
    readAt: Option<Time>)

  /** A response shows these columns of a row, and its text unless the row is deleted. */
  ghost predicate Shown(r: Response, id: MessageId, row: Row) {
    && r.id == id && r.conversation == row.conversation && r.sender == row.sender
    && r.replyTo == row.replyTo && r.metadata == row.metadata
    && r.content == (if row.deletedAt.None? then row.content else None)
    && r.isEdited == row.isEdited && r.isDeleted == row.deletedAt.Some?
    && r.createdAt == row.createdAt && r.updatedAt == row.updatedAt && r.readAt == row.readAt
  }

  function ToResponse(id: MessageId, row: Row): (r: Response)
    ensures Shown(r, id, row)
    ensures r.isDeleted ==> r.content.None?
  {
    Response(id, row.conversation, row.sender, if row.deletedAt.Some? then None else row.content, row.replyTo,
             row.metadata, row.isEdited, row.deletedAt.Some?, row.createdAt, row.updatedAt, row.readAt)
  }

  datatype EventKind = MessageNew | MessageEdited | MessageDeleted | MessageRead

  /** One fan-out to a conversation partner: `passed` tells whether it got through the
      hub's block check. */
  datatype Fanout = Fanout(kind: EventKind, payload: Response, origin: UserId, recipient: UserId, passed: bool)

  /** What requests only read: the clock, the conversations and the blocks. */
  datatype Env = Env(now: Time, conversations: map<ConversationId, Pair>, blocks: set<Block>)

  /** What requests change: the message rows, the upload records, the stored objects,
      and the calls made so far to the object store's delete and to the hub. */
  datatype Db = Db(
    rows: Rows,
    uploads: map<string, Timed>,
    objects: map<string, seq<Byte>>,
    removals: seq<string>,
    fanouts: seq<Fanout>)

  // ---- Requests ----

  datatype UploadCall = UploadCall(attachment: string, uploader: UserId, filename: string, size: int, file: File)

  datatype SendCall = SendCall(user: UserId, conversation: ConversationId, content: string,
                               replyTo: Option<MessageId>, attachment: Option<string>)

  datatype Target = Target(user: UserId, conversation: ConversationId, message: MessageId)

  datatype Action = Edit(text: string) | Delete | Read

  datatype Request = Send(call: SendCall) | Act(target: Target, action: Action) {
    function User(): UserId {
      match this
      case Send(s) => s.user
      case Act(t, _) => t.user
    }

    function Conversation(): ConversationId {
      match this
      case Send(s) => s.conversation
      case Act(t, _) => t.conversation
    }

    function Kind(): EventKind {
      match this
      case Send(_) => MessageNew
      case Act(_, Edit(_)) => MessageEdited
      case Act(_, Delete) => MessageDeleted
      case Act(_, Read) => MessageRead
    }
  }

  /** Where a request is, with what it has read so far. */
  datatype Proc =
    | Uploading(upload: UploadCall)
    | Stored(upload: UploadCall, record: UploadRecord)
    | Uploaded(upload: UploadCall, receipt: Result<UploadRecord>)
    | Starting(request: Request)
    | Joined(request: Request, other: UserId)
    | Unblocked(request: Request, other: UserId)
    | Verified(call: SendCall, other: UserId)
    | Ready(call: SendCall, other: UserId, metadata: Option<Json>)
    | Fetched(target: Target, action: Action, other: UserId, snapshot: Row)
    | Applied(request: Request, other: UserId, id: MessageId, row: Row)
    | Cleaned(request: Request, other: UserId, id: MessageId, row: Row)
    | Finished(request: Request, answer: Result<Response>)

  /** What a request gets from outside: the id it generates, the clock readings it
      takes, and whether a write that may fail quietly succeeds. */
  datatype Input = Input(id: MessageId, created: Time, checked: Time, stamp: Time, saved: bool, removed: bool)

  datatype Config = Config(db: Db, proc: Proc)

  // ---- Upload ----

  /** The size and type checks, which come before anything is stored. */
  function Accept(size: int, file: File): Result<string> {
    if size <= 0 || size > MAX_FILE_SIZE then Err(FileTooLarge)
    else if size < MIN_FILE_SIZE then Err(BadRequest)
    else
      match HeaderOf(file)
      case Err(e) => Err(e)
      case Ok(header) => DetectMime(header)
  }

  /** The object store keeps the first `size` bytes and refuses a shorter stream. */
  function Stream(size: nat, file: File): Result<seq<Byte>> {
    if file.FailsBefore(size) || |file.data| < size then Err(InputOutput) else Ok(file.data[..size])
  }

  function StoreObject(db: Db, u: UploadCall): (c: Config)
    ensures c.db == db.(objects := c.db.objects)
  {
    match Accept(u.size, u.file)
    case Err(e) => Config(db, Uploaded(u, Err(e)))
    case Ok(mime) =>
      match Stream(u.size, u.file)
      case Err(e) => Config(db, Uploaded(u, Err(e)))
      case Ok(bytes) =>
        Config(db.(objects := db.objects[ObjectKey(u.attachment) := bytes]),
               Stored(u, UploadRecord(u.uploader, ObjectKey(u.attachment), mime, u.filename, u.size)))
  }

  /** A failed write of the record is logged and does not fail the upload. */
  function SaveRecord(env: Env, db: Db, u: UploadCall, record: UploadRecord, saved: bool): (c: Config)
    ensures c.db == db.(uploads := c.db.uploads)
  {
    var after := if saved
                 then db.(uploads := db.uploads[u.attachment := Timed(record, env.now + UPLOAD_RECORD_TTL)])
                 else db;
    Config(after, Uploaded(u, Ok(record)))
  }

  /** Fetching and deleting a record is one transaction. */
  function Popped(env: Env, db: Db, attachment: string): Result<UploadRecord> {
    if attachment in db.uploads && env.now < db.uploads[attachment].expiry
    then Ok(db.uploads[attachment].record)
    else Err(NotFound)
  }

  // ---- Messages ----

  function OtherParticipant(env: Env, user: UserId, conversation: ConversationId): Result<UserId> {
    if conversation !in env.conversations then Err(NotFound)
    else
      var pair := env.conversations[conversation];
      if user != pair.low && user != pair.high then Err(NotFound)
      else if user == pair.low then Ok(pair.high)
      else Ok(pair.low)
  }

  function Fail(db: Db, r: Request, e: Error): Config
  {
    Config(db, Finished(r, Err(e)))
  }

  function Join(env: Env, db: Db, r: Request): (c: Config)
    ensures c.db == db
  {
    if r.Act? && r.action.Edit? && Blank(r.action.text) then Fail(db, r, BadRequest)
    else
      match OtherParticipant(env, r.User(), r.Conversation())
      case Err(e) => Fail(db, r, e)
      case Ok(other) => Config(db, Joined(r, other))
  }

  /** Sending and reading ask whether either user has blocked the other. */
  function CheckBlock(env: Env, db: Db, r: Request, other: UserId): (c: Config)
    ensures c.db == db
  {
    if BlockedEitherWay(env.blocks, r.User(), other) then Fail(db, r, NotFound)
    else if r.Send? && Blank(r.call.content) && r.call.attachment.None? then Fail(db, r, BadRequest)
    else Config(db, Unblocked(r, other))
  }

  function CheckReply(db: Db, s: SendCall, other: UserId): (c: Config)
    ensures c.db == db
  {
    if s.replyTo.None? then Config(db, Verified(s, other))
    else
      var m := s.replyTo.value;
      if m !in db.rows then Fail(db, Send(s), NotFound)
      else if db.rows[m].conversation != s.conversation then Fail(db, Send(s), Forbidden)
      else if db.rows[m].deletedAt.Some? then Fail(db, Send(s), NotFound)
      else Config(db, Verified(s, other))
  }

  /** The record is consumed before its owner is compared with the sender. */
  function Consume(env: Env, db: Db, s: SendCall, other: UserId): (c: Config)
    ensures c.db == db.(uploads := c.db.uploads)
  {
    if s.attachment.None? then Config(db, Ready(s, other, None))
    else
      var a := s.attachment.value;
      var after := db.(uploads := db.uploads - {a});
      match Popped(env, db, a)
      case Err(e) => Fail(after, Send(s), e)
      case Ok(record) =>
        if record.uploader != s.user then Fail(after, Send(s), Forbidden)
        else Config(after, Ready(s, other, Some(Describe(a, record))))
  }

  function Draft(s: SendCall, metadata: Option<Json>, created: Time): Row {
    NewRow(s.conversation, s.user, if Blank(s.content) then None else Some(s.content), s.replyTo, metadata, created)
  }

  function Insert(db: Db, s: SendCall, other: UserId, metadata: Option<Json>, i: Input): (c: Config)
    ensures c.db == db.(rows := c.db.rows)
  {
    var row := Draft(s, metadata, i.created);
    if Insertable(db.rows, i.id, row)
    then Config(db.(rows := db.rows[i.id := row]), Applied(Send(s), other, i.id, row))
    else Fail(db, Send(s), Database)
  }

  /** The row is read once; what the request does next rests on this copy. */
  function Fetch(db: Db, t: Target, a: Action, other: UserId, i: Input): (c: Config)
    ensures c.db == db
  {
    var r := Act(t, a);
    if t.message !in db.rows || db.rows[t.message].conversation != t.conversation then Fail(db, r, NotFound)
    else
      var row := db.rows[t.message];
      match a
      case Edit(_) =>
        if row.sender != t.user || row.deletedAt.Some? || i.checked - row.createdAt > EDIT_WINDOW
        then Fail(db, r, Forbidden)
        else Config(db, Fetched(t, a, other, row))
      case Delete =>
        if row.sender != t.user then Fail(db, r, Forbidden)
        else if row.deletedAt.Some? then Fail(db, r, Conflict)
        else Config(db, Fetched(t, a, other, row))
      case Read =>
        if row.sender == t.user then Fail(db, r, Forbidden)
        else if row.readAt.Some? then Config(db, Finished(r, Ok(ToResponse(t.message, row))))
        else if row.deletedAt.Some? then Fail(db, r, Forbidden)
        else Config(db, Fetched(t, a, other, row))
  }

  /** The guarded UPDATE of an action. */
  function Statement(rows: Rows, t: Target, a: Action, stamp: Time): Update {
    match a
    case Edit(text) => EditStatement(rows, t.message, Some(text), Some(stamp))
    case Delete => DeleteStatement(rows, t.message, Some(stamp), Some(t.user))
    case Read => ReadStatement(rows, t.message, Some(stamp))
  }

  /** The copy the response is made from. */
  function Amend(snapshot: Row, t: Target, a: Action, stamp: Time): Row {
    match a
    case Edit(text) => snapshot.(content := Some(text), isEdited := true, updatedAt := Some(stamp))
    case Delete => snapshot.(content := None, deletedBy := Some(t.user), deletedAt := Some(stamp))
    case Read => snapshot.(readAt := Some(stamp))
  }

  function Apply(db: Db, t: Target, a: Action, other: UserId, snapshot: Row, i: Input): (c: Config)
    ensures c.db == db.(rows := c.db.rows)
  {
    var update := Statement(db.rows, t, a, i.stamp);
    if update.affected == 0 then Fail(db, Act(t, a), NotFound)
    else Config(db.(rows := update.rows), Applied(Act(t, a), other, t.message, Amend(snapshot, t, a, i.stamp)))
  }

  /** After a deletion is committed its object is removed; a failure is only logged. */
  function CleanUp(db: Db, metadata: Option<Json>, removed: bool): (d: Db)
    ensures d == db.(objects := d.objects, removals := d.removals)
  {
    if metadata.None? then db
    else
      var key := GetString(Decode(metadata.value), "object_key");
      if key == "" then db
      else db.(objects := if removed then db.objects - {key} else db.objects, removals := db.removals + [key])
  }

  function Publish(env: Env, db: Db, r: Request, other: UserId, id: MessageId, row: Row): (c: Config)
    ensures c.db == db.(fanouts := c.db.fanouts)
  {
    var response := ToResponse(id, row);
    var fanout := Fanout(r.Kind(), response, r.User(), other, !BlockedEitherWay(env.blocks, r.User(), other));
    Config(db.(fanouts := db.fanouts + [fanout]), Finished(r, Ok(response)))
  }

  /** Whatever new events there are, none gets from one of the two to the other. */
  ghost predicate Unheard(x: seq<Fanout>, y: seq<Fanout>, a: UserId, b: UserId) {
    && x <= y
    && forall k :: |x| <= k < |y| && {y[k].origin, y[k].recipient} == {a, b} ==> !y[k].passed
  }

  lemma PublishUnheard(env: Env, db: Db, r: Request, other: UserId, id: MessageId, row: Row, a: UserId, b: UserId)
    requires BlockedEitherWay(env.blocks, a, b)
    ensures Unheard(db.fanouts, Publish(env, db, r, other, id, row).db.fanouts, a, b)
  {
  }

  // ---- One step, and a whole request ----

  function Advance(env: Env, c: Config, i: Input): Config {
    var db := c.db;
    match c.proc
    case Uploading(u) => StoreObject(db, u)
    case Stored(u, record) => SaveRecord(env, db, u, record, i.saved)
    case Starting(r) => Join(env, db, r)
    case Joined(r, other) =>
      (match r
       case Send(_) => CheckBlock(env, db, r, other)
       case Act(t, a) => if a.Read? then CheckBlock(env, db, r, other) else Fetch(db, t, a, other, i))
    case Unblocked(r, other) =>
      (match r
       case Send(s) => CheckReply(db, s, other)
       case Act(t, a) => Fetch(db, t, a, other, i))
    case Verified(s, other) => Consume(env, db, s, other)
    case Ready(s, other, metadata) => Insert(db, s, other, metadata, i)
    case Fetched(t, a, other, snapshot) => Apply(db, t, a, other, snapshot, i)
    case Applied(r, other, id, row) =>
      if r.Act? && r.action.Delete?
      then Config(CleanUp(db, row.metadata, i.removed), Cleaned(r, other, id, row))
      else Publish(env, db, r, other, id, row)
    case Cleaned(r, other, id, row) => Publish(env, db, r, other, id, row)
    case Uploaded(_, _) => c
    case Finished(_, _) => c
  }

  function StepsLeft(p: Proc): nat {
    match p
    case Uploading(_) => 2
    case Stored(_, _) => 1
    case Uploaded(_, _) => 0
    case Starting(_) => 7
    case Joined(_, _) => 6
    case Unblocked(_, _) => 5
    case Verified(_, _) => 4
    case Ready(_, _, _) => 3
    case Fetched(_, _, _, _) => 3
    case Applied(_, _, _, _) => 2
    case Cleaned(_, _, _, _) => 1
    case Finished(_, _) => 0
  }

  lemma AdvanceTerminates(env: Env, c: Config, i: Input)
    requires StepsLeft(c.proc) > 0
    ensures StepsLeft(Advance(env, c, i).proc) < StepsLeft(c.proc)
  {
  }

  function Solo(env: Env, c: Config, i: Input): Config
    decreases StepsLeft(c.proc)
  {
    if StepsLeft(c.proc) == 0 then c
    else
      AdvanceTerminates(env, c, i);
      Solo(env, Advance(env, c, i), i)
  }
}
