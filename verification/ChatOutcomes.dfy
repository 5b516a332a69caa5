/** When a call that nothing interrupts succeeds, stated without the order of its
    checks, and all that it then changes and answers, column by column; and what it
    answers when it fails. */
module ChatOutcomes {
  import opened Common
  import opened Metadata
  import opened MessageTable
  import opened Mime
  import opened Text
  import opened Chat
  import opened ChatCalls
  import opened ChatRows

  function Opposite(pair: Pair, user: UserId): UserId {
    if user == pair.low then pair.high else pair.low
  }

  // ---- Sending ----

  ghost predicate ReplyAllowed(rows: Rows, s: SendCall) {
    s.replyTo.Some? ==>
      && s.replyTo.value in rows
      && rows[s.replyTo.value].conversation == s.conversation
      && rows[s.replyTo.value].deletedAt.None?
  }

  /** The attachment is the sender's own, not yet expired, and on no message. */
  ghost predicate AttachmentAllowed(env: Env, db: Db, s: SendCall) {
    s.attachment.Some? ==>
      var a := s.attachment.value;
      && a in db.uploads && env.now < db.uploads[a].expiry
      && db.uploads[a].record.uploader == s.user
      && forall m :: m in db.rows ==> !Carries(db.rows[m], a)
  }

  /** All but the attachment is in order. */
  ghost predicate Sendable(env: Env, db: Db, s: SendCall) {
    && Participates(env, s.user, s.conversation)
    && Passes(env, s.user, Opposite(env.conversations[s.conversation], s.user))
    && (Blank(s.content) ==> s.attachment.Some?)
    && ReplyAllowed(db.rows, s)
  }

  ghost predicate MaySend(env: Env, db: Db, s: SendCall, id: MessageId) {
    Sendable(env, db, s) && AttachmentAllowed(env, db, s) && id !in db.rows
  }

  /** The attachment a message is sent with, as its metadata describe it. */
  ghost function Attached(db: Db, s: SendCall): Option<Json>
    requires s.attachment.Some? ==> s.attachment.value in db.uploads
  {
    if s.attachment.Some? then Some(Describe(s.attachment.value, db.uploads[s.attachment.value].record)) else None
  }

  /** A successful send inserts a row with the sender's words, the link and the
      attachment asked for, and nothing else, and answers and publishes the same. */
  ghost predicate Sent(env: Env, x: Db, y: Db, s: SendCall, other: UserId, i: Input, answer: Response)
    requires s.attachment.Some? ==> s.attachment.value in x.uploads
  {
    var text := if Blank(s.content) then None else Some(s.content);
    && y.rows == x.rows[i.id := Row(s.conversation, s.user, text, s.replyTo, Attached(x, s), false, i.created,
                                    None, None, None, None)]
    && answer == Response(i.id, s.conversation, s.user, text, s.replyTo, Attached(x, s), false, false, i.created,
                          None, None)
    && y.fanouts == x.fanouts + [Fanout(MessageNew, answer, s.user, other, Passes(env, s.user, other))]
  }

  /** The hub lets an event through unless one of the two has blocked the other. */
  ghost predicate Passes(env: Env, a: UserId, b: UserId) {
    Block(a, b) !in env.blocks && Block(b, a) !in env.blocks
  }

  /** What a send that fails answers: the first of these that is the matter. */
  ghost function SendError(env: Env, db: Db, s: SendCall): Error {
    if !Participates(env, s.user, s.conversation) then NotFound
    else if !Passes(env, s.user, Opposite(env.conversations[s.conversation], s.user)) then NotFound
    else if Blank(s.content) && s.attachment.None? then BadRequest
    else if s.replyTo.Some? && s.replyTo.value !in db.rows then NotFound
    else if s.replyTo.Some? && db.rows[s.replyTo.value].conversation != s.conversation then Forbidden
    else if s.replyTo.Some? && db.rows[s.replyTo.value].deletedAt.Some? then NotFound
    else AttachError(env, db, s)
  }

  ghost function AttachError(env: Env, db: Db, s: SendCall): Error {
    if s.attachment.None? then Database
    else if s.attachment.value !in db.uploads || db.uploads[s.attachment.value].expiry <= env.now then NotFound
    else if db.uploads[s.attachment.value].record.uploader != s.user then Forbidden
    else Database
  }

  ghost predicate JoinedAs(env: Env, user: UserId, conversation: ConversationId, other: UserId) {
    Participates(env, user, conversation) && other == Opposite(env.conversations[conversation], user)
  }

  lemma InsertOutcome(env: Env, db: Db, x: Db, s: SendCall, other: UserId, i: Input)
    requires s.attachment.Some? ==> s.attachment.value in x.uploads
    requires db.rows == x.rows && db.fanouts == x.fanouts
    ensures var c := InsertAndPublish(env, db, s, other, Attached(x, s), i);
            && c.proc.Finished? && c.proc.request == Send(s)
            && (c.proc.answer.Ok? <==> Insertable(db.rows, i.id, Draft(s, Attached(x, s), i.created)))
            && (c.proc.answer.Err? ==> c.db == db && c.proc.answer.error == Database)
            && (c.proc.answer.Ok? ==>
                  && Sent(env, x, c.db, s, other, i, c.proc.answer.value)
                  && c.db == db.(rows := c.db.rows, fanouts := c.db.fanouts))
  {
  }

  lemma ConsumeAndInsertOutcome(env: Env, db: Db, s: SendCall, other: UserId, i: Input)
    requires s.replyTo.Some? ==> s.replyTo.value in db.rows
    ensures var c := ConsumeAndInsert(env, db, s, other, i);
            && c.proc.Finished? && c.proc.request == Send(s)
            && (c.proc.answer.Ok? <==> AttachmentAllowed(env, db, s) && i.id !in db.rows)
            && c.db.uploads == (if s.attachment.Some? then db.uploads - {s.attachment.value} else db.uploads)
            && c.db.objects == db.objects && c.db.removals == db.removals
            && (c.proc.answer.Err? ==>
                  && c.db.rows == db.rows && c.db.fanouts == db.fanouts
                  && c.proc.answer.error == AttachError(env, db, s))
            && (c.proc.answer.Ok? ==> Sent(env, db, c.db, s, other, i, c.proc.answer.value))
  {
    if s.attachment.Some? {
      var a := s.attachment.value;
      if a in db.uploads {
        DescribeRoundTrip(a, db.uploads[a].record);
      }
    }
    var c := Consume(env, db, s, other);
    if c.proc.Ready? {
      InsertOutcome(env, c.db, db, s, other, i);
    }
  }

  /** A send succeeds if and only if the sender takes part in the conversation, there is
      no block, there is something to say, the reply is to a live message of the same
      conversation, and the attachment is the sender's and unused. It then adds exactly
      one row and announces it to the other participant, as it answers it. A send that
      fails adds nothing and says why, but uses up the attachment it named if all else
      was in order. */
  lemma SendOutcome(env: Env, db: Db, s: SendCall, i: Input)
    ensures var c := SendWhole(env, db, s, i);
            && c.proc.Finished?
            && (c.proc.answer.Ok? <==> MaySend(env, db, s, i.id))
            && c.db.objects == db.objects && c.db.removals == db.removals
            && (c.proc.answer.Err? ==>
                  && c.proc.answer.error == SendError(env, db, s)
                  && c.db.rows == db.rows && c.db.fanouts == db.fanouts
                  && c.db.uploads == (if s.attachment.Some? && Sendable(env, db, s)
                                      then db.uploads - {s.attachment.value} else db.uploads))
            && (c.proc.answer.Ok? ==>
                  var other := Opposite(env.conversations[s.conversation], s.user);
                  && Sent(env, db, c.db, s, other, i, c.proc.answer.value) && Passes(env, s.user, other)
                  && c.db.uploads == (if s.attachment.Some? then db.uploads - {s.attachment.value} else db.uploads))
  {
    var c := Join(env, db, Send(s));
    if c.proc.Joined? {
      assert JoinedAs(env, s.user, s.conversation, c.proc.other);
      if CheckBlock(env, db, Send(s), c.proc.other).proc.Unblocked? {
        if CheckReply(db, s, c.proc.other).proc.Verified? {
          ConsumeAndInsertOutcome(env, db, s, c.proc.other, i);
        }
      }
    }
  }

  // ---- Editing, deleting, reading ----

  ghost predicate Permitted(env: Env, db: Db, t: Target, a: Action, checked: Time) {
    && Participates(env, t.user, t.conversation)
    && t.message in db.rows && db.rows[t.message].conversation == t.conversation
    && var row := db.rows[t.message];
       match a
       case Edit(text) =>
         row.sender == t.user && row.deletedAt.None? && checked - row.createdAt <= EDIT_WINDOW && !Blank(text)
       case Delete => row.sender == t.user && row.deletedAt.None?
       case Read =>
         && row.sender != t.user && (row.readAt.Some? || row.deletedAt.None?)
         && !BlockedEitherWay(env.blocks, t.user, Opposite(env.conversations[t.conversation], t.user))
  }

  /** A read that finds the message read has nothing to do. */
  ghost predicate AlreadyDone(db: Db, t: Target, a: Action) {
    a.Read? && t.message in db.rows && db.rows[t.message].readAt.Some?
  }

  ghost predicate Removes(row: Row, a: Action) {
    a.Delete? && row.metadata.Some? && GetString(Decode(row.metadata.value), "object_key") != ""
  }

  /** What an action makes of a row: an edit sets the text, the mark and the time; a
      deletion clears the text and says when and by whom; a read says when. */
  ghost predicate Amended(x: Row, y: Row, t: Target, a: Action, stamp: Time) {
    match a
    case Edit(text) =>
      y == Row(x.conversation, x.sender, Some(text), x.replyTo, x.metadata, true, x.createdAt, Some(stamp), x.readAt,
               x.deletedAt, x.deletedBy)
    case Delete =>
      y == Row(x.conversation, x.sender, None, x.replyTo, x.metadata, x.isEdited, x.createdAt, x.updatedAt, x.readAt,
               Some(stamp), Some(t.user))
    case Read =>
      y == Row(x.conversation, x.sender, x.content, x.replyTo, x.metadata, x.isEdited, x.createdAt, x.updatedAt,
               Some(stamp), x.deletedAt, x.deletedBy)
  }

  /** What it answers, from the row as it was. */
  ghost predicate Told(x: Row, answer: Response, t: Target, a: Action, stamp: Time) {
    match a
    case Edit(text) =>
      answer == Response(t.message, x.conversation, x.sender, Some(text), x.replyTo, x.metadata, true, false,
                         x.createdAt, Some(stamp), x.readAt)
    case Delete =>
      answer == Response(t.message, x.conversation, x.sender, None, x.replyTo, x.metadata, x.isEdited, true,
                         x.createdAt, x.updatedAt, x.readAt)
    case Read =>
      answer == Response(t.message, x.conversation, x.sender, x.content, x.replyTo, x.metadata, x.isEdited, false,
                         x.createdAt, x.updatedAt, Some(stamp))
  }

  ghost predicate Announced(kind: EventKind, a: Action) {
    match a
    case Edit(_) => kind == MessageEdited
    case Delete => kind == MessageDeleted
    case Read => kind == MessageRead
  }

  /** All that an action changes: its row, its object if it deletes one, one event. */
  ghost predicate Effect(env: Env, x: Db, y: Db, t: Target, a: Action, other: UserId, i: Input, answer: Response)
    requires t.message in x.rows
  {
    var row := x.rows[t.message];
    var key := if Removes(row, a) then GetString(Decode(row.metadata.value), "object_key") else "";
    && t.message in y.rows && y.rows == x.rows[t.message := y.rows[t.message]]
    && Amended(row, y.rows[t.message], t, a, i.stamp) && Told(row, answer, t, a, i.stamp)
    && y.uploads == x.uploads
    && y.objects == (if Removes(row, a) && i.removed then x.objects - {key} else x.objects)
    && y.removals == (if Removes(row, a) then x.removals + [key] else x.removals)
    && |y.fanouts| == |x.fanouts| + 1 && Announced(y.fanouts[|x.fanouts|].kind, a)
    && y.fanouts == x.fanouts + [Fanout(y.fanouts[|x.fanouts|].kind, answer, t.user, other,
                                        Passes(env, t.user, other))]
  }

  /** What an action that fails answers: the first of these that is the matter. */
  ghost function ActError(env: Env, db: Db, t: Target, a: Action): Error {
    if a.Edit? && Blank(a.text) then BadRequest
    else if !Participates(env, t.user, t.conversation) then NotFound
    else if a.Read? && !Passes(env, t.user, Opposite(env.conversations[t.conversation], t.user)) then NotFound
    else if t.message !in db.rows || db.rows[t.message].conversation != t.conversation then NotFound
    else if a.Delete? && db.rows[t.message].sender == t.user then Conflict
    else Forbidden
  }

  lemma ApplyOutcome(env: Env, db: Db, t: Target, a: Action, other: UserId, i: Input)
    requires t.message in db.rows && db.rows[t.message].deletedAt.None? && !AlreadyDone(db, t, a)
    ensures var c := ApplyAndPublish(env, db, t, a, other, db.rows[t.message], i);
            && c.proc.Finished? && c.proc.request == Act(t, a)
            && c.proc.answer.Ok? && Effect(env, db, c.db, t, a, other, i, c.proc.answer.value)
  {
  }

  /** Where the first checks let an action through. */
  lemma ActAdmitted(env: Env, db: Db, t: Target, a: Action, i: Input)
    requires Participates(env, t.user, t.conversation)
    requires a.Edit? ==> !Blank(a.text)
    requires a.Read? ==> !BlockedEitherWay(env.blocks, t.user, Opposite(env.conversations[t.conversation], t.user))
    ensures ActWhole(env, db, t, a, i)
            == FetchAndApply(env, db, t, a, Opposite(env.conversations[t.conversation], t.user), i)
  {
  }

  lemma ActRefused(env: Env, db: Db, t: Target, a: Action, i: Input)
    requires || !Participates(env, t.user, t.conversation)
             || (a.Edit? && Blank(a.text))
             || (a.Read? && BlockedEitherWay(env.blocks, t.user, Opposite(env.conversations[t.conversation], t.user)))
    ensures var c := ActWhole(env, db, t, a, i);
            c.proc.Finished? && c.proc.answer == Err(ActError(env, db, t, a)) && c.db == db
  {
  }

  /** An edit succeeds if and only if it is the sender's, within the window, on a live
      message, and not blank; a deletion, if it is the sender's on a live message; a
      read, if it is the other participant's, across no block, and the message is live
      or was read before. What succeeds changes its own row as asked, answers and
      publishes that; a second read shows the row as it is; what fails changes nothing
      and says why. */
  lemma ActOutcome(env: Env, db: Db, t: Target, a: Action, i: Input)
    ensures var c := ActWhole(env, db, t, a, i);
            && c.proc.Finished?
            && (c.proc.answer.Ok? <==> Permitted(env, db, t, a, i.checked))
            && (c.proc.answer.Err? ==> c.db == db && c.proc.answer.error == ActError(env, db, t, a))
            && (c.proc.answer.Ok? ==>
                  var other := Opposite(env.conversations[t.conversation], t.user);
                  if AlreadyDone(db, t, a)
                  then c.db == db && Shown(c.proc.answer.value, t.message, db.rows[t.message])
                  else Effect(env, db, c.db, t, a, other, i, c.proc.answer.value))
  {
    if && Participates(env, t.user, t.conversation)
       && (a.Edit? ==> !Blank(a.text))
       && (a.Read? ==> !BlockedEitherWay(env.blocks, t.user, Opposite(env.conversations[t.conversation], t.user)))
    {
      var other := Opposite(env.conversations[t.conversation], t.user);
      ActAdmitted(env, db, t, a, i);
      if Fetch(db, t, a, other, i).proc.Fetched? {
        ApplyOutcome(env, db, t, a, other, i);
      }
    } else {
      ActRefused(env, db, t, a, i);
    }
  }

  // ---- Uploading ----

  /** What an upload that fails answers. A stream that breaks before its first twelve
      bytes cannot be told the type of; one that breaks later can, and is refused first
      if the type is not known. */
  ghost function UploadError(u: UploadCall): Error {
    if u.size <= 0 || u.size > MAX_FILE_SIZE then FileTooLarge
    else if u.size < MIN_FILE_SIZE then BadRequest
    else if u.file.FailsBefore(HEADER_SIZE) then InputOutput
    else if DetectMime(u.file.data).Err? then UnsupportedMime
    else InputOutput
  }

  /** An upload succeeds if and only if its size is within the limits, its stream
      gives that many bytes, and its own bytes have one of the known types. It stores
      those bytes and, for an hour, a record of them. One that fails stores nothing and
      says why. */
  lemma UploadOutcome(env: Env, db: Db, u: UploadCall, i: Input)
    ensures var c := UploadWhole(env, db, u, i);
            && c.proc.Uploaded?
            && (c.proc.receipt.Ok? <==>
                  && MIN_FILE_SIZE <= u.size <= MAX_FILE_SIZE
                  && u.size <= |u.file.data| && !u.file.FailsBefore(u.size)
                  && DetectMime(u.file.data[..u.size]).Ok?)
            && (c.proc.receipt.Err? ==> c.db == db && c.proc.receipt.error == UploadError(u))
            && (c.proc.receipt.Ok? ==>
                  var key := ObjectKey(u.attachment);
                  var mime := DetectMime(u.file.data[..u.size]).value;
                  var record := UploadRecord(u.uploader, key, mime, u.filename, u.size);
                  && c.proc.receipt.value == record
                  && c.db == db.(objects := db.objects[key := u.file.data[..u.size]],
                                 uploads := if i.saved
                                            then db.uploads[u.attachment := Timed(record, env.now + UPLOAD_RECORD_TTL)]
                                            else db.uploads))
  {
    if MIN_FILE_SIZE <= u.size <= MAX_FILE_SIZE && u.size <= |u.file.data| && !u.file.FailsBefore(u.size) {
      var bytes := u.file.data[..u.size];
      assert HeaderOf(u.file) == Ok(u.file.data[..HEADER_SIZE]);
      assert bytes[..HEADER_SIZE] == u.file.data[..HEADER_SIZE];
      DetectUsesHeader(bytes);
    }
    if |u.file.data| >= HEADER_SIZE { DetectUsesHeader(u.file.data); }
  }
}
