/** The round trip of a file: uploaded, sent, and downloaded again after anything else
    has happened in between. */
module ChatDownload {
  import opened Common
  import opened Metadata
  import opened MessageTable
  import opened Mime
  import opened Chat
  import opened ChatMachine
  import opened ChatRows
  import opened ChatOwnership
  import opened ChatObjects
  import opened AttachmentService

  /** The machine never forgets or changes what was uploaded. */
  lemma OriginalsStay(s: State, e: Event, a: string)
    requires a in s.originals
    ensures a in Step(s, e).originals && Step(s, e).originals[a] == s.originals[a]
  {
  }

  lemma {:induction false} RunKeepsOriginals(s: State, events: seq<Event>, a: string)
    requires a in s.originals
    ensures a in Run(s, events).originals && Run(s, events).originals[a] == s.originals[a]
    decreases |events|
  {
    if events != [] {
      OriginalsStay(s, events[0], a);
      RunKeepsOriginals(Step(s, events[0]), events[1..], a);
    }
  }

  /** In a good state, what an attachment's row serves: to a participant, if the message
      is not deleted, exactly what was uploaded; otherwise nothing. */
  lemma ServesOriginal(s: State, m: MessageId, requester: UserId)
    requires OwnershipInvariant(s) && ObjectsInvariant(s)
    requires m in s.db.rows && s.db.rows[m].metadata.Some?
    requires s.db.rows[m].conversation in s.env.conversations
    ensures AttachmentOf(s.db.rows[m].metadata).Some?
    ensures var a := AttachmentOf(s.db.rows[m].metadata).value; var row := s.db.rows[m];
            && a in s.originals
            && Serve(s.env.conversations, s.db.objects, row, requester)
               == if row.deletedAt.None? && Participates(s.env, requester, row.conversation)
                  then Ok(Served(s.originals[a].bytes, a, ObjectKey(a), s.originals[a].record.filename,
                                 s.originals[a].record.mime, s.originals[a].record.size))
                  else Err(NotFound)
  {
    CarriedIsTracked(s.originals, s.db.rows, m);
    var a := AttachmentOf(s.db.rows[m].metadata).value;
    assert Genuine(a, s.originals[a]);
    DescribeRoundTrip(a, s.originals[a].record);
    if s.db.rows[m].deletedAt.None? {
      LiveObject(s, m);
    }
  }

  /** If one row alone carries the attachment, its answer is the only one. */
  lemma OneAnswer(rows: Rows, conversations: map<ConversationId, Pair>, objects: map<string, seq<Byte>>,
                  m: MessageId, a: string, requester: UserId, r: Result<Served>)
    requires m in rows && Carries(rows[m], a)
    requires forall n :: n in rows && Carries(rows[n], a) ==> n == m
    ensures Answers(rows, conversations, objects, requester, a, r)
            <==> r == Serve(conversations, objects, rows[m], requester)
  {
  }

  /** A valid upload, once stored, is an original for good, and the state stays good. */
  lemma UploadThenRun(s: State, p: nat, i: Input, after: seq<Event>)
    requires ChatInvariant(s) && Enabled(s, p) && s.procs[p].Uploading? && Kept(s.procs[p].upload).Some?
    ensures var u := s.procs[p].upload; var t := Run(Moved(s, p, i), after);
            ChatInvariant(t) && u.attachment in t.originals && t.originals[u.attachment] == Kept(u).value
  {
    var s' := Moved(s, p, i);
    ChatInvariantStep(s, Move(p, i));
    assert s' == Step(s, Move(p, i));
    ReachableChat(s', after);
    MovedUploading(s, p, i);
    RunKeepsOriginals(s', after, s.procs[p].upload.attachment);
  }

  ghost predicate Later(s: State, t: State) {
    exists events: seq<Event> :: t == Run(s, events)
  }

  lemma LaterIsGood(s: State)
    requires Later(INITIAL, s)
    ensures ChatInvariant(s)
  {
    var events: seq<Event> :| s == Run(INITIAL, events);
    AlwaysGood(INITIAL, events);
  }

  lemma LaterKeepsUpload(s: State, p: nat, i: Input, t: State)
    requires Later(INITIAL, s) && Enabled(s, p) && s.procs[p].Uploading? && Kept(s.procs[p].upload).Some?
    requires Later(Moved(s, p, i), t)
    ensures var u := s.procs[p].upload;
            ChatInvariant(t) && u.attachment in t.originals && t.originals[u.attachment] == Kept(u).value
  {
    LaterIsGood(s);
    var after: seq<Event> :| t == Run(Moved(s, p, i), after);
    UploadThenRun(s, p, i, after);
  }

  /** Take any reachable state `s` in which a valid upload is about to store its file,
      and any state `t` after that in which a message carries the attachment. Then
      Download has one answer: to a participant, while the message is not deleted, the
      same bytes, name, type and size; to everyone else, and to everyone later, that
      there is none. */
  lemma DownloadRoundTrip(s: State, p: nat, i: Input, t: State, u: UploadCall, m: MessageId, requester: UserId,
                          r: Result<Served>)
    requires Later(INITIAL, s) && Enabled(s, p) && s.procs[p] == Uploading(u) && Kept(u).Some?
    requires Later(Moved(s, p, i), t)
    requires m in t.db.rows && Carries(t.db.rows[m], u.attachment)
    ensures DetectMime(u.file.data).Ok?
    ensures Answers(t.db.rows, t.env.conversations, t.db.objects, requester, u.attachment, r)
            <==>
            r == if t.db.rows[m].deletedAt.None? && Participates(t.env, requester, t.db.rows[m].conversation)
                 then Ok(Served(u.file.data[..u.size], u.attachment, ObjectKey(u.attachment), u.filename,
                                DetectMime(u.file.data).value, u.size))
                 else Err(NotFound)
  {
    LaterKeepsUpload(s, p, i, t);
    forall n | n in t.db.rows && Carries(t.db.rows[n], u.attachment) ensures n == m {
      CarriedOnce(t, m, n, u.attachment);
    }
    assert GoodRow(t.env, t.db.rows[m]);
    OneAnswer(t.db.rows, t.env.conversations, t.db.objects, m, u.attachment, requester, r);
    ServesOriginal(t, m, requester);
    KeptIsFile(u);
  }

  lemma KeptIsFile(u: UploadCall)
    requires Kept(u).Some?
    ensures DetectMime(u.file.data).Ok?
    ensures Kept(u).value
            == Original(UploadRecord(u.uploader, ObjectKey(u.attachment), DetectMime(u.file.data).value,
                                     u.filename, u.size),
                        u.file.data[..u.size])
  {
  }

  // ---- Download one statement at a time ----

  /** An object that is in the store has the bytes it was uploaded with. */
  ghost predicate Unaltered(originals: map<string, Original>, objects: map<string, seq<Byte>>) {
    forall a :: a in originals && ObjectKey(a) in objects ==> objects[ObjectKey(a)] == originals[a].bytes
  }

  lemma UploadLeavesUnaltered(s: State, p: nat, u: UploadCall)
    requires Unaltered(s.originals, s.db.objects) && u.attachment !in s.originals
    ensures var s' := WithOriginal(Replaced(s, p, StoreObject(s.db, u)), u); Unaltered(s'.originals, s'.db.objects)
  {
    var s' := WithOriginal(Replaced(s, p, StoreObject(s.db, u)), u);
    forall a | a in s'.originals && ObjectKey(a) in s'.db.objects
      ensures s'.db.objects[ObjectKey(a)] == s'.originals[a].bytes
    {
      ObjectKeyInjective(a, u.attachment);
    }
  }

  lemma StepLeavesUnaltered(s: State, e: Event)
    requires Unaltered(s.originals, s.db.objects)
    ensures Unaltered(Step(s, e).originals, Step(s, e).db.objects)
  {
    if e.Move? && Enabled(s, e.p) {
      var before := s.procs[e.p];
      if before.Uploading? {
        MovedUploading(s, e.p, e.input);
        UploadLeavesUnaltered(s, e.p, before.upload);
      } else if Deleting(before) {
        MovedDeleting(s, e.p, e.input);
      } else {
        ObjectsElsewhere(s, e.p, e.input);
      }
    }
  }

  lemma {:induction false} RunLeavesUnaltered(s: State, events: seq<Event>)
    requires Unaltered(s.originals, s.db.objects)
    ensures Unaltered(Run(s, events).originals, Run(s, events).db.objects)
    decreases |events|
  {
    if events != [] {
      StepLeavesUnaltered(s, events[0]);
      RunLeavesUnaltered(Step(s, events[0]), events[1..]);
    }
  }

  /** What a described row serves, from conversations and objects of any time. */
  lemma ServeDescribed(conversations: map<ConversationId, Pair>, objects: map<string, seq<Byte>>, row: Row,
                       requester: UserId, a: string, record: UploadRecord)
    requires row.metadata == Some(Describe(a, record))
    requires record.objectKey == ObjectKey(a) && record.size <= TWO_TO_53
    ensures Serve(conversations, objects, row, requester)
            == if && row.deletedAt.None? && row.conversation in conversations
                  && (|| requester == conversations[row.conversation].low
                      || requester == conversations[row.conversation].high)
                  && ObjectKey(a) in objects
               then Ok(Served(objects[ObjectKey(a)], a, ObjectKey(a), record.filename, record.mime, record.size))
               else Err(NotFound)
  {
    DescribeRoundTrip(a, record);
  }

  lemma CarriedIsDescribed(s: State, m: MessageId, a: string)
    requires OwnershipInvariant(s) && m in s.db.rows && Carries(s.db.rows[m], a)
    ensures a in s.originals && s.db.rows[m].metadata == Some(Describe(a, s.originals[a].record))
    ensures s.originals[a].record.objectKey == ObjectKey(a) && s.originals[a].record.size <= TWO_TO_53
  {
    CarriedIsTracked(s.originals, s.db.rows, m);
    assert Genuine(a, s.originals[a]);
  }

  /** The row is looked up in one state, the participants in a later one, the object in
      one later still, with any requests in between. An answer that is not an error has
      the bytes, name, type and size of the upload; there is one if and only if the row
      was not deleted when it was looked up, the requester takes part, and the object is
      still there; and it is still there unless the message has been deleted by then. */
  lemma DownloadInterleaved(s: State, lookedUp: seq<Event>, checked: seq<Event>, m: MessageId, a: string,
                            requester: UserId)
    requires Later(INITIAL, s) && m in s.db.rows && Carries(s.db.rows[m], a)
    ensures var t := Run(s, lookedUp); var u := Run(t, checked); var row := s.db.rows[m];
            var r := Serve(t.env.conversations, u.db.objects, row, requester);
            && a in s.originals
            && (r.Ok? <==> && row.deletedAt.None? && Participates(t.env, requester, row.conversation)
                           && ObjectKey(a) in u.db.objects)
            && (r.Ok? ==>
                  var o := s.originals[a];
                  r.value == Served(o.bytes, a, ObjectKey(a), o.record.filename, o.record.mime, o.record.size))
            && (r.Err? ==> r.error == NotFound)
            && m in u.db.rows && (u.db.rows[m].deletedAt.None? ==> ObjectKey(a) in u.db.objects)
  {
    var t := Run(s, lookedUp);
    var u := Run(t, checked);
    LaterIsGood(s);
    LaterIsUnaltered(s);
    CarriedIsDescribed(s, m, a);
    ServeDescribed(t.env.conversations, u.db.objects, s.db.rows[m], requester, a, s.originals[a].record);
    Endures(s, lookedUp, m, a);
    Endures(t, checked, m, a);
    if u.db.rows[m].deletedAt.None? {
      LiveObject(u, m);
    }
  }

  lemma LaterIsUnaltered(s: State)
    requires Later(INITIAL, s)
    ensures Unaltered(s.originals, s.db.objects)
  {
    var events: seq<Event> :| s == Run(INITIAL, events);
    RunLeavesUnaltered(INITIAL, events);
  }

  /** What the parts of a download rest on, from one statement to the next. */
  lemma Endures(s: State, events: seq<Event>, m: MessageId, a: string)
    requires ChatInvariant(s) && Unaltered(s.originals, s.db.objects)
    requires m in s.db.rows && Carries(s.db.rows[m], a) && a in s.originals
    ensures var t := Run(s, events);
            && ChatInvariant(t) && Unaltered(t.originals, t.db.objects)
            && a in t.originals && t.originals[a] == s.originals[a]
            && m in t.db.rows && Carries(t.db.rows[m], a) && t.db.rows[m].metadata.Some?
  {
    ReachableChat(s, events);
    RunLeavesUnaltered(s, events);
    RunKeepsOriginals(s, events, a);
    RunEvolves(s, events);
  }
}
