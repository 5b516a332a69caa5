/** Attachments: who may use one, how often, and what the message says about it. An
    identifier is in one place at a time: with the upload that made it, in the record
    store, with the send that consumed it, or on a message. */
module ChatOwnership {
  import opened Common
  import opened Metadata
  import opened MessageTable
  import opened Mime
  import opened Chat
  import opened ChatMachine

  // ---- One place at a time ----

  function Held(p: Proc): Option<string> {
    match p
    case Stored(u, _) => Some(u.attachment)
    case Ready(s, _, metadata) => if metadata.Some? then s.attachment else None
    case _ => None
  }

  function HeldBy(procs: map<nat, Proc>): map<nat, Option<string>> {
    map p | p in procs :: Held(procs[p])
  }

  function CarriedBy(rows: Rows): map<MessageId, Option<string>> {
    map m | m in rows :: AttachmentOf(rows[m].metadata)
  }

  ghost predicate Exclusive(held: map<nat, Option<string>>, recorded: set<string>,
                            carried: map<MessageId, Option<string>>)
  {
    && (forall p, q :: p in held && q in held && p != q && held[p].Some? ==> held[p] != held[q])
    && (forall m, n :: m in carried && n in carried && m != n && carried[m].Some? ==> carried[m] != carried[n])
    && (forall p :: p in held && held[p].Some? ==> held[p].value !in recorded)
    && (forall m :: m in carried && carried[m].Some? ==> carried[m].value !in recorded)
    && (forall p, m :: p in held && m in carried && held[p].Some? ==> held[p] != carried[m])
  }

  /** An identifier that is nowhere may be taken up by one request. */
  lemma TakeUp(held: map<nat, Option<string>>, recorded: set<string>, carried: map<MessageId, Option<string>>,
               p: nat, a: string)
    requires Exclusive(held, recorded, carried)
    requires forall q :: q in held && q != p ==> held[q] != Some(a)
    requires forall m :: m in carried ==> carried[m] != Some(a)
    ensures Exclusive(held[p := Some(a)], recorded - {a}, carried)
  {
  }

  lemma LetGo(held: map<nat, Option<string>>, recorded: set<string>, carried: map<MessageId, Option<string>>, p: nat,
              recorded': set<string>)
    requires Exclusive(held, recorded, carried)
    requires recorded' <= recorded || (p in held && held[p].Some? && recorded' <= recorded + {held[p].value})
    ensures Exclusive(held[p := None], recorded', carried)
  {
  }

  lemma PassOn(held: map<nat, Option<string>>, recorded: set<string>, carried: map<MessageId, Option<string>>,
               p: nat, m: MessageId)
    requires Exclusive(held, recorded, carried)
    requires p in held && m !in carried
    ensures Exclusive(held[p := None], recorded, carried[m := held[p]])
  {
  }

  // ---- What is said about an attachment is what was uploaded ----

  ghost predicate Genuine(a: string, o: Original) {
    && o.record.objectKey == ObjectKey(a)
    && MIN_FILE_SIZE <= o.record.size == |o.bytes| <= MAX_FILE_SIZE
    && DetectMime(o.bytes) == Ok(o.record.mime)
  }

  ghost predicate Documents(originals: map<string, Original>, sender: UserId, metadata: Json) {
    exists a :: a in originals && metadata == Describe(a, originals[a].record) && originals[a].record.uploader == sender
  }

  ghost predicate Tracked(originals: map<string, Original>, p: Proc) {
    match p
    case Stored(u, record) => u.attachment in originals && originals[u.attachment].record == record
    case Ready(s, _, metadata) =>
      metadata.Some? ==>
        && s.attachment.Some? && s.attachment.value in originals
        && metadata.value == Describe(s.attachment.value, originals[s.attachment.value].record)
        && originals[s.attachment.value].record.uploader == s.user
    case _ => true
  }

  ghost predicate Recorded(originals: map<string, Original>, uploads: map<string, Timed>) {
    forall a :: a in uploads ==> a in originals && uploads[a].record == originals[a].record
  }

  ghost predicate Documented(originals: map<string, Original>, rows: Rows) {
    forall m :: m in rows && rows[m].metadata.Some? ==> Documents(originals, rows[m].sender, rows[m].metadata.value)
  }

  ghost predicate Provenance(s: State) {
    && (forall a :: a in s.originals ==> Genuine(a, s.originals[a]))
    && (forall p :: p in s.procs ==> Tracked(s.originals, s.procs[p]))
    && Recorded(s.originals, s.db.uploads)
    && Documented(s.originals, s.db.rows)
  }

  ghost predicate Exclusivity(s: State) {
    Exclusive(HeldBy(s.procs), s.db.uploads.Keys, CarriedBy(s.db.rows))
  }

  ghost predicate OwnershipInvariant(s: State) {
    Provenance(s) && Exclusivity(s)
  }

  lemma AcceptedIsGenuine(u: UploadCall)
    requires Kept(u).Some?
    ensures Genuine(u.attachment, Kept(u).value)
  {
    var bytes := Kept(u).value.bytes;
    assert bytes == u.file.data[..u.size];
    assert bytes[..HEADER_SIZE] == u.file.data[..HEADER_SIZE];
    assert HeaderOf(u.file) == Ok(u.file.data[..HEADER_SIZE]);
    DetectUsesHeader(bytes);
  }

  lemma CarriedIsTracked(originals: map<string, Original>, rows: Rows, m: MessageId)
    requires Documented(originals, rows) && m in rows && rows[m].metadata.Some?
    ensures AttachmentOf(rows[m].metadata).Some?
    ensures var a := AttachmentOf(rows[m].metadata).value;
            && a in originals && rows[m].metadata.value == Describe(a, originals[a].record)
            && originals[a].record.uploader == rows[m].sender
  {
  }

  lemma OriginalsGrow(originals: map<string, Original>, a: string, o: Original, rows: Rows)
    requires a !in originals && Documented(originals, rows)
    ensures Documented(originals[a := o], rows)
  {
    forall m | m in rows && rows[m].metadata.Some?
      ensures Documents(originals[a := o], rows[m].sender, rows[m].metadata.value)
    {
      CarriedIsTracked(originals, rows, m);
      var b := AttachmentOf(rows[m].metadata).value;
      assert b in originals[a := o] && originals[a := o][b] == originals[b];
    }
  }

  // ---- One step of each kind ----

  lemma HeldAfter(s: State, p: nat, c: Config)
    ensures HeldBy(Replaced(s, p, c).procs) == HeldBy(s.procs)[p := Held(c.proc)]
  {
  }

  lemma ReleaseKeeps(s: State, p: nat, c: Config)
    requires Exclusivity(s) && p in s.procs
    requires Held(c.proc).None? && CarriedBy(c.db.rows) == CarriedBy(s.db.rows)
    requires c.db.uploads.Keys <= s.db.uploads.Keys
             || (Held(s.procs[p]).Some? && c.db.uploads.Keys <= s.db.uploads.Keys + {Held(s.procs[p]).value})
    ensures Exclusivity(Replaced(s, p, c))
  {
    LetGo(HeldBy(s.procs), s.db.uploads.Keys, CarriedBy(s.db.rows), p, c.db.uploads.Keys);
    HeldAfter(s, p, c);
  }

  /** Request `p` takes up an identifier that no other request and no row has. */
  lemma TakingKeeps(s: State, p: nat, c: Config, a: string)
    requires Exclusivity(s) && p in s.procs
    requires Held(c.proc) == Some(a) && c.db.rows == s.db.rows && c.db.uploads.Keys == s.db.uploads.Keys - {a}
    requires forall q :: q in s.procs && q != p ==> Held(s.procs[q]) != Some(a)
    requires forall m :: m in s.db.rows ==> !Carries(s.db.rows[m], a)
    ensures Exclusivity(Replaced(s, p, c))
  {
    TakeUp(HeldBy(s.procs), s.db.uploads.Keys, CarriedBy(s.db.rows), p, a);
    HeldAfter(s, p, c);
  }

  lemma PassingKeeps(s: State, p: nat, c: Config, m: MessageId, row: Row)
    requires Exclusivity(s) && p in s.procs && m !in s.db.rows
    requires Held(c.proc).None? && c.db.rows == s.db.rows[m := row] && c.db.uploads == s.db.uploads
    requires AttachmentOf(row.metadata) == Held(s.procs[p])
    ensures Exclusivity(Replaced(s, p, c))
  {
    PassOn(HeldBy(s.procs), s.db.uploads.Keys, CarriedBy(s.db.rows), p, m);
    HeldAfter(s, p, c);
    assert CarriedBy(c.db.rows) == CarriedBy(s.db.rows)[m := Held(s.procs[p])];
  }

  /** An identifier no upload has had yet is nowhere. */
  lemma NewIsNowhere(s: State, a: string)
    requires Provenance(s) && a !in s.originals
    ensures forall q :: q in s.procs ==> Held(s.procs[q]) != Some(a)
    ensures forall m :: m in s.db.rows ==> !Carries(s.db.rows[m], a)
    ensures a !in s.db.uploads
  {
    forall m | m in s.db.rows ensures !Carries(s.db.rows[m], a) {
      if s.db.rows[m].metadata.Some? { CarriedIsTracked(s.originals, s.db.rows, m); }
    }
    forall q | q in s.procs ensures Held(s.procs[q]) != Some(a) {
      assert Tracked(s.originals, s.procs[q]);
    }
  }

  lemma StoreObjectHolds(db: Db, u: UploadCall)
    ensures var c := StoreObject(db, u);
            && c.db.rows == db.rows && c.db.uploads == db.uploads
            && Held(c.proc) == (if Kept(u).Some? then Some(u.attachment) else None)
            && (Kept(u).Some? ==> c.proc == Stored(u, Kept(u).value.record))
            && (Kept(u).None? ==> c.proc.Uploaded?)
  {
  }

  lemma UploadKeepsExclusivity(s: State, p: nat, u: UploadCall)
    requires Provenance(s) && Exclusivity(s) && p in s.procs && u.attachment !in s.originals
    ensures Exclusivity(Replaced(s, p, StoreObject(s.db, u)))
  {
    NewIsNowhere(s, u.attachment);
    StoreObjectHolds(s.db, u);
    var c := StoreObject(s.db, u);
    assert s.db.uploads.Keys - {u.attachment} == s.db.uploads.Keys;
    if Kept(u).Some? {
      TakingKeeps(s, p, c, u.attachment);
    } else {
      ReleaseKeeps(s, p, c);
    }
  }

  lemma RefusedKeepsProvenance(s: State, p: nat, u: UploadCall)
    requires Provenance(s) && p in s.procs && Kept(u).None?
    ensures Provenance(Replaced(s, p, StoreObject(s.db, u)))
  {
    StoreObjectHolds(s.db, u);
  }

  lemma UploadKeepsProvenance(s: State, p: nat, u: UploadCall)
    requires Provenance(s) && p in s.procs && u.attachment !in s.originals
    ensures Provenance(WithOriginal(Replaced(s, p, StoreObject(s.db, u)), u))
  {
    if Kept(u).Some? {
      StoreObjectHolds(s.db, u);
      AcceptedIsGenuine(u);
      OriginalsGrow(s.originals, u.attachment, Kept(u).value, s.db.rows);
    } else {
      RefusedKeepsProvenance(s, p, u);
    }
  }

  lemma SaveStep(s: State, p: nat, u: UploadCall, record: UploadRecord, saved: bool)
    requires OwnershipInvariant(s) && p in s.procs && s.procs[p] == Stored(u, record)
    ensures OwnershipInvariant(Replaced(s, p, SaveRecord(s.env, s.db, u, record, saved)))
  {
    assert Tracked(s.originals, s.procs[p]);
    ReleaseKeeps(s, p, SaveRecord(s.env, s.db, u, record, saved));
  }

  lemma ConsumeKeepsExclusivity(s: State, p: nat, call: SendCall, other: UserId)
    requires Exclusivity(s) && p in s.procs
    ensures Exclusivity(Replaced(s, p, Consume(s.env, s.db, call, other)))
  {
    var c := Consume(s.env, s.db, call, other);
    if Held(c.proc).Some? {
      var a := call.attachment.value;
      assert a in s.db.uploads.Keys;
      forall q | q in s.procs ensures Held(s.procs[q]) != Some(a) {
        assert HeldBy(s.procs)[q] == Held(s.procs[q]);
      }
      forall m | m in s.db.rows ensures !Carries(s.db.rows[m], a) {
        assert CarriedBy(s.db.rows)[m] == AttachmentOf(s.db.rows[m].metadata);
      }
      assert c.db.uploads.Keys == s.db.uploads.Keys - {a};
      TakingKeeps(s, p, c, a);
    } else {
      ReleaseKeeps(s, p, c);
    }
  }

  lemma ConsumeKeepsProvenance(s: State, p: nat, call: SendCall, other: UserId)
    requires Provenance(s) && p in s.procs
    ensures Provenance(Replaced(s, p, Consume(s.env, s.db, call, other)))
  {
    var c := Consume(s.env, s.db, call, other);
    assert Tracked(s.originals, c.proc);
  }

  /** A held attachment is the one the metadata names. */
  lemma HeldIsNamed(originals: map<string, Original>, p: Proc)
    requires Tracked(originals, p) && p.Ready?
    ensures AttachmentOf(p.metadata) == Held(p)
  {
  }

  lemma InsertKeepsExclusivity(s: State, p: nat, i: Input)
    requires Exclusivity(s) && p in s.procs && s.procs[p].Ready?
    requires AttachmentOf(s.procs[p].metadata) == Held(s.procs[p])
    ensures Exclusivity(Replaced(s, p, Insert(s.db, s.procs[p].call, s.procs[p].other, s.procs[p].metadata, i)))
  {
    var c := Insert(s.db, s.procs[p].call, s.procs[p].other, s.procs[p].metadata, i);
    if c.proc.Applied? {
      PassingKeeps(s, p, c, i.id, Draft(s.procs[p].call, s.procs[p].metadata, i.created));
    } else {
      ReleaseKeeps(s, p, c);
    }
  }

  lemma InsertKeepsProvenance(s: State, p: nat, i: Input)
    requires Provenance(s) && p in s.procs && s.procs[p].Ready?
    ensures Provenance(Replaced(s, p, Insert(s.db, s.procs[p].call, s.procs[p].other, s.procs[p].metadata, i)))
  {
    assert Tracked(s.originals, s.procs[p]);
  }

  lemma StatementCarries(rows: Rows, t: Target, a: Action, stamp: Time, originals: map<string, Original>)
    requires Documented(originals, rows)
    ensures var after := Statement(rows, t, a, stamp).rows;
            CarriedBy(after) == CarriedBy(rows) && Documented(originals, after)
  {
  }

  lemma ApplyStep(s: State, p: nat, t: Target, a: Action, other: UserId, snapshot: Row, i: Input)
    requires OwnershipInvariant(s) && p in s.procs
    ensures OwnershipInvariant(Replaced(s, p, Apply(s.db, t, a, other, snapshot, i)))
  {
    StatementCarries(s.db.rows, t, a, i.stamp, s.originals);
    ReleaseKeeps(s, p, Apply(s.db, t, a, other, snapshot, i));
  }

  /** Moves that touch neither rows nor records. */
  lemma NeutralStep(s: State, p: nat, c: Config)
    requires OwnershipInvariant(s) && p in s.procs
    requires Held(c.proc).None? && c.db.rows == s.db.rows && c.db.uploads == s.db.uploads
    requires !c.proc.Stored? && !c.proc.Ready?
    ensures OwnershipInvariant(Replaced(s, p, c))
  {
    ReleaseKeeps(s, p, c);
  }

  lemma QuietMove(s: State, p: nat, i: Input)
    requires OwnershipInvariant(s) && Enabled(s, p)
    requires Looking(s.procs[p]) || Deleting(s.procs[p]) || Publishing(s.procs[p])
    ensures OwnershipInvariant(Moved(s, p, i))
  {
    var s' := Moved(s, p, i);
    if Looking(s.procs[p]) {
      MovedLooking(s, p, i);
    } else if Deleting(s.procs[p]) {
      MovedDeleting(s, p, i);
    } else {
      MovedPublishing(s, p, i);
    }
    NeutralStep(s, p, Config(s'.db, s'.procs[p]));
  }

  lemma UploadMove(s: State, p: nat, i: Input)
    requires OwnershipInvariant(s) && Enabled(s, p)
    requires s.procs[p].Uploading? || s.procs[p].Stored?
    ensures OwnershipInvariant(Moved(s, p, i))
  {
    if s.procs[p].Uploading? {
      MovedUploading(s, p, i);
      UploadKeepsExclusivity(s, p, s.procs[p].upload);
      UploadKeepsProvenance(s, p, s.procs[p].upload);
    } else {
      MovedStored(s, p, i);
      SaveStep(s, p, s.procs[p].upload, s.procs[p].record, i.saved);
    }
  }

  lemma SendMove(s: State, p: nat, i: Input)
    requires OwnershipInvariant(s) && Enabled(s, p)
    requires s.procs[p].Verified? || s.procs[p].Ready?
    ensures OwnershipInvariant(Moved(s, p, i))
  {
    if s.procs[p].Verified? {
      MovedVerified(s, p, i);
      ConsumeKeepsExclusivity(s, p, s.procs[p].call, s.procs[p].other);
      ConsumeKeepsProvenance(s, p, s.procs[p].call, s.procs[p].other);
    } else {
      MovedReady(s, p, i);
      HeldIsNamed(s.originals, s.procs[p]);
      InsertKeepsExclusivity(s, p, i);
      InsertKeepsProvenance(s, p, i);
    }
  }

  lemma MoveStep(s: State, p: nat, i: Input)
    requires OwnershipInvariant(s) && Enabled(s, p)
    ensures OwnershipInvariant(Moved(s, p, i))
  {
    var before := s.procs[p];
    if before.Uploading? || before.Stored? {
      UploadMove(s, p, i);
    } else if before.Verified? || before.Ready? {
      SendMove(s, p, i);
    } else if before.Fetched? {
      MovedFetched(s, p, i);
      ApplyStep(s, p, before.target, before.action, before.other, before.snapshot, i);
    } else {
      QuietMove(s, p, i);
    }
  }

  lemma BeginKeepsExclusive(s: State, p: nat, proc: Proc)
    requires Exclusivity(s) && p !in s.procs && Held(proc).None?
    ensures Exclusive(HeldBy(s.procs[p := proc]), s.db.uploads.Keys, CarriedBy(s.db.rows))
  {
    LetGo(HeldBy(s.procs), s.db.uploads.Keys, CarriedBy(s.db.rows), p, s.db.uploads.Keys);
    assert HeldBy(s.procs[p := proc]) == HeldBy(s.procs)[p := Held(proc)];
  }

  lemma OthersKeepOwnership(s: State, e: Event)
    requires OwnershipInvariant(s) && !e.Move?
    ensures OwnershipInvariant(Step(s, e))
  {
    if e.Begin? && e.p !in s.procs && (e.proc.Uploading? || e.proc.Starting?) {
      BeginKeepsExclusive(s, e.p, e.proc);
    }
  }

  lemma OwnershipStep(s: State, e: Event)
    requires OwnershipInvariant(s)
    ensures OwnershipInvariant(Step(s, e))
  {
    if e.Move? {
      if Enabled(s, e.p) { MoveStep(s, e.p, e.input); }
    } else {
      OthersKeepOwnership(s, e);
    }
  }

  lemma {:induction false} ReachableOwnership(s: State, events: seq<Event>)
    requires OwnershipInvariant(s)
    ensures OwnershipInvariant(Run(s, events))
    decreases |events|
  {
    if events != [] {
      OwnershipStep(s, events[0]);
      ReachableOwnership(Step(s, events[0]), events[1..]);
    }
  }

  // ---- The results ----

  /** In every reachable state an attachment id is on at most one message. */
  lemma AttachmentUsedOnce(events: seq<Event>, m: MessageId, n: MessageId, a: string)
    requires var rows := Run(INITIAL, events).db.rows;
             m in rows && n in rows && Carries(rows[m], a) && Carries(rows[n], a)
    ensures m == n
  {
    ReachableOwnership(INITIAL, events);
    var rows := Run(INITIAL, events).db.rows;
    assert CarriedBy(rows)[m] == Some(a) && CarriedBy(rows)[n] == Some(a);
  }

  /** Its message was sent by its uploader, and says of it exactly what the upload
      recorded: a size within the limits and the type its own bytes have. */
  lemma AttachmentIsUploaders(events: seq<Event>, m: MessageId)
    requires m in Run(INITIAL, events).db.rows
    requires Run(INITIAL, events).db.rows[m].metadata.Some?
    ensures var s := Run(INITIAL, events);
            exists a :: && a in s.originals && Carries(s.db.rows[m], a)
                        && s.db.rows[m].metadata == Some(Describe(a, s.originals[a].record))
                        && s.db.rows[m].sender == s.originals[a].record.uploader
                        && Genuine(a, s.originals[a])
  {
    ReachableOwnership(INITIAL, events);
    var s := Run(INITIAL, events);
    CarriedIsTracked(s.originals, s.db.rows, m);
    var a := AttachmentOf(s.db.rows[m].metadata).value;
    assert a in s.originals && Carries(s.db.rows[m], a) && Genuine(a, s.originals[a]);
  }

  /** A send that holds an attachment finds no row that carries it. */
  lemma HeldIsNotCarried(s: State, p: nat)
    requires OwnershipInvariant(s) && p in s.procs && s.procs[p].Ready? && s.procs[p].metadata.Some?
    ensures AttachmentOf(s.procs[p].metadata) == s.procs[p].call.attachment
    ensures s.procs[p].call.attachment.Some?
    ensures forall m :: m in s.db.rows ==> !Carries(s.db.rows[m], s.procs[p].call.attachment.value)
  {
    assert Tracked(s.originals, s.procs[p]);
    var a := s.procs[p].call.attachment.value;
    DescribeRoundTrip(a, s.originals[a].record);
    forall m | m in s.db.rows ensures !Carries(s.db.rows[m], a) {
      assert HeldBy(s.procs)[p] != CarriedBy(s.db.rows)[m];
    }
  }

  /** The protocol alone keeps attachments unique: the table's unique index never has
      to refuse an insert. */
  lemma UniqueIndexNeverRefuses(events: seq<Event>, p: nat, i: Input)
    requires var s := Run(INITIAL, events);
             && p in s.procs && s.procs[p].Ready? && i.id !in s.db.rows
             && (s.procs[p].call.replyTo.None? || s.procs[p].call.replyTo.value in s.db.rows)
    ensures var s := Run(INITIAL, events); var r := s.procs[p];
            Insert(s.db, r.call, r.other, r.metadata, i).proc.Applied?
  {
    ReachableOwnership(INITIAL, events);
    var s := Run(INITIAL, events);
    if s.procs[p].metadata.Some? {
      HeldIsNotCarried(s, p);
    }
  }
}
