/** Any number of chat requests interleaved with each other, with time, and with
    changes to blocks and conversations. */
module ChatMachine {
  import opened Common
  import opened Metadata
  import opened MessageTable
  import opened Mime
  import opened Chat

  /** What an upload put into the object store, and the record it made of it. */
  datatype Original = Original(record: UploadRecord, bytes: seq<Byte>)

  /** Beside the stores and the requests: a history of all uploads, and for each
      message how many were inserted before it. */
  datatype State = State(env: Env, db: Db, procs: map<nat, Proc>, originals: map<string, Original>,
                         births: map<MessageId, nat>, count: nat)

  datatype Event =
    | Tick(elapsed: nat)
    | Begin(p: nat, proc: Proc)
    | Move(p: nat, input: Input)
    | AddBlock(block: Block)
    | DropBlock(block: Block)
    | Converse(conversation: ConversationId, pair: Pair)

  function Kept(u: UploadCall): Option<Original> {
    match Accept(u.size, u.file)
    case Err(_) => None
    case Ok(mime) =>
      match Stream(u.size, u.file)
      case Err(_) => None
      case Ok(bytes) =>
        Some(Original(UploadRecord(u.uploader, ObjectKey(u.attachment), mime, u.filename, u.size), bytes))
  }

  /** An upload draws a random identifier, which is new. */
  predicate Enabled(s: State, p: nat) {
    p in s.procs && (s.procs[p].Uploading? ==> s.procs[p].upload.attachment !in s.originals)
  }

  predicate CanConverse(s: State, c: ConversationId, pair: Pair) {
    && c !in s.env.conversations && pair.low < pair.high
    && forall d :: d in s.env.conversations ==> s.env.conversations[d] != pair
  }

  /** The state after request `p` has got to `c`. */
  function Replaced(s: State, p: nat, c: Config): State {
    s.(db := c.db, procs := s.procs[p := c.proc])
  }

  function WithOriginal(s: State, u: UploadCall): State {
    if Kept(u).Some? then s.(originals := s.originals[u.attachment := Kept(u).value]) else s
  }

  function WithBirth(s: State, c: Config): State {
    if c.proc.Applied? then s.(births := s.births[c.proc.id := s.count], count := s.count + 1) else s
  }

  function Moved(s: State, p: nat, i: Input): State
    requires Enabled(s, p)
  {
    var before := s.procs[p];
    var c := Advance(s.env, Config(s.db, before), i);
    var s' := Replaced(s, p, c);
    if before.Uploading? then WithOriginal(s', before.upload)
    else if before.Ready? then WithBirth(s', c)
    else s'
  }

  /** An event that is not possible in a state leaves it as it is. */
  function Step(s: State, e: Event): State {
    match e
    case Tick(d) => s.(env := s.env.(now := s.env.now + d))
    case Begin(p, proc) =>
      if p !in s.procs && (proc.Uploading? || proc.Starting?) then s.(procs := s.procs[p := proc]) else s
    case Move(p, i) => if Enabled(s, p) then Moved(s, p, i) else s
    case AddBlock(b) => s.(env := s.env.(blocks := s.env.blocks + {b}))
    case DropBlock(b) => s.(env := s.env.(blocks := s.env.blocks - {b}))
    case Converse(c, pair) =>
      if CanConverse(s, c, pair) then s.(env := s.env.(conversations := s.env.conversations[c := pair])) else s
  }

  function Run(s: State, events: seq<Event>): State
    decreases |events|
  {
    if events == [] then s else Run(Step(s, events[0]), events[1..])
  }

  const INITIAL := State(Env(0, map[], {}), Db(map[], map[], map[], [], []), map[], map[], map[], 0)

  // ---- How a store can change ----

  /** What no request changes in a row, what is written once, and that a deleted row
      is final. */
  ghost predicate RowEvolves(a: Row, b: Row) {
    && a.conversation == b.conversation && a.sender == b.sender && a.replyTo == b.replyTo
    && a.metadata == b.metadata && a.createdAt == b.createdAt
    && (a.isEdited ==> b.isEdited)
    && (a.readAt.Some? ==> b.readAt == a.readAt)
    && (a.deletedAt.Some? ==> b == a)
  }

  ghost predicate RowsEvolve(a: Rows, b: Rows) {
    forall m :: m in a ==> m in b && RowEvolves(a[m], b[m])
  }

  lemma RowsEvolveTransitive(a: Rows, b: Rows, c: Rows)
    requires RowsEvolve(a, b) && RowsEvolve(b, c)
    ensures RowsEvolve(a, c)
  {
  }

  // ---- What a move does, by where the request is ----

  lemma MovedIsAdvance(s: State, p: nat, i: Input)
    requires Enabled(s, p)
    ensures var c := Advance(s.env, Config(s.db, s.procs[p]), i); var s' := Moved(s, p, i);
            s'.env == s.env && s'.db == c.db && s'.procs == s.procs[p := c.proc]
  {
  }

  lemma MovedUploading(s: State, p: nat, i: Input)
    requires Enabled(s, p) && s.procs[p].Uploading?
    ensures Moved(s, p, i) == WithOriginal(Replaced(s, p, StoreObject(s.db, s.procs[p].upload)), s.procs[p].upload)
  {
  }

  lemma MovedStored(s: State, p: nat, i: Input)
    requires Enabled(s, p) && s.procs[p].Stored?
    ensures Moved(s, p, i) == Replaced(s, p, SaveRecord(s.env, s.db, s.procs[p].upload, s.procs[p].record, i.saved))
  {
  }

  lemma MovedVerified(s: State, p: nat, i: Input)
    requires Enabled(s, p) && s.procs[p].Verified?
    ensures Moved(s, p, i) == Replaced(s, p, Consume(s.env, s.db, s.procs[p].call, s.procs[p].other))
  {
  }

  lemma MovedReady(s: State, p: nat, i: Input)
    requires Enabled(s, p) && s.procs[p].Ready?
    ensures var c := Insert(s.db, s.procs[p].call, s.procs[p].other, s.procs[p].metadata, i);
            Moved(s, p, i) == WithBirth(Replaced(s, p, c), c)
  {
  }

  lemma MovedFetched(s: State, p: nat, i: Input)
    requires Enabled(s, p) && s.procs[p].Fetched?
    ensures var f := s.procs[p];
            Moved(s, p, i) == Replaced(s, p, Apply(s.db, f.target, f.action, f.other, f.snapshot, i))
  {
  }

  predicate Deleting(p: Proc) {
    p.Applied? && p.request.Act? && p.request.action.Delete?
  }

  lemma MovedDeleting(s: State, p: nat, i: Input)
    requires Enabled(s, p) && Deleting(s.procs[p])
    ensures var d := s.procs[p];
            Moved(s, p, i)
            == Replaced(s, p, Config(CleanUp(s.db, d.row.metadata, i.removed),
                                     Cleaned(d.request, d.other, d.id, d.row)))
  {
  }

  predicate Publishing(p: Proc) {
    p.Cleaned? || (p.Applied? && !Deleting(p))
  }

  lemma MovedPublishing(s: State, p: nat, i: Input)
    requires Enabled(s, p) && Publishing(s.procs[p])
    ensures var d := s.procs[p];
            Moved(s, p, i) == Replaced(s, p, Publish(s.env, s.db, d.request, d.other, d.id, d.row))
  {
  }

  /** The places from which a request only looks. */
  predicate Looking(p: Proc) {
    p.Starting? || p.Joined? || p.Unblocked? || p.Uploaded? || p.Finished?
  }

  lemma MovedLooking(s: State, p: nat, i: Input)
    requires Enabled(s, p) && Looking(s.procs[p])
    ensures var after := Moved(s, p, i).procs[p];
            && Moved(s, p, i) == Replaced(s, p, Config(s.db, after))
            && (Looking(after) || after.Verified? || after.Fetched?)
            && (after.Finished? && !s.procs[p].Finished? ==>
                  after.answer.Err? || (after.request.Act? && after.request.action.Read?))
            && (s.procs[p].Finished? ==> after == s.procs[p])
  {
  }

  lemma StatementEvolves(rows: Rows, t: Target, a: Action, stamp: Time)
    ensures RowsEvolve(rows, Statement(rows, t, a, stamp).rows)
  {
  }

  lemma AdvanceEvolves(env: Env, c: Config, i: Input)
    ensures RowsEvolve(c.db.rows, Advance(env, c, i).db.rows)
  {
    if c.proc.Ready? {
      assert Advance(env, c, i) == Insert(c.db, c.proc.call, c.proc.other, c.proc.metadata, i);
    } else if c.proc.Fetched? {
      assert Advance(env, c, i) == Apply(c.db, c.proc.target, c.proc.action, c.proc.other, c.proc.snapshot, i);
      StatementEvolves(c.db.rows, c.proc.target, c.proc.action, i.stamp);
    } else {
      assert Advance(env, c, i).db.rows == c.db.rows;
    }
  }

  lemma MovedEvolves(s: State, p: nat, i: Input)
    requires Enabled(s, p)
    ensures RowsEvolve(s.db.rows, Moved(s, p, i).db.rows)
  {
    MovedIsAdvance(s, p, i);
    AdvanceEvolves(s.env, Config(s.db, s.procs[p]), i);
  }

  lemma StepEvolves(s: State, e: Event)
    ensures RowsEvolve(s.db.rows, Step(s, e).db.rows)
  {
    if e.Move? && Enabled(s, e.p) {
      MovedEvolves(s, e.p, e.input);
    }
  }

  /** Over any run: rows stay, what is frozen stays, `readAt` is written at most once,
      and a deleted row never changes again. */
  lemma {:induction false} RunEvolves(s: State, events: seq<Event>)
    ensures RowsEvolve(s.db.rows, Run(s, events).db.rows)
    decreases |events|
  {
    if events != [] {
      StepEvolves(s, events[0]);
      RunEvolves(Step(s, events[0]), events[1..]);
      RowsEvolveTransitive(s.db.rows, Step(s, events[0]).db.rows, Run(s, events).db.rows);
    }
  }
}
