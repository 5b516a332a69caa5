/** A block that comes while requests are under way: which of them still get through. */
module ChatBlocks {
  import opened Common
  import opened Metadata
  import opened MessageTable
  import opened Chat
  import opened ChatMachine
  import opened ChatRows

  /** A request past its block check that may still add a message to this conversation
      or mark one as read. */
  ghost predicate Admitted(p: Proc, conversation: ConversationId) {
    match p
    case Unblocked(r, _) => r.Conversation() == conversation && (r.Send? || r.action.Read?)
    case Verified(s, _) => s.conversation == conversation
    case Ready(s, _, _) => s.conversation == conversation
    case Fetched(t, a, _, _) => t.conversation == conversation && a.Read?
    case _ => false
  }

  ghost function AdmittedOf(procs: map<nat, Proc>, conversation: ConversationId): set<nat> {
    set p | p in procs && Admitted(procs[p], conversation)
  }

  ghost function AdmittedIn(s: State, conversation: ConversationId): set<nat> {
    AdmittedOf(s.procs, conversation)
  }

  ghost function MarkedRead(rows: Rows, conversation: ConversationId): set<MessageId> {
    set m | m in rows && rows[m].conversation == conversation && rows[m].readAt.Some?
  }

  ghost function Traffic(rows: Rows, conversation: ConversationId): nat {
    |IdsOf(rows, conversation)| + |MarkedRead(rows, conversation)|
  }

  /** The block stands between the two users of the conversation. */
  ghost predicate Blocked(env: Env, conversation: ConversationId) {
    && conversation in env.conversations
    && BlockedEitherWay(env.blocks, env.conversations[conversation].low, env.conversations[conversation].high)
  }

  ghost predicate Same(x: Rows, y: Rows, conversation: ConversationId) {
    IdsOf(y, conversation) == IdsOf(x, conversation) && MarkedRead(y, conversation) == MarkedRead(x, conversation)
  }

  lemma AddOne(a: set<int>, b: set<int>, x: int)
    requires b <= a + {x}
    ensures |b| <= |a| + 1
  {
    SubsetSize(b, a + {x});
  }

  // ---- One request ----

  /** A request that comes to its block check now does not pass it. */
  lemma CheckRefuses(env: Env, db: Db, r: Request, other: UserId)
    requires Partners(env, r.User(), other, r.Conversation()) && Blocked(env, r.Conversation())
    ensures CheckBlock(env, db, r, other).proc.Finished?
  {
  }

  lemma NewRowCounts(rows: Rows, id: MessageId, row: Row, conversation: ConversationId)
    requires id !in rows && row.readAt.None?
    ensures row.conversation != conversation ==> Same(rows, rows[id := row], conversation)
    ensures Traffic(rows[id := row], conversation) <= Traffic(rows, conversation) + 1
  {
    var after := rows[id := row];
    assert MarkedRead(after, conversation) == MarkedRead(rows, conversation);
    AddOne(IdsOf(rows, conversation), IdsOf(after, conversation), id);
  }

  lemma InsertCounts(db: Db, call: SendCall, other: UserId, metadata: Option<Json>, i: Input,
                     conversation: ConversationId)
    ensures var c := Insert(db, call, other, metadata, i);
            && !Admitted(c.proc, conversation)
            && (call.conversation != conversation ==> Same(db.rows, c.db.rows, conversation))
            && Traffic(c.db.rows, conversation) <= Traffic(db.rows, conversation) + 1
  {
    var row := Draft(call, metadata, i.created);
    if Insertable(db.rows, i.id, row) {
      NewRowCounts(db.rows, i.id, row, conversation);
    }
  }

  lemma ChangedRowCounts(rows: Rows, id: MessageId, row: Row, conversation: ConversationId)
    requires id in rows && row.conversation == rows[id].conversation
    ensures row.readAt == rows[id].readAt || row.conversation != conversation ==>
              Same(rows, rows[id := row], conversation)
    ensures Traffic(rows[id := row], conversation) <= Traffic(rows, conversation) + 1
  {
    var after := rows[id := row];
    assert IdsOf(after, conversation) == IdsOf(rows, conversation);
    AddOne(MarkedRead(rows, conversation), MarkedRead(after, conversation), id);
  }

  lemma ApplyCounts(db: Db, t: Target, a: Action, other: UserId, snapshot: Row, i: Input, conversation: ConversationId)
    requires Stale(db.rows, t, snapshot) && snapshot.conversation == t.conversation
    ensures var c := Apply(db, t, a, other, snapshot, i);
            && !Admitted(c.proc, conversation)
            && (!a.Read? || t.conversation != conversation ==> Same(db.rows, c.db.rows, conversation))
            && Traffic(c.db.rows, conversation) <= Traffic(db.rows, conversation) + 1
  {
    var update := Statement(db.rows, t, a, i.stamp);
    if update.affected > 0 {
      ChangedRowCounts(db.rows, t.message, update.rows[t.message], conversation);
    }
  }

  /** Where else a request can be, it adds nothing and, under a block, is not admitted. */
  lemma OthersCount(env: Env, c: Config, i: Input, conversation: ConversationId)
    requires Established(env, c.db.rows, c.proc) && Blocked(env, conversation)
    requires !c.proc.Ready? && !c.proc.Fetched?
    ensures var d := Advance(env, c, i);
            d.db.rows == c.db.rows && (Admitted(d.proc, conversation) ==> Admitted(c.proc, conversation))
  {
    if c.proc.Joined? {
      if c.proc.request.Conversation() == conversation {
        CheckRefuses(env, c.db, c.proc.request, c.proc.other);
      }
    }
  }

  /** One step of a request: it moves the traffic of a conversation only by leaving the
      admitted, and then by one row at most. */
  lemma AdvanceCounts(env: Env, c: Config, i: Input, conversation: ConversationId)
    requires Established(env, c.db.rows, c.proc) && Blocked(env, conversation)
    ensures var d := Advance(env, c, i);
            && (Admitted(d.proc, conversation) ==> Admitted(c.proc, conversation) && d.db.rows == c.db.rows)
            && (!Admitted(c.proc, conversation) ==> Same(c.db.rows, d.db.rows, conversation))
            && Traffic(d.db.rows, conversation) <= Traffic(c.db.rows, conversation) + 1
  {
    if c.proc.Ready? {
      assert Advance(env, c, i) == Insert(c.db, c.proc.call, c.proc.other, c.proc.metadata, i);
      InsertCounts(c.db, c.proc.call, c.proc.other, c.proc.metadata, i, conversation);
    } else if c.proc.Fetched? {
      assert Advance(env, c, i) == Apply(c.db, c.proc.target, c.proc.action, c.proc.other, c.proc.snapshot, i);
      ApplyCounts(c.db, c.proc.target, c.proc.action, c.proc.other, c.proc.snapshot, i, conversation);
    } else {
      OthersCount(env, c, i, conversation);
    }
  }

  // ---- Any number of requests ----

  /** What may still come of what has been admitted. */
  ghost function Potential(s: State, conversation: ConversationId): nat {
    Traffic(s.db.rows, conversation) + |AdmittedIn(s, conversation)|
  }

  lemma MoveCounts(s: State, p: nat, i: Input, conversation: ConversationId)
    requires RowsInvariant(s) && Enabled(s, p) && Blocked(s.env, conversation)
    ensures var s' := Moved(s, p, i);
            && AdmittedIn(s', conversation) <= AdmittedIn(s, conversation)
            && Potential(s', conversation) <= Potential(s, conversation)
  {
    var c := Config(s.db, s.procs[p]);
    var d := Advance(s.env, c, i);
    assert Established(s.env, s.db.rows, s.procs[p]);
    MovedIsAdvance(s, p, i);
    AdvanceCounts(s.env, c, i, conversation);
    ReplaceCounts(s.procs, p, d.proc, conversation);
  }

  /** The admitted when one request goes on: it is still there, or it has left. */
  lemma ReplaceCounts(procs: map<nat, Proc>, p: nat, after: Proc, conversation: ConversationId)
    requires p in procs && (Admitted(after, conversation) ==> Admitted(procs[p], conversation))
    ensures var before, later := AdmittedOf(procs, conversation), AdmittedOf(procs[p := after], conversation);
            && later <= before
            && |later| + (if Admitted(procs[p], conversation) && !Admitted(after, conversation) then 1 else 0)
               <= |before|
  {
    var before, later := AdmittedOf(procs, conversation), AdmittedOf(procs[p := after], conversation);
    if Admitted(procs[p], conversation) && !Admitted(after, conversation) {
      assert later == before - {p};
    } else {
      SubsetSize(later, before);
    }
  }

  lemma StepCounts(s: State, e: Event, conversation: ConversationId)
    requires RowsInvariant(s) && Blocked(s.env, conversation)
    ensures var s' := Step(s, e);
            && AdmittedIn(s', conversation) <= AdmittedIn(s, conversation)
            && Potential(s', conversation) <= Potential(s, conversation)
  {
    if e.Move? && Enabled(s, e.p) {
      MoveCounts(s, e.p, e.input, conversation);
    } else {
      OtherStep(s, e, conversation);
    }
  }

  lemma OtherStep(s: State, e: Event, conversation: ConversationId)
    requires !(e.Move? && Enabled(s, e.p))
    ensures Step(s, e).db == s.db && AdmittedIn(Step(s, e), conversation) == AdmittedIn(s, conversation)
  {
  }

  /** The block, or one of the two, stands through the whole run. */
  ghost predicate Stands(s: State, events: seq<Event>, conversation: ConversationId)
    decreases |events|
  {
    Blocked(s.env, conversation) && (events != [] ==> Stands(Step(s, events[0]), events[1..], conversation))
  }

  lemma {:induction false} RunCounts(s: State, events: seq<Event>, conversation: ConversationId)
    requires RowsInvariant(s) && Stands(s, events, conversation)
    ensures var t := Run(s, events);
            && AdmittedIn(t, conversation) <= AdmittedIn(s, conversation)
            && Potential(t, conversation) <= Potential(s, conversation)
    decreases |events|
  {
    if events != [] {
      RowsInvariantStep(s, events[0]);
      StepCounts(s, events[0], conversation);
      RunCounts(Step(s, events[0]), events[1..], conversation);
    }
  }

  /** While a block stands, in any interleaving, only requests that had passed their
      block check when it came can still add a message to the conversation or mark one
      as read, each one row at most; nobody else gets past the check. If there were
      none, the conversation gets neither. */
  lemma OnlyAdmittedGetThrough(before: seq<Event>, during: seq<Event>, conversation: ConversationId)
    requires Stands(Run(INITIAL, before), during, conversation)
    ensures var s := Run(INITIAL, before); var t := Run(s, during);
            && AdmittedIn(t, conversation) <= AdmittedIn(s, conversation)
            && Traffic(t.db.rows, conversation) + |AdmittedIn(t, conversation)|
               <= Traffic(s.db.rows, conversation) + |AdmittedIn(s, conversation)|
            && (AdmittedIn(s, conversation) == {} ==> Same(s.db.rows, t.db.rows, conversation))
  {
    var s := Run(INITIAL, before);
    var t := Run(s, during);
    ReachableRows(INITIAL, before);
    RunCounts(s, during, conversation);
    RunEvolves(s, during);
    if AdmittedIn(s, conversation) == {} {
      NoRoom(s.db.rows, t.db.rows, conversation);
    }
  }

  lemma NoRoom(x: Rows, y: Rows, conversation: ConversationId)
    requires RowsEvolve(x, y) && Traffic(y, conversation) <= Traffic(x, conversation)
    ensures Same(x, y, conversation)
  {
    var ids, ids' := IdsOf(x, conversation), IdsOf(y, conversation);
    var read, read' := MarkedRead(x, conversation), MarkedRead(y, conversation);
    forall m | m in ids ensures m in ids' { assert RowEvolves(x[m], y[m]); }
    forall m | m in read ensures m in read' { assert RowEvolves(x[m], y[m]); }
    SubsetSize(ids, ids');
    SubsetSize(read, read');
    NoMore(ids, ids');
    NoMore(read, read');
  }

  lemma NoMore(a: set<int>, b: set<int>)
    requires a <= b && |b| <= |a|
    ensures a == b
  {
    if b - a != {} {
      var x := Pick(b - a);
      SubsetSize(a, b - {x});
    }
    assert forall x :: x in b ==> x !in b - a;
  }

  // ---- Events ----

  lemma AdvanceUnheard(env: Env, c: Config, i: Input, a: UserId, b: UserId)
    requires BlockedEitherWay(env.blocks, a, b)
    ensures Unheard(c.db.fanouts, Advance(env, c, i).db.fanouts, a, b)
  {
    if Publishing(c.proc) {
      assert Advance(env, c, i) == Publish(env, c.db, c.proc.request, c.proc.other, c.proc.id, c.proc.row);
      PublishUnheard(env, c.db, c.proc.request, c.proc.other, c.proc.id, c.proc.row, a, b);
    } else {
      assert Advance(env, c, i).db.fanouts == c.db.fanouts;
    }
  }

  lemma StepUnheard(s: State, e: Event, a: UserId, b: UserId)
    requires BlockedEitherWay(s.env.blocks, a, b)
    ensures Unheard(s.db.fanouts, Step(s, e).db.fanouts, a, b)
  {
    if e.Move? && Enabled(s, e.p) {
      MovedIsAdvance(s, e.p, e.input);
      AdvanceUnheard(s.env, Config(s.db, s.procs[e.p]), e.input, a, b);
    }
  }

  lemma UnheardTransitive(x: seq<Fanout>, y: seq<Fanout>, z: seq<Fanout>, a: UserId, b: UserId)
    requires Unheard(x, y, a, b) && Unheard(y, z, a, b)
    ensures Unheard(x, z, a, b)
  {
    assert forall k :: |x| <= k < |y| ==> z[k] == y[k];
  }

  ghost predicate StandsBetween(s: State, events: seq<Event>, a: UserId, b: UserId)
    decreases |events|
  {
    BlockedEitherWay(s.env.blocks, a, b) && (events != [] ==> StandsBetween(Step(s, events[0]), events[1..], a, b))
  }

  /** While a block stands between two users, in any interleaving, no new event between
      them passes the hub's check, whatever request it comes from. */
  lemma {:induction false} NoNewEventPasses(s: State, events: seq<Event>, a: UserId, b: UserId)
    requires StandsBetween(s, events, a, b)
    ensures Unheard(s.db.fanouts, Run(s, events).db.fanouts, a, b)
    decreases |events|
  {
    if events != [] {
      var s' := Step(s, events[0]);
      StepUnheard(s, events[0], a, b);
      NoNewEventPasses(s', events[1..], a, b);
      UnheardTransitive(s.db.fanouts, s'.db.fanouts, Run(s, events).db.fanouts, a, b);
    }
  }
}
