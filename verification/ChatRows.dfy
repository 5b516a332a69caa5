/** What every reachable table of messages looks like, whatever requests interleave on
    stale copies of its rows. */
module ChatRows {
  import opened Common
  import opened Metadata
  import opened MessageTable
  import opened Chat
  import opened ChatMachine
  import opened Text

  /** The shape of a row through its life: deletion is by the sender and clears the
      content; an edit leaves a time; what is not deleted has something to show. */
  ghost predicate WellFormed(row: Row) {
    && (row.deletedAt.Some? <==> row.deletedBy.Some?)
    && (row.deletedAt.Some? ==> row.deletedBy == Some(row.sender) && row.content.None?)
    && (row.isEdited <==> row.updatedAt.Some?)
    && (row.content.Some? ==> !Blank(row.content.value))
    && (row.deletedAt.None? ==> row.content.Some? || row.metadata.Some?)
  }

  predicate Participates(env: Env, user: UserId, conversation: ConversationId) {
    && conversation in env.conversations
    && (user == env.conversations[conversation].low || user == env.conversations[conversation].high)
  }

  ghost predicate GoodRow(env: Env, row: Row) {
    WellFormed(row) && Participates(env, row.sender, row.conversation)
  }

  ghost predicate Partners(env: Env, user: UserId, other: UserId, conversation: ConversationId) {
    && conversation in env.conversations
    && env.conversations[conversation] == Canonical(user, other)
    && user != other
  }

  ghost predicate NotBlank(s: SendCall) {
    !Blank(s.content) || s.attachment.Some?
  }

  /** A stale copy of a row: everything that is final in the copy is still so. */
  ghost predicate Stale(rows: Rows, t: Target, snapshot: Row) {
    t.message in rows && RowEvolves(snapshot, rows[t.message])
  }

  ghost predicate MayAct(t: Target, a: Action, row: Row) {
    match a
    case Edit(text) => row.sender == t.user && !Blank(text)
    case Delete => row.sender == t.user
    case Read => row.sender != t.user
  }

  /** What a request has established by the time it gets to where it is. */
  ghost predicate Established(env: Env, rows: Rows, p: Proc) {
    match p
    case Joined(r, other) =>
      Partners(env, r.User(), other, r.Conversation()) && (r.Act? && r.action.Edit? ==> !Blank(r.action.text))
    case Unblocked(r, other) =>
      && Partners(env, r.User(), other, r.Conversation())
      && (match r case Send(s) => NotBlank(s) case Act(_, a) => a.Edit? ==> !Blank(a.text))
    case Verified(s, other) => Partners(env, s.user, other, s.conversation) && NotBlank(s)
    case Ready(s, other, metadata) =>
      Partners(env, s.user, other, s.conversation) && (!Blank(s.content) || metadata.Some?)
    case Fetched(t, a, other, snapshot) =>
      && Partners(env, t.user, other, t.conversation) && Stale(rows, t, snapshot) && MayAct(t, a, snapshot)
      && snapshot.conversation == t.conversation
    case Applied(r, other, _, row) => Partners(env, r.User(), other, row.conversation)
    case Cleaned(r, other, _, row) => Partners(env, r.User(), other, row.conversation)
    case _ => true
  }

  ghost predicate RowsInvariant(s: State) {
    && (forall c :: c in s.env.conversations ==> s.env.conversations[c].low < s.env.conversations[c].high)
    && (forall m :: m in s.db.rows ==> GoodRow(s.env, s.db.rows[m]))
    && (forall p :: p in s.procs ==> Established(s.env, s.db.rows, s.procs[p]))
  }

  ghost predicate EnvGrows(a: Env, b: Env) {
    forall c :: c in a.conversations ==> c in b.conversations && b.conversations[c] == a.conversations[c]
  }

  lemma OtherIsPartner(env: Env, user: UserId, conversation: ConversationId)
    requires forall c :: c in env.conversations ==> env.conversations[c].low < env.conversations[c].high
    requires OtherParticipant(env, user, conversation).Ok?
    ensures Partners(env, user, OtherParticipant(env, user, conversation).value, conversation)
  {
  }

  lemma FetchEstablishes(env: Env, db: Db, t: Target, a: Action, other: UserId, i: Input)
    requires Partners(env, t.user, other, t.conversation)
    requires a.Edit? ==> !Blank(a.text)
    ensures Established(env, db.rows, Fetch(db, t, a, other, i).proc)
  {
  }

  lemma AdvanceEstablishes(env: Env, c: Config, i: Input)
    requires forall c :: c in env.conversations ==> env.conversations[c].low < env.conversations[c].high
    requires Established(env, c.db.rows, c.proc)
    ensures Established(env, Advance(env, c, i).db.rows, Advance(env, c, i).proc)
  {
    if c.proc.Starting? {
      var r := c.proc.request;
      if OtherParticipant(env, r.User(), r.Conversation()).Ok? {
        OtherIsPartner(env, r.User(), r.Conversation());
      }
    } else if (c.proc.Joined? || c.proc.Unblocked?) && c.proc.request.Act? {
      FetchEstablishes(env, c.db, c.proc.request.target, c.proc.request.action, c.proc.other, i);
    }
  }

  lemma StatementKeepsShape(env: Env, rows: Rows, t: Target, a: Action, snapshot: Row, stamp: Time)
    requires forall m :: m in rows ==> GoodRow(env, rows[m])
    requires Stale(rows, t, snapshot) && MayAct(t, a, snapshot)
    ensures var after := Statement(rows, t, a, stamp).rows;
            forall m :: m in after ==> GoodRow(env, after[m])
  {
  }

  lemma InsertKeepsShape(env: Env, db: Db, call: SendCall, other: UserId, metadata: Option<Json>, i: Input)
    requires Established(env, db.rows, Ready(call, other, metadata))
    requires forall m :: m in db.rows ==> GoodRow(env, db.rows[m])
    ensures var rows := Insert(db, call, other, metadata, i).db.rows;
            forall m :: m in rows ==> GoodRow(env, rows[m])
  {
    assert GoodRow(env, Draft(call, metadata, i.created));
  }

  lemma AdvanceKeepsShape(env: Env, c: Config, i: Input)
    requires Established(env, c.db.rows, c.proc)
    requires forall m :: m in c.db.rows ==> GoodRow(env, c.db.rows[m])
    ensures var rows := Advance(env, c, i).db.rows;
            forall m :: m in rows ==> GoodRow(env, rows[m])
  {
    if c.proc.Ready? {
      assert Advance(env, c, i) == Insert(c.db, c.proc.call, c.proc.other, c.proc.metadata, i);
      InsertKeepsShape(env, c.db, c.proc.call, c.proc.other, c.proc.metadata, i);
    } else if c.proc.Fetched? {
      assert Advance(env, c, i) == Apply(c.db, c.proc.target, c.proc.action, c.proc.other, c.proc.snapshot, i);
      StatementKeepsShape(env, c.db.rows, c.proc.target, c.proc.action, c.proc.snapshot, i.stamp);
    } else {
      assert Advance(env, c, i).db.rows == c.db.rows;
    }
  }

  lemma EnvSteps(s: State, e: Event)
    ensures EnvGrows(s.env, Step(s, e).env)
  {
  }

  lemma MoveKeepsRows(s: State, p: nat, i: Input)
    requires RowsInvariant(s) && Enabled(s, p)
    ensures RowsInvariant(Moved(s, p, i))
  {
    var c := Config(s.db, s.procs[p]);
    var d := Advance(s.env, c, i);
    MovedIsAdvance(s, p, i);
    AdvanceEvolves(s.env, c, i);
    AdvanceKeepsShape(s.env, c, i);
    AdvanceEstablishes(s.env, c, i);
    ProcsStay(s.env, s.db.rows, s.env, d.db.rows, s.procs);
  }

  /** What requests have established stays established while others go on. */
  lemma ProcsStay(env: Env, rows: Rows, env': Env, rows': Rows, procs: map<nat, Proc>)
    requires forall p :: p in procs ==> Established(env, rows, procs[p])
    requires EnvGrows(env, env') && RowsEvolve(rows, rows')
    ensures forall p :: p in procs ==> Established(env', rows', procs[p])
  {
  }

  lemma EnvKeepsRows(s: State, env: Env)
    requires RowsInvariant(s) && EnvGrows(s.env, env)
    requires forall c :: c in env.conversations ==> env.conversations[c].low < env.conversations[c].high
    ensures RowsInvariant(s.(env := env))
  {
    ProcsStay(s.env, s.db.rows, env, s.db.rows, s.procs);
  }

  lemma OthersKeepRows(s: State, e: Event)
    requires RowsInvariant(s) && !e.Move?
    ensures RowsInvariant(Step(s, e))
  {
    if !e.Begin? {
      EnvSteps(s, e);
      EnvKeepsRows(s, Step(s, e).env);
    }
  }

  lemma RowsInvariantStep(s: State, e: Event)
    requires RowsInvariant(s)
    ensures RowsInvariant(Step(s, e))
  {
    if e.Move? {
      if Enabled(s, e.p) {
        MoveKeepsRows(s, e.p, e.input);
      }
    } else {
      OthersKeepRows(s, e);
    }
  }

  /** The row shape holds in every reachable state. */
  lemma {:induction false} ReachableRows(s: State, events: seq<Event>)
    requires RowsInvariant(s)
    ensures RowsInvariant(Run(s, events))
    decreases |events|
  {
    if events != [] {
      RowsInvariantStep(s, events[0]);
      ReachableRows(Step(s, events[0]), events[1..]);
    }
  }

  // ---- Who hears of a change ----

  /** An event goes from one participant of its message's conversation to the other. */
  ghost predicate Addressed(env: Env, fanouts: seq<Fanout>) {
    forall i :: 0 <= i < |fanouts| ==>
                  Partners(env, fanouts[i].origin, fanouts[i].recipient, fanouts[i].payload.conversation)
  }

  lemma AdvanceAddresses(env: Env, c: Config, i: Input)
    requires Established(env, c.db.rows, c.proc) && Addressed(env, c.db.fanouts)
    ensures Addressed(env, Advance(env, c, i).db.fanouts)
  {
    if Publishing(c.proc) {
      assert Advance(env, c, i) == Publish(env, c.db, c.proc.request, c.proc.other, c.proc.id, c.proc.row);
    } else {
      assert Advance(env, c, i).db.fanouts == c.db.fanouts;
    }
  }

  lemma {:induction false} RunAddresses(s: State, events: seq<Event>)
    requires RowsInvariant(s) && Addressed(s.env, s.db.fanouts)
    ensures Addressed(Run(s, events).env, Run(s, events).db.fanouts)
    decreases |events|
  {
    if events != [] {
      var e := events[0];
      EnvSteps(s, e);
      RowsInvariantStep(s, e);
      if e.Move? && Enabled(s, e.p) {
        AdvanceAddresses(s.env, Config(s.db, s.procs[e.p]), e.input);
      }
      RunAddresses(Step(s, e), events[1..]);
    }
  }

  /** In every reachable state each row has its shape, each deleted row is final for
      every continuation, a read time once set stays, and nobody is sent an event of
      their own. */
  lemma RowsAlways(events: seq<Event>, more: seq<Event>, m: MessageId)
    requires m in Run(INITIAL, events).db.rows
    ensures WellFormed(Run(INITIAL, events).db.rows[m])
    ensures var s := Run(INITIAL, events); var t := Run(s, more);
            && m in t.db.rows
            && (s.db.rows[m].deletedAt.Some? ==> t.db.rows[m] == s.db.rows[m])
            && (s.db.rows[m].readAt.Some? ==> t.db.rows[m].readAt == s.db.rows[m].readAt)
    ensures var s := Run(INITIAL, events);
            forall i :: 0 <= i < |s.db.fanouts| ==> s.db.fanouts[i].origin != s.db.fanouts[i].recipient
  {
    ReachableRows(INITIAL, events);
    RunAddresses(INITIAL, events);
    RunEvolves(Run(INITIAL, events), more);
  }

  lemma NobodyHearsThemselves(events: seq<Event>, f: Fanout)
    requires f in Run(INITIAL, events).db.fanouts
    ensures f.origin != f.recipient
  {
    RunAddresses(INITIAL, events);
    var s := Run(INITIAL, events);
    assert Partners(s.env, f.origin, f.recipient, f.payload.conversation);
  }
}
