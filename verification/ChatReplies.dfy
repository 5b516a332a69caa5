/** Replies: every reply link points to an earlier message of the same conversation, so
    following the links ends, and the replies form a forest. */
module ChatReplies {
  import opened Common
  import opened MessageTable
  import opened Chat
  import opened ChatMachine

  ghost predicate AnswersEarlier(rows: Rows, births: map<MessageId, nat>, m: MessageId)
    requires m in rows && m in births
  {
    rows[m].replyTo.Some? ==>
      var r := rows[m].replyTo.value;
      r in rows && r in births && births[r] < births[m] && rows[r].conversation == rows[m].conversation
  }

  ghost predicate Forest(rows: Rows, births: map<MessageId, nat>) {
    && rows.Keys == births.Keys
    && forall m :: m in rows ==> m in births && AnswersEarlier(rows, births, m)
  }

  ghost predicate AnswersExisting(rows: Rows, s: SendCall) {
    s.replyTo.Some? ==> s.replyTo.value in rows && rows[s.replyTo.value].conversation == s.conversation
  }

  ghost predicate ReplyChecked(rows: Rows, p: Proc) {
    match p
    case Verified(s, _) => AnswersExisting(rows, s)
    case Ready(s, _, _) => AnswersExisting(rows, s)
    case _ => true
  }

  ghost predicate RepliesInvariant(s: State) {
    && Forest(s.db.rows, s.births)
    && (forall m :: m in s.births ==> s.births[m] < s.count)
    && (forall p :: p in s.procs ==> ReplyChecked(s.db.rows, s.procs[p]))
  }

  lemma ReplyStaysChecked(a: Rows, b: Rows, p: Proc)
    requires RowsEvolve(a, b) && ReplyChecked(a, p)
    ensures ReplyChecked(b, p)
  {
    if (p.Verified? || p.Ready?) && p.call.replyTo.Some? {
      var r := p.call.replyTo.value;
      assert r in b && RowEvolves(a[r], b[r]);
    }
  }

  lemma ChecksStay(procs: map<nat, Proc>, a: Rows, b: Rows)
    requires RowsEvolve(a, b)
    requires forall p :: p in procs ==> ReplyChecked(a, procs[p])
    ensures forall p :: p in procs ==> ReplyChecked(b, procs[p])
  {
    forall p | p in procs ensures ReplyChecked(b, procs[p]) {
      ReplyStaysChecked(a, b, procs[p]);
    }
  }

  lemma InsertKeepsForest(s: State, p: nat, i: Input)
    requires RepliesInvariant(s) && p in s.procs && s.procs[p].Ready?
    ensures var c := Insert(s.db, s.procs[p].call, s.procs[p].other, s.procs[p].metadata, i);
            RepliesInvariant(WithBirth(Replaced(s, p, c), c))
  {
    var c := Insert(s.db, s.procs[p].call, s.procs[p].other, s.procs[p].metadata, i);
    assert ReplyChecked(s.db.rows, s.procs[p]);
    assert RowsEvolve(s.db.rows, c.db.rows);
    ChecksStay(s.procs, s.db.rows, c.db.rows);
  }

  lemma StatementKeepsForest(rows: Rows, births: map<MessageId, nat>, t: Target, a: Action, stamp: Time)
    requires Forest(rows, births)
    ensures Forest(Statement(rows, t, a, stamp).rows, births)
  {
  }

  lemma ApplyKeepsForest(s: State, p: nat, f: Proc, i: Input)
    requires RepliesInvariant(s) && f.Fetched?
    ensures RepliesInvariant(Replaced(s, p, Apply(s.db, f.target, f.action, f.other, f.snapshot, i)))
  {
    StatementKeepsForest(s.db.rows, s.births, f.target, f.action, i.stamp);
    StatementEvolves(s.db.rows, f.target, f.action, i.stamp);
    ChecksStay(s.procs, s.db.rows, Statement(s.db.rows, f.target, f.action, i.stamp).rows);
  }

  lemma AdvanceKeepsReplies(env: Env, c: Config, i: Input)
    requires !c.proc.Ready? && !c.proc.Fetched? && ReplyChecked(c.db.rows, c.proc)
    ensures var d := Advance(env, c, i); d.db.rows == c.db.rows && ReplyChecked(c.db.rows, d.proc)
  {
  }

  lemma BirthsElsewhere(s: State, p: nat, i: Input)
    requires Enabled(s, p) && !s.procs[p].Ready?
    ensures Moved(s, p, i).births == s.births && Moved(s, p, i).count == s.count
  {
  }

  lemma OtherMove(s: State, p: nat, i: Input)
    requires Enabled(s, p) && !s.procs[p].Ready? && !s.procs[p].Fetched?
    requires ReplyChecked(s.db.rows, s.procs[p])
    ensures var s' := Moved(s, p, i);
            && s'.db.rows == s.db.rows && s'.births == s.births && s'.count == s.count
            && s'.procs == s.procs[p := s'.procs[p]]
            && ReplyChecked(s.db.rows, s'.procs[p])
  {
    MovedIsAdvance(s, p, i);
    AdvanceKeepsReplies(s.env, Config(s.db, s.procs[p]), i);
    BirthsElsewhere(s, p, i);
  }

  lemma RepliesStep(s: State, e: Event)
    requires RepliesInvariant(s)
    ensures RepliesInvariant(Step(s, e))
  {
    if e.Move? && Enabled(s, e.p) {
      var before := s.procs[e.p];
      if before.Ready? {
        MovedReady(s, e.p, e.input);
        InsertKeepsForest(s, e.p, e.input);
      } else if before.Fetched? {
        MovedFetched(s, e.p, e.input);
        ApplyKeepsForest(s, e.p, before, e.input);
      } else {
        OtherMove(s, e.p, e.input);
      }
    }
  }

  lemma {:induction false} ReachableReplies(s: State, events: seq<Event>)
    requires RepliesInvariant(s)
    ensures RepliesInvariant(Run(s, events))
    decreases |events|
  {
    if events != [] {
      RepliesStep(s, events[0]);
      ReachableReplies(Step(s, events[0]), events[1..]);
    }
  }

  // ---- The results ----

  /** The messages met when following reply links, from `m` on. The order of insertion
      is what makes this end. */
  ghost function Thread(rows: Rows, births: map<MessageId, nat>, m: MessageId): (t: seq<MessageId>)
    requires Forest(rows, births) && m in rows
    ensures t != [] && t[0] == m
    ensures forall k :: 0 <= k < |t| ==> t[k] in rows
    decreases births[m]
  {
    assert AnswersEarlier(rows, births, m);
    if rows[m].replyTo.None? then [m] else [m] + Thread(rows, births, rows[m].replyTo.value)
  }

  /** It ends at a message that answers nothing, stays in one conversation, and goes
      strictly back in the order of insertion, so it never comes back to a message. */
  lemma {:induction false} ThreadIsPath(rows: Rows, births: map<MessageId, nat>, m: MessageId)
    requires Forest(rows, births) && m in rows
    ensures var t := Thread(rows, births, m);
            && (forall k :: 0 <= k < |t| ==> rows[t[k]].conversation == rows[m].conversation)
            && (forall k :: 0 < k < |t| ==> births[t[k]] < births[m])
            && NoDuplicates(t)
            && rows[t[|t| - 1]].replyTo.None?
            && |t| <= births[m] + 1
    decreases births[m]
  {
    assert AnswersEarlier(rows, births, m);
    if rows[m].replyTo.Some? {
      var r := rows[m].replyTo.value;
      var rest := Thread(rows, births, r);
      var t := Thread(rows, births, m);
      ThreadIsPath(rows, births, r);
      assert t == [m] + rest;
      forall k | 0 < k < |t| ensures births[t[k]] < births[m] {
        assert t[k] == rest[k - 1];
      }
    }
  }

  /** In every reachable state the thread of every message is such a path. */
  lemma RepliesFormForest(events: seq<Event>, m: MessageId)
    requires m in Run(INITIAL, events).db.rows
    ensures var s := Run(INITIAL, events);
            && Forest(s.db.rows, s.births)
            && var t := Thread(s.db.rows, s.births, m);
               && NoDuplicates(t)
               && s.db.rows[t[|t| - 1]].replyTo.None?
               && forall k :: 0 <= k < |t| ==> s.db.rows[t[k]].conversation == s.db.rows[m].conversation
  {
    ReachableReplies(INITIAL, events);
    ThreadIsPath(Run(INITIAL, events).db.rows, Run(INITIAL, events).births, m);
  }
}
