/** What a request does to the outside, and how often: of all requests that want the
    same once-only change of a message, at most one makes it and announces it. */
module ChatEffects {
  import opened Common
  import opened MessageTable
  import opened Chat
  import opened ChatMachine
  import opened ChatRows

  /** A change that can happen to a message once: its insertion, deletion or reading. */
  datatype Claim = Claim(kind: EventKind, id: MessageId)

  function ClaimOf(r: Request, id: MessageId): Option<Claim> {
    if r.Kind() == MessageEdited then None else Some(Claim(r.Kind(), id))
  }

  /** The change a request has made and not yet announced. */
  function Pending(p: Proc): Option<Claim> {
    match p
    case Applied(r, _, id, _) => ClaimOf(r, id)
    case Cleaned(r, _, id, _) => ClaimOf(r, id)
    case _ => None
  }

  /** The change a request has made. A finished read may have found the message read. */
  function Won(p: Proc): Option<Claim> {
    match p
    case Finished(r, Ok(response)) => if r.Kind() == MessageRead then None else ClaimOf(r, response.id)
    case _ => Pending(p)
  }

  ghost predicate Settled(rows: Rows, c: Claim) {
    && c.id in rows
    && (c.kind == MessageDeleted ==> rows[c.id].deletedAt.Some?)
    && (c.kind == MessageRead ==> rows[c.id].readAt.Some?)
  }

  function Announced(f: Fanout): Claim {
    Claim(f.kind, f.payload.id)
  }

  ghost predicate Targeted(rows: Rows, p: Proc) {
    match p
    case Applied(Act(t, _), _, id, row) => id == t.message && id in rows && row.metadata == rows[id].metadata
    case Cleaned(r, _, id, _) => r.Act? && r.action.Delete? && id == r.target.message
    case Finished(Act(t, _), Ok(response)) => response.id == t.message
    case _ => true
  }

  ghost predicate Winners(procs: map<nat, Proc>, rows: Rows) {
    && (forall p :: p in procs && Won(procs[p]).Some? ==> Settled(rows, Won(procs[p]).value))
    && (forall p, q :: p in procs && q in procs && p != q && Won(procs[p]).Some? ==> Won(procs[p]) != Won(procs[q]))
  }

  ghost predicate Announcements(procs: map<nat, Proc>, rows: Rows, fanouts: seq<Fanout>) {
    && (forall i :: 0 <= i < |fanouts| && fanouts[i].kind != MessageEdited ==> Settled(rows, Announced(fanouts[i])))
    && (forall i, p :: 0 <= i < |fanouts| && p in procs ==> Pending(procs[p]) != Some(Announced(fanouts[i])))
    && (forall i, j :: 0 <= i < j < |fanouts| && fanouts[i].kind != MessageEdited ==>
                         Announced(fanouts[i]) != Announced(fanouts[j]))
  }

  ghost predicate EffectsInvariant(s: State) {
    && (forall p :: p in s.procs ==> Targeted(s.db.rows, s.procs[p]))
    && Winners(s.procs, s.db.rows)
    && Announcements(s.procs, s.db.rows, s.db.fanouts)
  }

  lemma SettledStays(a: Rows, b: Rows, c: Claim)
    requires RowsEvolve(a, b) && Settled(a, c)
    ensures Settled(b, c)
  {
  }

  /** A request that makes a change which nobody had made. */
  lemma Winning(procs: map<nat, Proc>, rows: Rows, fanouts: seq<Fanout>, p: nat, after: Proc, rows': Rows)
    requires Winners(procs, rows) && Announcements(procs, rows, fanouts)
    requires RowsEvolve(rows, rows')
    requires Won(after) == Pending(after)
    requires Won(after).Some? ==> Settled(rows', Won(after).value) && !Settled(rows, Won(after).value)
    requires Won(after).Some? ==> Won(after).value.kind != MessageEdited
    ensures Winners(procs[p := after], rows') && Announcements(procs[p := after], rows', fanouts)
  {
    forall q | q in procs && Won(procs[q]).Some? ensures Settled(rows', Won(procs[q]).value) {
      SettledStays(rows, rows', Won(procs[q]).value);
    }
    forall i | 0 <= i < |fanouts| && fanouts[i].kind != MessageEdited ensures Settled(rows', Announced(fanouts[i])) {
      SettledStays(rows, rows', Announced(fanouts[i]));
    }
  }

  /** A request that goes on with the change it has made, or without any. */
  lemma GoingOn(procs: map<nat, Proc>, rows: Rows, fanouts: seq<Fanout>, p: nat, after: Proc)
    requires Winners(procs, rows) && Announcements(procs, rows, fanouts)
    requires Won(after).None? || (p in procs && Won(after) == Won(procs[p]))
    requires Pending(after).None? || (p in procs && Pending(after) == Pending(procs[p]))
    ensures Winners(procs[p := after], rows) && Announcements(procs[p := after], rows, fanouts)
  {
  }

  /** A request that announces its change, and is done. */
  lemma Announcing(procs: map<nat, Proc>, rows: Rows, fanouts: seq<Fanout>, p: nat, after: Proc, f: Fanout)
    requires Winners(procs, rows) && Announcements(procs, rows, fanouts) && p in procs
    requires Pending(after).None?
    requires Pending(procs[p]) == if f.kind == MessageEdited then None else Some(Announced(f))
    requires Won(procs[p]) == Pending(procs[p])
    requires Won(after).None? || Won(after) == Won(procs[p])
    ensures Winners(procs[p := after], rows) && Announcements(procs[p := after], rows, fanouts + [f])
  {
    var procs', all := procs[p := after], fanouts + [f];
    GoingOn(procs, rows, fanouts, p, after);
    forall q | q in procs' ensures Pending(procs'[q]) != Some(Announced(f)) {
      if q != p && Pending(procs[q]).Some? {
        assert Won(procs[q]) == Pending(procs[q]);
        assert Pending(procs[q]).value.kind != MessageEdited;
      }
    }
    forall i, j | 0 <= i < j < |all| && all[i].kind != MessageEdited ensures Announced(all[i]) != Announced(all[j]) {
      if j == |fanouts| {
        assert Pending(procs[p]) != Some(Announced(fanouts[i]));
      }
    }
  }

  // ---- One step of each kind ----

  lemma TargetsStay(procs: map<nat, Proc>, a: Rows, b: Rows)
    requires RowsEvolve(a, b)
    requires forall p :: p in procs ==> Targeted(a, procs[p])
    ensures forall p :: p in procs ==> Targeted(b, procs[p])
  {
  }

  lemma ApplyWins(db: Db, t: Target, a: Action, other: UserId, snapshot: Row, i: Input)
    requires Stale(db.rows, t, snapshot)
    ensures var c := Apply(db, t, a, other, snapshot, i);
            && RowsEvolve(db.rows, c.db.rows) && Won(c.proc) == Pending(c.proc)
            && Targeted(c.db.rows, c.proc)
            && (Won(c.proc).Some? ==>
                  && Won(c.proc).value.kind != MessageEdited
                  && Settled(c.db.rows, Won(c.proc).value) && !Settled(db.rows, Won(c.proc).value))
  {
    StatementEvolves(db.rows, t, a, i.stamp);
  }

  lemma ApplyMove(s: State, p: nat, i: Input)
    requires RowsInvariant(s) && EffectsInvariant(s) && Enabled(s, p) && s.procs[p].Fetched?
    ensures EffectsInvariant(Moved(s, p, i))
  {
    var f := s.procs[p];
    assert Established(s.env, s.db.rows, f);
    var c := Apply(s.db, f.target, f.action, f.other, f.snapshot, i);
    MovedFetched(s, p, i);
    ApplyWins(s.db, f.target, f.action, f.other, f.snapshot, i);
    Winning(s.procs, s.db.rows, s.db.fanouts, p, c.proc, c.db.rows);
    TargetsStay(s.procs, s.db.rows, c.db.rows);
  }

  lemma InsertWins(db: Db, call: SendCall, other: UserId, metadata: Option<Metadata.Json>, i: Input)
    ensures var c := Insert(db, call, other, metadata, i);
            && RowsEvolve(db.rows, c.db.rows) && Won(c.proc) == Pending(c.proc)
            && (Won(c.proc).Some? ==>
                  && Won(c.proc).value.kind != MessageEdited
                  && Settled(c.db.rows, Won(c.proc).value) && !Settled(db.rows, Won(c.proc).value))
  {
  }

  lemma InsertMove(s: State, p: nat, i: Input)
    requires EffectsInvariant(s) && Enabled(s, p) && s.procs[p].Ready?
    ensures EffectsInvariant(Moved(s, p, i))
  {
    var r := s.procs[p];
    var c := Insert(s.db, r.call, r.other, r.metadata, i);
    MovedReady(s, p, i);
    InsertWins(s.db, r.call, r.other, r.metadata, i);
    Winning(s.procs, s.db.rows, s.db.fanouts, p, c.proc, c.db.rows);
    TargetsStay(s.procs, s.db.rows, c.db.rows);
  }

  lemma PublishMove(s: State, p: nat, i: Input)
    requires EffectsInvariant(s) && Enabled(s, p) && Publishing(s.procs[p])
    ensures EffectsInvariant(Moved(s, p, i))
  {
    var d := s.procs[p];
    var c := Publish(s.env, s.db, d.request, d.other, d.id, d.row);
    MovedPublishing(s, p, i);
    assert Targeted(s.db.rows, d);
    Announcing(s.procs, s.db.rows, s.db.fanouts, p, c.proc, c.db.fanouts[|s.db.fanouts|]);
  }

  lemma DeletingMove(s: State, p: nat, i: Input)
    requires EffectsInvariant(s) && Enabled(s, p) && Deleting(s.procs[p])
    ensures EffectsInvariant(Moved(s, p, i))
  {
    var d := s.procs[p];
    MovedDeleting(s, p, i);
    assert Targeted(s.db.rows, d);
    GoingOn(s.procs, s.db.rows, s.db.fanouts, p, Cleaned(d.request, d.other, d.id, d.row));
  }

  /** Where a move can lead that neither changes rows nor announces anything. */
  lemma SilentMove(s: State, p: nat, i: Input)
    requires Enabled(s, p)
    requires !s.procs[p].Fetched? && !s.procs[p].Ready? && !Publishing(s.procs[p]) && !Deleting(s.procs[p])
    ensures var s' := Moved(s, p, i);
            && s'.procs == s.procs[p := s'.procs[p]] && s'.db.rows == s.db.rows && s'.db.fanouts == s.db.fanouts
            && Pending(s'.procs[p]).None?
            && (s'.procs[p] == s.procs[p] || (Won(s'.procs[p]).None? && Targeted(s.db.rows, s'.procs[p])))
  {
    if Looking(s.procs[p]) { MovedLooking(s, p, i); }
  }

  lemma EffectsStep(s: State, e: Event)
    requires RowsInvariant(s) && EffectsInvariant(s)
    ensures EffectsInvariant(Step(s, e))
  {
    if e.Move? {
      if Enabled(s, e.p) {
        var p := s.procs[e.p];
        if p.Fetched? { ApplyMove(s, e.p, e.input); }
        else if p.Ready? { InsertMove(s, e.p, e.input); }
        else if Publishing(p) { PublishMove(s, e.p, e.input); }
        else if Deleting(p) { DeletingMove(s, e.p, e.input); }
        else {
          SilentMove(s, e.p, e.input);
          GoingOn(s.procs, s.db.rows, s.db.fanouts, e.p, Moved(s, e.p, e.input).procs[e.p]);
        }
      }
    } else if e.Begin? && e.p !in s.procs && (e.proc.Uploading? || e.proc.Starting?) {
      GoingOn(s.procs, s.db.rows, s.db.fanouts, e.p, e.proc);
    }
  }

  lemma {:induction false} ReachableEffects(s: State, events: seq<Event>)
    requires RowsInvariant(s) && EffectsInvariant(s)
    ensures RowsInvariant(Run(s, events)) && EffectsInvariant(Run(s, events))
    decreases |events|
  {
    if events != [] {
      RowsInvariantStep(s, events[0]);
      EffectsStep(s, events[0]);
      ReachableEffects(Step(s, events[0]), events[1..]);
    }
  }

  // ---- The results ----

  predicate DeleteSucceeded(p: Proc, m: MessageId) {
    p.Finished? && p.request.Act? && p.request.action.Delete? && p.request.target.message == m && p.answer.Ok?
  }

  /** Of any number of concurrent deletions of one message at most one succeeds. */
  lemma OneDeleteSucceeds(events: seq<Event>, p: nat, q: nat, m: MessageId)
    requires var procs := Run(INITIAL, events).procs;
             p in procs && q in procs && DeleteSucceeded(procs[p], m) && DeleteSucceeded(procs[q], m)
    ensures p == q
  {
    ReachableEffects(INITIAL, events);
    var s := Run(INITIAL, events);
    assert Targeted(s.db.rows, s.procs[p]) && Targeted(s.db.rows, s.procs[q]);
    assert Won(s.procs[p]) == Some(Claim(MessageDeleted, m)) && Won(s.procs[q]) == Some(Claim(MessageDeleted, m));
  }

  /** At most one `message.new`, one `message.deleted` and one `message.read` fan-out
      is ever made for a message, and the change it announces has been made. */
  lemma OneFanoutEach(events: seq<Event>, i: nat, j: nat)
    requires i < |Run(INITIAL, events).db.fanouts| && j < |Run(INITIAL, events).db.fanouts|
    requires var f := Run(INITIAL, events).db.fanouts;
             f[i].kind == f[j].kind && f[i].kind != MessageEdited && f[i].payload.id == f[j].payload.id
    ensures i == j
    ensures Settled(Run(INITIAL, events).db.rows, Announced(Run(INITIAL, events).db.fanouts[i]))
  {
    ReachableEffects(INITIAL, events);
    var f := Run(INITIAL, events).db.fanouts;
    assert Announced(f[i]) == Announced(f[j]);
  }
}
