/** Whole calls of all services over one world, in any order: what a block between two
    users means for their friendship, their conversation and their events. */
module Social {
  import opened Common
  import opened Metadata
  import opened MessageTable
  import opened Chat
  import opened ChatCalls
  import opened FriendTable
  import opened BlockService
  import opened ConversationService
  import opened Stores
  import Requests = FriendService

  /** A presence event to one conversation partner, and whether it passed the hub's block
      check. */
  datatype Notice = Notice(origin: UserId, recipient: UserId, passed: bool)

  datatype World = World(users: set<UserId>, friends: Table, env: Env, db: Db, notices: seq<Notice>)

  datatype Call =
    | Friendly(friendly: Requests.Call)
    | BlockUser(block: Block)
    | UnblockUser(block: Block)
    | Converse(user: UserId, target: UserId, id: ConversationId)
    | SendOne(send: SendCall, input: Input)
    | ActOne(on: Target, action: Action, input: Input)
    | UploadOne(upload: UploadCall, input: Input)
    | Announce(client: UserId, partner: UserId)
    | Wait(elapsed: nat)

  /** Each call does what the methods of its service are proved to do. */
  ghost function Step(w: World, c: Call): World {
    match c
    case Friendly(f) => w.(friends := Requests.TableAfter(w.friends, w.users, w.env.blocks, f, w.env.now))
    case BlockUser(b) =>
      var after := BlockCall(w.friends, w.env.blocks, w.users, b);
      w.(friends := after.friends, env := w.env.(blocks := after.blocks))
    case UnblockUser(b) => w.(env := w.env.(blocks := UnblockCall(w.env.blocks, b)))
    case Converse(user, target, id) =>
      if id in w.env.conversations then w
      else
        w.(env := w.env.(conversations := Conversed(w.env.conversations, w.users, w.env.blocks, user, target, id)))
    case SendOne(s, i) => w.(db := SendWhole(w.env, w.db, s, i).db)
    case ActOne(t, a, i) => w.(db := ActWhole(w.env, w.db, t, a, i).db)
    case UploadOne(u, i) => w.(db := UploadWhole(w.env, w.db, u, i).db)
    case Announce(user, partner) =>
      if partner == user then w
      else w.(notices := w.notices + [Notice(user, partner, !BlockedEitherWay(w.env.blocks, user, partner))])
    case Wait(d) => w.(env := w.env.(now := w.env.now + d))
  }

  ghost function Run(w: World, calls: seq<Call>): World
    decreases |calls|
  {
    if calls == [] then w else Run(Step(w, calls[0]), calls[1..])
  }

  ghost function Start(users: set<UserId>): World {
    World(users, map[], Env(0, map[], {}), Db(map[], map[], map[], [], []), [])
  }

  // ---- A blocked pair is no pair of friends ----

  ghost predicate Excluded(t: Table, blocks: set<Block>) {
    forall a, b :: a != b && BlockedEitherWay(blocks, a, b) ==> Canonical(a, b) !in t
  }

  lemma BlockExcludes(t: Table, blocks: set<Block>, users: set<UserId>, b: Block)
    requires Excluded(t, blocks)
    ensures var after := BlockCall(t, blocks, users, b); Excluded(after.friends, after.blocks)
  {
  }

  /** Accepting asks nothing about blocks. It needs a row, and there is none. */
  lemma FriendlyExcludes(w: World, f: Requests.Call)
    requires Excluded(w.friends, w.env.blocks)
    ensures Excluded(Requests.TableAfter(w.friends, w.users, w.env.blocks, f, w.env.now), w.env.blocks)
  {
  }

  lemma {:induction false} NeverFriendsAcrossBlock(w: World, calls: seq<Call>)
    requires Excluded(w.friends, w.env.blocks)
    ensures Excluded(Run(w, calls).friends, Run(w, calls).env.blocks)
    decreases |calls|
  {
    if calls != [] {
      match calls[0] {
        case Friendly(f) => FriendlyExcludes(w, f);
        case BlockUser(b) => BlockExcludes(w.friends, w.env.blocks, w.users, b);
        case _ =>
      }
      NeverFriendsAcrossBlock(Step(w, calls[0]), calls[1..]);
    }
  }

  /** After any calls, two users of whom one has blocked the other are neither friends
      nor have they asked to be: each sees the other as a stranger. */
  lemma BlockedAreStrangers(users: set<UserId>, calls: seq<Call>, a: UserId, b: UserId)
    requires a != b && BlockedEitherWay(Run(Start(users), calls).env.blocks, a, b)
    ensures ViewOf(Run(Start(users), calls).friends, a, b) == Stranger
  {
    NeverFriendsAcrossBlock(Start(users), calls);
  }

  /** A block and its undoing, in any world, end a friendship and change nothing else;
      a block alone also stands. */
  lemma BlockAndUnblock(w: World, a: UserId, b: UserId)
    requires a != b && {a, b} <= w.users && Block(a, b) !in w.env.blocks
    ensures var blocked := Run(w, [BlockUser(Block(a, b))]);
            blocked == w.(friends := w.friends - {Canonical(a, b)},
                          env := w.env.(blocks := w.env.blocks + {Block(a, b)}))
    ensures Run(w, [BlockUser(Block(a, b)), UnblockUser(Block(a, b))])
            == w.(friends := w.friends - {Canonical(a, b)})
  {
    var blocked := Step(w, BlockUser(Block(a, b)));
    assert blocked.env.blocks - {Block(a, b)} == w.env.blocks;
    var undone := Step(blocked, UnblockUser(Block(a, b)));
    assert [BlockUser(Block(a, b))][1..] == [];
    assert [BlockUser(Block(a, b)), UnblockUser(Block(a, b))][1..] == [UnblockUser(Block(a, b))];
    assert [UnblockUser(Block(a, b))][1..] == [];
    assert Run(blocked, []) == blocked && Run(undone, []) == undone;
  }

  // ---- Statements on their own do not exclude ----

  /** An upsert keeps the exclusion if and only if there is no block of the pair, whatever
      was checked before. */
  lemma UpsertExcludesIff(t: Table, blocks: set<Block>, a: UserId, b: UserId, user: UserId, now: Time)
    requires Excluded(t, blocks) && a != b && Legal(Canonical(a, b), user)
    ensures Excluded(Upsert(t, Canonical(a, b), user, now).table, blocks) <==> !BlockedEitherWay(blocks, a, b)
  {
    var t' := Upsert(t, Canonical(a, b), user, now).table;
    if BlockedEitherWay(blocks, a, b) {
      assert Canonical(a, b) in t';
    } else {
      forall x, y | x != y && BlockedEitherWay(blocks, x, y) ensures Canonical(x, y) !in t' {
        CanonicalInjective(x, y, a, b);
      }
    }
  }

  /** The statements of the friend and block services, in any interleaving. */
  datatype TableStatement =
    | Friendship(op: Op)
    | BlockTransaction(block: Block)
    | Unblocking(block: Block)

  datatype Tables = Tables(friends: Table, blocks: set<Block>)

  function Executed(t: Tables, s: TableStatement, users: set<UserId>): Tables {
    match s
    case Friendship(op) => t.(friends := Execute(t.friends, op))
    case BlockTransaction(b) =>
      var after := BlockCall(t.friends, t.blocks, users, b);
      Tables(after.friends, after.blocks)
    case Unblocking(b) => t.(blocks := UnblockCall(t.blocks, b))
  }

  /** An upsert that the constraints allow comes while no block of its pair stands. */
  predicate Timely(t: Tables, s: TableStatement) {
    s.Friendship? && s.op.UpsertOp? && Legal(s.op.pair, s.op.user) ==>
      !BlockedEitherWay(t.blocks, s.op.pair.low, s.op.pair.high)
  }

  ghost predicate AlwaysExcluded(t: Tables, log: seq<TableStatement>, users: set<UserId>)
    decreases |log|
  {
    Excluded(t.friends, t.blocks) && (log != [] ==> AlwaysExcluded(Executed(t, log[0], users), log[1..], users))
  }

  ghost predicate AlwaysTimely(t: Tables, log: seq<TableStatement>, users: set<UserId>)
    decreases |log|
  {
    log != [] ==> Timely(t, log[0]) && AlwaysTimely(Executed(t, log[0], users), log[1..], users)
  }

  lemma StatementExcludesIff(t: Tables, s: TableStatement, users: set<UserId>)
    requires Excluded(t.friends, t.blocks)
    ensures Excluded(Executed(t, s, users).friends, Executed(t, s, users).blocks) <==> Timely(t, s)
  {
    match s
    case Friendship(op) =>
      if op.UpsertOp? && Legal(op.pair, op.user) {
        assert op.pair == Canonical(op.pair.low, op.pair.high);
        UpsertExcludesIff(t.friends, t.blocks, op.pair.low, op.pair.high, op.user, op.at);
      }
    case BlockTransaction(b) => BlockExcludes(t.friends, t.blocks, users, b);
    case Unblocking(_) =>
  }

  /** Statement by statement, in any interleaving: no friends row ever stands beside a
      block if and only if each upsert that the constraints allow is executed while no
      block of its pair stands. */
  lemma {:induction false} ExclusionIff(t: Tables, log: seq<TableStatement>, users: set<UserId>)
    requires Excluded(t.friends, t.blocks)
    ensures AlwaysExcluded(t, log, users) <==> AlwaysTimely(t, log, users)
    decreases |log|
  {
    if log != [] {
      var t' := Executed(t, log[0], users);
      StatementExcludesIff(t, log[0], users);
      if Excluded(t'.friends, t'.blocks) {
        ExclusionIff(t', log[1..], users);
      }
    }
  }

  /** User 1 asks user 2, who blocks user 1 between the check and the write. */
  lemma BlockInBetween()
    ensures var ask := Requests.Add(1, 2);
            var blocked := BlockCall(map[], {}, {1, 2}, Block(2, 1));
            && Requests.Refusal(map[], {1, 2}, {}, ask).None?
            && blocked.answer.Ok?
            && !Excluded(Execute(blocked.friends, Requests.StatementOf(ask, 0)), blocked.blocks)
  {
  }

  // ---- A standing block silences the pair ----

  /** The block, or one of the two, stands from the beginning of a run to its end. */
  ghost predicate Stands(w: World, calls: seq<Call>, a: UserId, b: UserId)
    decreases |calls|
  {
    BlockedEitherWay(w.env.blocks, a, b) && (calls != [] ==> Stands(Step(w, calls[0]), calls[1..], a, b))
  }

  /** No message is added to or removed from a conversation, and none becomes read. */
  ghost predicate Frozen(x: Rows, y: Rows, conversation: ConversationId) {
    && IdsOf(x, conversation) == IdsOf(y, conversation)
    && forall m :: m in x && x[m].conversation == conversation ==> m in y && y[m].readAt == x[m].readAt
  }

  ghost predicate Unnoticed(x: seq<Notice>, y: seq<Notice>, a: UserId, b: UserId) {
    && x <= y
    && forall k :: |x| <= k < |y| && {y[k].origin, y[k].recipient} == {a, b} ==> !y[k].passed
  }

  ghost predicate Silent(v: World, w: World, a: UserId, b: UserId) {
    && (forall c :: Connects(v.env.conversations, c, Canonical(a, b))
                    <==> Connects(w.env.conversations, c, Canonical(a, b)))
    && (forall c :: Connects(v.env.conversations, c, Canonical(a, b)) ==> Frozen(v.db.rows, w.db.rows, c))
    && Unheard(v.db.fanouts, w.db.fanouts, a, b)
    && Unnoticed(v.notices, w.notices, a, b)
  }

  lemma SilentTransitive(u: World, v: World, w: World, a: UserId, b: UserId)
    requires Silent(u, v, a, b) && Silent(v, w, a, b)
    ensures Silent(u, w, a, b)
  {
    forall c | Connects(u.env.conversations, c, Canonical(a, b)) ensures Frozen(u.db.rows, w.db.rows, c) {
      assert Connects(v.env.conversations, c, Canonical(a, b));
      FrozenTransitive(u.db.rows, v.db.rows, w.db.rows, c);
    }
    assert forall k :: |u.db.fanouts| <= k < |v.db.fanouts| ==> w.db.fanouts[k] == v.db.fanouts[k];
    assert forall k :: |u.notices| <= k < |v.notices| ==> w.notices[k] == v.notices[k];
  }

  lemma FrozenTransitive(x: Rows, y: Rows, z: Rows, c: ConversationId)
    requires Frozen(x, y, c) && Frozen(y, z, c)
    ensures Frozen(x, z, c)
  {
    forall m | m in x && x[m].conversation == c ensures m in z && z[m].readAt == x[m].readAt {
      assert m in IdsOf(y, c);
    }
  }

  /** What a message request does to the rows of one conversation and to the fan-outs. */
  ghost predicate Calm(env: Env, x: Db, y: Db, a: UserId, b: UserId) {
    && (forall c :: Connects(env.conversations, c, Canonical(a, b)) ==> Frozen(x.rows, y.rows, c))
    && Unheard(x.fanouts, y.fanouts, a, b)
  }

  lemma SendCalm(env: Env, db: Db, s: SendCall, i: Input, a: UserId, b: UserId)
    requires a != b && BlockedEitherWay(env.blocks, a, b)
    ensures Calm(env, db, SendWhole(env, db, s, i).db, a, b)
  {
    var c := Join(env, db, Send(s));
    if c.proc.Joined? && !BlockedEitherWay(env.blocks, s.user, c.proc.other) {
      var other := c.proc.other;
      assert !Connects(env.conversations, s.conversation, Canonical(a, b));
      var d := SendChecked(env, db, s, other, i);
      if CheckReply(db, s, other).proc.Verified? {
        var e := Consume(env, db, s, other);
        if e.proc.Ready? {
          InsertCalm(env, e.db, s, other, e.proc.metadata, i, a, b);
        }
      }
    }
  }

  lemma InsertCalm(env: Env, db: Db, s: SendCall, other: UserId, metadata: Option<Json>, i: Input, a: UserId, b: UserId)
    requires BlockedEitherWay(env.blocks, a, b)
    requires !Connects(env.conversations, s.conversation, Canonical(a, b))
    ensures Calm(env, db, InsertAndPublish(env, db, s, other, metadata, i).db, a, b)
  {
    var c := Insert(db, s, other, metadata, i);
    if c.proc.Applied? {
      PublishUnheard(env, c.db, Send(s), other, c.proc.id, c.proc.row, a, b);
    }
  }

  /** A guarded statement keeps the ids of every conversation. It marks a row as read
      only if it is that of a request to read. */
  lemma StatementCalm(rows: Rows, t: Target, act: Action, stamp: Time, c: ConversationId)
    requires act.Read? && t.message in rows ==> rows[t.message].conversation != c
    ensures Frozen(rows, Statement(rows, t, act, stamp).rows, c)
  {
  }

  lemma ApplyCalm(env: Env, db: Db, t: Target, act: Action, other: UserId, row: Row, i: Input, a: UserId, b: UserId)
    requires BlockedEitherWay(env.blocks, a, b)
    requires act.Read? && t.message in db.rows ==>
               !Connects(env.conversations, db.rows[t.message].conversation, Canonical(a, b))
    ensures Calm(env, db, ApplyAndPublish(env, db, t, act, other, row, i).db, a, b)
  {
    forall c | Connects(env.conversations, c, Canonical(a, b))
      ensures Frozen(db.rows, Statement(db.rows, t, act, i.stamp).rows, c)
    {
      StatementCalm(db.rows, t, act, i.stamp, c);
    }
    var applied := Apply(db, t, act, other, row, i);
    if applied.proc.Applied? {
      var cleaned := if act.Delete? then CleanUp(applied.db, applied.proc.row.metadata, i.removed) else applied.db;
      PublishUnheard(env, cleaned, Act(t, act), other, t.message, applied.proc.row, a, b);
    }
  }

  lemma FetchCalm(env: Env, db: Db, t: Target, act: Action, other: UserId, i: Input, a: UserId, b: UserId)
    requires BlockedEitherWay(env.blocks, a, b)
    requires act.Read? ==> !Connects(env.conversations, t.conversation, Canonical(a, b))
    ensures Calm(env, db, FetchAndApply(env, db, t, act, other, i).db, a, b)
  {
    var c := Fetch(db, t, act, other, i);
    if c.proc.Fetched? {
      ApplyCalm(env, db, t, act, other, c.proc.snapshot, i, a, b);
    }
  }

  lemma ActCalm(env: Env, db: Db, t: Target, act: Action, i: Input, a: UserId, b: UserId)
    requires a != b && BlockedEitherWay(env.blocks, a, b)
    ensures Calm(env, db, ActWhole(env, db, t, act, i).db, a, b)
  {
    var c := Join(env, db, Act(t, act));
    if c.proc.Joined? {
      var other := c.proc.other;
      if !act.Read? || !BlockedEitherWay(env.blocks, t.user, other) {
        FetchCalm(env, db, t, act, other, i, a, b);
      }
    }
  }

  lemma AnnounceUnnoticed(w: World, user: UserId, partner: UserId, a: UserId, b: UserId)
    requires BlockedEitherWay(w.env.blocks, a, b)
    ensures Unnoticed(w.notices, Step(w, Announce(user, partner)).notices, a, b)
  {
    if {user, partner} == {a, b} {
      assert user in {a, b} && partner in {a, b} && a in {user, partner} && b in {user, partner};
    }
  }

  lemma StepSilent(w: World, c: Call, a: UserId, b: UserId)
    requires a != b && BlockedEitherWay(w.env.blocks, a, b)
    ensures Silent(w, Step(w, c), a, b)
  {
    match c
    case SendOne(s, i) => SendCalm(w.env, w.db, s, i, a, b);
    case ActOne(t, act, i) => ActCalm(w.env, w.db, t, act, i, a, b);
    case Converse(user, target, id) => CanonicalInjective(user, target, a, b);
    case Announce(user, partner) => AnnounceUnnoticed(w, user, partner, a, b);
    case _ =>
  }

  /** While a block stands between two users, whatever anybody calls: they get no new
      conversation, none of theirs gets a message, no message of theirs becomes read,
      and no event of either reaches the other, be it about a message or about presence. */
  lemma {:induction false} BlockSilences(w: World, calls: seq<Call>, a: UserId, b: UserId)
    requires a != b && Stands(w, calls, a, b)
    ensures Silent(w, Run(w, calls), a, b)
    decreases |calls|
  {
    if calls != [] {
      var v := Step(w, calls[0]);
      StepSilent(w, calls[0], a, b);
      BlockSilences(v, calls[1..], a, b);
      SilentTransitive(w, v, Run(w, calls), a, b);
    }
  }
}
